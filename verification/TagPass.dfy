/** The tag pass of the layout script: where the tags RETURN and IMPLICIT go on lines of code. */
module TagPass {
  import opened Wrappers

  const LAST_COLUMN: nat := 79
  const MIN_GAP: nat := 2
  const MARK := "// "

  predicate IsTag(tag: string) { tag == "RETURN" || tag == "IMPLICIT" }

  predicate IsSpace(c: char) { c == ' ' || '\t' <= c <= '\r' }

  predicate IsUpper(c: char) { 'A' <= c <= 'Z' }

  predicate AllSpace(s: string) { forall i | 0 <= i < |s| :: IsSpace(s[i]) }

  predicate AllUpper(s: string) { forall i | 0 <= i < |s| :: IsUpper(s[i]) }

  function Blanks(n: nat): (s: string)
    ensures |s| == n && AllSpace(s)
  {
    seq(n, _ => ' ')
  }

  // ---------------------------------------------------------------- matching a line

  /** The text without the white space at its end. */
  function TrimEnd(s: string): (t: string)
    ensures |t| <= |s|
  {
    if s == [] || !IsSpace(s[|s| - 1]) then s else TrimEnd(s[..|s| - 1])
  }

  /** Where the capital letters at the end of a text start. */
  function WordStart(s: string): (k: nat)
    ensures k <= |s|
  {
    if s == [] || !IsUpper(s[|s| - 1]) then |s| else WordStart(s[..|s| - 1])
  }

  /** A tag and the text in front of it. */
  datatype Tagged = Tagged(front: string, tag: string)

  /** The tag at the end of a line, and what is in front of its mark. */
  function Ending(line: string): Option<Tagged> {
    var t := TrimEnd(line);
    var k := WordStart(t);
    if k >= 3 && t[k - 3..k] == MARK && IsTag(t[k..]) then Some(Tagged(t[..k - 3], t[k..])) else None
  }

  predicate IsComment(s: string) {
    if s != [] && IsSpace(s[0]) then IsComment(s[1..]) else "//" <= s
  }

  /** The code and the tag of a line ending with a tag after code. */
  function Trailing(line: string): (t: Option<Tagged>)
    ensures t.Some? ==> |t.value.front| < |line| && IsTag(t.value.tag)
  {
    match Ending(line)
    case None => None
    case Some(e) =>
      var code := TrimEnd(e.front);
      if code != [] && |code| < |e.front| && !IsComment(code) then Some(Tagged(code, e.tag)) else None
  }

  /** The tag of a line holding nothing but a tag. */
  function Alone(line: string): (tag: Option<string>)
    ensures tag.Some? ==> IsTag(tag.value)
  {
    match Ending(line)
    case None => None
    case Some(e) => if AllSpace(e.front) then Some(e.tag) else None
  }

  predicate HasSlashes(s: string) {
    exists i | 0 <= i < |s| - 1 :: s[i] == '/' && s[i + 1] == '/'
  }

  /** Whether a tag on the next line may move up onto this one. */
  predicate CanTake(line: string) {
    var t := TrimEnd(line);
    t != [] && t[|t| - 1] == ';' && !HasSlashes(line)
  }

  // ---------------------------------------------------------------- placing a tag

  predicate Fits(code: string, tag: string) {
    |code| + MIN_GAP + 3 + |tag| <= LAST_COLUMN
  }

  function Attach(code: string, tag: string): (line: string)
    requires Fits(code, tag)
    ensures |line| == LAST_COLUMN
  {
    code + Blanks(LAST_COLUMN - |code| - 3 - |tag|) + MARK + tag
  }

  function TagLine(tag: string): (line: string)
    requires IsTag(tag)
    ensures |line| == LAST_COLUMN
  {
    Blanks(LAST_COLUMN - 3 - |tag|) + MARK + tag
  }

  /** One line of the pass: the lines put out so far, and what becomes of them. */
  function Step(out: seq<string>, line: string): seq<string> {
    match Trailing(line)
    case Some(t) =>
      if Fits(t.front, t.tag) then out + [Attach(t.front, t.tag)] else out + [t.front, TagLine(t.tag)]
    case None =>
      match Alone(line)
      case Some(tag) =>
        if out != [] && CanTake(out[|out| - 1]) && Fits(out[|out| - 1], tag) then
          out[|out| - 1 := Attach(out[|out| - 1], tag)]
        else out + [TagLine(tag)]
      case None => out + [line]
  }

  function Pass(lines: seq<string>): seq<string> {
    if lines == [] then [] else Step(Pass(lines[..|lines| - 1]), lines[|lines| - 1])
  }

  // ---------------------------------------------------------------- the patterns

  /** What the pattern of a line ending with a tag says: front, mark, tag, white space. */
  ghost predicate EndsWith(line: string, front: string, tag: string, space: string) {
    line == front + MARK + tag + space && IsTag(tag) && AllSpace(space)
  }

  /** What the pattern of a line with a tag after code says. */
  ghost predicate TagAfterCode(line: string, code: string, gap: string, tag: string, space: string) {
    && EndsWith(line, code + gap, tag, space)
    && code != [] && !IsSpace(code[|code| - 1]) && gap != [] && AllSpace(gap) && !IsComment(code)
  }

  /** Trimming drops white space, and all of it. */
  lemma {:induction false} TrimEndDropsSpace(s: string)
    ensures
      var t := TrimEnd(s);
      t <= s && AllSpace(s[|t|..]) && (t == [] || !IsSpace(t[|t| - 1]))
  {
    if s != [] && IsSpace(s[|s| - 1]) {
      var t := TrimEnd(s);
      TrimEndDropsSpace(s[..|s| - 1]);
      assert s[|t|..] == s[..|s| - 1][|t|..] + [s[|s| - 1]];
    }
  }

  lemma {:induction false} TrimEndOf(s: string, space: string)
    requires AllSpace(space) && (s == [] || !IsSpace(s[|s| - 1]))
    ensures TrimEnd(s + space) == s
  {
    if space == [] {
      assert s + space == s;
    } else {
      var n := |space| - 1;
      assert (s + space)[..|s| + n] == s + space[..n];
      TrimEndOf(s, space[..n]);
    }
  }

  lemma {:induction false} WordStartOf(s: string, word: string)
    requires AllUpper(word) && (s == [] || !IsUpper(s[|s| - 1]))
    ensures WordStart(s + word) == |s|
  {
    if word == [] {
      assert s + word == s;
    } else {
      var n := |word| - 1;
      assert (s + word)[..|s| + n] == s + word[..n];
      WordStartOf(s, word[..n]);
    }
  }

  /** The match is what the pattern says, and there is one. */
  lemma EndingIsThePattern(line: string, front: string, tag: string)
    ensures Ending(line) == Some(Tagged(front, tag)) <==> exists space :: EndsWith(line, front, tag, space)
  {
    if space :| EndsWith(line, front, tag, space) {
      EndingOf(front, tag, space);
    }
    if Ending(line) == Some(Tagged(front, tag)) {
      var t := TrimEnd(line);
      TrimEndDropsSpace(line);
      assert t == front + MARK + tag;
      assert line == t + line[|t|..];
      assert EndsWith(line, front, tag, line[|t|..]);
    }
  }

  lemma EndingOf(front: string, tag: string, space: string)
    requires IsTag(tag) && AllSpace(space)
    ensures Ending(front + MARK + tag + space) == Some(Tagged(front, tag))
  {
    var t := front + MARK + tag;
    assert AllUpper(tag) && !IsUpper((front + MARK)[|front| + 2]);
    assert t[|t| - 1] == tag[|tag| - 1];
    TrimEndOf(t, space);
    WordStartOf(front + MARK, tag);
    var k := |front| + 3;
    assert WordStart(t) == k;
    assert t[k - 3..k] == MARK && t[k..] == tag && t[..k - 3] == front;
  }

  lemma EndingOfLine(front: string, tag: string)
    requires IsTag(tag)
    ensures Ending(front + MARK + tag) == Some(Tagged(front, tag))
  {
    EndingOf(front, tag, []);
    assert front + MARK + tag + [] == front + MARK + tag;
  }

  lemma TrailingIsThePattern(line: string, code: string, tag: string)
    ensures
      Trailing(line) == Some(Tagged(code, tag)) <==> exists gap, space :: TagAfterCode(line, code, gap, tag, space)
  {
    if gap, space :| TagAfterCode(line, code, gap, tag, space) {
      EndingOf(code + gap, tag, space);
      TrimEndOf(code, gap);
    }
    if Trailing(line) == Some(Tagged(code, tag)) {
      var front := Ending(line).value.front;
      EndingIsThePattern(line, front, tag);
      var space :| EndsWith(line, front, tag, space);
      TrimEndDropsSpace(front);
      assert front == code + front[|code|..];
      assert TagAfterCode(line, code, front[|code|..], tag, space);
    }
  }
}
