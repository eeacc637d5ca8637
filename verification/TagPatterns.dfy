/** The patterns of the layout script, character by character, and where a tag may move up. */
module TagPatterns {
  import opened Wrappers
  import opened TagPass
  import opened TagLaws

  // ---------------------------------------------------------------- classes of characters

  /** The white space of a pattern: blank, tab, newline, vertical tab, form feed and carriage return. */
  lemma SpaceIsTheClass(c: char)
    ensures IsSpace(c) <==> c == ' ' || c as int in {9, 10, 11, 12, 13}
  {
    assert '\t' as int == 9 && '\r' as int == 13;
  }

  lemma TagIsTheTable(tag: string)
    ensures IsTag(tag) <==> tag in {"RETURN", "IMPLICIT"}
  {
  }

  // ---------------------------------------------------------------- what may take a tag

  /** A line that ends a statement: a semicolon and white space at its end. */
  ghost predicate EndsStatement(line: string) {
    exists code, space :: line == code + ";" + space && AllSpace(space)
  }

  /** Two slashes anywhere. */
  ghost predicate HasComment(line: string) {
    exists before, after :: line == before + "//" + after
  }

  lemma StatementIsTrimmed(line: string)
    ensures EndsStatement(line) <==> TrimEnd(line) != [] && TrimEnd(line)[|TrimEnd(line)| - 1] == ';'
  {
    if code, space :| line == code + ";" + space && AllSpace(space) {
      TrimEndOf(code + ";", space);
    }
    var t := TrimEnd(line);
    if t != [] && t[|t| - 1] == ';' {
      TrimEndDropsSpace(line);
      assert line == t[..|t| - 1] + ";" + line[|t|..];
    }
  }

  lemma CommentIsSlashes(line: string)
    ensures HasComment(line) <==> HasSlashes(line)
  {
    if before, after :| line == before + "//" + after {
      assert line[|before|] == '/' && line[|before| + 1] == '/';
    }
    if i :| 0 <= i < |line| - 1 && line[i] == '/' && line[i + 1] == '/' {
      assert line == line[..i] + "//" + line[i + 2..];
    }
  }

  /** A line may take a tag exactly when it ends a statement and carries no comment. */
  lemma TakerIsThePattern(line: string)
    ensures CanTake(line) <==> EndsStatement(line) && !HasComment(line)
  {
    StatementIsTrimmed(line);
    CommentIsSlashes(line);
  }

  // ---------------------------------------------------------------- tags and comments

  /** A line that starts with a comment: white space and two slashes. */
  ghost predicate StartsComment(s: string) {
    exists lead, rest :: s == lead + "//" + rest && AllSpace(lead)
  }

  lemma {:induction false} CommentIsThePattern(s: string)
    ensures IsComment(s) <==> StartsComment(s)
  {
    if s != [] && IsSpace(s[0]) {
      CommentIsThePattern(s[1..]);
      MoreSpaceInFront(s);
    } else if IsComment(s) {
      assert s == [] + "//" + s[2..];
    } else if lead, rest :| s == lead + "//" + rest && AllSpace(lead) {
      SlashesAtStart(s, lead, rest);
    }
  }

  lemma MoreSpaceInFront(s: string)
    requires s != [] && IsSpace(s[0])
    ensures StartsComment(s) <==> StartsComment(s[1..])
  {
    if lead, rest :| s == lead + "//" + rest && AllSpace(lead) {
      FirstOfComment(lead, rest);
      assert s[1..] == lead[1..] + "//" + rest;
    }
    if lead, rest :| s[1..] == lead + "//" + rest && AllSpace(lead) {
      assert s == [s[0]] + lead + "//" + rest;
    }
  }

  lemma FirstOfComment(lead: string, rest: string)
    ensures (lead + "//" + rest)[0] == if lead == [] then '/' else lead[0]
  {
  }

  lemma SlashesAtStart(s: string, lead: string, rest: string)
    requires s == lead + "//" + rest && AllSpace(lead) && (s == [] || !IsSpace(s[0]))
    ensures "//" <= s
  {
    FirstOfComment(lead, rest);
    assert s[0] == '/' && s[1] == '/';
  }

  /** A line holding nothing but a tag, as its pattern says: white space, the mark, one of the two words, white
      space. */
  ghost predicate OnlyTag(line: string, lead: string, tag: string, space: string) {
    line == lead + "// " + tag + space && AllSpace(lead) && AllSpace(space) && tag in {"RETURN", "IMPLICIT"}
  }

  lemma AloneIsThePattern(line: string, tag: string)
    ensures Alone(line) == Some(tag) <==> exists lead, space :: OnlyTag(line, lead, tag, space)
  {
    if lead, space :| OnlyTag(line, lead, tag, space) {
      EndingOf(lead, tag, space);
    }
    if Alone(line) == Some(tag) {
      var lead := Ending(line).value.front;
      EndingIsThePattern(line, lead, tag);
      var space :| EndsWith(line, lead, tag, space);
      assert OnlyTag(line, lead, tag, space);
    }
  }

  /** A line ending with a tag after code, as its pattern says: code that is no comment and ends in no white
      space, white space, the mark, one of the two words, white space. */
  ghost predicate CodeAndTag(line: string, code: string, gap: string, tag: string, space: string) {
    && line == code + gap + "// " + tag + space && tag in {"RETURN", "IMPLICIT"}
    && code != [] && !IsSpace(code[|code| - 1]) && gap != [] && AllSpace(gap) && AllSpace(space)
    && !StartsComment(code)
  }

  lemma TrailingIsItsPattern(line: string, code: string, tag: string)
    ensures Trailing(line) == Some(Tagged(code, tag)) <==> exists gap, space :: CodeAndTag(line, code, gap, tag, space)
  {
    CommentIsThePattern(code);
    TrailingIsThePattern(line, code, tag);
    if gap, space :| CodeAndTag(line, code, gap, tag, space) {
      assert TagAfterCode(line, code, gap, tag, space);
    }
    if gap, space :| TagAfterCode(line, code, gap, tag, space) {
      assert CodeAndTag(line, code, gap, tag, space);
    }
  }

  // ---------------------------------------------------------------- where tags are put

  /** Code, blanks and a tag that ends in column 79. */
  function RightJustified(code: string, tag: string): (line: string)
    requires |code| + 3 + |tag| <= 79
    ensures |line| == 79
  {
    code + seq(79 - |code| - 3 - |tag|, _ => ' ') + "// " + tag
  }

  /** There is room for a tag exactly when it ends in column 79 after two blanks or more, and it is put so. */
  lemma AttachIsRightJustified(code: string, tag: string)
    ensures Fits(code, tag) <==> |code| + 2 + 3 + |tag| <= 79
    ensures Fits(code, tag) ==> Attach(code, tag) == RightJustified(code, tag)
  {
    if Fits(code, tag) {
      assert Blanks(79 - |code| - 3 - |tag|) == seq(79 - |code| - 3 - |tag|, _ => ' ');
    }
  }

  lemma TagLineIsRightJustified(tag: string)
    requires IsTag(tag)
    ensures TagLine(tag) == RightJustified([], tag)
  {
    assert Blanks(76 - |tag|) == seq(76 - |tag|, _ => ' ');
    assert [] + Blanks(76 - |tag|) == Blanks(76 - |tag|);
  }

  /** The line a tag may move up onto: it ends a statement, has no comment, and has room. */
  ghost predicate TakesUp(previous: string, tag: string) {
    EndsStatement(previous) && !HasComment(previous) && |previous| + 2 + 3 + |tag| <= 79
  }

  /** One turn of the pass at a tag on a line of its own: the tag moves up onto the last line put out exactly
      when that line takes it, and else stays on a line of its own, right-justified either way. */
  lemma TagMovesUp(out: seq<string>, line: string, lead: string, tag: string, space: string)
    requires OnlyTag(line, lead, tag, space)
    ensures
      if out != [] && TakesUp(out[|out| - 1], tag) then
        Step(out, line) == out[|out| - 1 := RightJustified(out[|out| - 1], tag)]
      else Step(out, line) == out + [RightJustified([], tag)]
  {
    AloneIsThePattern(line, tag);
    AloneIsNotTrailing(line);
    TagLineIsRightJustified(tag);
    if out != [] {
      TakerIsThePattern(out[|out| - 1]);
      AttachIsRightJustified(out[|out| - 1], tag);
    }
  }

  lemma AloneIsNotTrailing(line: string)
    requires Alone(line).Some?
    ensures Trailing(line) == None
  {
    var front := Ending(line).value.front;
    TrimEndOf([], front);
    assert [] + front == front;
  }

  /** Over the pass: the tag of line i moves up exactly onto the line read before it, when that one takes it. */
  lemma TagMovesUpOntoPrevious(lines: seq<string>, i: nat, lead: string, tag: string, space: string)
    requires 0 < i < |lines| && OnlyTag(lines[i], lead, tag, space)
    ensures
      var out, next := Pass(lines[..i]), Pass(lines[..i + 1]);
      if TakesUp(lines[i - 1], tag) then
        && out != [] && out[|out| - 1] == lines[i - 1]
        && next == out[|out| - 1 := RightJustified(lines[i - 1], tag)]
      else next == out + [RightJustified([], tag)]
  {
    var out := Pass(lines[..i]);
    assert lines[..i + 1][..i] == lines[..i];
    PassTaker(lines[..i]);
    TakerIsThePattern(lines[i - 1]);
    if out != [] { TakerIsThePattern(out[|out| - 1]); }
    TagMovesUp(out, lines[i], lead, tag, space);
  }

  /** One turn of the pass at code with a tag: on the same line if there is room, else on a line of its own. */
  lemma TagOfCodeIsPut(out: seq<string>, line: string, code: string, gap: string, tag: string, space: string)
    requires CodeAndTag(line, code, gap, tag, space)
    ensures
      if |code| + 2 + 3 + |tag| <= 79 then Step(out, line) == out + [RightJustified(code, tag)]
      else Step(out, line) == out + [code, RightJustified([], tag)]
  {
    TrailingIsItsPattern(line, code, tag);
    AttachIsRightJustified(code, tag);
    TagLineIsRightJustified(tag);
  }

  /** A line that matches neither pattern is put out as it is. */
  lemma OtherLinesAreKept(out: seq<string>, line: string)
    requires forall code, gap, tag, space :: !CodeAndTag(line, code, gap, tag, space)
    requires forall lead, tag, space :: !OnlyTag(line, lead, tag, space)
    ensures Step(out, line) == out + [line]
  {
    if Trailing(line).Some? {
      TrailingIsItsPattern(line, Trailing(line).value.front, Trailing(line).value.tag);
    }
    if Alone(line).Some? {
      AloneIsThePattern(line, Alone(line).value);
    }
  }
}
