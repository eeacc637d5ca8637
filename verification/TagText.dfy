/** The tag pass on a whole text: split into lines, passed over in a loop, and joined again. */
module TagText {
  import opened Wrappers
  import opened TagPass
  import opened TagLaws

  const NEWLINE := '\n'

  // ---------------------------------------------------------------- lines of a text

  function FirstNewline(text: string): (k: nat)
    ensures k <= |text| && (k < |text| ==> text[k] == NEWLINE)
  {
    if text == [] || text[0] == NEWLINE then 0 else FirstNewline(text[1..]) + 1
  }

  /** The lines of a text. What follows the last newline is a line unless it is empty. */
  function Lines(text: string): seq<string>
    decreases |text|
  {
    var k := FirstNewline(text);
    if k < |text| then [text[..k]] + Lines(text[k + 1..])
    else if text == [] then [] else [text]
  }

  predicate EndsNewline(text: string) {
    text != [] && text[|text| - 1] == NEWLINE
  }

  /** The lines with newlines between them, and one more at the end if there was one. */
  function Join(lines: seq<string>, newline: bool): string {
    if lines == [] then []
    else if |lines| == 1 then lines[0] + if newline then [NEWLINE] else []
    else lines[0] + [NEWLINE] + Join(lines[1..], newline)
  }

  /** Lines a text can have: none holds a newline, and only the newline at the end makes an empty last line. */
  ghost predicate Clean(lines: seq<string>, newline: bool) {
    && (forall i | 0 <= i < |lines| :: NEWLINE !in lines[i])
    && (if newline then lines != [] else lines == [] || Last(lines) != [])
  }

  lemma {:induction false} FirstNewlineIsFirst(line: string, rest: string)
    requires NEWLINE !in line
    ensures FirstNewline(line) == |line|
    ensures FirstNewline(line + [NEWLINE] + rest) == |line|
  {
    if line == [] {
      assert line + [NEWLINE] + rest == [NEWLINE] + rest;
    } else {
      FirstNewlineIsFirst(line[1..], rest);
      assert (line + [NEWLINE] + rest)[1..] == line[1..] + [NEWLINE] + rest;
    }
  }

  lemma {:induction false} NoNewlineBefore(text: string)
    ensures NEWLINE !in text[..FirstNewline(text)]
  {
    if text != [] && text[0] != NEWLINE {
      NoNewlineBefore(text[1..]);
      var k := FirstNewline(text[1..]);
      assert text[..k + 1] == [text[0]] + text[1..][..k];
    }
  }

  lemma OneLine(line: string, rest: string)
    requires NEWLINE !in line
    ensures Lines(line + [NEWLINE] + rest) == [line] + Lines(rest)
    ensures line != [] ==> Lines(line) == [line]
  {
    FirstNewlineIsFirst(line, rest);
    var text := line + [NEWLINE] + rest;
    assert text[..|line|] == line && text[|line| + 1..] == rest;
  }

  /** Joined lines split into the same lines. */
  lemma {:induction false} LinesOfJoin(lines: seq<string>, newline: bool)
    requires Clean(lines, newline)
    ensures Lines(Join(lines, newline)) == lines
    ensures EndsNewline(Join(lines, newline)) == newline
  {
    if |lines| == 1 {
      assert lines == [lines[0]];
      LastLine(lines[0], newline);
    } else if lines != [] {
      var line, rest := lines[0], lines[1..];
      assert lines == [line] + rest;
      assert Last(rest) == Last(lines);
      LinesOfJoin(rest, newline);
      JoinMore(line, rest, newline);
      JoinIsNotEmpty(rest, newline);
      OneLine(line, Join(rest, newline));
    }
  }

  lemma LastLine(line: string, newline: bool)
    requires NEWLINE !in line && (newline || line != [])
    ensures Lines(Join([line], newline)) == [line] && EndsNewline(Join([line], newline)) == newline
  {
    OneLine(line, []);
    if newline {
      assert line + [NEWLINE] + [] == line + [NEWLINE];
    } else {
      assert line + [] == line && line[|line| - 1] in line;
    }
  }

  lemma JoinMore(line: string, rest: seq<string>, newline: bool)
    requires rest != []
    ensures Join([line] + rest, newline) == line + [NEWLINE] + Join(rest, newline)
    ensures Join(rest, newline) != [] ==> EndsNewline(Join([line] + rest, newline)) == EndsNewline(Join(rest, newline))
  {
    assert ([line] + rest)[1..] == rest;
  }

  lemma JoinIsNotEmpty(lines: seq<string>, newline: bool)
    requires lines != [] && (newline || Last(lines) != [])
    ensures Join(lines, newline) != []
  {
  }

  /** The lines of a text, joined, are the text. */
  lemma {:induction false} JoinOfLines(text: string)
    ensures Join(Lines(text), EndsNewline(text)) == text && Clean(Lines(text), EndsNewline(text))
    decreases |text|
  {
    var k := FirstNewline(text);
    NoNewlineBefore(text);
    if k < |text| {
      var line, rest := text[..k], text[k + 1..];
      assert text == line + [NEWLINE] + rest;
      JoinOfLines(rest);
      OneLine(line, rest);
      FirstLineJoined(line, rest);
    } else {
      assert text[..k] == text;
      if text != [] { assert text[|text| - 1] in text; }
    }
  }

  lemma FirstLineJoined(line: string, rest: string)
    requires NEWLINE !in line && Join(Lines(rest), EndsNewline(rest)) == rest && Clean(Lines(rest), EndsNewline(rest))
    ensures
      var text := line + [NEWLINE] + rest;
      Join([line] + Lines(rest), EndsNewline(text)) == text && Clean([line] + Lines(rest), EndsNewline(text))
  {
    var text, more := line + [NEWLINE] + rest, Lines(rest);
    if rest == [] {
      assert text == line + [NEWLINE];
      assert [line] + more == [line];
    } else {
      assert text[|text| - 1] == rest[|rest| - 1];
      assert EndsNewline(text) == EndsNewline(rest);
      JoinMore(line, more, EndsNewline(rest));
      CleanMore(line, more, EndsNewline(rest));
    }
  }

  lemma CleanMore(line: string, more: seq<string>, newline: bool)
    requires NEWLINE !in line && Clean(more, newline) && more != []
    ensures Clean([line] + more, newline)
  {
    assert Last([line] + more) == Last(more);
  }

  // ---------------------------------------------------------------- the pass keeps lines lines

  ghost predicate NoNewline(lines: seq<string>) {
    forall i | 0 <= i < |lines| :: NEWLINE !in lines[i]
  }

  lemma AttachHasNoNewline(code: string, tag: string)
    requires NEWLINE !in code && IsTag(tag)
    ensures Fits(code, tag) ==> NEWLINE !in Attach(code, tag)
    ensures NEWLINE !in TagLine(tag)
  {
  }

  lemma CodeHasNoNewline(line: string)
    requires NEWLINE !in line && Trailing(line).Some?
    ensures NEWLINE !in Trailing(line).value.front
  {
    var e := Ending(line).value;
    EndingIsThePattern(line, e.front, e.tag);
    var space :| EndsWith(line, e.front, e.tag, space);
    TrimEndDropsSpace(e.front);
    assert forall c | c in e.front :: c in line;
  }

  lemma StepKeepsLines(out: seq<string>, line: string)
    requires NoNewline(out) && NEWLINE !in line
    ensures NoNewline(Step(out, line)) && Step(out, line) != []
    ensures line != [] ==> Last(Step(out, line)) != []
  {
    match Trailing(line) {
      case Some(t) =>
        CodeHasNoNewline(line);
        AttachHasNoNewline(t.front, t.tag);
      case None =>
        match Alone(line) {
          case Some(tag) =>
            AttachHasNoNewline([], tag);
            if out != [] { AttachHasNoNewline(out[|out| - 1], tag); }
          case None =>
        }
    }
  }

  lemma {:induction false} PassKeepsLines(lines: seq<string>)
    requires NoNewline(lines)
    ensures NoNewline(Pass(lines))
    ensures lines != [] ==> Pass(lines) != [] && (Last(lines) != [] ==> Last(Pass(lines)) != [])
  {
    if lines != [] {
      PassKeepsLines(lines[..|lines| - 1]);
      StepKeepsLines(Pass(lines[..|lines| - 1]), lines[|lines| - 1]);
    }
  }

  lemma PassKeepsClean(lines: seq<string>, newline: bool)
    requires Clean(lines, newline)
    ensures Clean(Pass(lines), newline)
  {
    PassKeepsLines(lines);
  }

  // ---------------------------------------------------------------- the program

  /** The text after the pass. */
  function Applied(text: string): string {
    Join(Pass(Lines(text)), EndsNewline(text))
  }

  /** The lines of the text after the pass are the lines put out. */
  lemma LinesOfApplied(text: string)
    ensures Lines(Applied(text)) == Pass(Lines(text)) && EndsNewline(Applied(text)) == EndsNewline(text)
  {
    JoinOfLines(text);
    PassKeepsClean(Lines(text), EndsNewline(text));
    LinesOfJoin(Pass(Lines(text)), EndsNewline(text));
  }

  /** Applying the pass to its own result changes nothing exactly when the lines of the text are tidy. */
  lemma AppliedIsStableIffTidy(text: string)
    ensures Applied(Applied(text)) == Applied(text) <==> Tidy(Lines(text))
  {
    LinesOfApplied(text);
    LinesOfApplied(Applied(text));
    StableIffTidy(Lines(text));
  }

  /** The text keeps its code and its tags, in order, and whether it ends with a newline. */
  lemma AppliedKeepsItems(text: string)
    ensures Items(Lines(Applied(text))) == Items(Lines(text)) && EndsNewline(Applied(text)) == EndsNewline(text)
  {
    LinesOfApplied(text);
    PassKeepsItems(Lines(text));
  }

  /** Some first lines of a text, and where the others start. */
  ghost predicate Splits(text: string, lines: seq<string>, start: nat) {
    start <= |text| && lines + Lines(text[start..]) == Lines(text)
  }

  /** Split a text into lines, and say whether it ended with a newline. */
  method Split(text: string) returns (lines: seq<string>, newline: bool)
    ensures lines == Lines(text) && newline == EndsNewline(text)
  {
    newline := text != [] && text[|text| - 1] == NEWLINE;
    lines := [];
    var start := 0;
    NoLinesYet(text);
    while true
      invariant start <= |text| && Splits(text, lines, start)
      decreases |text| - start
    {
      var last;
      lines, start, last := SplitLine(text, lines, start);
      if last {
        return;
      }
    }
  }

  /** Take the next line of a text, or what is left of it after the last newline. */
  method SplitLine(text: string, lines: seq<string>, start: nat) returns (more: seq<string>, next: nat, last: bool)
    requires Splits(text, lines, start)
    ensures if last then more == Lines(text) else start < next <= |text| && Splits(text, more, next)
  {
    var stop := Find(text, start);
    if stop == |text| {
      LastLines(lines, text, start);
      return if start < |text| then lines + [text[start..]] else lines, stop, true;
    }
    MoreLines(lines, text, start, stop);
    return lines + [text[start..stop]], stop + 1, false;
  }

  lemma NoLinesYet(text: string)
    ensures Splits(text, [], 0)
  {
    assert text[0..] == text;
  }

  lemma LastLines(lines: seq<string>, text: string, start: nat)
    requires Splits(text, lines, start) && FirstNewline(text[start..]) == |text| - start
    ensures Lines(text) == if start < |text| then lines + [text[start..]] else lines
  {
    if start == |text| {
      assert lines + [] == lines;
    }
  }

  /** The first newline of a text at or after a position, or the end of the text. */
  method Find(text: string, start: nat) returns (stop: nat)
    requires start <= |text|
    ensures start <= stop <= |text| && FirstNewline(text[start..]) == stop - start
  {
    stop := start;
    while stop < |text| && text[stop] != NEWLINE
      invariant start <= stop <= |text|
      invariant FirstNewline(text[start..]) == stop - start + FirstNewline(text[stop..])
    {
      assert text[stop..][1..] == text[stop + 1..];
      stop := stop + 1;
    }
  }

  lemma MoreLines(lines: seq<string>, text: string, start: nat, stop: nat)
    requires Splits(text, lines, start)
    requires start <= stop < |text| && FirstNewline(text[start..]) == stop - start
    ensures Splits(text, lines + [text[start..stop]], stop + 1)
  {
    assert text[start..][..stop - start] == text[start..stop];
    assert text[start..][stop - start + 1..] == text[stop + 1..];
    Associative(lines, [text[start..stop]], Lines(text[stop + 1..]));
  }

  /** Apply the tag rules to a text. */
  method Apply(text: string) returns (result: string)
    ensures result == Applied(text)
  {
    var lines, newline := Split(text);
    var out := ApplyToLines(lines);
    result := Join(out, newline);
  }

  /** Apply the tag rules to one line after the other; the last line put out may take the tag of the next. */
  method ApplyToLines(lines: seq<string>) returns (out: seq<string>)
    ensures out == Pass(lines)
  {
    out := [];
    var i := 0;
    while i < |lines|
      invariant i <= |lines| && out == Pass(lines[..i])
    {
      out := PlaceNext(out, lines, i);
      i := i + 1;
    }
    assert lines[..i] == lines;
  }

  /** Put out what becomes of the next of some lines. */
  method PlaceNext(out: seq<string>, lines: seq<string>, i: nat) returns (next: seq<string>)
    requires i < |lines| && out == Pass(lines[..i])
    ensures next == Pass(lines[..i + 1])
  {
    PassNext(lines, i);
    next := Place(out, lines[i]);
  }

  lemma PassNext(lines: seq<string>, i: nat)
    requires i < |lines|
    ensures Pass(lines[..i + 1]) == Step(Pass(lines[..i]), lines[i])
  {
    assert lines[..i + 1][..i] == lines[..i];
  }

  /** Put out what becomes of a line: its code and tags are added to those put out, in order, and no tag is
      left that could move up. */
  method Place(out: seq<string>, line: string) returns (next: seq<string>)
    ensures next == Step(out, line)
    ensures Items(next) == Items(out) + ItemsOf(line)
    ensures NoneMoves(out) ==> NoneMoves(next)
  {
    StepKeepsItems(out, line);
    if NoneMoves(out) { StepLeavesNoneToMove(out, line); }
    next := out;
    var trailing := Trailing(line);
    var alone := if trailing.None? then Alone(line) else None;
    if trailing.Some? {
      var code, tag := trailing.value.front, trailing.value.tag;
      if Fits(code, tag) {
        next := next + [Attach(code, tag)];
      } else {
        next := next + [code];
        next := next + [TagLine(tag)];
      }
    } else if alone.Some? {
      if next != [] && CanTake(next[|next| - 1]) && Fits(next[|next| - 1], alone.value) {
        next := next[|next| - 1 := Attach(next[|next| - 1], alone.value)];
      } else {
        next := next + [TagLine(alone.value)];
      }
    } else {
      next := next + [line];
    }
  }
}
