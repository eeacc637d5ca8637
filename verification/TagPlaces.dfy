/** Where the pass puts the tags, all of them: exactly when each one ends at column 79. */
module TagPlaces {
  import opened Wrappers
  import opened TagPass
  import opened TagLaws

  // ---------------------------------------------------------------- every tag of a line

  /** The columns at which the tags of a line end, from its first tag to its last. */
  function TagEnds(line: string): seq<nat>
    decreases |line|
  {
    match Trailing(line)
    case Some(t) => TagEnds(t.front) + [|TrimEnd(line)|]
    case None => if Alone(line).Some? then [|TrimEnd(line)|] else []
  }

  function TagCount(items: seq<Item>): nat {
    if items == [] then 0
    else TagCount(items[..|items| - 1]) + if items[|items| - 1].Tag? then 1 else 0
  }

  /** Each tag of a line has its column. */
  lemma {:induction false} EveryTagHasItsEnd(line: string)
    ensures |TagEnds(line)| == TagCount(ItemsOf(line))
    decreases |line|
  {
    match Trailing(line) {
      case Some(t) =>
        EveryTagHasItsEnd(t.front);
        assert (ItemsOf(t.front) + [Tag(t.tag)])[..|ItemsOf(t.front)|] == ItemsOf(t.front);
      case None =>
        if Alone(line).Some? {
          assert [Tag(Alone(line).value)][..0] == [];
        } else {
          assert [Code(TrimEnd(line))][..0] == [];
        }
    }
  }

  /** There is no tag in front of the last tag of the line. */
  ghost predicate Single(line: string) {
    Trailing(line).Some? ==> Trailing(Trailing(line).value.front) == None
  }

  /** A line with one tag at most, in its place: ending at column 79, at least two spaces after its code. */
  ghost predicate Placed(line: string) {
    Settled(line) && Single(line)
  }

  /** Every tag of a placed line ends at column 79. */
  lemma PlacedEndsAtLastColumn(line: string)
    requires Placed(line)
    ensures forall e | e in TagEnds(line) :: e == LAST_COLUMN
  {
    match Trailing(line) {
      case Some(t) =>
        CodeIsNotAlone(line);
        AttachEndsAtTag(t.front, t.tag);
        assert TagEnds(t.front) == [];
        assert TagEnds(line) == [] + [|TrimEnd(line)|];
      case None =>
        if Alone(line).Some? {
          TagLineEndsAtTag(Alone(line).value);
        }
    }
  }

  /** Nothing follows a tag that was put in its place. */
  lemma AttachEndsAtTag(code: string, tag: string)
    requires Fits(code, tag) && IsTag(tag)
    ensures TrimEnd(Attach(code, tag)) == Attach(code, tag)
  {
    assert Attach(code, tag)[LAST_COLUMN - 1] == tag[|tag| - 1];
  }

  lemma TagLineEndsAtTag(tag: string)
    requires IsTag(tag)
    ensures TrimEnd(TagLine(tag)) == TagLine(tag)
  {
    assert TagLine(tag)[LAST_COLUMN - 1] == tag[|tag| - 1];
  }

  // ---------------------------------------------------------------- every tag of the lines

  ghost predicate AllSingle(lines: seq<string>) {
    lines == [] || (AllSingle(lines[..|lines| - 1]) && Single(lines[|lines| - 1]))
  }

  ghost predicate AllPlaced(lines: seq<string>) {
    lines == [] || (AllPlaced(lines[..|lines| - 1]) && Placed(lines[|lines| - 1]))
  }

  /** Lines whose tags the pass can all put in their place: code with room for its tag has no other tag in
      front of it, code without room has at most one, in its place, and code that takes the tag of the next
      line has nothing but blanks after it. */
  ghost predicate Neat(lines: seq<string>) {
    lines == [] || (Neat(lines[..|lines| - 1]) && NeatAfter(Last(lines[..|lines| - 1]), lines[|lines| - 1]))
  }

  ghost predicate NeatAfter(previous: string, line: string) {
    match Trailing(line)
    case Some(t) => if Fits(t.front, t.tag) then Trailing(t.front) == None else Placed(t.front)
    case None => TidyAfter(previous, line)
  }

  /** The tags a line leaves one by one: no line the pass makes of it has two. */
  ghost predicate SingleOut(line: string) {
    match Trailing(line)
    case Some(t) => if Fits(t.front, t.tag) then Trailing(t.front) == None else Single(t.front)
    case None => true
  }

  ghost predicate AllSingleOut(lines: seq<string>) {
    lines == [] || (AllSingleOut(lines[..|lines| - 1]) && SingleOut(lines[|lines| - 1]))
  }

  lemma OneMoreSingle(out: seq<string>, line: string)
    ensures AllSingle(out + [line]) <==> AllSingle(out) && Single(line)
  {
    assert (out + [line])[..|out|] == out;
  }

  lemma StepSingles(out: seq<string>, line: string)
    ensures AllSingle(Step(out, line)) <==> AllSingle(out) && SingleOut(line)
  {
    match Trailing(line) {
      case Some(t) => TrailingSingles(out, line, t.front, t.tag);
      case None =>
        match Alone(line) {
          case Some(tag) => AloneSingles(out, tag);
          case None => OneMoreSingle(out, line);
        }
    }
  }

  lemma TrailingSingles(out: seq<string>, line: string, code: string, tag: string)
    requires Trailing(line) == Some(Tagged(code, tag))
    ensures AllSingle(Step(out, line)) <==> AllSingle(out) && SingleOut(line)
  {
    CodeIsNotAlone(line);
    TagLineReadsBack(tag);
    if Fits(code, tag) {
      AttachReadsBack(code, tag);
      OneMoreSingle(out, Attach(code, tag));
    } else {
      TwoMoreSingles(out, code, TagLine(tag));
    }
  }

  lemma TwoMoreSingles(out: seq<string>, one: string, other: string)
    ensures AllSingle(out + [one, other]) <==> AllSingle(out) && Single(one) && Single(other)
  {
    OneMoreSingle(out, one);
    OneMoreSingle(out + [one], other);
    assert out + [one] + [other] == out + [one, other];
  }

  lemma AloneSingles(out: seq<string>, tag: string)
    requires IsTag(tag)
    ensures AllSingle(out + [TagLine(tag)]) <==> AllSingle(out)
    ensures
      out != [] && CanTake(out[|out| - 1]) && Fits(out[|out| - 1], tag) ==>
        (AllSingle(out[|out| - 1 := Attach(out[|out| - 1], tag)]) <==> AllSingle(out))
  {
    TagLineReadsBack(tag);
    OneMoreSingle(out, TagLine(tag));
    if out != [] && CanTake(out[|out| - 1]) && Fits(out[|out| - 1], tag) {
      var last := out[|out| - 1];
      TakerIsPlain(last);
      AttachReadsBack(last, tag);
      LastStillSingle(out, Attach(last, tag));
    }
  }

  lemma LastStillSingle(out: seq<string>, line: string)
    requires out != [] && Single(out[|out| - 1]) && Single(line)
    ensures AllSingle(out[|out| - 1 := line]) <==> AllSingle(out)
  {
    assert out[|out| - 1 := line][..|out| - 1] == out[..|out| - 1];
  }

  /** No line put out has two tags exactly when no line read leaves two on one. */
  lemma {:induction false} PassSingles(lines: seq<string>)
    ensures AllSingle(Pass(lines)) <==> AllSingleOut(lines)
  {
    if lines != [] {
      var n := |lines| - 1;
      PassSingles(lines[..n]);
      StepSingles(Pass(lines[..n]), lines[n]);
    }
  }

  lemma {:induction false} PlacedIsSettledAndSingle(lines: seq<string>)
    ensures AllPlaced(lines) <==> AllSettled(lines) && AllSingle(lines)
  {
    if lines != [] {
      PlacedIsSettledAndSingle(lines[..|lines| - 1]);
    }
  }

  lemma {:induction false} NeatIsTidyAndSingle(lines: seq<string>)
    ensures Neat(lines) <==> Tidy(lines) && AllSingleOut(lines)
  {
    if lines != [] {
      NeatIsTidyAndSingle(lines[..|lines| - 1]);
      NeatLine(Last(lines[..|lines| - 1]), lines[|lines| - 1]);
    }
  }

  lemma NeatLine(previous: string, line: string)
    ensures NeatAfter(previous, line) <==> TidyAfter(previous, line) && SingleOut(line)
  {
  }

  /** Every tag is put in its place exactly when the lines are neat. */
  lemma TagsArePlacedIffNeat(lines: seq<string>)
    ensures AllPlaced(Pass(lines)) <==> Neat(lines)
  {
    PlacedIsSettledAndSingle(Pass(lines));
    LastTagsArePlacedIffTidy(lines);
    PassSingles(lines);
    NeatIsTidyAndSingle(lines);
  }

  lemma {:induction false} PlacedAt(lines: seq<string>, i: nat)
    requires AllPlaced(lines) && i < |lines|
    ensures Placed(lines[i])
  {
    if i < |lines| - 1 { PlacedAt(lines[..|lines| - 1], i); }
  }

  /** On neat lines every tag of every line put out ends at column 79, and they are the tags read, in order. */
  lemma EveryTagEndsAtLastColumn(lines: seq<string>)
    requires Neat(lines)
    ensures forall i, e | 0 <= i < |Pass(lines)| && e in TagEnds(Pass(lines)[i]) :: e == LAST_COLUMN
    ensures forall i | 0 <= i < |Pass(lines)| :: |TagEnds(Pass(lines)[i])| == TagCount(ItemsOf(Pass(lines)[i]))
    ensures Items(Pass(lines)) == Items(lines)
  {
    var out := Pass(lines);
    TagsArePlacedIffNeat(lines);
    forall i | 0 <= i < |out|
      ensures forall e | e in TagEnds(out[i]) :: e == LAST_COLUMN
      ensures |TagEnds(out[i])| == TagCount(ItemsOf(out[i]))
    {
      PlacedAt(out, i);
      PlacedEndsAtLastColumn(out[i]);
      EveryTagHasItsEnd(out[i]);
    }
    PassKeepsItems(lines);
  }

  // ---------------------------------------------------------------- which lines are neat

  /** Lines with one tag each, and only blanks after code that may take a tag, are neat. */
  lemma OneTagEachIsNeat(lines: seq<string>)
    requires OneTagEach(lines)
    ensures Neat(lines)
  {
    OneTagEachIsTidy(lines);
    OneTagEachIsSingle(lines);
    NeatIsTidyAndSingle(lines);
  }

  lemma {:induction false} OneTagEachIsSingle(lines: seq<string>)
    requires OneTagEach(lines)
    ensures AllSingleOut(lines)
  {
    if lines != [] {
      var n := |lines| - 1;
      assert OneTagEach(lines[..n]) by {
        forall i | 0 <= i < n ensures lines[..n][i] == lines[i] {}
      }
      OneTagEachIsSingle(lines[..n]);
    }
  }

  /** Two tags on a line that has room for both: the pass leaves the first where it is, and so does every
      pass after it. The lines are tidy but not neat. */
  lemma FirstOfTwoTagsStays(code: string)
    requires 0 < |code| <= 58 && !IsSpace(code[|code| - 1]) && !IsComment(code)
    ensures
      var lines := [] + [WithTag(WithTag(code, "RETURN"), "RETURN")];
      && Tidy(lines) && !Neat(lines)
      && Pass(Pass(lines)) == Pass(lines) && !AllPlaced(Pass(lines))
  {
    var front := WithTag(code, "RETURN");
    var line := WithTag(front, "RETURN");
    WithTagReadsBack(code, "RETURN");
    WithTagIsCode(code);
    WithTagReadsBack(front, "RETURN");
    TidyNotNeat([], line, front, code);
    StableIffTidy([] + [line]);
    TagsArePlacedIffNeat([] + [line]);
  }

  lemma TidyNotNeat(before: seq<string>, line: string, front: string, code: string)
    requires Tidy(before)
    requires Trailing(line) == Some(Tagged(front, "RETURN")) && Fits(front, "RETURN")
    requires Trailing(front) == Some(Tagged(code, "RETURN"))
    ensures Tidy(before + [line]) && !Neat(before + [line])
  {
    assert (before + [line])[..|before|] == before;
  }
}
