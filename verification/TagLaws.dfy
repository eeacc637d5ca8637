/** What the tag pass keeps and where it puts the tags, and exactly when a second pass changes nothing. */
module TagLaws {
  import opened Wrappers
  import opened TagPass

  // ---------------------------------------------------------------- reading placed tags

  /** What is between the code and the mark of an attached tag. */
  ghost function Gap(code: string, tag: string): string
    requires Fits(code, tag)
  {
    Blanks(LAST_COLUMN - |code| - 3 - |tag|)
  }

  lemma AttachEnding(code: string, tag: string)
    requires Fits(code, tag) && IsTag(tag)
    ensures Ending(Attach(code, tag)) == Some(Tagged(code + Gap(code, tag), tag))
  {
    EndingOfLine(code + Gap(code, tag), tag);
  }

  lemma TrailingOf(line: string, front: string, code: string, tag: string)
    requires Ending(line) == Some(Tagged(front, tag)) && TrimEnd(front) == code
    requires code != [] && |code| < |front| && !IsComment(code)
    ensures Trailing(line) == Some(Tagged(code, tag))
  {
  }

  lemma {:induction false} TrimEndOfBoth(code: string, gap: string)
    requires AllSpace(gap)
    ensures TrimEnd(code + gap) == TrimEnd(code)
  {
    if gap == [] {
      assert code + gap == code;
    } else {
      var n := |gap| - 1;
      assert (code + gap)[..|code| + n] == code + gap[..n];
      TrimEndOfBoth(code, gap[..n]);
    }
  }

  /** A tag attached to code is read back with the code, without the space at its end. */
  lemma AttachReadsBack(code: string, tag: string)
    requires Fits(code, tag) && IsTag(tag) && TrimEnd(code) != [] && !IsComment(TrimEnd(code))
    ensures Trailing(Attach(code, tag)) == Some(Tagged(TrimEnd(code), tag))
    ensures HasSlashes(Attach(code, tag))
  {
    AttachEnding(code, tag);
    TrimEndOfBoth(code, Gap(code, tag));
    TrailingOf(Attach(code, tag), code + Gap(code, tag), TrimEnd(code), tag);
    EndingHasSlashes(Attach(code, tag));
  }

  lemma TagLineReadsBack(tag: string)
    requires IsTag(tag)
    ensures Alone(TagLine(tag)) == Some(tag) && Trailing(TagLine(tag)) == None && HasSlashes(TagLine(tag))
  {
    var blanks := Blanks(LAST_COLUMN - 3 - |tag|);
    EndingOfLine(blanks, tag);
    TrimEndOf([], blanks);
    assert [] + blanks == blanks;
    EndingHasSlashes(TagLine(tag));
  }

  /** A line that ends with a tag has the slashes of its mark. */
  lemma EndingHasSlashes(line: string)
    requires Ending(line).Some?
    ensures HasSlashes(line)
  {
    var e := Ending(line).value;
    EndingIsThePattern(line, e.front, e.tag);
    var space :| EndsWith(line, e.front, e.tag, space);
    assert line[|e.front|] == '/' && line[|e.front| + 1] == '/';
  }

  lemma CommentHasSlashes(s: string)
    requires IsComment(s)
    ensures HasSlashes(s)
  {
    if s != [] && IsSpace(s[0]) {
      CommentHasSlashes(s[1..]);
      var i :| 0 <= i < |s[1..]| - 1 && s[1..][i] == '/' && s[1..][i + 1] == '/';
      assert s[i + 1] == '/' && s[i + 2] == '/';
    } else {
      assert s[0] == '/' && s[1] == '/';
    }
  }

  /** A line that can take a tag has none yet, and is code. */
  lemma TakerIsPlain(line: string)
    requires CanTake(line)
    ensures Trailing(line) == None && Alone(line) == None
    ensures TrimEnd(line) != [] && !IsComment(TrimEnd(line))
    ensures TrimEnd(TrimEnd(line)) == TrimEnd(line) && Trailing(TrimEnd(line)) == None
  {
    var t := TrimEnd(line);
    TrimEndDropsSpace(line);
    assert line == t + line[|t|..];
    SlashesOfStart(t, line[|t|..]);
    TrimEndOf(t, []);
    assert t + [] == t;
    if Ending(line).Some? { EndingHasSlashes(line); }
    if Ending(t).Some? { EndingHasSlashes(t); }
    if IsComment(t) { CommentHasSlashes(t); }
  }

  lemma SlashesOfStart(s: string, more: string)
    ensures HasSlashes(s) ==> HasSlashes(s + more)
  {
    if i :| 0 <= i < |s| - 1 && s[i] == '/' && s[i + 1] == '/' {
      assert (s + more)[i] == '/' && (s + more)[i + 1] == '/';
    }
  }

  /** A line of white space and a tag is a comment. */
  lemma AloneIsComment(line: string)
    requires Alone(line).Some?
    ensures IsComment(line)
  {
    var e := Ending(line).value;
    EndingIsThePattern(line, e.front, e.tag);
    var space :| EndsWith(line, e.front, e.tag, space);
    MarkIsComment(e.front, e.tag, space);
  }

  lemma MarkIsComment(front: string, tag: string, space: string)
    requires AllSpace(front)
    ensures IsComment(front + MARK + tag + space)
  {
    var rest := MARK + tag + space;
    assert rest[0] == '/' && rest[1] == '/' && rest[..2] == "//";
    SpaceBeforeComment(front, rest);
    assert front + MARK + tag + space == front + rest;
  }

  lemma SpaceBeforeComment(space: string, rest: string)
    requires AllSpace(space) && "//" <= rest
    ensures IsComment(space + rest)
  {
    if space == [] {
      assert space + rest == rest;
    } else {
      SpaceBeforeComment(space[1..], rest);
      assert (space + rest)[1..] == space[1..] + rest;
    }
  }

  /** The code in front of a tag is no tag of its own line. */
  lemma CodeIsNotAlone(line: string)
    requires Trailing(line).Some?
    ensures
      var code := Trailing(line).value.front;
      Alone(code) == None && TrimEnd(code) == code && code != [] && !IsComment(code)
  {
    var code := Trailing(line).value.front;
    TrimEndDropsSpace(Ending(line).value.front);
    TrimEndOf(code, []);
    assert code + [] == code;
    if Alone(code).Some? { AloneIsComment(code); }
  }

  // ---------------------------------------------------------------- nothing is lost

  datatype Item = Code(text: string) | Tag(tag: string)

  /** The code and the tags of a line, in order, down to the code in front of its first tag. */
  function ItemsOf(line: string): seq<Item>
    decreases |line|
  {
    match Trailing(line)
    case Some(t) => ItemsOf(t.front) + [Tag(t.tag)]
    case None =>
      match Alone(line)
      case Some(tag) => [Tag(tag)]
      case None => [Code(TrimEnd(line))]
  }

  function Items(lines: seq<string>): seq<Item> {
    if lines == [] then [] else Items(lines[..|lines| - 1]) + ItemsOf(lines[|lines| - 1])
  }

  lemma OneMoreItem(lines: seq<string>, line: string)
    ensures Items(lines + [line]) == Items(lines) + ItemsOf(line)
  {
    assert (lines + [line])[..|lines|] == lines;
  }

  lemma TwoMoreItems(out: seq<string>, a: string, b: string)
    ensures Items(out + [a, b]) == Items(out) + (ItemsOf(a) + ItemsOf(b))
  {
    OneMoreItem(out, a);
    OneMoreItem(out + [a], b);
    assert out + [a] + [b] == out + [a, b];
    Associative(Items(out), ItemsOf(a), ItemsOf(b));
  }

  lemma Associative<T>(a: seq<T>, b: seq<T>, c: seq<T>)
    ensures a + b + c == a + (b + c)
  {
  }

  lemma ItemsOfAttached(code: string, tag: string)
    requires Fits(code, tag) && IsTag(tag) && TrimEnd(code) != [] && !IsComment(TrimEnd(code))
    ensures ItemsOf(Attach(code, tag)) == ItemsOf(TrimEnd(code)) + [Tag(tag)]
  {
    AttachReadsBack(code, tag);
  }

  lemma ItemsOfTagLine(tag: string)
    requires IsTag(tag)
    ensures ItemsOf(TagLine(tag)) == [Tag(tag)]
  {
    TagLineReadsBack(tag);
  }

  lemma ItemsOfTaker(line: string)
    requires CanTake(line)
    ensures ItemsOf(TrimEnd(line)) == ItemsOf(line)
  {
    TakerIsPlain(line);
  }

  /** Items added to the last of some lines are added to them all. */
  lemma MoreInTheLast(out: seq<string>, line: string, more: seq<Item>)
    requires out != [] && ItemsOf(line) == ItemsOf(out[|out| - 1]) + more
    ensures Items(out[|out| - 1 := line]) == Items(out) + more
  {
    var before := out[..|out| - 1];
    assert out[|out| - 1 := line] == before + [line];
    OneMoreItem(before, line);
  }

  lemma StepKeepsItems(out: seq<string>, line: string)
    ensures Items(Step(out, line)) == Items(out) + ItemsOf(line)
  {
    match Trailing(line) {
      case Some(t) => TrailingKeepsItems(out, line, t.front, t.tag);
      case None =>
        match Alone(line) {
          case Some(tag) => AloneKeepsItems(out, tag);
          case None => OneMoreItem(out, line);
        }
    }
  }

  lemma TrailingKeepsItems(out: seq<string>, line: string, code: string, tag: string)
    requires Trailing(line) == Some(Tagged(code, tag))
    ensures Items(Step(out, line)) == Items(out) + ItemsOf(line)
  {
    CodeIsNotAlone(line);
    if Fits(code, tag) {
      ItemsOfAttached(code, tag);
      OneMoreItem(out, Attach(code, tag));
    } else {
      ItemsOfTagLine(tag);
      TwoMoreItems(out, code, TagLine(tag));
    }
  }

  lemma AloneKeepsItems(out: seq<string>, tag: string)
    requires IsTag(tag)
    ensures
      out != [] && CanTake(out[|out| - 1]) && Fits(out[|out| - 1], tag) ==>
        Items(out[|out| - 1 := Attach(out[|out| - 1], tag)]) == Items(out) + [Tag(tag)]
    ensures Items(out + [TagLine(tag)]) == Items(out) + [Tag(tag)]
  {
    ItemsOfTagLine(tag);
    OneMoreItem(out, TagLine(tag));
    if out != [] && CanTake(out[|out| - 1]) && Fits(out[|out| - 1], tag) {
      var last := out[|out| - 1];
      TakerIsPlain(last);
      ItemsOfTaker(last);
      ItemsOfAttached(last, tag);
      MoreInTheLast(out, Attach(last, tag), [Tag(tag)]);
    }
  }

  /** The pass keeps the sequence of code and tags: none added, lost or reordered, on every input. */
  lemma {:induction false} PassKeepsItems(lines: seq<string>)
    ensures Items(Pass(lines)) == Items(lines)
  {
    if lines != [] {
      var n := |lines| - 1;
      PassKeepsItems(lines[..n]);
      StepKeepsItems(Pass(lines[..n]), lines[n]);
    }
  }

  // ---------------------------------------------------------------- where tags go

  /** The last line, if there is one. */
  function Last(lines: seq<string>): string {
    if lines == [] then [] else lines[|lines| - 1]
  }

  /** A line whose last tag, if it has one, ends at column 79: at least two spaces after what is in front of it,
      if there is anything. */
  ghost predicate Settled(line: string) {
    match Trailing(line)
    case Some(t) => Fits(t.front, t.tag) && line == Attach(t.front, t.tag)
    case None => Alone(line).Some? ==> line == TagLine(Alone(line).value)
  }

  ghost predicate AllSettled(lines: seq<string>) {
    lines == [] || (AllSettled(lines[..|lines| - 1]) && Settled(lines[|lines| - 1]))
  }

  lemma OneMoreSettled(out: seq<string>, line: string)
    ensures AllSettled(out + [line]) <==> AllSettled(out) && Settled(line)
  {
    assert (out + [line])[..|out|] == out;
  }

  ghost predicate OnlyBlanks(s: string) {
    forall i | 0 <= i < |s| :: s[i] == ' '
  }

  /** Lines the pass can settle: code with no room for its tag carries no other tag that is out of place, and
      code that takes the tag of the next line has nothing but blanks after it. */
  ghost predicate Tidy(lines: seq<string>) {
    lines == [] || (Tidy(lines[..|lines| - 1]) && TidyAfter(Last(lines[..|lines| - 1]), lines[|lines| - 1]))
  }

  ghost predicate TidyAfter(previous: string, line: string) {
    match Trailing(line)
    case Some(t) => Fits(t.front, t.tag) || Settled(t.front)
    case None =>
      Alone(line).Some? && CanTake(previous) && Fits(previous, Alone(line).value) ==>
        OnlyBlanks(previous[|TrimEnd(previous)|..])
  }

  /** The line a tag may move up onto: the last line put out, if it can take one, is the last line read,
      and the last line read, if it can take one, is the last line put out. */
  ghost predicate SameTaker(out: seq<string>, previous: string) {
    && (out != [] && CanTake(out[|out| - 1]) ==> out[|out| - 1] == previous)
    && (CanTake(previous) ==> out != [] && out[|out| - 1] == previous)
  }

  lemma LastTaker(out: seq<string>, line: string)
    ensures SameTaker(Step(out, line), line)
  {
    if CanTake(line) { TakerIsPlain(line); }
    match Trailing(line) {
      case Some(t) =>
        CodeIsNotAlone(line);
        TagLineReadsBack(t.tag);
        if Fits(t.front, t.tag) { AttachReadsBack(t.front, t.tag); }
      case None =>
        match Alone(line) {
          case Some(tag) => LastIsTag(out, tag);
          case None =>
        }
    }
  }

  /** A line that a tag was put on, or that holds it, takes no other tag. */
  lemma LastIsTag(out: seq<string>, tag: string)
    requires IsTag(tag)
    ensures !CanTake(TagLine(tag))
    ensures out != [] && CanTake(out[|out| - 1]) && Fits(out[|out| - 1], tag) ==> !CanTake(Attach(out[|out| - 1], tag))
  {
    TagLineReadsBack(tag);
    if out != [] && CanTake(out[|out| - 1]) && Fits(out[|out| - 1], tag) {
      TakerIsPlain(out[|out| - 1]);
      AttachReadsBack(out[|out| - 1], tag);
    }
  }

  lemma PassTaker(lines: seq<string>)
    ensures SameTaker(Pass(lines), Last(lines))
  {
    if lines != [] {
      LastTaker(Pass(lines[..|lines| - 1]), lines[|lines| - 1]);
    }
  }

  /** A tag attached to code is in place exactly when nothing but blanks is between. */
  lemma AttachedIsSettled(code: string, tag: string)
    requires Fits(code, tag) && IsTag(tag) && TrimEnd(code) != [] && !IsComment(TrimEnd(code))
    ensures Settled(Attach(code, tag)) <==> OnlyBlanks(code[|TrimEnd(code)|..])
  {
    AttachReadsBack(code, tag);
    TrimEndDropsSpace(code);
    SameAttached(code, TrimEnd(code), tag);
  }

  /** Dropping the end of the code changes the line exactly when it is more than blanks. */
  lemma SameAttached(code: string, t: string, tag: string)
    requires Fits(code, tag) && t <= code
    ensures Attach(code, tag) == Attach(t, tag) <==> OnlyBlanks(code[|t|..])
  {
    var line, again := Attach(code, tag), Attach(t, tag);
    var n := LAST_COLUMN - 3 - |tag|;
    assert line == code + Blanks(n - |code|) + (MARK + tag);
    assert again == t + Blanks(n - |t|) + (MARK + tag);
    if OnlyBlanks(code[|t|..]) {
      forall i | 0 <= i < n ensures line[i] == again[i] {
        assert |t| <= i < |code| ==> code[|t|..][i - |t|] == ' ';
      }
    }
    if line == again {
      forall i | 0 <= i < |code| - |t| ensures code[|t|..][i] == ' ' {
        assert line[|t| + i] == again[|t| + i] == ' ';
      }
    }
  }

  lemma StepSettles(out: seq<string>, previous: string, line: string)
    requires SameTaker(out, previous)
    ensures AllSettled(Step(out, line)) <==> AllSettled(out) && TidyAfter(previous, line)
  {
    match Trailing(line) {
      case Some(t) => TrailingSettles(out, line, t.front, t.tag);
      case None =>
        match Alone(line) {
          case Some(tag) =>
            TagLineReadsBack(tag);
            OneMoreSettled(out, TagLine(tag));
            if out != [] && CanTake(out[|out| - 1]) && Fits(out[|out| - 1], tag) {
              TakenIsSettled(out, tag);
            }
          case None => OneMoreSettled(out, line);
        }
    }
  }

  lemma TrailingSettles(out: seq<string>, line: string, code: string, tag: string)
    requires Trailing(line) == Some(Tagged(code, tag))
    ensures AllSettled(Step(out, line)) <==> AllSettled(out) && (Fits(code, tag) || Settled(code))
  {
    CodeIsNotAlone(line);
    TagLineReadsBack(tag);
    if Fits(code, tag) {
      AttachedIsSettled(code, tag);
      OneMoreSettled(out, Attach(code, tag));
    } else {
      TwoMoreSettled(out, code, TagLine(tag));
    }
  }

  lemma TwoMoreSettled(out: seq<string>, a: string, b: string)
    ensures AllSettled(out + [a, b]) <==> AllSettled(out) && Settled(a) && Settled(b)
  {
    OneMoreSettled(out, a);
    OneMoreSettled(out + [a], b);
    assert out + [a] + [b] == out + [a, b];
  }

  lemma TakenIsSettled(out: seq<string>, tag: string)
    requires out != [] && CanTake(out[|out| - 1]) && Fits(out[|out| - 1], tag) && IsTag(tag)
    ensures
      var last := out[|out| - 1];
      AllSettled(out[|out| - 1 := Attach(last, tag)]) <==> AllSettled(out) && OnlyBlanks(last[|TrimEnd(last)|..])
  {
    TakerIsPlain(out[|out| - 1]);
    AttachedIsSettled(out[|out| - 1], tag);
    LastReplaced(out, Attach(out[|out| - 1], tag));
  }

  /** Whether all lines are placed, when the last of them, which was, is replaced. */
  lemma LastReplaced(out: seq<string>, line: string)
    requires out != [] && Settled(out[|out| - 1])
    ensures AllSettled(out[|out| - 1 := line]) <==> AllSettled(out) && Settled(line)
  {
    assert out[|out| - 1 := line][..|out| - 1] == out[..|out| - 1];
  }

  /** The last tag of every line is put in its place exactly when the lines are tidy. */
  lemma {:induction false} LastTagsArePlacedIffTidy(lines: seq<string>)
    ensures AllSettled(Pass(lines)) <==> Tidy(lines)
  {
    if lines != [] {
      var n := |lines| - 1;
      LastTagsArePlacedIffTidy(lines[..n]);
      PassTaker(lines[..n]);
      StepSettles(Pass(lines[..n]), Last(lines[..n]), lines[n]);
    }
  }

  // ---------------------------------------------------------------- a second pass

  /** No tag on a line of its own could move up onto the line before it. */
  ghost predicate NoneMoves(lines: seq<string>) {
    lines == [] || (NoneMoves(lines[..|lines| - 1]) && StaysAfter(Last(lines[..|lines| - 1]), lines[|lines| - 1]))
  }

  ghost predicate StaysAfter(previous: string, line: string) {
    Alone(line).Some? ==> !(CanTake(previous) && Fits(previous, Alone(line).value))
  }

  lemma OneMoreStays(out: seq<string>, line: string)
    requires NoneMoves(out) && StaysAfter(Last(out), line)
    ensures NoneMoves(out + [line])
  {
    assert (out + [line])[..|out|] == out;
  }

  lemma StepLeavesNoneToMove(out: seq<string>, line: string)
    requires NoneMoves(out)
    ensures NoneMoves(Step(out, line))
  {
    match Trailing(line) {
      case Some(t) => TrailingStays(out, line, t.front, t.tag);
      case None =>
        match Alone(line) {
          case Some(tag) => AloneStays(out, tag);
          case None => OneMoreStays(out, line);
        }
    }
  }

  lemma TrailingStays(out: seq<string>, line: string, code: string, tag: string)
    requires NoneMoves(out) && Trailing(line) == Some(Tagged(code, tag))
    ensures NoneMoves(Step(out, line))
  {
    CodeIsNotAlone(line);
    TagLineReadsBack(tag);
    if Fits(code, tag) {
      AttachIsNotAlone(code, tag);
      OneMoreStays(out, Attach(code, tag));
    } else {
      TwoStay(out, code, tag);
    }
  }

  lemma TwoStay(out: seq<string>, code: string, tag: string)
    requires NoneMoves(out) && Alone(code) == None && IsTag(tag) && !Fits(code, tag)
    ensures NoneMoves(out + [code, TagLine(tag)])
  {
    TagLineReadsBack(tag);
    OneMoreStays(out, code);
    OneMoreStays(out + [code], TagLine(tag));
    assert out + [code] + [TagLine(tag)] == out + [code, TagLine(tag)];
  }

  lemma AttachIsNotAlone(code: string, tag: string)
    requires Fits(code, tag) && IsTag(tag) && TrimEnd(code) != []
    ensures Alone(Attach(code, tag)) == None
  {
    AttachEnding(code, tag);
    var t := TrimEnd(code);
    TrimEndDropsSpace(code);
    assert (code + Gap(code, tag))[|t| - 1] == t[|t| - 1];
  }

  lemma AloneStays(out: seq<string>, tag: string)
    requires NoneMoves(out) && IsTag(tag)
    ensures
      if out != [] && CanTake(out[|out| - 1]) && Fits(out[|out| - 1], tag) then
        NoneMoves(out[|out| - 1 := Attach(out[|out| - 1], tag)])
      else NoneMoves(out + [TagLine(tag)])
  {
    TagLineReadsBack(tag);
    CannotTakeNothing();
    if out != [] && CanTake(out[|out| - 1]) && Fits(out[|out| - 1], tag) {
      var last := out[|out| - 1];
      TakerIsPlain(last);
      AttachIsNotAlone(last, tag);
      LastStays(out, Attach(last, tag));
    } else {
      OneMoreStays(out, TagLine(tag));
    }
  }

  lemma CannotTakeNothing()
    ensures !CanTake([])
  {
  }

  lemma LastStays(out: seq<string>, line: string)
    requires out != [] && NoneMoves(out) && Alone(line) == None
    ensures NoneMoves(out[|out| - 1 := line])
  {
    assert out[|out| - 1 := line][..|out| - 1] == out[..|out| - 1];
  }

  /** After a pass no tag is left that could move up. */
  lemma {:induction false} PassLeavesNoneToMove(lines: seq<string>)
    ensures NoneMoves(Pass(lines))
  {
    if lines != [] {
      var n := |lines| - 1;
      PassLeavesNoneToMove(lines[..n]);
      StepLeavesNoneToMove(Pass(lines[..n]), lines[n]);
    }
  }

  lemma PassOneMore(lines: seq<string>, line: string)
    ensures Pass(lines + [line]) == Step(Pass(lines), line)
  {
    assert (lines + [line])[..|lines|] == lines;
  }

  lemma SettledStays(out: seq<string>, line: string)
    requires Settled(line) && StaysAfter(Last(out), line)
    ensures Step(out, line) == out + [line]
  {
  }

  lemma OneMoreIsKept(lines: seq<string>, line: string)
    requires Pass(lines) == lines && Settled(line) && StaysAfter(Last(lines), line)
    ensures Pass(lines + [line]) == lines + [line]
  {
    PassOneMore(lines, line);
    SettledStays(lines, line);
  }

  /** A pass changes nothing of lines whose tags are in place and stay. */
  lemma {:induction false} PassKeepsSettled(lines: seq<string>)
    requires AllSettled(lines) && NoneMoves(lines)
    ensures Pass(lines) == lines
  {
    if lines != [] {
      PassKeepsSettled(lines[..|lines| - 1]);
      LastIsKept(lines);
    }
  }

  lemma LastIsKept(lines: seq<string>)
    requires lines != [] && Pass(lines[..|lines| - 1]) == lines[..|lines| - 1]
    requires Settled(lines[|lines| - 1]) && StaysAfter(Last(lines[..|lines| - 1]), lines[|lines| - 1])
    ensures Pass(lines) == lines
  {
    OneMoreIsKept(lines[..|lines| - 1], lines[|lines| - 1]);
    FrontAndLast(lines);
  }

  lemma FrontAndLast<T>(s: seq<T>)
    requires s != []
    ensures s[..|s| - 1] + [s[|s| - 1]] == s
  {
  }

  /** What was put out never changes once its last line takes no tag. */
  lemma {:induction false} PassKeepsStart(lines: seq<string>, more: seq<string>)
    requires Pass(lines) != [] && !CanTake(Last(Pass(lines)))
    ensures Pass(lines) <= Pass(lines + more)
  {
    if more == [] {
      assert lines + more == lines;
    } else {
      var init, line := more[..|more| - 1], more[|more| - 1];
      assert more == init + [line];
      Associative(lines, init, [line]);
      PassKeepsStart(lines, init);
      PassOneMore(lines + init, line);
      StepKeepsStart(Pass(lines), Pass(lines + init), line);
    }
  }

  lemma StepKeepsStart(start: seq<string>, out: seq<string>, line: string)
    requires start <= out && start != [] && !CanTake(Last(start))
    ensures start <= Step(out, line)
  {
  }

  /** A line with a tag out of place does not come through a pass. */
  lemma MisplacedChanges(out: seq<string>, line: string)
    requires !Settled(line) && StaysAfter(Last(out), line)
    ensures
      var next := Step(out, line);
      && |next| > |out| && next[|out|] != line && !CanTake(Last(next))
  {
    if Trailing(line).Some? {
      MisplacedAfterCode(out, line, Trailing(line).value.front, Trailing(line).value.tag);
    } else {
      TagLineReadsBack(Alone(line).value);
    }
  }

  lemma MisplacedAfterCode(out: seq<string>, line: string, code: string, tag: string)
    requires Trailing(line) == Some(Tagged(code, tag)) && (Fits(code, tag) ==> line != Attach(code, tag))
    ensures
      var next := Step(out, line);
      && |next| > |out| && next[|out|] != line && !CanTake(Last(next))
  {
    CodeIsNotAlone(line);
    if Fits(code, tag) {
      AttachReadsBack(code, tag);
    } else {
      TagLineReadsBack(tag);
    }
  }

  lemma MisplacedComesOut(init: seq<string>, line: string, more: seq<string>)
    requires Pass(init) == init && !Settled(line) && StaysAfter(Last(init), line)
    ensures Pass(init + [line] + more) != init + [line] + more
  {
    MisplacedChanges(init, line);
    PassOneMore(init, line);
    PassKeepsStart(init + [line], more);
    var next := Pass(init + [line]);
    assert (init + [line] + more)[|init|] == line;
    assert next[|init|] == Pass(init + [line] + more)[|init|];
  }

  /** Lines with a tag out of place do not all come through a pass, whatever follows them. */
  lemma {:induction false} MisplacedIsNotStable(lines: seq<string>, more: seq<string>)
    requires NoneMoves(lines) && !AllSettled(lines)
    ensures Pass(lines + more) != lines + more
    decreases |lines|
  {
    var init, line := lines[..|lines| - 1], lines[|lines| - 1];
    assert lines == init + [line];
    if AllSettled(init) {
      PassKeepsSettled(init);
      MisplacedComesOut(init, line, more);
    } else {
      Associative(init, [line], more);
      MisplacedIsNotStable(init, [line] + more);
    }
  }

  /** A second pass changes nothing exactly when the lines are tidy. */
  lemma StableIffTidy(lines: seq<string>)
    ensures Pass(Pass(lines)) == Pass(lines) <==> Tidy(lines)
  {
    LastTagsArePlacedIffTidy(lines);
    PassLeavesNoneToMove(lines);
    if Tidy(lines) {
      PassKeepsSettled(Pass(lines));
    } else {
      MisplacedIsNotStable(Pass(lines), []);
      assert Pass(lines) + [] == Pass(lines);
    }
  }

  // ---------------------------------------------------------------- which lines are tidy

  /** No line carries two tags, and no line that a tag may move up onto has anything but blanks at its end. */
  ghost predicate OneTagEach(lines: seq<string>) {
    && (forall i | 0 <= i < |lines| && Trailing(lines[i]).Some? :: Trailing(Trailing(lines[i]).value.front) == None)
    && (forall i | 0 <= i < |lines| && CanTake(lines[i]) :: OnlyBlanks(lines[i][|TrimEnd(lines[i])|..]))
  }

  /** Such lines are tidy, so a second pass changes nothing of what the first put out. */
  lemma {:induction false} OneTagEachIsTidy(lines: seq<string>)
    requires OneTagEach(lines)
    ensures Tidy(lines)
  {
    if lines != [] {
      var n := |lines| - 1;
      assert OneTagEach(lines[..n]) by {
        forall i | 0 <= i < n ensures lines[..n][i] == lines[i] {}
      }
      OneTagEachIsTidy(lines[..n]);
      TidyLine(lines[..n], lines[n]);
    }
  }

  lemma TidyLine(before: seq<string>, line: string)
    requires OneTagEach(before)
    requires Trailing(line).Some? ==> Trailing(Trailing(line).value.front) == None
    ensures TidyAfter(Last(before), line)
  {
    CannotTakeNothing();
    if Trailing(line).Some? {
      CodeIsNotAlone(line);
    }
  }

  /** One line out of order is enough. */
  lemma UntidyIsNotStable(before: seq<string>, line: string)
    requires !TidyAfter(Last(before), line)
    ensures !Tidy(before + [line]) && Pass(Pass(before + [line])) != Pass(before + [line])
  {
    assert (before + [line])[..|before|] == before;
    StableIffTidy(before + [line]);
  }

  /** Code that ends in a tab: the first pass puts the tag of the next line behind the tab, and the second
      pass drops the tab. */
  lemma TabIsNotStable()
    ensures
      var lines := ["x;\t"] + [TagLine("RETURN")];
      !Tidy(lines) && Pass(Pass(lines)) != Pass(lines)
  {
    TabAfterCode();
    TagLineReadsBack("RETURN");
    UntidyIsNotStable(["x;\t"], TagLine("RETURN"));
  }

  lemma TabAfterCode()
    ensures CanTake("x;\t") && !OnlyBlanks("x;\t"[|TrimEnd("x;\t")|..])
  {
    TrimEndOf("x;", "\t");
    assert "x;" + "\t" == "x;\t";
    assert "x;\t"[2..][0] == '\t';
  }

  /** Code with one space and a tag after it. */
  function WithTag(code: string, tag: string): string {
    code + Blanks(1) + MARK + tag
  }

  lemma WithTagReadsBack(code: string, tag: string)
    requires IsTag(tag) && code != [] && !IsSpace(code[|code| - 1]) && !IsComment(code)
    ensures Trailing(WithTag(code, tag)) == Some(Tagged(code, tag))
  {
    EndingOfLine(code + Blanks(1), tag);
    TrimEndOf(code, Blanks(1));
    TrailingOf(WithTag(code, tag), code + Blanks(1), code, tag);
  }

  lemma WithTagIsCode(code: string)
    requires code != [] && !IsSpace(code[|code| - 1]) && !IsComment(code)
    ensures
      var line := WithTag(code, "RETURN");
      |line| == |code| + 10 && !IsSpace(line[|line| - 1]) && !IsComment(line)
  {
    StartIsNoComment(code, Blanks(1) + MARK + "RETURN");
    assert WithTag(code, "RETURN") == code + (Blanks(1) + MARK + "RETURN");
  }

  /** Code with a tag of its own and no room for another: the first pass moves the second tag off the line,
      and only the second pass puts the first one in its place. */
  lemma TwoTagsAreNotStable(code: string)
    requires |code| >= 59 && !IsSpace(code[|code| - 1]) && !IsComment(code)
    ensures
      var lines := [] + [WithTag(WithTag(code, "RETURN"), "RETURN")];
      !Tidy(lines) && Pass(Pass(lines)) != Pass(lines)
  {
    WithTagReadsBack(code, "RETURN");
    WithTagIsCode(code);
    WithTagReadsBack(WithTag(code, "RETURN"), "RETURN");
    NoRoomForTwo(WithTag(WithTag(code, "RETURN"), "RETURN"), WithTag(code, "RETURN"), code);
  }

  lemma NoRoomForTwo(line: string, front: string, code: string)
    requires Trailing(line) == Some(Tagged(front, "RETURN")) && Trailing(front) == Some(Tagged(code, "RETURN"))
    requires |front| == |code| + 10 && |code| >= 59
    ensures !Tidy([] + [line]) && Pass(Pass([] + [line])) != Pass([] + [line])
  {
    UntidyIsNotStable([], line);
  }

  lemma StartsWithSlashes(s: string)
    ensures "//" <= s <==> |s| >= 2 && s[0] == '/' && s[1] == '/'
  {
  }

  lemma FirstsOfBoth(code: string, more: string)
    requires code != [] && more != []
    ensures (code + more)[0] == code[0]
    ensures (code + more)[1] == if |code| > 1 then code[1] else more[0]
    ensures (code + more)[1..] == code[1..] + more
  {
  }

  /** What follows code does not make it a comment. */
  lemma {:induction false} StartIsNoComment(code: string, more: string)
    requires code != [] && !IsSpace(code[|code| - 1]) && !IsComment(code) && more != [] && more[0] != '/'
    ensures !IsComment(code + more)
  {
    FirstsOfBoth(code, more);
    if IsSpace(code[0]) {
      StartIsNoComment(code[1..], more);
    } else {
      StartsWithSlashes(code);
      StartsWithSlashes(code + more);
    }
  }
}
