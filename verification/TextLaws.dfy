/** What continuing a text under a line does to it, told without its reference form. */
module TextLaws {
  import opened Swar
  import opened Text

  // ---------------------------------------------------------------- one byte at a time

  /** A control character is below a blank, or DEL. */
  lemma ControlIs(c: byte)
    ensures IsControl(c) <==> c as int < 32 || c as int == 127
  {
  }

  /** What each byte becomes on its own. */
  lemma OneByte(c: byte, column: nat)
    ensures |Reference([10], column)| == 1 + column && Reference([10], column)[0] == 10
    ensures forall i | 1 <= i <= column :: Reference([10], column)[i] == 32
    ensures Reference([13, 10], column) == Reference([10], column)
    ensures c != 10 && IsControl(c) ==> Reference([c], column) == [63]
    ensures !IsControl(c) ==> Reference([c], column) == [c]
  {
    assert [13, 10][1..] == [10];
    assert [10][1..] == [];
    assert [c][1..] == [];
    assert [10] + Repeat(32, column) + [] == [10] + Repeat(32, column);
  }

  /** A CR and the newline that would make it part of a CRLF. */
  predicate SplitsCrLf(a: bytes, b: bytes) {
    a != [] && a[|a| - 1] == 13 && b != [] && b[0] == 10
  }

  /** Two texts are continued one after the other, exactly when no CRLF is split between them. */
  lemma JoinIffNoSplit(a: bytes, b: bytes, column: nat)
    ensures Reference(a + b, column) == Reference(a, column) + Reference(b, column) <==> !SplitsCrLf(a, b)
  {
    if SplitsCrLf(a, b) {
      SplitLosesCr(a, b, column);
    } else {
      Joins(a, b, column);
    }
  }

  lemma {:induction false} Joins(a: bytes, b: bytes, column: nat)
    requires !SplitsCrLf(a, b)
    ensures Reference(a + b, column) == Reference(a, column) + Reference(b, column)
  {
    if a == [] {
      assert a + b == b && Reference(a, column) == [];
      NothingInFront(Reference(b, column));
    } else {
      var first := FirstPart(a, b, column);
      Joins(a[1..], b, column);
      Associative(first, Reference(a[1..], column), Reference(b, column));
    }
  }

  lemma NothingInFront(text: bytes)
    ensures [] + text == text
  {
  }

  /** What the first byte becomes does not depend on a text behind that splits no CRLF. */
  lemma FirstPart(a: bytes, b: bytes, column: nat) returns (first: bytes)
    requires a != [] && !SplitsCrLf(a, b)
    ensures Reference(a, column) == first + Reference(a[1..], column)
    ensures Reference(a + b, column) == first + Reference(a[1..] + b, column)
  {
    assert (a + b)[1..] == a[1..] + b;
    assert |a| > 1 ==> (a + b)[1] == a[1];
    first :=
      if a[0] == LF then [LF] + Repeat(SPACE, column)
      else if a[0] == CR && |a| > 1 && a[1] == LF then []
      else if IsControl(a[0]) then [QUESTION]
      else [a[0]];
    NothingInFront(Reference(a[1..], column));
    NothingInFront(Reference(a[1..] + b, column));
  }

  /** A CRLF split in two leaves a question mark where the CR was. */
  lemma SplitLosesCr(a: bytes, b: bytes, column: nat)
    requires SplitsCrLf(a, b)
    ensures |Reference(a + b, column)| < |Reference(a, column) + Reference(b, column)|
  {
    var front := a[..|a| - 1];
    assert a == front + [13];
    Joins(front, [13], column);
    OneByte(13, column);
    assert a + b == front + ([13] + b);
    Joins(front, [13] + b, column);
    CrIsDropped(b, column);
  }

  lemma CrIsDropped(b: bytes, column: nat)
    requires b != [] && b[0] == 10
    ensures Reference([13] + b, column) == Reference(b, column)
  {
    assert ([13] + b)[1..] == b;
  }

  // ---------------------------------------------------------------- what is left

  /** No control character but newlines, and each of them with so many blanks behind it. */
  ghost predicate Hangs(text: bytes, column: nat) {
    forall i | 0 <= i < |text| && IsControl(text[i]) ::
      text[i] == 10 && i + column < |text| && forall j | i < j <= i + column :: text[j] == 32
  }

  lemma HangsTogether(a: bytes, b: bytes, column: nat)
    requires Hangs(a, column) && Hangs(b, column)
    ensures Hangs(a + b, column)
  {
    var text := a + b;
    forall i | 0 <= i < |text| && IsControl(text[i])
      ensures text[i] == 10 && i + column < |text| && forall j | i < j <= i + column :: text[j] == 32
    {
      if i < |a| {
        assert a[i] == text[i];
        forall j | i < j <= i + column ensures text[j] == 32 { assert a[j] == text[j]; }
      } else {
        assert b[i - |a|] == text[i];
        forall j | i < j <= i + column ensures text[j] == 32 { assert b[j - |a|] == text[j]; }
      }
    }
  }

  /** Whatever the text, only newlines are left of its control characters, and each has the column's blanks
      behind it: a line under the message starts where the message does. */
  lemma {:induction false} ContinuedHangs(text: bytes, column: nat)
    ensures Hangs(Reference(text, column), column)
  {
    if text != [] {
      ContinuedHangs(text[1..], column);
      var first := FirstPart(text, [], column);
      FirstHangs(text, first, column);
      HangsTogether(first, Reference(text[1..], column), column);
    }
  }

  lemma FirstHangs(text: bytes, first: bytes, column: nat)
    requires text != [] && Reference(text, column) == first + Reference(text[1..], column)
    ensures Hangs(first, column)
  {
    var rest := Reference(text[1..], column);
    var part :=
      if text[0] == LF then [LF] + Repeat(SPACE, column)
      else if text[0] == CR && |text| > 1 && text[1] == LF then []
      else if IsControl(text[0]) then [QUESTION]
      else [text[0]];
    NothingInFront(rest);
    assert Reference(text, column) == part + rest;
    assert |first| == |part|;
    assert first == (first + rest)[..|first|] && part == (part + rest)[..|part|];
  }

  // ---------------------------------------------------------------- the lines

  /** The text as it reads when every line starts in the first column. */
  function Unhung(text: bytes, column: nat): bytes
    decreases |text|
  {
    if text == [] then []
    else if text[0] == 10 && |text| > column then [10] + Unhung(text[column + 1..], column)
    else [text[0]] + Unhung(text[1..], column)
  }

  /** The column moves the lines to the right and changes nothing else. */
  lemma {:induction false} ColumnOnlyMoves(text: bytes, column: nat)
    ensures Unhung(Reference(text, column), column) == Reference(text, 0)
  {
    if text == [] {
    } else if text[0] == LF {
      ColumnOnlyMoves(text[1..], column);
      var rest := Reference(text[1..], column);
      var whole := [LF] + Repeat(SPACE, column) + rest;
      assert whole[column + 1..] == rest;
      assert [LF] + Repeat(SPACE, 0) == [LF];
    } else {
      ColumnOnlyMoves(text[1..], column);
      var rest := Reference(text[1..], column);
      assert forall c: byte :: ([c] + rest)[1..] == rest;
    }
  }

  /** A text whose only control characters are newlines is its own reference in the first column. */
  lemma {:induction false} PlainLinesStay(text: bytes)
    requires forall i | 0 <= i < |text| :: IsControl(text[i]) ==> text[i] == 10
    ensures Reference(text, 0) == text
  {
    if text != [] {
      PlainLinesStay(text[1..]);
      assert text == [text[0]] + text[1..];
      assert [LF] + Repeat(SPACE, 0) == [LF];
    }
  }

  /** Such a text reads back from its continued lines. */
  lemma LinesReadBack(text: bytes, column: nat)
    requires forall i | 0 <= i < |text| :: IsControl(text[i]) ==> text[i] == 10
    ensures Unhung(Reference(text, column), column) == text
  {
    ColumnOnlyMoves(text, column);
    PlainLinesStay(text);
  }

  // ---------------------------------------------------------------- the trailing newline

  /** One newline at the end, LF or CRLF, starts no line; nothing else at the end is dropped. */
  lemma TrailingNewline(text: bytes, column: nat)
    ensures Continued(text + [13, 10], column) == Reference(text, column)
    ensures text == [] || text[|text| - 1] != 13 ==> Continued(text + [10], column) == Reference(text, column)
    ensures text == [] || text[|text| - 1] != 10 ==> Continued(text, column) == Reference(text, column)
  {
    assert (text + [13, 10])[..|text|] == text;
    assert (text + [10])[..|text|] == text;
  }

  /** Under a column what is written never ends with a newline, whatever the text ends with. */
  lemma EndsWithoutNewline(text: bytes, column: nat)
    requires column > 0 && Continued(text, column) != []
    ensures
      var written := Continued(text, column);
      !IsControl(written[|written| - 1])
  {
    ContinuedHangs(WithoutNewline(text), column);
  }

  // ---------------------------------------------------------------- padding

  /** A padded text starts with the text and goes on with the fill up to the width, and no further. */
  lemma PaddedIs(text: bytes, width: nat, fill: byte)
    ensures
      var padded := Padded(text, width, fill);
      && text <= padded && |padded| == (if |text| < width then width else |text|)
      && forall i | |text| <= i < |padded| :: padded[i] == fill
  {
  }
}
