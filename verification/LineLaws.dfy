/** What a line of the log is worth: one line, fixed columns, bounded, with a time that reads back. */
module LineLaws {
  import opened Words
  import opened Swar
  import opened Text
  import opened Clock
  import opened LogRecord
  import opened LogFormat

  // ---------------------------------------------------------------- sizes of numbers

  lemma AlignedSize(v: nat, width: nat, fill: byte, most: nat)
    requires 1 <= width <= most && v < Pow10(most)
    ensures width <= |AlignedDecimal(v, width, fill)| <= most
    ensures v < Pow10(width) ==> |AlignedDecimal(v, width, fill)| == width
  {
    DecimalSize(v, most);
    if v < Pow10(width) { DecimalSize(v, width); }
  }

  lemma AlignedReadsBack(v: nat, width: nat, fill: byte)
    requires fill == ZERO || fill == SPACE
    ensures Number(AlignedDecimal(v, width, fill)) == v
  {
    DecimalReadsBack(v);
    if |SignedDecimal(v)| < width {
      PaddingIsWorthNothing(fill, width - |SignedDecimal(v)|, SignedDecimal(v));
    }
  }

  lemma AlignedIsPrintable(v: int, width: nat, fill: byte)
    requires !IsControl(fill)
    ensures Printable(AlignedDecimal(v, width, fill))
  {
  }

  lemma PowersOfTen()
    ensures Pow10(4) == 10_000 && Pow10(6) == 1_000_000 && Pow10(11) == 100_000_000_000
  {
    assert Pow10(3) == 1_000;
    assert Pow10(6) == 1_000_000;
    assert Pow10(9) == 1_000_000_000;
  }

  lemma MicrosAreSix(ns: nat)
    ensures |AlignedDecimal(ns % 1_000_000_000 / 1_000, 6, ZERO)| == 6
  {
    PowersOfTen();
    assert ns % 1_000_000_000 / 1_000 < 1_000_000;
    AlignedSize(ns % 1_000_000_000 / 1_000, 6, ZERO, 6);
  }

  // ---------------------------------------------------------------- columns

  lemma TimestampSize(ns: uint64)
    ensures 13 <= |Timestamp(ns)| <= 20
    ensures ns / 1_000_000_000 < 10_000 ==> |Timestamp(ns)| == 13
  {
    PowersOfTen();
    MicrosAreSix(ns);
    AlignedSize(ns / 1_000_000_000, 4, SPACE, 11);
  }

  lemma PrefixSize(ns: uint64, severity: bv64, thread: bytes)
    ensures |Prefix(ns, severity, thread)| == |Timestamp(ns)| + 15
  {
  }

  /** While the seconds are below 10000 every message starts in the same column, 29 characters in,
      whatever the severity and the thread. */
  lemma MessageColumn(cat: Catalog, clock: TickConversion, r: Record, thread: bytes)
    requires clock.Valid() && clock.NsElapsed(TickOf(r)) / 1_000_000_000 < 10_000
    ensures
      var line := RecordLine(cat, clock, r, thread);
      |line| >= 30 && line[28] == SPACE && line[29..] == Payload(cat, r) + [LF]
  {
    var ns := clock.NsElapsed(TickOf(r));
    TimestampSize(ns);
    PrefixSize(ns, Severity(r), thread);
    AfterPrefix(Prefix(ns, Severity(r), thread), Payload(cat, r));
  }

  lemma AfterPrefix(prefix: bytes, payload: bytes)
    ensures
      var line := prefix + [SPACE] + payload + [LF];
      |line| == |prefix| + |payload| + 2 && line[|prefix|] == SPACE && line[|prefix| + 1..] == payload + [LF]
  {
  }

  // ---------------------------------------------------------------- one line

  lemma TimestampIsPrintable(ns: nat)
    ensures Printable(Timestamp(ns))
  {
    AlignedIsPrintable(ns / 1_000_000_000, 4, SPACE);
    AlignedIsPrintable(ns % 1_000_000_000 / 1_000, 6, ZERO);
  }

  /** A prefix shows no more of the thread than its column. */
  lemma PrefixIsPrintable(ns: nat, severity: bv64, thread: bytes)
    ensures Printable(Prefix(ns, severity, thread)) <==> Printable(Fitted(thread, THREAD_WIDTH, SPACE))
  {
    TimestampIsPrintable(ns);
    PartsPrintable(
      Timestamp(ns) + [SPACE] + Padded(SeverityName(severity), SEVERITY_WIDTH, SPACE) + [SPACE],
      Fitted(thread, THREAD_WIDTH, SPACE));
  }

  lemma PartsPrintable(a: bytes, b: bytes)
    ensures Printable(a + b) <==> Printable(a) && Printable(b)
  {
    if Printable(a + b) {
      forall i | 0 <= i < |a| ensures !IsControl(a[i]) { assert (a + b)[i] == a[i]; }
      forall i | 0 <= i < |b| ensures !IsControl(b[i]) { assert (a + b)[|a| + i] == b[i]; }
    }
  }

  lemma ErrorIsPrintable(cat: Catalog, raw: bv64)
    requires Fits(cat)
    ensures Printable(ErrorText(cat, raw)) && |ErrorText(cat, raw)| <= 256
  {
    var d := cat.describe(raw);
    assert Printable(Hex(Upper(raw), 8));
  }

  lemma ArgumentIsPrintable(cat: Catalog, argument: Argument, bits: uint32)
    requires Fits(cat)
    ensures Printable(ArgumentText(cat, argument, bits)) && |ArgumentText(cat, argument, bits)| <= 15
  {
    PowersOfTen();
    match argument {
      case Unsigned => DecimalSize(bits, 11);
      case Signed => DecimalSize(if AsSigned(bits) < 0 then -AsSigned(bits) else AsSigned(bits), 11);
      case HexArgument => assert Printable(Hex(bits, 8));
      case Float => assert Printable(cat.floatText(bits));
      case _ =>
    }
  }

  lemma MessageIsPrintable(cat: Catalog, raw: bv64)
    requires Fits(cat)
    ensures Printable(MessageLine(cat, raw)) && |MessageLine(cat, raw)| <= 256
  {
    var m := cat.textOf(raw);
    ArgumentIsPrintable(cat, m.argument, Upper(raw));
    assert Printable(cat.domainOf(raw));
  }

  lemma PayloadIsPrintable(cat: Catalog, r: Record)
    requires Fits(cat)
    ensures Printable(Payload(cat, r)) && |Payload(cat, r)| <= 256
  {
    ErrorIsPrintable(cat, r.payload);
    MessageIsPrintable(cat, r.payload);
  }

  /** The line of a record of any type bits and any payload has its size bounded, whatever the thread
      is called. */
  lemma RecordIsShort(cat: Catalog, clock: TickConversion, r: Record, thread: bytes)
    requires Fits(cat) && clock.Valid()
    ensures 0 < |RecordLine(cat, clock, r, thread)| <= 512
  {
    PayloadIsPrintable(cat, r);
    TimestampSize(clock.NsElapsed(TickOf(r)));
    PrefixSize(clock.NsElapsed(TickOf(r)), Severity(r), thread);
  }

  /** One line: printable but for one newline, at its end. */
  ghost predicate OneLine(line: bytes) {
    line != [] && line[|line| - 1] == LF && Printable(line[..|line| - 1])
  }

  lemma EndsOneLine(text: bytes)
    ensures OneLine(text + [LF]) <==> Printable(text)
  {
    assert (text + [LF])[..|text|] == text;
  }

  /** A record of any type bits and any payload is one line exactly when what it shows of its thread's name,
      the first eight bytes, is printable. */
  lemma RecordIsOneLine(cat: Catalog, clock: TickConversion, r: Record, thread: bytes)
    requires Fits(cat) && clock.Valid()
    ensures OneLine(RecordLine(cat, clock, r, thread)) <==> Printable(Fitted(thread, THREAD_WIDTH, SPACE))
  {
    var prefix := Prefix(clock.NsElapsed(TickOf(r)), Severity(r), thread);
    PrefixIsPrintable(clock.NsElapsed(TickOf(r)), Severity(r), thread);
    PayloadIsPrintable(cat, r);
    LineOfParts(prefix, Payload(cat, r));
  }

  lemma LineOfParts(prefix: bytes, payload: bytes)
    ensures OneLine(prefix + [SPACE] + payload + [LF]) <==> Printable(prefix) && Printable(payload)
  {
    EndsOneLine(prefix + [SPACE] + payload);
    PartsPrintable(prefix + [SPACE], payload);
    PartsPrintable(prefix, [SPACE]);
  }
}
