/** The time of a record, read back out of the bytes of its line. */
module LineTime {
  import opened Words
  import opened Wrappers
  import opened Swar
  import opened Text
  import opened Clock
  import opened LogRecord
  import opened LogFormat
  import opened LineLaws

  // ---------------------------------------------------------------- a reader of lines

  ghost predicate AllDigits(text: bytes) {
    forall i | 0 <= i < |text| :: IsDigit(text[i])
  }

  /** A number: blanks, then digits, and nothing else. */
  ghost function ReadNumber(text: bytes): Option<nat> {
    if text == [] then None
    else if text[0] == SPACE then ReadNumber(text[1..])
    else if AllDigits(text) then Some(Number(text))
    else None
  }

  /** The position of the first closing bracket, or the length of a line that has none. */
  function FirstClose(line: bytes): (k: nat)
    ensures k <= |line|
  {
    if line == [] || line[0] == CLOSE then 0 else 1 + FirstClose(line[1..])
  }

  /** The time a line shows, in microseconds: a bracket, a number of seconds, a dot, six digits and the
      closing bracket, at its start. */
  ghost function TimeIn(line: bytes): Option<nat> {
    var k := FirstClose(line);
    if k == |line| || k < 8 || line[0] != OPEN || line[k - 7] != DOT || !AllDigits(line[k - 6..k]) then None
    else
      match ReadNumber(line[1..k - 7])
      case None => None
      case Some(seconds) => Some(seconds * 1_000_000 + Number(line[k - 6..k]))
  }

  // ---------------------------------------------------------------- reading what was written

  lemma {:induction false} FirstCloseIs(text: bytes, rest: bytes)
    requires CLOSE !in text
    ensures FirstClose(text + [CLOSE] + rest) == |text|
  {
    if text == [] {
      assert text + [CLOSE] + rest == [CLOSE] + rest;
    } else {
      FirstCloseIs(text[1..], rest);
      assert (text + [CLOSE] + rest)[1..] == text[1..] + [CLOSE] + rest;
    }
  }

  lemma {:induction false} ReadPadded(n: nat, digits: bytes)
    requires digits != [] && AllDigits(digits)
    ensures ReadNumber(Repeat(SPACE, n) + digits) == Some(Number(digits))
  {
    if n == 0 {
      assert Repeat(SPACE, 0) + digits == digits;
    } else {
      ReadPadded(n - 1, digits);
      assert (Repeat(SPACE, n) + digits)[1..] == Repeat(SPACE, n - 1) + digits;
    }
  }

  /** A right-aligned number with blanks in front reads back as the number, and nothing else is read. */
  lemma ReadAligned(v: nat, width: nat)
    ensures ReadNumber(AlignedDecimal(v, width, SPACE)) == Some(v)
    ensures CLOSE !in AlignedDecimal(v, width, SPACE)
  {
    var digits := Decimal(v);
    var n := if |digits| < width then width - |digits| else 0;
    AlignedIs(v, width, n);
    DecimalReadsBack(v);
    ReadPadded(n, digits);
    NoClose(n, digits);
  }

  /** A right-aligned number is blanks, none if it is as wide as the width, and its digits. */
  lemma AlignedIs(v: nat, width: nat, n: nat)
    requires n == if |Decimal(v)| < width then width - |Decimal(v)| else 0
    ensures AlignedDecimal(v, width, SPACE) == Repeat(SPACE, n) + Decimal(v)
  {
    if n == 0 { assert Repeat(SPACE, 0) + Decimal(v) == Decimal(v); }
  }

  lemma NoClose(n: nat, digits: bytes)
    requires AllDigits(digits)
    ensures CLOSE !in Repeat(SPACE, n) + digits
  {
  }

  lemma ReadZeroFilled(v: nat, width: nat)
    ensures
      var text := AlignedDecimal(v, width, ZERO);
      AllDigits(text) && Number(text) == v && CLOSE !in text
  {
    AlignedReadsBack(v, width, ZERO);
  }

  /** Where the parts of a stamp are in a line that starts with it. */
  lemma StampSlices(seconds: bytes, micros: bytes, rest: bytes)
    requires |micros| == 6
    ensures
      var line, k := [OPEN] + seconds + [DOT] + micros + [CLOSE] + rest, |seconds| + 8;
      && |line| > k && line[0] == OPEN && line[k - 7] == DOT
      && line[1..k - 7] == seconds && line[k - 6..k] == micros
  {
  }

  lemma StampCloses(seconds: bytes, micros: bytes, rest: bytes)
    requires |micros| == 6 && CLOSE !in seconds && CLOSE !in micros
    ensures FirstClose([OPEN] + seconds + [DOT] + micros + [CLOSE] + rest) == |seconds| + 8
  {
    FirstCloseIs([OPEN] + seconds + [DOT] + micros, rest);
  }

  /** A stamp put together is taken apart again. */
  lemma StampIsRead(seconds: bytes, micros: bytes, rest: bytes, v: nat)
    requires |micros| == 6 && AllDigits(micros) && ReadNumber(seconds) == Some(v)
    requires CLOSE !in seconds && CLOSE !in micros
    ensures
      TimeIn([OPEN] + seconds + [DOT] + micros + [CLOSE] + rest) == Some(v * 1_000_000 + Number(micros))
  {
    StampSlices(seconds, micros, rest);
    StampCloses(seconds, micros, rest);
    TimeOfParts([OPEN] + seconds + [DOT] + micros + [CLOSE] + rest, |seconds| + 8, v);
  }

  lemma TimeOfParts(line: bytes, k: nat, v: nat)
    requires FirstClose(line) == k < |line| && k >= 8 && line[0] == OPEN && line[k - 7] == DOT
    requires AllDigits(line[k - 6..k]) && ReadNumber(line[1..k - 7]) == Some(v)
    ensures TimeIn(line) == Some(v * 1_000_000 + Number(line[k - 6..k]))
  {
  }

  lemma MicrosSplit(ns: nat)
    ensures ns / 1_000_000_000 * 1_000_000 + ns % 1_000_000_000 / 1_000 == ns / 1_000
  {
  }

  /** The seconds and the microseconds of a stamp. */
  lemma PartsOfStamp(ns: nat) returns (seconds: bytes, micros: bytes)
    ensures Timestamp(ns) == [OPEN] + seconds + [DOT] + micros + [CLOSE]
    ensures |micros| == 6 && AllDigits(micros) && Number(micros) == ns % 1_000_000_000 / 1_000
    ensures ReadNumber(seconds) == Some(ns / 1_000_000_000) && CLOSE !in seconds && CLOSE !in micros
  {
    seconds := ReadableSeconds(ns / 1_000_000_000);
    micros := ReadableMicros(ns % 1_000_000_000 / 1_000);
    MicrosAreSix(ns);
  }

  lemma ReadableSeconds(v: nat) returns (text: bytes)
    ensures text == AlignedDecimal(v, 4, SPACE) && ReadNumber(text) == Some(v) && CLOSE !in text
  {
    text := AlignedDecimal(v, 4, SPACE);
    ReadAligned(v, 4);
  }

  lemma ReadableMicros(v: nat) returns (text: bytes)
    ensures text == AlignedDecimal(v, 6, ZERO) && AllDigits(text) && Number(text) == v && CLOSE !in text
  {
    text := AlignedDecimal(v, 6, ZERO);
    ReadZeroFilled(v, 6);
  }

  lemma TimeOfStamp(stamp: bytes, seconds: bytes, micros: bytes, rest: bytes, v: nat, total: nat)
    requires stamp == [OPEN] + seconds + [DOT] + micros + [CLOSE]
    requires |micros| == 6 && AllDigits(micros) && ReadNumber(seconds) == Some(v)
    requires CLOSE !in seconds && CLOSE !in micros && v * 1_000_000 + Number(micros) == total
    ensures TimeIn(stamp + rest) == Some(total)
  {
    StampIsRead(seconds, micros, rest, v);
  }

  /** The time in front of a line is the time written, rounded down to microseconds. */
  lemma TimestampReadsBack(ns: nat, rest: bytes)
    ensures TimeIn(Timestamp(ns) + rest) == Some(ns / 1_000)
  {
    var seconds, micros := PartsOfStamp(ns);
    MicrosSplit(ns);
    TimeOfStamp(Timestamp(ns), seconds, micros, rest, ns / 1_000_000_000, ns / 1_000);
  }

  // ---------------------------------------------------------------- the line of a record

  /** What follows the stamp on the line of a record. */
  function AfterStamp(cat: Catalog, r: Record, thread: bytes): bytes {
    [SPACE] + Padded(SeverityName(Severity(r)), SEVERITY_WIDTH, SPACE)
    + [SPACE] + Fitted(thread, THREAD_WIDTH, SPACE) + [SPACE] + Payload(cat, r) + [LF]
  }

  lemma StampComesFirst(cat: Catalog, clock: TickConversion, r: Record, thread: bytes)
    requires clock.Valid()
    ensures
      RecordLine(cat, clock, r, thread) == Timestamp(clock.NsElapsed(TickOf(r))) + AfterStamp(cat, r, thread)
  {
    FrontOfMany(
      Timestamp(clock.NsElapsed(TickOf(r))), [SPACE], Padded(SeverityName(Severity(r)), SEVERITY_WIDTH, SPACE),
      Fitted(thread, THREAD_WIDTH, SPACE), Payload(cat, r));
  }

  lemma FrontOfMany(a: bytes, b: bytes, c: bytes, d: bytes, e: bytes)
    ensures a + b + c + b + d + b + e + [LF] == a + (b + c + b + d + b + e + [LF])
  {
  }

  /** The line of a record, of any type, payload and thread, shows its time rounded down to microseconds, as
      long as that time fits 64 bits. */
  lemma RecordShowsItsTime(cat: Catalog, clock: TickConversion, r: Record, thread: bytes)
    requires clock.Valid() && clock.ExactNs(TickOf(r)) < TWO_TO_64
    ensures TimeIn(RecordLine(cat, clock, r, thread)) == Some(clock.ExactNs(TickOf(r)) / 1_000)
  {
    ExactWhenItFits(clock, TickOf(r));
    StampComesFirst(cat, clock, r, thread);
    TimestampReadsBack(clock.NsElapsed(TickOf(r)), AfterStamp(cat, r, thread));
  }

  lemma TickIsKept(kind: bv64, severity: bv64, ticks: bv64, payload: bv64)
    requires kind < 4 && severity < 8 && ticks < 0x0800_0000_0000_0000
    ensures TickOf(MakeRaw(kind, severity, ticks, payload)) == ticks as int
  {
    UnpackPacked(kind, severity, ticks, payload);
  }

  /** From the tick a thread stamps to the bytes of its line: packed, unpacked, converted and printed, the
      line reads back as the exact time rounded down to microseconds, while the tick is below 2^59 and the
      time fits. */
  lemma EndToEndTime(
    cat: Catalog, clock: TickConversion, thread: bytes, kind: bv64, severity: bv64, ticks: bv64, payload: bv64)
    requires clock.Valid() && kind < 4 && severity < 8 && ticks < 0x0800_0000_0000_0000
    requires clock.ExactNs(ticks as int) < TWO_TO_64
    ensures
      TimeIn(RecordLine(cat, clock, MakeRaw(kind, severity, ticks, payload), thread))
      == Some(clock.ExactNs(ticks as int) / 1_000)
  {
    TickIsKept(kind, severity, ticks, payload);
    RecordShowsItsTime(cat, clock, MakeRaw(kind, severity, ticks, payload), thread);
  }

  /** Of two lines, the one of the record stamped later never shows an earlier time. */
  lemma LaterIsNotEarlier(cat: Catalog, clock: TickConversion, r: Record, q: Record, one: bytes, other: bytes)
    requires clock.Valid() && TickOf(r) <= TickOf(q) && clock.ExactNs(TickOf(q)) < TWO_TO_64
    ensures
      var a, b := TimeIn(RecordLine(cat, clock, r, one)), TimeIn(RecordLine(cat, clock, q, other));
      a.Some? && b.Some? && a.value <= b.value
  {
    ExactIsMonotone(clock, TickOf(r), TickOf(q));
    RecordShowsItsTime(cat, clock, r, one);
    RecordShowsItsTime(cat, clock, q, other);
    QuotientOrder(clock.ExactNs(TickOf(r)), clock.ExactNs(TickOf(q)), 1_000);
  }
}
