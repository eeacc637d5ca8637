/** Reading the losses back out of the lines that report them. */
module LossLines {
  import opened Words
  import opened Wrappers
  import opened Swar
  import opened Text
  import opened Clock
  import LogRecord
  import opened LogFormat
  import opened LineTime
  import opened LineFields
  import opened Output

  // ---------------------------------------------------------------- a reader of losses

  /** How many digits a text ends with. */
  function DigitsAtEnd(text: bytes): (k: nat)
    ensures k <= |text|
  {
    if text == [] || !IsDigit(text[|text| - 1]) then 0 else 1 + DigitsAtEnd(text[..|text| - 1])
  }

  /** A thread, and how many of its records are lost. */
  datatype Loss = Loss(thread: bytes, count: nat)

  /** What a message says of losses: the name of a thread, "lost", a number and "records". */
  function LossOf(message: bytes): Option<Loss> {
    var end := |message| - 8;
    if end < 0 || !Spells(message[end..], " records") then None
    else
      var start := end - DigitsAtEnd(message[..end]);
      if start == end || start < 6 || !Spells(message[start - 6..start], " lost ") then None
      else Some(Loss(message[..start - 6], Number(message[start..end])))
  }

  /** What a line of the logger itself, a warning, says of losses. */
  function LossIn(line: bytes): Option<Loss> {
    match (SeverityIn(line), ThreadIn(line), MessageIn(line))
    case (Some(severity), Some(thread), Some(message)) =>
      if severity == 3 && Spells(thread, "logger  ") then LossOf(message) else None
    case _ => None
  }

  // ---------------------------------------------------------------- reading what was written

  lemma {:induction false} DigitsAtEndAre(text: bytes, digits: bytes)
    requires AllDigits(digits) && text != [] && !IsDigit(text[|text| - 1])
    ensures DigitsAtEnd(text + digits) == |digits|
  {
    if digits == [] {
      assert text + digits == text;
    } else {
      var n := |digits| - 1;
      DigitsAtEndAre(text, digits[..n]);
      assert (text + digits)[..|text| + n] == text + digits[..n];
      assert (text + digits)[|text| + n] == digits[n];
    }
  }

  /** Where the parts of a message of losses are. */
  lemma LossSlices(thread: bytes, lost: bytes, digits: bytes, records: bytes)
    requires |lost| == 6 && |records| == 8
    ensures
      var message, end, start := thread + lost + digits + records, |thread| + 6 + |digits|, |thread| + 6;
      && |message| == end + 8 && message[end..] == records && message[..end] == thread + lost + digits
      && message[start - 6..start] == lost && message[..start - 6] == thread && message[start..end] == digits
  {
  }

  lemma LossOfParts(thread: bytes, lost: bytes, digits: bytes, records: bytes)
    requires Spells(lost, " lost ") && Spells(records, " records") && digits != [] && AllDigits(digits)
    requires DigitsAtEnd(thread + lost + digits) == |digits|
    ensures LossOf(thread + lost + digits + records) == Some(Loss(thread, Number(digits)))
  {
    LossSlices(thread, lost, digits, records);
  }

  /** The number in front of the end of a message of losses, whatever the thread is called. */
  lemma LossTextIsRead(thread: bytes, count: nat) returns (message: bytes)
    ensures message == thread + LOST_TEXT + AlignedDecimal(count, 0, SPACE) + RECORDS_TEXT[..8]
    ensures LossOf(message) == Some(Loss(thread, count))
  {
    var digits := DigitsOf(count);
    LossWords();
    DigitsAtEndAre(thread + LOST_TEXT, digits);
    LossOfParts(thread, LOST_TEXT, digits, RECORDS_TEXT[..8]);
    message := thread + LOST_TEXT + digits + RECORDS_TEXT[..8];
  }

  lemma LossWords()
    ensures Spells(LOST_TEXT, " lost ") && Spells(RECORDS_TEXT[..8], " records")
    ensures Spells(Fitted(LOGGER_NAME, 8, SPACE), "logger  ")
  {
  }

  lemma Regrouped(a: bytes, thread: bytes, lost: bytes, digits: bytes, records: bytes)
    ensures a + thread + lost + digits + (records + [LF]) == a + (thread + lost + digits + records) + [LF]
  {
  }

  /** The line of losses is a warning of the logger, and gives back the name of the thread, whatever it is,
      and the number of the losses. */
  lemma LossIsRead(clock: TickConversion, now: uint64, thread: bytes, count: uint64)
    requires clock.Valid()
    ensures LossIn(LossLine(clock, now, thread, count)) == Some(Loss(thread, count))
  {
    var message := LossTextIsRead(thread, count);
    var prefix := Prefix(clock.NsElapsed(now), WARN, LOGGER_NAME);
    LossWords();
    SeverityIsNamed(WARN);
    PrefixIsRead(clock.NsElapsed(now), WARN, LOGGER_NAME, message);
    Regrouped(prefix + [SPACE], thread, LOST_TEXT, AlignedDecimal(count, 0, SPACE), RECORDS_TEXT[..8]);
    assert RECORDS_TEXT == RECORDS_TEXT[..8] + [LF];
  }

  /** And it shows when it was written. */
  lemma LossShowsItsTime(clock: TickConversion, now: uint64, thread: bytes, count: uint64)
    requires clock.Valid()
    ensures TimeIn(LossLine(clock, now, thread, count)) == Some(clock.NsElapsed(now) / 1_000)
  {
    var ns := clock.NsElapsed(now);
    FrontOfLoss(
      Timestamp(ns), Padded(SeverityName(WARN), 5, SPACE), Fitted(LOGGER_NAME, 8, SPACE), thread,
      AlignedDecimal(count, 0, SPACE));
    TimestampReadsBack(
      ns, [SPACE] + Padded(SeverityName(WARN), 5, SPACE) + [SPACE] + Fitted(LOGGER_NAME, 8, SPACE) + [SPACE] + thread
      + LOST_TEXT + AlignedDecimal(count, 0, SPACE) + RECORDS_TEXT);
  }

  lemma FrontOfLoss(a: bytes, b: bytes, c: bytes, d: bytes, e: bytes)
    ensures
      a + [SPACE] + b + [SPACE] + c + [SPACE] + d + LOST_TEXT + e + RECORDS_TEXT
      == a + ([SPACE] + b + [SPACE] + c + [SPACE] + d + LOST_TEXT + e + RECORDS_TEXT)
  {
  }

  /** The line of a record is a line of losses only if its thread is shown as the logger. */
  lemma RecordIsNoLoss(cat: Catalog, clock: TickConversion, r: LogRecord.Record, thread: bytes)
    requires clock.Valid() && !Spells(Fitted(thread, 8, SPACE), "logger  ")
    ensures LossIn(RecordLine(cat, clock, r, thread)) == None
  {
    PrefixIsRead(clock.NsElapsed(TickOf(r)), LogRecord.Severity(r), thread, Payload(cat, r));
  }
}
