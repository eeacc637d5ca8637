/** One record as one line of fixed columns. */
module LogFormat {
  import opened Words
  import opened Swar
  import opened Text
  import opened Clock
  import opened LogRecord
  import LW = LineWriter

  const OPEN: byte := 91
  const CLOSE: byte := 93
  const DOT: byte := 46
  const SEPARATOR: bytes := [32, 124, 32]
  const CONTEXT: bytes := [99, 116, 120, 61, 48, 120]
  const HEX_PREFIX: bytes := [48, 120]

  const SEVERITY_WIDTH := 5
  const THREAD_WIDTH := 8

  // ---------------------------------------------------------------- what the catalogs give

  /** The three names of an error. */
  datatype Descriptor = Descriptor(domain: bytes, kind: bytes, reason: bytes)

  datatype Argument = NoArgument | Unsigned | Signed | HexArgument | Float | Undeclared

  /** The text of a message, split where its argument goes. */
  datatype MessageText = MessageText(prefix: bytes, suffix: bytes, argument: Argument)

  /** The names and texts of every raw error and message, and the shortest text of every float. */
  datatype Catalog = Catalog(
    describe: bv64 -> Descriptor, domainOf: bv64 -> bytes, textOf: bv64 -> MessageText, floatText: nat -> bytes)

  ghost predicate Printable(text: bytes) {
    forall i | 0 <= i < |text| :: !IsControl(text[i])
  }

  /** What the catalogs keep to: printable names and texts that leave the formats their room. */
  ghost predicate Fits(cat: Catalog) {
    && (forall raw ::
          var d := cat.describe(raw);
          Printable(d.domain) && Printable(d.kind) && Printable(d.reason) && |d.domain| + |d.kind| + |d.reason| <= 206)
    && (forall raw ::
          var m := cat.textOf(raw);
          && Printable(cat.domainOf(raw)) && Printable(m.prefix) && Printable(m.suffix)
          && |cat.domainOf(raw)| + |m.prefix| + |m.suffix| <= 211)
    && (forall n :: Printable(cat.floatText(n)) && |cat.floatText(n)| <= 15)
  }

  // ---------------------------------------------------------------- the text of a record

  /** The upper half of a raw error or message: its context or argument. */
  function Upper(raw: bv64): (u: uint32) {
    ((raw >> 32) as bv32) as int
  }

  /** The same 32 bits read as a signed number. */
  function AsSigned(u: uint32): int {
    if u < 0x8000_0000 then u else u - TWO_TO_32
  }

  function SeverityName(severity: bv64): (name: bytes)
    ensures |name| <= SEVERITY_WIDTH && Printable(name)
  {
    if severity == 0 then [84, 82, 65, 67, 69]
    else if severity == 1 then [68, 69, 66, 85, 71]
    else if severity == 2 then [73, 78, 70, 79]
    else if severity == 3 then [87, 65, 82, 78]
    else if severity == 4 then [69, 82, 82, 79, 82]
    else if severity == 5 then [70, 65, 84, 65, 76]
    else [QUESTION]
  }

  function Timestamp(ns: nat): (stamp: bytes)
    ensures |stamp| >= 13
  {
    [OPEN] + AlignedDecimal(ns / 1_000_000_000, 4, SPACE)
    + [DOT] + AlignedDecimal(ns % 1_000_000_000 / 1_000, 6, ZERO) + [CLOSE]
  }

  function Prefix(ns: nat, severity: bv64, thread: bytes): bytes {
    Timestamp(ns) + [SPACE] + Padded(SeverityName(severity), SEVERITY_WIDTH, SPACE)
    + [SPACE] + Fitted(thread, THREAD_WIDTH, SPACE)
  }

  function ErrorText(cat: Catalog, raw: bv64): bytes {
    var d := cat.describe(raw);
    d.domain + SEPARATOR + d.kind + SEPARATOR + d.reason + SEPARATOR + CONTEXT + Hex(Upper(raw), 8)
  }

  function ArgumentText(cat: Catalog, argument: Argument, bits: uint32): bytes {
    match argument
    case NoArgument => []
    case Unsigned => SignedDecimal(bits)
    case Signed => SignedDecimal(AsSigned(bits))
    case HexArgument => HEX_PREFIX + Hex(bits, 8)
    case Float => cat.floatText(bits)
    case Undeclared => [QUESTION]
  }

  function MessageLine(cat: Catalog, raw: bv64): bytes {
    var m := cat.textOf(raw);
    cat.domainOf(raw) + SEPARATOR + m.prefix + ArgumentText(cat, m.argument, Upper(raw)) + m.suffix
  }

  function Payload(cat: Catalog, r: Record): bytes {
    if Kind(r) == 0 then ErrorText(cat, r.payload)
    else if Kind(r) == 1 then MessageLine(cat, r.payload)
    else [QUESTION]
  }

  /** The tick of a record, as the clock takes it. */
  function TickOf(r: Record): uint64 {
    Ticks(r) as int
  }

  function RecordLine(cat: Catalog, clock: TickConversion, r: Record, thread: bytes): bytes
    requires clock.Valid()
  {
    Prefix(clock.NsElapsed(TickOf(r)), Severity(r), thread) + [SPACE] + Payload(cat, r) + [LF]
  }

  // ---------------------------------------------------------------- writing it

  method AppendTimestamp(writer: LW.LineWriter, ticks: uint64, clock: TickConversion)
    requires writer.Valid() && clock.Valid()
    modifies writer, writer.buffer
    ensures writer.Appended(Timestamp(clock.NsElapsed(ticks)))
  {
    var ns := clock.NsElapsed(ticks);
    ghost var was := writer.whole;
    ghost var done := [OPEN];
    writer.AppendChar(OPEN);
    ghost var seconds := AlignedDecimal(ns / 1_000_000_000, 4, SPACE);
    writer.AppendDecimal(ns / 1_000_000_000, 4, SPACE);
    Associative(was, done, seconds);
    done := done + seconds;
    writer.AppendChar(DOT);
    Associative(was, done, [DOT]);
    done := done + [DOT];
    ghost var micros := AlignedDecimal(ns % 1_000_000_000 / 1_000, 6, ZERO);
    writer.AppendDecimal(ns % 1_000_000_000 / 1_000, 6, ZERO);
    Associative(was, done, micros);
    done := done + micros;
    writer.AppendChar(CLOSE);
    Associative(was, done, [CLOSE]);
  }

  method AppendPrefix(writer: LW.LineWriter, ticks: uint64, severity: bv64, thread: bytes, clock: TickConversion)
    requires writer.Valid() && clock.Valid()
    modifies writer, writer.buffer
    ensures writer.Appended(Prefix(clock.NsElapsed(ticks), severity, thread))
  {
    ghost var was := writer.whole;
    ghost var done := Timestamp(clock.NsElapsed(ticks));
    AppendTimestamp(writer, ticks, clock);
    writer.AppendChar(SPACE);
    Associative(was, done, [SPACE]);
    done := done + [SPACE];
    ghost var name := Padded(SeverityName(severity), SEVERITY_WIDTH, SPACE);
    writer.AppendPadded(SeverityName(severity), SEVERITY_WIDTH, SPACE);
    Associative(was, done, name);
    done := done + name;
    writer.AppendChar(SPACE);
    Associative(was, done, [SPACE]);
    done := done + [SPACE];
    writer.AppendFitted(thread, THREAD_WIDTH, SPACE);
    Associative(was, done, Fitted(thread, THREAD_WIDTH, SPACE));
  }

  method AppendError(writer: LW.LineWriter, cat: Catalog, raw: bv64)
    requires writer.Valid()
    modifies writer, writer.buffer
    ensures writer.Appended(ErrorText(cat, raw))
  {
    var d := cat.describe(raw);
    ghost var was := writer.whole;
    ghost var done := AppendDescriptor(writer, d);
    writer.Append(SEPARATOR);
    Associative(was, done, SEPARATOR);
    done := done + SEPARATOR;
    writer.Append(CONTEXT);
    Associative(was, done, CONTEXT);
    done := done + CONTEXT;
    writer.AppendHex(Upper(raw), 8);
    Associative(was, done, Hex(Upper(raw), 8));
  }

  method AppendDescriptor(writer: LW.LineWriter, d: Descriptor) returns (ghost done: bytes)
    requires writer.Valid()
    modifies writer, writer.buffer
    ensures done == d.domain + SEPARATOR + d.kind + SEPARATOR + d.reason
    ensures writer.Appended(done)
  {
    ghost var was := writer.whole;
    writer.Append(d.domain);
    done := d.domain;
    writer.Append(SEPARATOR);
    Associative(was, done, SEPARATOR);
    done := done + SEPARATOR;
    writer.Append(d.kind);
    Associative(was, done, d.kind);
    done := done + d.kind;
    writer.Append(SEPARATOR);
    Associative(was, done, SEPARATOR);
    done := done + SEPARATOR;
    writer.Append(d.reason);
    Associative(was, done, d.reason);
    done := done + d.reason;
  }

  method AppendArgument(writer: LW.LineWriter, cat: Catalog, argument: Argument, bits: uint32)
    requires writer.Valid()
    modifies writer, writer.buffer
    ensures writer.Appended(ArgumentText(cat, argument, bits))
  {
    match argument {
      case NoArgument =>
        assert writer.whole + [] == writer.whole;
      case Unsigned =>
        writer.AppendDecimal(bits, 0, SPACE);
      case Signed =>
        writer.AppendDecimal(AsSigned(bits), 0, SPACE);
      case HexArgument =>
        ghost var was := writer.whole;
        writer.Append(HEX_PREFIX);
        writer.AppendHex(bits, 8);
        Associative(was, HEX_PREFIX, Hex(bits, 8));
      case Float =>
        writer.Append(cat.floatText(bits));
      case Undeclared =>
        writer.AppendChar(QUESTION);
    }
  }

  method AppendMessage(writer: LW.LineWriter, cat: Catalog, raw: bv64)
    requires writer.Valid()
    modifies writer, writer.buffer
    ensures writer.Appended(MessageLine(cat, raw))
  {
    var m := cat.textOf(raw);
    ghost var was := writer.whole;
    writer.Append(cat.domainOf(raw));
    ghost var done := cat.domainOf(raw);
    writer.Append(SEPARATOR);
    Associative(was, done, SEPARATOR);
    done := done + SEPARATOR;
    writer.Append(m.prefix);
    Associative(was, done, m.prefix);
    done := done + m.prefix;
    ghost var argument := ArgumentText(cat, m.argument, Upper(raw));
    AppendArgument(writer, cat, m.argument, Upper(raw));
    Associative(was, done, argument);
    done := done + argument;
    writer.Append(m.suffix);
    Associative(was, done, m.suffix);
  }

  method AppendPayload(writer: LW.LineWriter, cat: Catalog, r: Record)
    requires writer.Valid()
    modifies writer, writer.buffer
    ensures writer.Appended(Payload(cat, r))
  {
    if Kind(r) == 0 {
      AppendError(writer, cat, r.payload);
    } else if Kind(r) == 1 {
      AppendMessage(writer, cat, r.payload);
    } else {
      writer.AppendChar(QUESTION);
    }
  }

  /** Append one complete record. */
  method AppendRecord(writer: LW.LineWriter, cat: Catalog, clock: TickConversion, r: Record, thread: bytes)
    requires writer.Valid() && clock.Valid()
    modifies writer, writer.buffer
    ensures writer.Appended(RecordLine(cat, clock, r, thread))
  {
    ghost var was := writer.whole;
    ghost var done := Prefix(clock.NsElapsed(TickOf(r)), Severity(r), thread);
    AppendPrefix(writer, TickOf(r), Severity(r), thread, clock);
    writer.AppendChar(SPACE);
    Associative(was, done, [SPACE]);
    done := done + [SPACE];
    AppendPayload(writer, cat, r);
    Associative(was, done, Payload(cat, r));
    done := done + Payload(cat, r);
    writer.AppendChar(LF);
    Associative(was, done, [LF]);
  }
}
