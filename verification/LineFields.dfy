/** Reading the columns and the fields of a line back: severity, thread, names, context and argument. */
module LineFields {
  import opened Words
  import opened Wrappers
  import opened Swar
  import opened Text
  import opened Clock
  import opened LogRecord
  import opened LogFormat
  import opened LineLaws
  import opened LineTime

  /** The bytes are the characters of the text. */
  predicate Spells(b: bytes, text: string) {
    |b| == |text| && forall i | 0 <= i < |b| :: b[i] as int == text[i] as int
  }

  // ---------------------------------------------------------------- the columns

  /** The severity a column names. */
  function NamedSeverity(column: bytes): Option<nat> {
    if Spells(column, "TRACE") then Some(0)
    else if Spells(column, "DEBUG") then Some(1)
    else if Spells(column, "INFO ") then Some(2)
    else if Spells(column, "WARN ") then Some(3)
    else if Spells(column, "ERROR") then Some(4)
    else if Spells(column, "FATAL") then Some(5)
    else None
  }

  /** The five columns a blank after the stamp. */
  function SeverityIn(line: bytes): Option<nat> {
    var k := FirstClose(line);
    if k + 7 <= |line| && line[k + 1] == SPACE then NamedSeverity(line[k + 2..k + 7]) else None
  }

  /** The eight columns a blank after the severity. */
  function ThreadIn(line: bytes): Option<bytes> {
    var k := FirstClose(line);
    if k + 16 <= |line| && line[k + 7] == SPACE then Some(line[k + 8..k + 16]) else None
  }

  /** The message: what follows the thread and a blank, up to the newline. */
  function MessageIn(line: bytes): Option<bytes> {
    var k := FirstClose(line);
    if k + 18 <= |line| && line[k + 16] == SPACE && line[|line| - 1] == LF then Some(line[k + 17..|line| - 1]) else None
  }

  /** The stamp of a line ends where its first closing bracket is. */
  lemma CloseOfStamp(ns: nat, rest: bytes)
    ensures |Timestamp(ns)| >= 1 && FirstClose(Timestamp(ns) + rest) == |Timestamp(ns)| - 1
  {
    var seconds, micros := PartsOfStamp(ns);
    StampCloses(seconds, micros, rest);
  }

  /** Where the columns of a line are. */
  lemma ColumnSlices(stamp: bytes, severity: bytes, thread: bytes, message: bytes)
    requires |severity| == 5 && |thread| == 8 && stamp != []
    ensures
      var line, k := stamp + [SPACE] + severity + [SPACE] + thread + [SPACE] + message + [LF], |stamp| - 1;
      && |line| == k + 18 + |message|
      && line[k + 1] == SPACE && line[k + 7] == SPACE && line[k + 16] == SPACE && line[|line| - 1] == LF
      && line[k + 2..k + 7] == severity && line[k + 8..k + 16] == thread && line[k + 17..|line| - 1] == message
  {
  }

  /** The brackets of a stamp and the dot in front of its six last digits. */
  lemma StampMarks(ns: nat)
    ensures
      var stamp, n := Timestamp(ns), |Timestamp(ns)|;
      && n >= 8 && stamp[0] as int == '[' as int && stamp[n - 8] as int == '.' as int
      && stamp[n - 1] as int == ']' as int
  {
    var seconds, micros := PartsOfStamp(ns);
    MarksOf(seconds, micros);
  }

  lemma MarksOf(seconds: bytes, micros: bytes)
    requires |micros| == 6
    ensures
      var stamp, n := [OPEN] + seconds + [DOT] + micros + [CLOSE], |seconds| + 9;
      && |stamp| == n && stamp[0] == 91 && stamp[n - 8] == 46 && stamp[n - 1] == 93
  {
  }

  /** The columns of a line put together are found again. */
  lemma ColumnsAreRead(line: bytes, k: nat, severity: bytes, thread: bytes, message: bytes)
    requires FirstClose(line) == k && |line| == k + 18 + |message|
    requires line[k + 1] == SPACE && line[k + 7] == SPACE && line[k + 16] == SPACE && line[|line| - 1] == LF
    requires line[k + 2..k + 7] == severity && line[k + 8..k + 16] == thread && line[k + 17..|line| - 1] == message
    ensures SeverityIn(line) == NamedSeverity(severity) && ThreadIn(line) == Some(thread)
    ensures MessageIn(line) == Some(message)
  {
  }

  /** A line with a prefix has its columns, whatever its message. */
  lemma PrefixIsRead(ns: nat, severity: bv64, thread: bytes, message: bytes)
    ensures
      var line := Prefix(ns, severity, thread) + [SPACE] + message + [LF];
      && SeverityIn(line) == NamedSeverity(Padded(SeverityName(severity), 5, SPACE))
      && ThreadIn(line) == Some(Fitted(thread, 8, SPACE))
      && MessageIn(line) == Some(message)
  {
    var stamp, name, column := Timestamp(ns), Padded(SeverityName(severity), 5, SPACE), Fitted(thread, 8, SPACE);
    var rest := [SPACE] + name + [SPACE] + column + [SPACE] + message + [LF];
    CloseOfStamp(ns, rest);
    FrontOfLine(stamp, name, column, message);
    ColumnSlices(stamp, name, column, message);
    ColumnsAreRead(stamp + rest, |stamp| - 1, name, column, message);
  }

  lemma FrontOfLine(a: bytes, b: bytes, c: bytes, d: bytes)
    ensures
      a + [SPACE] + b + [SPACE] + c + [SPACE] + d + [LF] == a + ([SPACE] + b + [SPACE] + c + [SPACE] + d + [LF])
  {
  }

  /** The column of each severity spells its name, and no other one's; a severity without a name has none. */
  lemma SeverityIsNamed(severity: bv64)
    requires severity < 8
    ensures
      NamedSeverity(Padded(SeverityName(severity), 5, SPACE)) == if severity < 6 then Some(severity as int) else None
  {
    if severity < 3 { LowIsNamed(severity); } else { HighIsNamed(severity); }
  }

  lemma LowIsNamed(severity: bv64)
    requires severity < 3
    ensures NamedSeverity(Padded(SeverityName(severity), 5, SPACE)) == Some(severity as int)
  {
    var column := Padded(SeverityName(severity), 5, SPACE);
    if severity == 0 {
      assert column == [84, 82, 65, 67, 69];
      assert column[0] as int == 84;
      assert Spells(column, "TRACE");
    } else if severity == 1 {
      assert column == [68, 69, 66, 85, 71];
      assert column[0] as int == 68;
      assert Spells(column, "DEBUG");
    } else {
      assert column == [73, 78, 70, 79, 32];
      assert column[0] as int == 73;
      assert Spells(column, "INFO ");
    }
  }

  lemma HighIsNamed(severity: bv64)
    requires 3 <= severity < 8
    ensures
      NamedSeverity(Padded(SeverityName(severity), 5, SPACE)) == if severity < 6 then Some(severity as int) else None
  {
    var column := Padded(SeverityName(severity), 5, SPACE);
    if severity == 3 {
      assert column == [87, 65, 82, 78, 32];
      assert column[0] as int == 87;
      assert Spells(column, "WARN ");
    } else if severity == 4 {
      assert column == [69, 82, 82, 79, 82];
      assert column[0] as int == 69;
      assert Spells(column, "ERROR");
    } else if severity == 5 {
      assert column == [70, 65, 84, 65, 76];
      assert column[0] as int == 70;
      assert Spells(column, "FATAL");
    } else {
      assert column == [63, 32, 32, 32, 32];
      assert column[0] as int == 63;
    }
  }

  /** The line of every record shows its severity by name, none for a severity that has no name, and the first
      eight bytes of its thread's name, filled up with blanks. */
  lemma RecordShowsItsColumns(cat: Catalog, clock: TickConversion, r: Record, thread: bytes)
    requires clock.Valid()
    ensures
      var line := RecordLine(cat, clock, r, thread);
      && SeverityIn(line) == (if Severity(r) < 6 then Some(Severity(r) as int) else None)
      && MessageIn(line) == Some(Payload(cat, r))
      && ThreadIn(line).Some? && |ThreadIn(line).value| == 8
      && forall i | 0 <= i < 8 :: ThreadIn(line).value[i] == if i < |thread| then thread[i] else 32
  {
    PackUnpacked(r);
    SeverityIsNamed(Severity(r));
    PrefixIsRead(clock.NsElapsed(TickOf(r)), Severity(r), thread, Payload(cat, r));
  }

  // ---------------------------------------------------------------- fields between bars

  const BAR: byte := 124

  /** The position of the first bar, or the length of a text that has none. */
  function FirstBar(text: bytes): (k: nat)
    ensures k <= |text|
  {
    if text == [] || text[0] == BAR then 0 else 1 + FirstBar(text[1..])
  }

  /** The fields of a text, between bars with a blank on either side. */
  function FieldsOf(text: bytes): Option<seq<bytes>>
    decreases |text|
  {
    var k := FirstBar(text);
    if k == |text| then Some([text])
    else if k == 0 || k + 1 == |text| || text[k - 1] != SPACE || text[k + 1] != SPACE then None
    else
      match FieldsOf(text[k + 2..])
      case None => None
      case Some(fields) => Some([text[..k - 1]] + fields)
  }

  lemma {:induction false} FirstBarIs(text: bytes, rest: bytes)
    requires BAR !in text
    ensures FirstBar(text) == |text|
    ensures FirstBar(text + [BAR] + rest) == |text|
  {
    if text == [] {
      assert text + [BAR] + rest == [BAR] + rest;
    } else {
      FirstBarIs(text[1..], rest);
      assert (text + [BAR] + rest)[1..] == text[1..] + [BAR] + rest;
    }
  }

  /** A first field and the others. */
  lemma OneField(field: bytes, rest: bytes)
    requires BAR !in field
    ensures
      FieldsOf(field + SEPARATOR + rest)
      == match FieldsOf(rest) { case None => None case Some(fields) => Some([field] + fields) }
  {
    var text := field + SEPARATOR + rest;
    var k := |field| + 1;
    assert text == (field + [SPACE]) + [BAR] + ([SPACE] + rest);
    FirstBarIs(field + [SPACE], [SPACE] + rest);
    assert text[..k - 1] == field && text[k + 2..] == rest && text[k - 1] == SPACE && text[k + 1] == SPACE;
  }

  lemma LastField(field: bytes)
    requires BAR !in field
    ensures FieldsOf(field) == Some([field])
  {
    FirstBarIs(field, []);
  }

  // ---------------------------------------------------------------- errors

  /** The number a field of the form ctx=0x and eight hex digits gives. */
  function ContextIn(field: bytes): Option<nat> {
    if |field| == 14 && Spells(field[..6], "ctx=0x") then Some(HexNumber(field[6..])) else None
  }

  lemma ContextOfHex(hex: bytes)
    requires |hex| == 8
    ensures ContextIn(CONTEXT + hex) == Some(HexNumber(hex))
  {
    var field := CONTEXT + hex;
    assert field[..6] == CONTEXT && field[6..] == hex;
  }

  lemma HexOfWord(u: uint32)
    ensures |Hex(u, 8)| == 8 && HexNumber(Hex(u, 8)) == u
  {
    EightNibbles();
    HexBelow(u, 8, TWO_TO_32);
  }

  lemma HexBelow(value: nat, digits: nat, p: nat)
    requires value < p && p == Pow16(digits)
    ensures |Hex(value, digits)| == digits && HexNumber(Hex(value, digits)) == value
  {
    HexReadsBack(value, digits);
    BelowIsItself(value, p);
  }

  lemma BelowIsItself(value: nat, p: nat)
    requires value < p
    ensures value % p == value
  {
  }

  lemma EightNibbles()
    ensures Pow16(8) == TWO_TO_32
  {
    assert Pow16(4) == 65536;
  }

  lemma ContextIsRead(u: uint32) returns (field: bytes)
    ensures field == CONTEXT + Hex(u, 8) && ContextIn(field) == Some(u) && BAR !in field
  {
    HexOfWord(u);
    ContextOfHex(Hex(u, 8));
    HexHasNoBar(u, 8);
    field := CONTEXT + Hex(u, 8);
  }

  lemma {:induction false} HexHasNoBar(value: nat, digits: nat)
    ensures BAR !in Hex(value, digits)
  {
    if digits > 0 { HexHasNoBar(value / 16, digits - 1); }
  }

  /** The upper half of a packed word is what was packed there. */
  lemma UpperIsPacked(hi: bv32, lo: bv32)
    ensures Upper(((hi as bv64) << 32) | (lo as bv64)) == hi as int
  {
    UpperBits(hi, lo);
  }

  lemma UpperBits(hi: bv32, lo: bv32)
    ensures (((((hi as bv64) << 32) | (lo as bv64)) >> 32) as bv32) == hi
  {
  }

  /** The line of an error shows its domain, kind and reason, in this order, and its context in hex. */
  lemma ErrorIsRead(cat: Catalog, clock: TickConversion, r: Record, thread: bytes)
    requires clock.Valid() && Kind(r) == 0
    requires
      var d := cat.describe(r.payload);
      BAR !in d.domain && BAR !in d.kind && BAR !in d.reason
    ensures
      var d, message := cat.describe(r.payload), MessageIn(RecordLine(cat, clock, r, thread));
      && message.Some? && FieldsOf(message.value).Some?
      && var fields := FieldsOf(message.value).value;
         && |fields| == 4 && fields[0] == d.domain && fields[1] == d.kind && fields[2] == d.reason
         && ContextIn(fields[3]) == Some(Upper(r.payload))
  {
    var d := cat.describe(r.payload);
    var text, context := ErrorFields(cat, r.payload);
    RecordShowsItsColumns(cat, clock, r, thread);
  }

  lemma ErrorFields(cat: Catalog, raw: bv64) returns (text: bytes, context: bytes)
    requires
      var d := cat.describe(raw);
      BAR !in d.domain && BAR !in d.kind && BAR !in d.reason
    ensures text == ErrorText(cat, raw) && ContextIn(context) == Some(Upper(raw))
    ensures
      var d := cat.describe(raw);
      FieldsOf(text) == Some([d.domain] + ([d.kind] + ([d.reason] + [context])))
  {
    var d := cat.describe(raw);
    context := ContextIsRead(Upper(raw));
    text := ErrorText(cat, raw);
    FourFields(d.domain, d.kind, d.reason, context);
    ContextLast(d.domain + SEPARATOR + d.kind + SEPARATOR + d.reason + SEPARATOR, CONTEXT, Hex(Upper(raw), 8));
  }

  lemma ContextLast(a: bytes, b: bytes, c: bytes)
    ensures a + b + c == a + (b + c)
  {
  }

  lemma FirstOf(field: bytes, rest: bytes, fields: seq<bytes>)
    requires BAR !in field && FieldsOf(rest) == Some(fields)
    ensures FieldsOf(field + SEPARATOR + rest) == Some([field] + fields)
  {
    OneField(field, rest);
  }

  lemma TwoFields(c: bytes, d: bytes) returns (text: bytes)
    requires BAR !in c && BAR !in d
    ensures text == c + SEPARATOR + d && FieldsOf(text) == Some([c] + [d])
  {
    LastField(d);
    FirstOf(c, d, [d]);
    text := c + SEPARATOR + d;
  }

  lemma ThreeFields(b: bytes, c: bytes, d: bytes) returns (text: bytes)
    requires BAR !in b && BAR !in c && BAR !in d
    ensures text == b + SEPARATOR + (c + SEPARATOR + d) && FieldsOf(text) == Some([b] + ([c] + [d]))
  {
    var rest := TwoFields(c, d);
    FirstOf(b, rest, [c] + [d]);
    text := b + SEPARATOR + rest;
  }

  lemma FourFields(a: bytes, b: bytes, c: bytes, d: bytes)
    requires BAR !in a && BAR !in b && BAR !in c && BAR !in d
    ensures FieldsOf(a + SEPARATOR + b + SEPARATOR + c + SEPARATOR + d) == Some([a] + ([b] + ([c] + [d])))
  {
    var rest := ThreeFields(b, c, d);
    FirstOf(a, rest, [b] + ([c] + [d]));
    Regroup(a, SEPARATOR, b, c, d);
  }

  lemma Regroup(a: bytes, s: bytes, b: bytes, c: bytes, d: bytes)
    ensures a + s + b + s + c + s + d == a + s + (b + s + (c + s + d))
  {
  }

  // ---------------------------------------------------------------- integers

  /** An integer: blanks, a minus sign or none, and digits. */
  ghost function ReadInteger(text: bytes): Option<int> {
    if text == [] then None
    else if text[0] == SPACE then ReadInteger(text[1..])
    else if text[0] == 45 then
      if |text| > 1 && AllDigits(text[1..]) then Some(-(Number(text[1..]) as int)) else None
    else if AllDigits(text) then Some(Number(text) as int)
    else None
  }

  lemma {:induction false} ReadBlanks(n: nat, text: bytes)
    requires text != [] && text[0] != SPACE
    ensures ReadInteger(Repeat(SPACE, n) + text) == ReadInteger(text)
  {
    if n == 0 {
      assert Repeat(SPACE, 0) + text == text;
    } else {
      ReadBlanks(n - 1, text);
      assert (Repeat(SPACE, n) + text)[1..] == Repeat(SPACE, n - 1) + text;
    }
  }

  lemma ReadDigits(digits: bytes)
    requires digits != [] && AllDigits(digits)
    ensures ReadInteger(digits) == Some(Number(digits) as int) && digits[0] != SPACE
  {
  }

  lemma ReadMinus(digits: bytes)
    requires digits != [] && AllDigits(digits)
    ensures ReadInteger([45] + digits) == Some(-(Number(digits) as int))
  {
    assert ([45] + digits)[1..] == digits;
  }

  lemma DigitsOf(v: nat) returns (digits: bytes)
    ensures digits == Decimal(v) && digits != [] && AllDigits(digits) && Number(digits) == v
  {
    digits := Decimal(v);
    DecimalReadsBack(v);
  }

  /** Every integer, negative ones included, reads back from its shortest form. */
  lemma SignedReadsBack(v: int)
    ensures ReadInteger(SignedDecimal(v)) == Some(v)
    ensures SignedDecimal(v) != [] && SignedDecimal(v)[0] != SPACE
  {
    var digits := DigitsOf(if v < 0 then -v else v);
    if v < 0 {
      ReadMinus(digits);
    } else {
      ReadDigits(digits);
    }
  }

  /** No number has a zero in front but zero itself. */
  lemma {:induction false} DecimalIsShortest(n: nat)
    ensures Decimal(n)[0] == 48 <==> n == 0
    ensures n == 0 ==> |Decimal(n)| == 1
  {
    if n >= 10 {
      DecimalIsShortest(n / 10);
      assert Decimal(n)[0] == Decimal(n / 10)[0];
    }
  }

  /** A fill of blanks stands in front of the shortest form; a fill of zeros leaves no blank. */
  lemma FillIsAsAsked(v: int, width: nat)
    ensures
      var text, shortest := AlignedDecimal(v, width, 32), SignedDecimal(v);
      && |shortest| <= |text| && text[|text| - |shortest|..] == shortest
      && forall i | 0 <= i < |text| - |shortest| :: text[i] == 32
    ensures 32 !in AlignedDecimal(v, width, 48)
  {
    var shortest := SignedDecimal(v);
    assert (Repeat(32, if |shortest| < width then width - |shortest| else 0) + shortest)[
      if |shortest| < width then width - |shortest| else 0..] == shortest;
    NoBlankInside(v);
  }

  lemma NoBlankInside(v: int)
    ensures 32 !in SignedDecimal(v)
  {
    var digits := DigitsOf(if v < 0 then -v else v);
  }

  /** A right-aligned integer reads back, whatever its sign, the width and the fill, and is as wide as the width
      or as its shortest form. */
  lemma AlignedIntegerReadsBack(v: int, width: nat, fill: byte)
    requires fill == SPACE || fill == ZERO
    ensures ReadInteger(AlignedDecimal(v, width, fill)) == Some(v)
    ensures
      |AlignedDecimal(v, width, fill)| == if |SignedDecimal(v)| < width then width else |SignedDecimal(v)|
  {
    var text := SignedDecimal(v);
    SignedReadsBack(v);
    if |text| < width {
      var n := width - |text|;
      if fill == SPACE {
        ReadBlanks(n, text);
      } else if v < 0 {
        ZerosAfterSign(n, v);
      } else {
        ZerosInFront(n, v);
      }
    }
  }

  lemma ZerosInFront(n: nat, v: nat)
    requires n > 0
    ensures ReadInteger(Repeat(ZERO, n) + Decimal(v)) == Some(v)
  {
    var last := DigitsOf(v);
    var digits := WithZeros(n, last);
    ReadDigits(digits);
  }

  lemma ZerosAfterSign(n: nat, v: int)
    requires n > 0 && v < 0
    ensures ReadInteger([MINUS] + Repeat(ZERO, n) + SignedDecimal(v)[1..]) == Some(v)
  {
    var last := DigitsAfterSign(v);
    var digits := WithZeros(n, last);
    MinusInFront(Repeat(ZERO, n), last, digits, v);
  }

  lemma DigitsAfterSign(v: int) returns (digits: bytes)
    requires v < 0
    ensures digits == SignedDecimal(v)[1..] && digits != [] && AllDigits(digits) && Number(digits) == -v
  {
    digits := DigitsOf(-v);
    assert ([MINUS] + digits)[1..] == digits;
  }

  lemma WithZeros(n: nat, last: bytes) returns (digits: bytes)
    requires last != [] && AllDigits(last)
    ensures digits == Repeat(ZERO, n) + last && AllDigits(digits) && digits != [] && Number(digits) == Number(last)
  {
    digits := Repeat(ZERO, n) + last;
    PaddingIsWorthNothing(ZERO, n, last);
  }

  lemma MinusInFront(zeros: bytes, last: bytes, digits: bytes, v: int)
    requires digits == zeros + last && AllDigits(digits) && digits != [] && Number(digits) == -v
    ensures ReadInteger([MINUS] + zeros + last) == Some(v)
  {
    ReadMinus(digits);
    Associative([MINUS], zeros, last);
  }

  // ---------------------------------------------------------------- messages

  /** The 32 bits read as a signed number are the one number of 32 signed bits with the same remainder. */
  lemma SignedIsTwosComplement(u: uint32)
    ensures -0x8000_0000 <= AsSigned(u) < 0x8000_0000 && AsSigned(u) % 0x1_0000_0000 == u
  {
  }

  lemma AfterHexPrefix(hex: bytes)
    ensures
      var text := HEX_PREFIX + hex;
      |text| == 2 + |hex| && Spells(text[..2], "0x") && text[2..] == hex
  {
    assert (HEX_PREFIX + hex)[..2] == HEX_PREFIX;
  }

  /** The argument of a message reads back as what its message declares. */
  lemma ArgumentIsRead(cat: Catalog, argument: Argument, bits: uint32)
    ensures
      var text := ArgumentText(cat, argument, bits);
      match argument
      case NoArgument => text == []
      case Unsigned => ReadInteger(text) == Some(bits)
      case Signed => ReadInteger(text) == Some(AsSigned(bits))
      case HexArgument => |text| == 10 && Spells(text[..2], "0x") && HexNumber(text[2..]) == bits
      case Float => text == cat.floatText(bits)
      case Undeclared => Spells(text, "?")
  {
    match argument {
      case Unsigned => SignedReadsBack(bits);
      case Signed => SignedReadsBack(AsSigned(bits));
      case HexArgument =>
        HexOfWord(bits);
        AfterHexPrefix(Hex(bits, 8));
      case _ =>
    }
  }

  /** The line of a message shows its domain, and then its text with the argument where it goes. */
  lemma MessageIsRead(cat: Catalog, clock: TickConversion, r: Record, thread: bytes)
    requires clock.Valid() && Kind(r) == 1 && BAR !in cat.domainOf(r.payload)
    ensures
      var message := MessageIn(RecordLine(cat, clock, r, thread));
      && message.Some? && FirstBar(message.value) < |message.value| - 1
      && var k, m := FirstBar(message.value), cat.textOf(r.payload);
         && k > 0 && message.value[..k - 1] == cat.domainOf(r.payload)
         && message.value[k - 1] == 32 && message.value[k + 1] == 32
         && message.value[k + 2..] == m.prefix + ArgumentText(cat, m.argument, Upper(r.payload)) + m.suffix
  {
    var m, domain := cat.textOf(r.payload), cat.domainOf(r.payload);
    RecordShowsItsColumns(cat, clock, r, thread);
    var text := m.prefix + ArgumentText(cat, m.argument, Upper(r.payload)) + m.suffix;
    assert MessageLine(cat, r.payload) == domain + SEPARATOR + text by {
      AfterSeparator(domain, m.prefix, ArgumentText(cat, m.argument, Upper(r.payload)), m.suffix);
    }
    AfterDomain(domain, text);
  }

  lemma AfterSeparator(a: bytes, b: bytes, c: bytes, d: bytes)
    ensures a + SEPARATOR + b + c + d == a + SEPARATOR + (b + c + d)
  {
  }

  lemma AfterDomain(domain: bytes, text: bytes)
    requires BAR !in domain
    ensures
      var message, k := domain + SEPARATOR + text, |domain| + 1;
      && FirstBar(message) == k && k + 1 < |message| && message[..k - 1] == domain
      && message[k - 1] == 32 && message[k + 1] == 32 && message[k + 2..] == text
  {
    var message := domain + SEPARATOR + text;
    assert message == (domain + [SPACE]) + [BAR] + ([SPACE] + text);
    FirstBarIs(domain + [SPACE], [SPACE] + text);
  }

  /** A record of a type without a meaning shows a question mark. */
  lemma OtherTypesAreShown(cat: Catalog, clock: TickConversion, r: Record, thread: bytes)
    requires clock.Valid() && Kind(r) > 1
    ensures
      var message := MessageIn(RecordLine(cat, clock, r, thread));
      message.Some? && Spells(message.value, "?")
  {
    RecordShowsItsColumns(cat, clock, r, thread);
  }
}
