/** The text the line writer's operations stand for, as if the buffer had no end. */
module Text {
  import opened Swar
  import Words

  type bytes = seq<byte>

  const LF: byte := 10
  const CR: byte := 13
  const QUESTION: byte := 63
  const MINUS: byte := 45
  const ZERO: byte := 48

  function Repeat(c: byte, n: nat): (r: bytes)
    ensures |r| == n && forall i | 0 <= i < n :: r[i] == c
  {
    seq(n, _ => c)
  }

  lemma Associative(a: bytes, b: bytes, c: bytes)
    ensures (a + b) + c == a + (b + c)
  {
  }

  /** The position of the first control character, or the length of a text that has none. */
  function FirstControl(text: bytes): (k: nat)
    ensures k <= |text|
    ensures forall i | 0 <= i < k :: !IsControl(text[i])
    ensures k < |text| ==> IsControl(text[k])
  {
    if text == [] || IsControl(text[0]) then 0 else 1 + FirstControl(text[1..])
  }

  lemma FirstControlIs(text: bytes, k: nat)
    requires k <= |text| && (forall i | 0 <= i < k :: !IsControl(text[i])) && (k < |text| ==> IsControl(text[k]))
    ensures FirstControl(text) == k
  {
  }

  // ---------------------------------------------------------------- continued lines

  /** One byte at a time: a newline starts a line under the message, the CR of a CRLF is dropped, any
      other control character becomes a question mark. */
  function Reference(text: bytes, column: nat): bytes {
    if text == [] then []
    else if text[0] == LF then [LF] + Repeat(SPACE, column) + Reference(text[1..], column)
    else if text[0] == CR && |text| > 1 && text[1] == LF then Reference(text[1..], column)
    else if IsControl(text[0]) then [QUESTION] + Reference(text[1..], column)
    else [text[0]] + Reference(text[1..], column)
  }

  /** The text without its one trailing newline, LF or CRLF. */
  function WithoutNewline(text: bytes): bytes {
    if text == [] || text[|text| - 1] != LF then text
    else if |text| > 1 && text[|text| - 2] == CR then text[..|text| - 2]
    else text[..|text| - 1]
  }

  /** What append_continued writes of a text. */
  function Continued(text: bytes, column: nat): bytes {
    Reference(WithoutNewline(text), column)
  }

  lemma ReferenceNotEmpty(text: bytes, column: nat)
    requires text != []
    ensures Reference(text, column) != []
  {
  }

  /** The plain run up to a control character is copied as it is. */
  lemma {:induction false} ReferencePlain(text: bytes, column: nat, k: nat)
    requires k <= FirstControl(text)
    ensures Reference(text, column) == text[..k] + Reference(text[k..], column)
  {
    if k == 0 {
      assert text[..0] + Reference(text[0..], column) == Reference(text, column);
    } else {
      var rest := text[1..];
      ReferencePlain(rest, column, k - 1);
      assert Reference(text, column) == [text[0]] + Reference(rest, column);
      SplitAfterFirst(text, k, Reference(text[k..], column));
    }
  }

  lemma SplitAfterFirst(text: bytes, k: nat, r: bytes)
    requires 0 < k <= |text|
    ensures text[k..] == text[1..][k - 1..]
    ensures [text[0]] + (text[1..][..k - 1] + r) == text[..k] + r
  {
  }

  /** What a control character stands for, the CR of a CRLF standing for nothing. */
  function ControlText(c: byte, column: nat): bytes {
    if c == LF then [LF] + Repeat(SPACE, column) else [QUESTION]
  }

  lemma ReferenceControl(text: bytes, column: nat)
    requires text != [] && IsControl(text[0])
    ensures
      var rest := if |text| > 1 && text[0] == CR && text[1] == LF then text[1..] else text;
      Reference(text, column) == ControlText(rest[0], column) + Reference(rest[1..], column)
  {
  }

  // ---------------------------------------------------------------- padding and numbers

  function Padded(text: bytes, width: nat, fill: byte): bytes {
    if |text| < width then text + Repeat(fill, width - |text|) else text
  }

  /** Exactly width characters. */
  function Fitted(text: bytes, width: nat, fill: byte): (r: bytes)
    ensures |r| == width
    ensures forall i | 0 <= i < width :: r[i] == if i < |text| then text[i] else fill
  {
    Padded(if |text| > width then text[..width] else text, width, fill)
  }

  function Digit(d: nat): byte
    requires d < 10
  {
    [48, 49, 50, 51, 52, 53, 54, 55, 56, 57][d]
  }

  /** The shortest decimal form of a natural number. */
  function Decimal(n: nat): (r: bytes)
    ensures r != []
    ensures forall i | 0 <= i < |r| :: IsDigit(r[i])
  {
    if n < 10 then [Digit(n)] else Decimal(n / 10) + [Digit(n % 10)]
  }

  predicate IsDigit(b: byte) {
    48 <= b <= 57
  }

  function SignedDecimal(v: int): bytes {
    if v < 0 then [MINUS] + Decimal(-v) else Decimal(v)
  }

  /** A number right-aligned in a width; a zero fill goes after the sign. */
  function AlignedDecimal(v: int, width: nat, fill: byte): (r: bytes)
    ensures |r| >= width
  {
    var text := SignedDecimal(v);
    if |text| >= width then text
    else if fill == ZERO && v < 0 then [MINUS] + Repeat(fill, width - |text|) + text[1..]
    else Repeat(fill, width - |text|) + text
  }

  function HexDigit(nibble: nat): (b: byte)
    requires nibble < 16
    ensures !IsControl(b)
  {
    [48, 49, 50, 51, 52, 53, 54, 55, 56, 57, 97, 98, 99, 100, 101, 102][nibble]
  }

  /** The low 4 * digits bits of a value, as that many hex digits. */
  function Hex(value: nat, digits: nat): (r: bytes)
    ensures |r| == digits
    ensures forall i | 0 <= i < digits :: !IsControl(r[i])
  {
    if digits == 0 then [] else Hex(value / 16, digits - 1) + [HexDigit(value % 16)]
  }

  // ---------------------------------------------------------------- reading numbers back

  function DigitValue(b: byte): nat {
    if b == 49 then 1 else if b == 50 then 2 else if b == 51 then 3 else if b == 52 then 4 else if b == 53 then 5
    else if b == 54 then 6 else if b == 55 then 7 else if b == 56 then 8 else if b == 57 then 9 else 0
  }

  /** The number a run of decimal digits spells, spaces in front counting for nothing. */
  function Number(text: bytes): nat {
    if text == [] then 0 else 10 * Number(text[..|text| - 1]) + DigitValue(text[|text| - 1])
  }

  lemma NumberAppends(a: bytes, b: byte)
    ensures Number(a + [b]) == 10 * Number(a) + DigitValue(b)
  {
    assert (a + [b])[..|a|] == a;
  }

  lemma {:induction false} DecimalReadsBack(n: nat)
    ensures Number(Decimal(n)) == n
  {
    if n < 10 {
      assert [Digit(n)] == [] + [Digit(n)];
      NumberAppends([], Digit(n));
      DigitBack(n);
    } else {
      DecimalReadsBack(n / 10);
      NumberAppends(Decimal(n / 10), Digit(n % 10));
      DigitBack(n % 10);
    }
  }

  lemma DigitBack(d: nat)
    requires d < 10
    ensures DigitValue(Digit(d)) == d
  {
  }

  /** Leading zeros and spaces are worth nothing. */
  lemma {:induction false} PaddingIsWorthNothing(fill: byte, n: nat, text: bytes)
    requires fill == ZERO || fill == SPACE
    ensures Number(Repeat(fill, n) + text) == Number(text)
  {
    if text != [] {
      var m := |text| - 1;
      PaddingIsWorthNothing(fill, n, text[..m]);
      NumberAppends(Repeat(fill, n) + text[..m], text[m]);
      assert Repeat(fill, n) + text == Repeat(fill, n) + text[..m] + [text[m]];
    } else if n > 0 {
      PaddingIsWorthNothing(fill, n - 1, []);
      NumberAppends(Repeat(fill, n - 1), fill);
      assert Repeat(fill, n) + text == Repeat(fill, n - 1) + [fill];
      assert Repeat(fill, n - 1) + [] == Repeat(fill, n - 1);
    } else {
      assert Repeat(fill, n) + text == text;
    }
  }

  /** A number below 10^k has at most k digits. */
  lemma {:induction false} DecimalSize(n: nat, k: nat)
    requires k >= 1 && n < Pow10(k)
    ensures |Decimal(n)| <= k
  {
    if n >= 10 {
      assert k > 1;
      DecimalSize(n / 10, k - 1);
    }
  }

  function Pow10(k: nat): (p: nat)
    ensures p >= 1
  {
    if k == 0 then 1 else 10 * Pow10(k - 1)
  }

  /** The number a run of hex digits spells. */
  function HexNumber(text: bytes): nat {
    if text == [] then 0 else 16 * HexNumber(text[..|text| - 1]) + HexDigitValue(text[|text| - 1])
  }

  function HexDigitValue(b: byte): nat {
    if b == 97 then 10 else if b == 98 then 11 else if b == 99 then 12 else if b == 100 then 13
    else if b == 101 then 14 else if b == 102 then 15 else DigitValue(b)
  }

  function Pow16(k: nat): (p: nat)
    ensures p >= 1
  {
    if k == 0 then 1 else 16 * Pow16(k - 1)
  }

  /** Hex digits spell the low bits of the value they were made from. */
  lemma {:induction false} HexReadsBack(value: nat, digits: nat)
    ensures HexNumber(Hex(value, digits)) == value % Pow16(digits)
  {
    if digits > 0 {
      HexReadsBack(value / 16, digits - 1);
      NibbleBack(value % 16);
      OneMoreNibble(Hex(value / 16, digits - 1), HexDigit(value % 16));
      LowNibble(value, Pow16(digits - 1));
    }
  }

  lemma OneMoreNibble(text: bytes, d: byte)
    ensures HexNumber(text + [d]) == 16 * HexNumber(text) + HexDigitValue(d)
  {
    assert (text + [d])[..|text|] == text;
  }

  lemma NibbleBack(nibble: nat)
    requires nibble < 16
    ensures HexDigitValue(HexDigit(nibble)) == nibble
  {
  }

  lemma LowNibble(value: nat, p: nat)
    requires p > 0
    ensures 16 * (value / 16 % p) + value % 16 == value % (16 * p)
  {
    var q, r := value / 16 / p, value / 16 % p;
    assert value / 16 == p * q + r;
    assert 16 * p * q == 16 * (p * q) by { Words.MulOfMul(16, p, q); }
    Words.ModUnique(value, 16 * p, q, 16 * r + value % 16);
  }
}
