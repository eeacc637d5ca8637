/** The texts of log messages: which of them suit their argument, and how they are split at it. */
module MessageTexts {
  import opened Wrappers
  import opened Text
  import opened Swar
  import opened LogFormat

  const OPEN_BRACE: byte := 123
  const CLOSE_BRACE: byte := 125
  const LAST_PRINTABLE: byte := 126
  const PLACEHOLDER: bytes := [OPEN_BRACE, CLOSE_BRACE]

  // ---------------------------------------------------------------- what suits a message

  predicate IsBrace(b: byte) { b == OPEN_BRACE || b == CLOSE_BRACE }

  ghost predicate BraceFree(text: bytes) {
    forall i | 0 <= i < |text| :: !IsBrace(text[i])
  }

  /** A text that is a prefix and a suffix without braces around the one placeholder. */
  ghost predicate IsAround(text: bytes, prefix: bytes, suffix: bytes) {
    BraceFree(prefix) && BraceFree(suffix) && text == prefix + PLACEHOLDER + suffix
  }

  /** Printable ASCII. */
  ghost predicate OneLine(text: bytes) {
    forall i | 0 <= i < |text| :: SPACE <= text[i] <= LAST_PRINTABLE
  }

  /** A line of printable ASCII, without spaces at its edges, whose only braces are the one placeholder,
      there exactly when the message has an argument. */
  ghost predicate Suits(text: bytes, argument: Argument) {
    && text != [] && text[0] != SPACE && text[|text| - 1] != SPACE && OneLine(text)
    && match argument
       case Undeclared => false
       case NoArgument => BraceFree(text)
       case _ => exists prefix, suffix :: IsAround(text, prefix, suffix)
  }

  lemma ByteInCodes(b: byte)
    ensures SPACE <= b <= LAST_PRINTABLE <==> 32 <= b as int <= 126
    ensures b == SPACE <==> b as int == 32
  {
  }

  lemma OneLineInCodes(text: bytes)
    ensures OneLine(text) <==> forall i | 0 <= i < |text| :: 32 <= text[i] as int <= 126
  {
    forall i | 0 <= i < |text|
      ensures SPACE <= text[i] <= LAST_PRINTABLE <==> 32 <= text[i] as int <= 126
    {
      ByteInCodes(text[i]);
    }
  }

  /** A placeholder between two texts without braces, by their codes. */
  ghost predicate AroundInCodes(text: bytes, prefix: bytes, suffix: bytes) {
    && text == prefix + [123, 125] + suffix
    && 123 !in prefix && 125 !in prefix && 123 !in suffix && 125 !in suffix
  }

  lemma SplitInCodes(text: bytes)
    ensures
      (exists prefix, suffix :: IsAround(text, prefix, suffix))
      <==> exists prefix, suffix :: AroundInCodes(text, prefix, suffix)
  {
    if prefix, suffix :| IsAround(text, prefix, suffix) {
      assert AroundInCodes(text, prefix, suffix);
    }
    if prefix, suffix :| AroundInCodes(text, prefix, suffix) {
      assert IsAround(text, prefix, suffix);
    }
  }

  /** What suits a message, in codes of characters. */
  lemma SuitsInCodes(text: bytes, argument: Argument)
    ensures
      Suits(text, argument) <==>
        && text != [] && (forall i | 0 <= i < |text| :: 32 <= text[i] as int <= 126)
        && text[0] as int != 32 && text[|text| - 1] as int != 32 && !argument.Undeclared?
        && if argument.NoArgument? then 123 !in text && 125 !in text
           else exists prefix, suffix :: AroundInCodes(text, prefix, suffix)
  {
    OneLineInCodes(text);
    SplitInCodes(text);
    assert BraceFree(text) <==> 123 !in text && 125 !in text;
    if text != [] {
      ByteInCodes(text[0]);
      ByteInCodes(text[|text| - 1]);
    }
  }

  /** There is one way to split a text. */
  lemma SplitIsUnique(text: bytes, p: bytes, s: bytes, q: bytes, t: bytes)
    requires IsAround(text, p, s) && IsAround(text, q, t)
    ensures p == q && s == t
  {
    assert text[|p|] == OPEN_BRACE && text[|q|] == OPEN_BRACE;
    assert |p| == |q|;
    assert p == text[..|p|] && q == text[..|q|];
    assert s == text[|p| + 2..] && t == text[|q| + 2..];
  }

  // ---------------------------------------------------------------- counting braces

  ghost function Braces(text: bytes): nat {
    if text == [] then 0
    else Braces(text[..|text| - 1]) + if IsBrace(text[|text| - 1]) then 1 else 0
  }

  ghost predicate PlaceholderAt(text: bytes, i: nat) {
    i + 2 <= |text| && text[i..i + 2] == PLACEHOLDER
  }

  lemma {:induction false} BracesOfBoth(a: bytes, b: bytes)
    ensures Braces(a + b) == Braces(a) + Braces(b)
  {
    if b == [] {
      assert a + b == a;
    } else {
      var n := |b| - 1;
      BracesOfBoth(a, b[..n]);
      assert (a + b)[..|a| + n] == a + b[..n];
    }
  }

  lemma {:induction false} NoBraces(text: bytes)
    ensures Braces(text) == 0 <==> BraceFree(text)
  {
    if text != [] {
      var n := |text| - 1;
      NoBraces(text[..n]);
      assert text == text[..n] + [text[n]];
    }
  }

  lemma AroundHasTwoBraces(prefix: bytes, suffix: bytes)
    ensures Braces(prefix + PLACEHOLDER + suffix) == Braces(prefix) + 2 + Braces(suffix)
  {
    BracesOfBoth(prefix + PLACEHOLDER, suffix);
    BracesOfBoth(prefix, PLACEHOLDER);
    assert Braces([OPEN_BRACE]) == 1;
    BracesOfBoth([OPEN_BRACE], [CLOSE_BRACE]);
    assert [OPEN_BRACE] + [CLOSE_BRACE] == PLACEHOLDER;
  }

  /** A text with a placeholder and two braces in all is split at the placeholder. */
  lemma SplitAt(text: bytes, i: nat)
    requires PlaceholderAt(text, i)
    ensures text == text[..i] + PLACEHOLDER + text[i + 2..]
    ensures Braces(text) == 2 <==> IsAround(text, text[..i], text[i + 2..])
  {
    assert text == text[..i] + PLACEHOLDER + text[i + 2..];
    AroundHasTwoBraces(text[..i], text[i + 2..]);
    NoBraces(text[..i]);
    NoBraces(text[i + 2..]);
  }

  /** Two braces that make a placeholder are the same as a split. */
  lemma TwoBracesSplit(text: bytes)
    ensures
      (exists i: nat :: PlaceholderAt(text, i)) && Braces(text) == 2
      <==> exists prefix, suffix :: IsAround(text, prefix, suffix)
  {
    if i: nat :| PlaceholderAt(text, i) {
      SplitAt(text, i);
    }
    if prefix, suffix :| IsAround(text, prefix, suffix) {
      assert text[|prefix|..|prefix| + 2] == PLACEHOLDER;
      assert PlaceholderAt(text, |prefix|);
      AroundHasTwoBraces(prefix, suffix);
      NoBraces(prefix);
      NoBraces(suffix);
    }
  }

  lemma PlaceholderHasBraces(text: bytes, i: nat)
    requires PlaceholderAt(text, i)
    ensures Braces(text) > 0
  {
    NoBraces(text);
    assert text[i] == text[i..i + 2][0];
  }

  // ---------------------------------------------------------------- the program

  /** Whether the text suits the argument, in one pass. */
  method IsValid(text: bytes, argument: Argument) returns (valid: bool)
    ensures valid <==> Suits(text, argument)
  {
    if text == [] || text[0] == SPACE || text[|text| - 1] == SPACE || argument.Undeclared? {
      return false;
    }
    var braces, hasPlaceholder := 0, false;
    for i := 0 to |text|
      invariant OneLine(text[..i]) && braces == Braces(text[..i])
      invariant hasPlaceholder <==> exists j: nat | j < i :: PlaceholderAt(text, j)
    {
      var c := text[i];
      if c < SPACE || c > LAST_PRINTABLE {
        return false;
      }
      assert text[..i + 1][..i] == text[..i];
      var here := |text| - i >= 2 && text[i..i + 2] == PLACEHOLDER;
      assert here <==> PlaceholderAt(text, i);
      if IsBrace(c) {
        braces := braces + 1;
        hasPlaceholder := hasPlaceholder || here;
      } else {
        assert here ==> text[i] == text[i..i + 2][0];
      }
    }
    assert text[..|text|] == text;
    BracesDecide(text, argument, hasPlaceholder, braces);
    return hasPlaceholder == (argument != NoArgument) && braces == (if hasPlaceholder then 2 else 0);
  }

  /** What the one pass finds decides whether the text suits its argument. */
  lemma BracesDecide(text: bytes, argument: Argument, hasPlaceholder: bool, braces: nat)
    requires hasPlaceholder <==> exists j: nat | j < |text| :: PlaceholderAt(text, j)
    requires braces == Braces(text) && !argument.Undeclared?
    ensures
      hasPlaceholder == (argument != NoArgument) && braces == (if hasPlaceholder then 2 else 0)
      <==> if argument == NoArgument then BraceFree(text) else exists prefix, suffix :: IsAround(text, prefix, suffix)
  {
    TwoBracesSplit(text);
    NoBraces(text);
    if j: nat :| PlaceholderAt(text, j) {
      PlaceholderHasBraces(text, j);
    }
  }

  /** The position of the first placeholder, if there is one. */
  method Find(text: bytes) returns (position: Option<nat>)
    ensures position.Some? ==> PlaceholderAt(text, position.value)
    ensures position.Some? ==> forall j: nat | j < position.value :: !PlaceholderAt(text, j)
    ensures position.None? ==> forall j: nat :: !PlaceholderAt(text, j)
  {
    for i := 0 to |text|
      invariant forall j: nat | j < i :: !PlaceholderAt(text, j)
    {
      if |text| - i >= 2 && text[i..i + 2] == PLACEHOLDER {
        return Some(i);
      }
    }
    return None;
  }

  /** The text a message text was made from. */
  function Whole(m: MessageText): bytes {
    if m.argument.NoArgument? then m.prefix + m.suffix else m.prefix + PLACEHOLDER + m.suffix
  }

  /** A text that suits its argument, split where the argument goes; a text that does not is rejected. */
  method Make(text: bytes, argument: Argument) returns (m: Option<MessageText>)
    ensures m.Some? <==> Suits(text, argument)
    ensures m.Some? ==> m.value.argument == argument && Whole(m.value) == text
    ensures m.Some? ==> BraceFree(m.value.prefix) && BraceFree(m.value.suffix)
    ensures m.Some? && argument.NoArgument? ==> m.value.suffix == []
  {
    var valid := IsValid(text, argument);
    if !valid {
      return None;
    }
    var position := Find(text);
    BracesDecideOnce(text, argument);
    if position.Some? {
      SplitAt(text, position.value);
      return Some(MessageText(text[..position.value], text[position.value + 2..], argument));
    }
    return Some(MessageText(text, [], argument));
  }

  /** A text that suits its argument has a placeholder exactly when there is an argument. */
  lemma BracesDecideOnce(text: bytes, argument: Argument)
    requires Suits(text, argument)
    ensures (exists i: nat :: PlaceholderAt(text, i)) <==> argument != NoArgument
    ensures argument != NoArgument ==> Braces(text) == 2
  {
    TwoBracesSplit(text);
    NoBraces(text);
    if j: nat :| PlaceholderAt(text, j) {
      PlaceholderHasBraces(text, j);
    }
  }

  /** The texts of a message enumeration, each with the argument its message declares; rejected if one does
      not suit its argument or there are more texts than messages. */
  method Table(texts: seq<bytes>, arguments: seq<Argument>) returns (table: Option<seq<MessageText>>)
    ensures
      table.Some? <==>
        |texts| <= |arguments| && forall i | 0 <= i < |texts| :: Suits(texts[i], arguments[i])
    ensures
      table.Some? ==>
        && |table.value| == |texts|
        && forall i | 0 <= i < |texts| :: table.value[i].argument == arguments[i] && Whole(table.value[i]) == texts[i]
  {
    if |texts| > |arguments| {
      return None;
    }
    var result: seq<MessageText> := [];
    for i := 0 to |texts|
      invariant |result| == i && forall j | 0 <= j < i :: Suits(texts[j], arguments[j])
      invariant forall j | 0 <= j < i :: result[j].argument == arguments[j] && Whole(result[j]) == texts[j]
    {
      var m := Make(texts[i], arguments[i]);
      if m.None? {
        return None;
      }
      result := result + [m.value];
    }
    return Some(result);
  }

  /** The parts of a text that suits its argument hold no control character, so no line of the log is broken. */
  lemma PartsArePrintable(m: MessageText, text: bytes)
    requires Suits(text, m.argument) && Whole(m) == text
    ensures Printable(m.prefix) && Printable(m.suffix)
  {
    assert Printable(text);
    forall i | 0 <= i < |m.prefix| ensures !IsControl(m.prefix[i]) {
      assert m.prefix[i] == text[i];
    }
    forall i | 0 <= i < |m.suffix| ensures !IsControl(m.suffix[i]) {
      assert m.suffix[i] == text[|text| - |m.suffix| + i];
    }
  }
}
