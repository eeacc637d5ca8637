/** The bounded line writer: text appended in place into a window of a buffer, cut at its end. */
module LineWriter {
  import opened Swar
  import opened Text

  class LineWriter {
    // The caller's buffer: capacity bytes of it, from start on.
    const buffer: array<byte>
    const start: nat
    const capacity: nat

    var size: nat
    var truncated: bool

    /** What a writer without an end would hold after the same appends. */
    ghost var whole: bytes

    // The caller's bytes on both sides of the window.
    ghost const before: bytes
    ghost const after: bytes

    /** The prefix law: the window holds the first capacity bytes of the whole, the flag says whether
        that is less than all of it, and nothing outside the window has changed. */
    ghost predicate Valid()
      reads this, buffer
    {
      && start + capacity <= buffer.Length
      && size == (if |whole| <= capacity then |whole| else capacity)
      && (truncated <==> |whole| > capacity)
      && buffer[start..start + size] == whole[..size]
      && Framed()
    }

    ghost predicate Framed()
      requires start + capacity <= buffer.Length
      reads buffer
    {
      buffer[..start] == before && buffer[start + capacity..] == after
    }

    constructor (buffer: array<byte>, start: nat, capacity: nat)
      requires start + capacity <= buffer.Length
      ensures Valid() && whole == []
      ensures this.buffer == buffer && this.start == start && this.capacity == capacity
      ensures before == buffer[..start] && after == buffer[start + capacity..]
    {
      this.buffer, this.start, this.capacity := buffer, start, capacity;
      before, after := buffer[..start], buffer[start + capacity..];
      size, truncated, whole := 0, false, [];
    }

    /** The characters written so far. */
    ghost function View(): bytes
      requires Valid()
      reads this, buffer
    {
      buffer[start..start + size]
    }

    /** The append wrote the text, cut at the end of the window, and nothing else. */
    twostate predicate Appended(text: bytes)
      reads this, buffer
    {
      Valid() && whole == old(whole) + text
    }

    /** What an append means to the caller: the view grows by the first characters of the text, as many
        as there is room for, and the flag is raised exactly when that is not all of it. */
    twostate lemma GrowsByWhatFits(text: bytes)
      requires old(Valid()) && Appended(text)
      ensures
        var room := capacity - old(size);
        && View() == old(View()) + (if |text| <= room then text else text[..room])
        && (truncated <==> old(truncated) || |text| > room)
        && (truncated ==> size == capacity)
    {
      var room := capacity - old(size);
      var fits := if |text| <= room then text else text[..room];
      FirstOfBoth(old(whole), text, capacity);
    }

    static lemma FirstOfBoth(a: bytes, b: bytes, n: nat)
      ensures
        var m := if |a| <= n then |a| else n;
        var fits := if |b| <= n - m then b else b[..n - m];
        (a + b)[..if |a + b| <= n then |a + b| else n] == a[..m] + fits
    {
    }

    // ---------------------------------------------------------------- plain runs

    /** Copy the text up to its first control character and return its position. Bytes of the window
        past the position may be overwritten. */
    static method CopyPlain(out: array<byte>, at: nat, text: bytes) returns (position: nat)
      requires at + |text| <= out.Length
      modifies out
      ensures position == FirstControl(text)
      ensures Copied(out, at, text, position)
      ensures forall i | 0 <= i < out.Length && !(at <= i < at + |text|) :: out[i] == old(out[i])
    {
      position := 0;
      while |text| - position >= 8
        invariant position <= FirstControl(text)
        invariant Copied(out, at, text, position)
        invariant forall i | 0 <= i < out.Length && !(at <= i < at + |text|) :: out[i] == old(out[i])
      {
        var lane := CopyWord(out, at + position, text[position..position + 8]);
        FirstOfChunk(text, position);
        if lane < 8 {
          return position + lane;
        }
        position := position + 8;
      }
      position := CopyBytes(out, at, text, position);
    }

    /** The first n characters of the text are in place. */
    static ghost predicate Copied(out: array<byte>, at: nat, text: bytes, n: nat)
      requires at + |text| <= out.Length
      reads out
    {
      n <= |text| && forall i | at <= i < at + n :: out[i] == text[i - at]
    }

    /** Copy the characters from a position on, one by one. */
    static method CopyBytes(out: array<byte>, at: nat, text: bytes, from: nat) returns (position: nat)
      requires at + |text| <= out.Length && from <= FirstControl(text)
      requires Copied(out, at, text, from)
      modifies out
      ensures position == FirstControl(text) && Copied(out, at, text, position)
      ensures forall i | 0 <= i < out.Length && !(at <= i < at + |text|) :: out[i] == old(out[i])
    {
      position := from;
      while position < |text|
        invariant position <= FirstControl(text) && Copied(out, at, text, position)
        invariant forall i | 0 <= i < out.Length && !(at <= i < at + |text|) :: out[i] == old(out[i])
      {
        var code := text[position];
        if code < SPACE || code == DEL {
          FirstControlIs(text, position);
          return;
        }
        out[at + position] := text[position];
        position := position + 1;
      }
    }

    /** Copy eight bytes through one word, and say which of them is the first control character, or 8. */
    static method CopyWord(out: array<byte>, at: nat, b: bytes) returns (lane: nat)
      requires at + 8 <= out.Length && |b| == 8
      modifies out
      ensures lane == FirstControl(b)
      ensures forall i | at <= i < at + 8 :: out[i] == b[i - at]
      ensures forall i | 0 <= i < out.Length && !(at <= i < at + 8) :: out[i] == old(out[i])
    {
      var word := Pack(b);
      forall k | 0 <= k < 8 ensures LaneByte(word, k) == b[k] {
        StoresWhatWasLoaded(b, k);
      }
      StoreWord(out, at, word, b);
      lane := FindControl(word, b);
    }

    /** Store the eight bytes of a word. */
    static method StoreWord(out: array<byte>, at: nat, word: bv64, ghost b: bytes)
      requires at + 8 <= out.Length && |b| == 8
      requires forall k | 0 <= k < 8 :: LaneByte(word, k) == b[k]
      modifies out
      ensures forall i | at <= i < at + 8 :: out[i] == b[i - at]
      ensures forall i | 0 <= i < out.Length && !(at <= i < at + 8) :: out[i] == old(out[i])
    {
      var i := 0;
      while i < 8
        invariant i <= 8
        invariant forall j | at <= j < at + i :: out[j] == b[j - at]
        invariant forall j | 0 <= j < out.Length && !(at <= j < at + 8) :: out[j] == old(out[j])
      {
        out[at + i] := LaneByte(word, i);
        i := i + 1;
      }
    }

    /** Which of the eight bytes of a word is the first control character, or 8. */
    static method FindControl(word: bv64, ghost b: bytes) returns (lane: nat)
      requires |b| == 8 && word == Pack(b)
      ensures lane == FirstControl(b)
    {
      FlagsFindTheFirst(b, FirstControl(b));
      var flagged := Flagged(word);
      if flagged != 0 {
        return CountrZero(flagged) / 8;
      }
      return 8;
    }

    /** What the first control character of the eight bytes at a position says about the whole text. */
    static lemma FirstOfChunk(text: bytes, position: nat)
      requires position + 8 <= |text| && position <= FirstControl(text)
      ensures
        var k := FirstControl(text[position..position + 8]);
        if k == 8 then FirstControl(text) >= position + 8 else FirstControl(text) == position + k
    {
      var chunk := text[position..position + 8];
      var k := FirstControl(chunk);
      ChunkIsPlain(text, position, chunk, k);
      if k < 8 {
        FirstControlIs(text, position + k);
      }
    }

    /** A chunk of a text has its characters. */
    static lemma ChunkIsPlain(text: bytes, position: nat, chunk: bytes, k: nat)
      requires position + |chunk| <= |text| && chunk == text[position..position + |chunk|] && k <= |chunk|
      requires forall i | 0 <= i < position :: !IsControl(text[i])
      requires forall i | 0 <= i < k :: !IsControl(chunk[i])
      ensures forall i | 0 <= i < position + k :: !IsControl(text[i])
      ensures k < |chunk| ==> text[position + k] == chunk[k]
    {
      forall i | 0 <= i < position + k ensures !IsControl(text[i]) {
        if i >= position { assert chunk[i - position] == text[i]; }
      }
    }

    // ---------------------------------------------------------------- appends

    /** The first n characters of the text are behind the view, n being as many as fit. */
    ghost predicate Behind(text: bytes, n: nat)
      reads this, buffer
    {
      && start + capacity <= buffer.Length && Framed()
      && size == (if |whole| <= capacity then |whole| else capacity)
      && n == (if |text| <= capacity - size then |text| else capacity - size)
      && buffer[start..start + size] == whole[..size]
      && buffer[start + size..start + size + n] == text[..n]
      && (truncated <==> |whole| > capacity || |text| > capacity - size)
    }

    /** Take the n characters behind the view, all of the text that fits, into the view. */
    method Advance(n: nat, ghost text: bytes)
      requires Behind(text, n)
      modifies this`size, this`whole
      ensures Valid() && whole == old(whole) + text && size == old(size) + n
    {
      assert (whole + text)[..size + n] == whole[..size] + text[..n];
      assert buffer[start..start + size + n] == buffer[start..start + size] + buffer[start + size..start + size + n];
      size := size + n;
      whole := whole + text;
    }

    /** Writing inside the window, behind the view, leaves the view and the bytes around the window. */
    twostate lemma AroundKept()
      requires size == old(size) <= capacity && start + capacity <= buffer.Length
      requires
        forall i | 0 <= i < buffer.Length && !(start + size <= i < start + capacity) :: buffer[i] == old(buffer[i])
      ensures buffer[start..start + size] == old(buffer[start..start + size])
      ensures buffer[..start] == old(buffer[..start]) && buffer[start + capacity..] == old(buffer[start + capacity..])
    {
    }

    /** Copy a text into a buffer. */
    static method Copy(out: array<byte>, at: nat, text: bytes)
      requires at + |text| <= out.Length
      modifies out
      ensures out[at..at + |text|] == text
      ensures forall i | 0 <= i < out.Length && !(at <= i < at + |text|) :: out[i] == old(out[i])
    {
      var i := 0;
      while i < |text|
        invariant i <= |text|
        invariant forall j | at <= j < at + i :: out[j] == text[j - at]
        invariant forall j | 0 <= j < out.Length && !(at <= j < at + |text|) :: out[j] == old(out[j])
      {
        out[at + i] := text[i];
        i := i + 1;
      }
    }

    /** Append the text up to its first control character. Return its position when the writer reached
        it, and the length of the text when there is none or the window ended first; in that case all
        that an endless writer would hold of the text, rest included, has been appended and cut. */
    method AppendPlain(text: bytes, ghost rest: bytes) returns (control: nat)
      requires Valid() && (rest == [] <==> FirstControl(text) == |text|)
      modifies this, buffer
      ensures control <= |text|
      ensures control < |text| ==> control == FirstControl(text) && Appended(text[..control])
      ensures control == |text| ==> Appended(text[..FirstControl(text)] + rest)
    {
      var room := capacity - size;
      var fitting := if |text| <= room then text else text[..room];
      PrefixControl(text, |fitting|);
      control := CopyFitting(fitting);
      if control < |fitting| {
        assert text[..control] == fitting[..control];
        Advance(control, text[..control]);
        return control;
      }
      assert fitting[..control] == text[..control];
      TakePlain(text, rest, control);
      return |text|;
    }

    /** Take what fits of a text into the view, none of it a control character; the rest is cut. */
    method TakePlain(text: bytes, ghost rest: bytes, n: nat)
      requires Valid() && (rest == [] <==> FirstControl(text) == |text|)
      requires n == (if |text| <= capacity - size then |text| else capacity - size) && n <= FirstControl(text)
      requires buffer[start + size..start + size + n] == text[..n]
      modifies this
      ensures Valid() && whole == old(whole) + (text[..FirstControl(text)] + rest)
    {
      PlainPart(text, rest, capacity - size);
      if n < |text| {
        truncated := true;
      }
      Advance(n, text[..FirstControl(text)] + rest);
    }

    /** Copy a text that fits behind the view. */
    method CopyFitting(fitting: bytes) returns (control: nat)
      requires Valid() && |fitting| <= capacity - size
      modifies buffer
      ensures Valid() && control == FirstControl(fitting)
      ensures buffer[start + size..start + size + control] == fitting[..control]
    {
      control := CopyPlain(buffer, start + size, fitting);
      AroundKept();
    }

    /** What fits of a text without a control character in the room is the start of what it stands for. */
    static lemma PlainPart(text: bytes, rest: bytes, room: nat)
      requires rest == [] <==> FirstControl(text) == |text|
      requires FirstControl(text) >= (if |text| <= room then |text| else room)
      ensures
        var all, n := text[..FirstControl(text)] + rest, if |text| <= room then |text| else room;
        && n == (if |all| <= room then |all| else room)
        && all[..n] == text[..n]
        && (|all| > room <==> |text| > room)
    {
    }

    static lemma PrefixControl(text: bytes, n: nat)
      requires n <= |text|
      ensures FirstControl(text[..n]) == if FirstControl(text) < n then FirstControl(text) else n
    {
      var k := FirstControl(text);
      FirstControlIs(text[..n], if k < n then k else n);
    }

    /** Append copies of one character. */
    method AppendRepeated(c: byte, copies: nat)
      requires Valid()
      modifies this, buffer
      ensures Appended(Repeat(c, copies))
    {
      var room := capacity - size;
      if copies > room {
        truncated := true;
      }
      var toWrite := if copies <= room then copies else room;
      Copy(buffer, start + size, Repeat(c, toWrite));
      AroundKept();
      assert Repeat(c, copies)[..toWrite] == Repeat(c, toWrite);
      Advance(toWrite, Repeat(c, copies));
    }

    /** Append the text. */
    method Append(text: bytes)
      requires Valid()
      modifies this, buffer
      ensures Appended(text)
    {
      var room := capacity - size;
      if |text| > room {
        truncated := true;
      }
      var toWrite := if |text| <= room then |text| else room;
      Copy(buffer, start + size, text[..toWrite]);
      AroundKept();
      Advance(toWrite, text);
    }

    method AppendChar(c: byte)
      requires Valid()
      modifies this, buffer
      ensures Appended([c])
    {
      AppendRepeated(c, 1);
      assert Repeat(c, 1) == [c];
    }

    /** Append a text that may span several lines, each after the first starting with column spaces. */
    method AppendContinued(text: bytes, column: nat)
      requires Valid()
      modifies this, buffer
      ensures Appended(Continued(text, column))
    {
      var rest := text;
      if |rest| >= 2 && rest[|rest| - 2..] == [CR, LF] {
        rest := rest[..|rest| - 2];
      } else if |rest| >= 1 && rest[|rest| - 1] == LF {
        rest := rest[..|rest| - 1];
      }
      assert rest == WithoutNewline(text);
      AppendLines(rest, column);
    }

    /** Append the lines of a text, one run up to a control character after the other. */
    method AppendLines(text: bytes, column: nat)
      requires Valid()
      modifies this, buffer
      ensures Appended(Reference(text, column))
    {
      var rest := text;
      ghost var done: bytes := [];
      while rest != []
        invariant Appended(done)
        invariant done + Reference(rest, column) == Reference(text, column)
        decreases |rest|
      {
        ghost var piece;
        rest, piece := AppendRun(rest, column);
        Associative(old(whole), done, piece);
        Associative(done, piece, Reference(rest, column));
        done := done + piece;
      }
      assert done == done + Reference(rest, column);
    }

    /** Copy the plain run up to the next control character, then what that character stands for, and
        return the text after it: nothing when the text or the window has ended. */
    method AppendRun(text: bytes, column: nat) returns (after: bytes, ghost piece: bytes)
      requires Valid() && text != []
      modifies this, buffer
      ensures |after| < |text| && Appended(piece)
      ensures piece + Reference(after, column) == Reference(text, column)
    {
      ghost var k := FirstControl(text);
      ReferencePlain(text, column, k);
      if k < |text| { ReferenceNotEmpty(text[k..], column); }
      var control := AppendPlain(text, Reference(text[k..], column));
      if control == |text| {
        return [], Reference(text, column);
      }
      var rest := text[control..];
      ReferenceControl(rest, column);
      if |rest| > 1 && rest[0] == CR && rest[1] == LF {
        rest := rest[1..];
      }
      AppendControl(rest[0], column);
      after := rest[1..];
      piece := text[..control] + ControlText(rest[0], column);
      Associative(old(whole), text[..control], ControlText(rest[0], column));
      Associative(text[..control], ControlText(rest[0], column), Reference(after, column));
    }

    /** Append what a control character stands for. */
    method AppendControl(c: byte, column: nat)
      requires Valid()
      modifies this, buffer
      ensures Appended(ControlText(c, column))
    {
      if c == LF {
        AppendChar(LF);
        AppendRepeated(SPACE, column);
      } else {
        AppendChar(QUESTION);
      }
    }

    /** Append the text and fill up to a width; a longer text is written whole. */
    method AppendPadded(text: bytes, padWidth: nat, padFill: byte)
      requires Valid()
      modifies this, buffer
      ensures Appended(Padded(text, padWidth, padFill))
    {
      Append(text);
      if |text| < padWidth {
        AppendRepeated(padFill, padWidth - |text|);
      }
    }

    /** Append the text in exactly a width. Cutting the text to the width is not truncation. */
    method AppendFitted(text: bytes, width: nat, padFill: byte)
      requires Valid()
      modifies this, buffer
      ensures Appended(Fitted(text, width, padFill))
    {
      AppendPadded(if |text| > width then text[..width] else text, width, padFill);
    }

    /** Append a number in decimal, right-aligned in a width. */
    method AppendDecimal(value: int, padWidth: nat, padFill: byte)
      requires Valid()
      modifies this, buffer
      ensures Appended(AlignedDecimal(value, padWidth, padFill))
    {
      var text := SignedDecimal(value);
      if |text| < padWidth {
        var padding := padWidth - |text|;
        if padFill == ZERO && text[0] == MINUS {
          AppendChar(MINUS);
          text := text[1..];
        }
        AppendFilled(padFill, padding, text);
      } else {
        Append(text);
      }
    }

    method AppendFilled(fill: byte, padding: nat, text: bytes)
      requires Valid()
      modifies this, buffer
      ensures Appended(Repeat(fill, padding) + text)
    {
      AppendRepeated(fill, padding);
      Append(text);
    }

    /** Append the low 4 * digits bits of a value as hex digits, filled from the right. */
    method AppendHex(value: nat, digits: nat)
      requires Valid()
      modifies this, buffer
      ensures Appended(Hex(value, digits))
    {
      var text: bytes := [];
      var rest := value;
      var i: nat := digits;
      while i > 0
        invariant i <= digits && Hex(rest, i) + text == Hex(value, digits)
      {
        text := [HexDigit(rest % 16)] + text;
        rest := rest / 16;
        i := i - 1;
      }
      Append(text);
    }
  }
}
