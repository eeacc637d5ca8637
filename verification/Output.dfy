/** The logger's output: lines appended in place to a batch, the batch written to a file. */
module Output {
  import opened Words
  import opened Swar
  import opened Text
  import opened Clock
  import opened LogRecord
  import opened LogFormat
  import opened LineLaws
  import LW = LineWriter

  const BATCH_SIZE: nat := 65536
  const FLUSH_THRESHOLD: nat := 8192
  const MAX_NAME_SIZE: nat := 16

  const TILDE: byte := 126
  const WARN: bv64 := 3
  const LOGGER_NAME: bytes := [108, 111, 103, 103, 101, 114]
  const LOST_TEXT: bytes := [32, 108, 111, 115, 116, 32]
  const RECORDS_TEXT: bytes := [32, 114, 101, 99, 111, 114, 100, 115, 10]

  // ---------------------------------------------------------------- the file

  /** What one call of write does: take some bytes, be interrupted by a signal, or fail. */
  datatype WriteResult = Wrote(n: nat) | Interrupted | Failed {
    predicate Fails() { Failed? || (Wrote? && n == 0) }
  }

  /** What the file gets of some data when the calls go as the script says (and take everything once it
      is over), what is left of the script, and whether the file got it all. */
  function Delivery(data: bytes, script: seq<WriteResult>): (d: (bytes, seq<WriteResult>, bool))
    decreases |script|
  {
    if data == [] then ([], script, true)
    else if script == [] then (data, [], true)
    else
      match script[0]
      case Wrote(n) =>
        if n == 0 then ([], script[1..], false)
        else if n >= |data| then (data, script[1..], true)
        else
          var rest := Delivery(data[n..], script[1..]);
          (data[..n] + rest.0, rest.1, rest.2)
      case Interrupted => Delivery(data, script[1..])
      case Failed => ([], script[1..], false)
  }

  /** The file gets the data in order and once, cut only by a call that fails. */
  lemma {:induction false} DeliveryIsPrefix(data: bytes, script: seq<WriteResult>)
    ensures Delivery(data, script).0 <= data
    ensures Delivery(data, script).2 <==> Delivery(data, script).0 == data
    decreases |script|
  {
    if data != [] && script != [] {
      match script[0]
      case Wrote(n) =>
        if 0 < n < |data| {
          DeliveryIsPrefix(data[n..], script[1..]);
          assert data == data[..n] + data[n..];
        }
      case Interrupted =>
        DeliveryIsPrefix(data, script[1..]);
      case Failed =>
    }
  }

  ghost predicate NeverFails(script: seq<WriteResult>) {
    forall i | 0 <= i < |script| :: !script[i].Fails()
  }

  /** Whatever the pattern of partial writes and interruptions, without a failure everything arrives. */
  lemma {:induction false} NoFailureDeliversAll(data: bytes, script: seq<WriteResult>)
    requires NeverFails(script)
    ensures Delivery(data, script).0 == data && Delivery(data, script).2
    ensures NeverFails(Delivery(data, script).1)
    decreases |script|
  {
    if data != [] && script != [] {
      assert !script[0].Fails();
      match script[0]
      case Wrote(n) =>
        if n < |data| {
          NoFailureDeliversAll(data[n..], script[1..]);
        }
      case Interrupted =>
        NoFailureDeliversAll(data, script[1..]);
      case Failed =>
    }
  }

  /** How many bytes some calls take in all. */
  function TakenBy(script: seq<WriteResult>): nat {
    if script == [] then 0 else (if script[0].Wrote? then script[0].n else 0) + TakenBy(script[1..])
  }

  /** The first call that fails ends a delivery: what the calls before it took is in the file, the rest is not,
      and no call follows. */
  lemma {:induction false} FailureEndsIt(data: bytes, script: seq<WriteResult>, k: nat)
    requires k < |script| && NeverFails(script[..k]) && script[k].Fails() && TakenBy(script[..k]) < |data|
    ensures Delivery(data, script) == (data[..TakenBy(script[..k])], script[k + 1..], false)
    decreases k
  {
    if k > 0 {
      var taken := FirstCall(data, script, k);
      FailureEndsIt(data[taken..], script[1..], k - 1);
      assert data[..taken] + data[taken..][..TakenBy(script[1..][..k - 1])] == data[..TakenBy(script[..k])];
    } else {
      assert script[0].Fails() && data[..TakenBy(script[..0])] == [];
    }
  }

  /** The call that takes the last byte ends a delivery too: no call follows. */
  lemma {:induction false} LastByteEndsIt(data: bytes, script: seq<WriteResult>, k: nat)
    requires k < |script| && NeverFails(script[..k + 1])
    requires TakenBy(script[..k]) < |data| <= TakenBy(script[..k + 1])
    ensures Delivery(data, script) == (data, script[k + 1..], true)
    decreases k
  {
    if k > 0 {
      var taken := FirstCall(data, script, k);
      assert script[..k + 1][1..] == script[1..][..k];
      assert NeverFails(script[1..][..k]);
      LastByteEndsIt(data[taken..], script[1..], k - 1);
      assert data[..taken] + data[taken..] == data;
    } else {
      assert script[..1] == [script[0]] && script[..1][1..] == [] && script[..0] == [];
      assert !script[..1][0].Fails();
    }
  }

  /** A first call that does not fail and leaves something to write. */
  lemma FirstCall(data: bytes, script: seq<WriteResult>, k: nat) returns (taken: nat)
    requires 0 < k <= |script| && NeverFails(script[..k]) && TakenBy(script[..k]) < |data|
    ensures NeverFails(script[1..][..k - 1]) && taken + TakenBy(script[1..][..k - 1]) == TakenBy(script[..k])
    ensures taken == if script[0].Wrote? then script[0].n else 0
    ensures
      var rest := Delivery(data[taken..], script[1..]);
      Delivery(data, script) == (data[..taken] + rest.0, rest.1, rest.2)
  {
    assert script[..k][0] == script[0] && !script[..k][0].Fails();
    assert script[..k][1..] == script[1..][..k - 1];
    taken := if script[0].Wrote? then script[0].n else 0;
    if taken == 0 {
      assert data[0..] == data && data[..0] == [];
      assert [] + Delivery(data, script[1..]).0 == Delivery(data, script[1..]).0;
    }
  }

  /** A file descriptor whose next calls of write go as the script says. */
  class File {
    var script: seq<WriteResult>
    ghost var content: bytes

    constructor (script: seq<WriteResult>)
      ensures this.script == script && content == []
    {
      this.script, content := script, [];
    }

    /** One call: the bytes taken, or a negative result and whether a signal caused it. */
    method Write(data: bytes) returns (result: int, interrupted: bool)
      requires data != []
      modifies this
      ensures result <= |data|
      ensures content == old(content) + (if result > 0 then data[..result] else [])
      ensures
        if old(script) == [] then result == |data| && script == []
        else
          && script == old(script)[1..]
          && match old(script)[0]
             case Wrote(n) => result == (if n <= |data| then n else |data|)
             case Interrupted => result < 0 && interrupted
             case Failed => result < 0 && !interrupted
    {
      interrupted := false;
      if script == [] {
        result := |data|;
      } else {
        match script[0] {
          case Wrote(n) =>
            result := if n <= |data| then n else |data|;
          case Interrupted =>
            result, interrupted := -1, true;
          case Failed =>
            result := -1;
        }
        script := script[1..];
      }
      if result > 0 {
        content := content + data[..result];
      }
    }
  }

  /** Where a delivery stands: so many bytes are written, so much of the script is left. */
  ghost predicate OnTheWay(all: bytes, script: seq<WriteResult>, written: nat, left: seq<WriteResult>) {
    && written <= |all|
    && var d, rest := Delivery(all, script), Delivery(all[written..], left);
       d.0 == all[..written] + rest.0 && d.1 == rest.1 && d.2 == rest.2
  }

  /** A call that takes some bytes leaves the delivery of the others. */
  lemma OneWrite(data: bytes, script: seq<WriteResult>, result: nat)
    requires 0 < result <= |data|
    requires script == [] ==> result == |data|
    requires
      script != [] ==> script[0].Wrote? && result == (if script[0].n <= |data| then script[0].n else |data|)
    ensures
      var d, rest := Delivery(data, script), Delivery(data[result..], if script == [] then [] else script[1..]);
      d.0 == data[..result] + rest.0 && d.1 == rest.1 && d.2 == rest.2
  {
    if result == |data| {
      assert data[..result] + [] == data;
    }
  }

  /** A call that takes some bytes keeps a delivery on its way. */
  lemma AfterWrite(all: bytes, script: seq<WriteResult>, written: nat, left: seq<WriteResult>, result: nat)
    requires written <= |all| && 0 < result <= |all| - written
    requires OnTheWay(all, script, written, left)
    requires left == [] ==> result == |all| - written
    requires
      left != [] ==> left[0].Wrote? && result == (if left[0].n <= |all| - written then left[0].n else |all| - written)
    ensures OnTheWay(all, script, written + result, if left == [] then [] else left[1..])
  {
    var rest := all[written..];
    var later := Delivery(all[written + result..], if left == [] then [] else left[1..]).0;
    assert rest[result..] == all[written + result..];
    assert all[..written + result] == all[..written] + rest[..result];
    OneWrite(rest, left, result);
    Associative(all[..written], rest[..result], later);
  }

  // ---------------------------------------------------------------- lines

  /** A line in a room: whole, or cut with a mark and a newline in the two bytes kept behind the room. */
  function CutLine(line: bytes, room: nat): bytes {
    if |line| <= room then line else line[..room] + [TILDE, LF]
  }

  /** A line that is cut fills its room and still ends: with the mark and one newline. */
  lemma CutLineStillEnds(line: bytes, room: nat)
    requires |line| > room
    ensures
      var cut := CutLine(line, room);
      && |cut| == room + 2 && cut[..room] == line[..room] && cut[room..] == [TILDE, LF]
      && cut[room] as int == '~' as int && cut[room + 1] as int == '\n' as int
  {
  }

  /** No record is ever cut, wherever its line goes: a flush leaves every line room enough. */
  lemma RecordIsNeverCut(cat: Catalog, clock: TickConversion, r: Record, thread: bytes, size: nat)
    requires Fits(cat) && clock.Valid() && size <= BATCH_SIZE
    ensures CutLine(RecordLine(cat, clock, r, thread), BATCH_SIZE - Base(size) - 2) == RecordLine(cat, clock, r, thread)
  {
    RecordIsShort(cat, clock, r, thread);
  }

  /** The line that reports losses. */
  function LossLine(clock: TickConversion, now: uint64, thread: bytes, count: uint64): bytes
    requires clock.Valid()
  {
    Prefix(clock.NsElapsed(now), WARN, LOGGER_NAME) + [SPACE] + thread + LOST_TEXT
    + AlignedDecimal(count, 0, SPACE) + RECORDS_TEXT
  }

  lemma LossLineIsShort(clock: TickConversion, now: uint64, thread: bytes, count: uint64)
    requires clock.Valid() && |thread| <= MAX_NAME_SIZE
    ensures |LossLine(clock, now, thread, count)| <= 100
  {
    TimestampSize(clock.NsElapsed(now));
    PrefixSize(clock.NsElapsed(now), WARN, LOGGER_NAME);
    SixtyFourBitsFitTwentyDigits();
    DecimalSize(count, 20);
  }

  /** The line that reports losses is one line exactly when the whole name of the thread is printable. */
  lemma LossLineIsOneLine(clock: TickConversion, now: uint64, thread: bytes, count: uint64)
    requires clock.Valid()
    ensures OneLine(LossLine(clock, now, thread, count)) <==> Printable(thread)
  {
    var prefix := Prefix(clock.NsElapsed(now), WARN, LOGGER_NAME);
    LoggerPrefixIsPrintable(clock.NsElapsed(now));
    AlignedIsPrintable(count, 0, SPACE);
    LossOfParts(prefix, thread, AlignedDecimal(count, 0, SPACE));
  }

  lemma LoggerPrefixIsPrintable(ns: nat)
    ensures Printable(Prefix(ns, WARN, LOGGER_NAME))
  {
    PrefixIsPrintable(ns, WARN, LOGGER_NAME);
  }

  lemma LossOfParts(prefix: bytes, thread: bytes, count: bytes)
    requires Printable(prefix) && Printable(count)
    ensures OneLine(prefix + [SPACE] + thread + LOST_TEXT + count + RECORDS_TEXT) <==> Printable(thread)
  {
    var text := prefix + [SPACE] + thread + LOST_TEXT + count;
    var records := RECORDS_TEXT[..|RECORDS_TEXT| - 1];
    assert RECORDS_TEXT == records + [LF];
    Associative(text, records, [LF]);
    EndsOneLine(text + records);
    PartsPrintable(text, records);
    PartsPrintable(prefix + [SPACE] + thread + LOST_TEXT, count);
    PartsPrintable(prefix + [SPACE] + thread, LOST_TEXT);
    PartsPrintable(prefix + [SPACE], thread);
    PartsPrintable(prefix, [SPACE]);
  }

  lemma SixtyFourBitsFitTwentyDigits()
    ensures TWO_TO_64 <= Pow10(20)
  {
    assert Pow10(4) == 10_000;
    assert Pow10(8) == 100_000_000;
    assert Pow10(12) == 1_000_000_000_000;
    assert Pow10(16) == 10_000_000_000_000_000;
    assert Pow10(20) == 100_000_000_000_000_000_000;
  }

  /** Where the next line goes in a batch of this size: at its end, or at the start of an emptied one. */
  function Base(size: nat): nat {
    if size + FLUSH_THRESHOLD > BATCH_SIZE then 0 else size
  }

  /** A batch is written out exactly when fewer than 8 KiB of its 64 KiB are left. */
  lemma FlushedWhenLow(size: nat)
    requires size <= 65536
    ensures Base(size) != size <==> 65536 - size < 8192
    ensures Base(size) != size ==> Base(size) == 0
  {
  }

  // ---------------------------------------------------------------- the batch

  /** What a flush changes: the file, what its next calls do, and whether a batch was lost. */
  datatype Sink = Sink(content: bytes, script: seq<WriteResult>, failed: bool) {
    ghost function Flushed(batch: bytes): Sink {
      var d := Delivery(batch, script);
      Sink(content + d.0, d.1, failed || !d.2)
    }

    /** The batch is written out only if a line might not fit behind it. */
    ghost function WithRoom(batch: bytes): Sink {
      if Base(|batch|) == |batch| then this else Flushed(batch)
    }
  }

  /** Without failing calls a flush moves the batch to the file, and loses nothing. */
  lemma FlushMovesTheBatch(sink: Sink, batch: bytes)
    requires NeverFails(sink.script)
    ensures sink.Flushed(batch).content == sink.content + batch
    ensures sink.Flushed(batch).failed == sink.failed && NeverFails(sink.Flushed(batch).script)
  {
    NoFailureDeliversAll(batch, sink.script);
  }

  class Batch {
    const data: array<byte>
    const file: File
    var size: nat

    /** Every byte appended so far, and whether some flush failed to write its batch whole. */
    ghost var appended: bytes
    ghost var failed: bool

    ghost predicate Valid()
      reads this, data, file
    {
      && data.Length == BATCH_SIZE && size <= BATCH_SIZE
      && (!failed ==> file.content + data[..size] == appended)
    }

    ghost function Out(): Sink
      reads this, file
    {
      Sink(file.content, file.script, failed)
    }

    constructor (file: File)
      requires file.content == []
      ensures Valid() && size == 0 && appended == [] && !failed
      ensures this.file == file && fresh(data)
    {
      this.file := file;
      data := new byte[BATCH_SIZE];
      size, appended, failed := 0, [], false;
    }

    /** Write the batch to the file, and empty it. A batch that cannot be written is lost. */
    method Flush()
      requires Valid()
      modifies this`size, this`failed, file
      ensures Valid() && size == 0
      ensures Out() == old(Out()).Flushed(old(data[..size]))
    {
      WriteOut();
      DeliveryIsPrefix(data[..size], old(file.script));
      failed := failed || !Delivery(data[..size], old(file.script)).2;
      size := 0;
    }

    /** Write the batch to the file until it is written or a call fails. */
    method WriteOut()
      requires size <= data.Length
      modifies file
      ensures
        var d := Delivery(data[..size], old(file.script));
        file.content == old(file.content) + d.0 && file.script == d.1
    {
      ghost var all, script := data[..size], file.script;
      var written := 0;
      assert all[0..] == all && all[..0] == [];
      while written < size
        invariant written <= size
        invariant file.content == old(file.content) + all[..written]
        invariant OnTheWay(all, script, written, file.script)
        decreases |file.script|, size - written
      {
        ghost var left := file.script;
        assert data[written..size] == all[written..];
        var result, interrupted := file.Write(data[written..size]);
        if result > 0 {
          assert all[..written + result] == all[..written] + all[written..][..result];
          AfterWrite(all, script, written, left, result);
          written := written + result;
        } else if result < 0 && interrupted {
          continue;
        } else {
          break;
        }
      }
    }

    /** Write the batch out when a line might not fit behind it. */
    method MakeRoom()
      requires Valid()
      modifies this`size, this`failed, file
      ensures Valid() && size == Base(old(size)) && Out() == old(Out()).WithRoom(old(data[..size]))
    {
      if data.Length - size < FLUSH_THRESHOLD {
        Flush();
      }
    }

    /** Append the line of a record, cut if it is larger than the room a flush leaves. */
    method WriteRecord(cat: Catalog, clock: TickConversion, r: Record, thread: bytes)
      requires Valid() && clock.Valid()
      modifies this, data, file
      ensures Valid() && Out() == old(Out()).WithRoom(old(data[..size]))
      ensures
        var line := CutLine(RecordLine(cat, clock, r, thread), BATCH_SIZE - Base(old(size)) - 2);
        && appended == old(appended) + line
        && size == Base(old(size)) + |line| && data[Base(old(size))..size] == line
    {
      ghost var room := BATCH_SIZE - Base(size) - 2;
      var writer := Begin(2);
      FormatBehind(writer, cat, clock, r, thread, room);
    }

    /** Append the line of a record with a writer behind the batch. */
    method FormatBehind(
      writer: LW.LineWriter, cat: Catalog, clock: TickConversion, r: Record, thread: bytes, ghost room: nat)
      requires writer.Valid() && writer.whole == [] && Behind(writer, 2) && clock.Valid() && room == writer.capacity
      modifies this`size, this`appended, data, writer
      ensures Valid()
      ensures
        var line := CutLine(RecordLine(cat, clock, r, thread), room);
        && appended == old(appended) + line
        && size == old(size) + |line| && data[old(size)..size] == line
    {
      Format(writer, cat, clock, r, thread);
      EndCut(writer);
    }

    /** Write the line of a record with a new writer. */
    static method Format(writer: LW.LineWriter, cat: Catalog, clock: TickConversion, r: Record, thread: bytes)
      requires writer.Valid() && writer.whole == [] && clock.Valid()
      modifies writer, writer.buffer
      ensures writer.Valid() && writer.whole == RecordLine(cat, clock, r, thread)
    {
      AppendRecord(writer, cat, clock, r, thread);
    }

    /** What stays true while a writer appends a line behind the batch. */
    ghost predicate Behind(writer: LW.LineWriter, kept: nat)
      reads this, file
    {
      && writer.buffer == data && data.Length == BATCH_SIZE
      && writer.start == size && writer.start + writer.capacity + kept == BATCH_SIZE
      && (!failed ==> file.content + writer.before == appended)
    }

    /** Make a writer for a line behind the batch, with some bytes kept behind its room. */
    method Begin(kept: nat) returns (writer: LW.LineWriter)
      requires Valid() && kept <= FLUSH_THRESHOLD
      modifies this`size, this`failed, file
      ensures fresh(writer) && writer.Valid() && writer.whole == [] && Behind(writer, kept)
      ensures size == Base(old(size)) && Out() == old(Out()).WithRoom(old(data[..size]))
    {
      MakeRoom();
      writer := new LW.LineWriter(data, size, data.Length - size - kept);
    }

    /** Take the line of the writer into the batch, ended with a mark if it was cut. */
    method EndCut(writer: LW.LineWriter)
      requires writer.Valid() && Behind(writer, 2)
      modifies this`size, this`appended, data
      ensures Valid() && appended == old(appended) + CutLine(writer.whole, writer.capacity)
      ensures size == old(size) + |CutLine(writer.whole, writer.capacity)|
      ensures data[old(size)..size] == CutLine(writer.whole, writer.capacity)
      ensures writer.truncated ==> size == BATCH_SIZE && data[size - 2..size] == [TILDE, LF]
    {
      var count := writer.size;
      assert data[size..size + count] == writer.whole[..count];
      if writer.truncated {
        MarkCut(data, size, size + count);
        count := count + 2;
      }
      assert data[size..size + count] == CutLine(writer.whole, writer.capacity);
      Take(count, CutLine(writer.whole, writer.capacity));
      if writer.truncated {
        CutLineStillEnds(writer.whole, writer.capacity);
        assert data[size - 2..size] == data[old(size)..size][writer.capacity..];
      }
    }

    /** End a line that was cut with a mark and a newline. */
    static method MarkCut(data: array<byte>, start: nat, end: nat)
      requires start <= end <= data.Length - 2
      modifies data
      ensures data[..start] == old(data[..start])
      ensures data[start..end + 2] == old(data[start..end]) + [TILDE, LF]
    {
      data[end] := TILDE;
      data[end + 1] := LF;
      assert data[start..end] == old(data[start..end]);
    }

    /** Take the count bytes behind the batch, a line, into it. */
    method Take(count: nat, ghost line: bytes)
      requires data.Length == BATCH_SIZE && size + count <= BATCH_SIZE && data[size..size + count] == line
      requires !failed ==> file.content + data[..size] == appended
      modifies this`size, this`appended
      ensures Valid() && size == old(size) + |line| && data[old(size)..size] == line && appended == old(appended) + line
    {
      assert data[..size + count] == data[..size] + line;
      Associative(file.content, data[..size], line);
      appended := appended + line;
      size := size + count;
    }

    /** Append the line that reports losses. */
    method WriteLoss(clock: TickConversion, now: uint64, thread: bytes, count: uint64)
      requires Valid() && clock.Valid() && |thread| <= MAX_NAME_SIZE
      modifies this, data, file
      ensures Valid() && Out() == old(Out()).WithRoom(old(data[..size]))
      ensures
        var line := LossLine(clock, now, thread, count);
        && appended == old(appended) + line
        && size == Base(old(size)) + |line| && data[Base(old(size))..size] == line
    {
      var writer := Begin(0);
      AppendPrefix(writer, now, WARN, LOGGER_NAME, clock);
      AppendLossText(writer, Prefix(clock.NsElapsed(now), WARN, LOGGER_NAME), thread, count);
      LossLineIsShort(clock, now, thread, count);
      EndWhole(writer);
    }

    /** Take the line of the writer, which fits, into the batch. */
    method EndWhole(writer: LW.LineWriter)
      requires writer.Valid() && Behind(writer, 0) && |writer.whole| <= writer.capacity
      modifies this`size, this`appended
      ensures Valid() && appended == old(appended) + writer.whole
      ensures size == old(size) + |writer.whole| && data[old(size)..size] == writer.whole
    {
      assert writer.whole[..|writer.whole|] == writer.whole;
      Take(writer.size, writer.whole);
    }

    /** Append what follows the prefix of the line that reports losses. */
    static method AppendLossText(writer: LW.LineWriter, ghost prefix: bytes, thread: bytes, count: uint64)
      requires writer.Valid() && writer.whole == prefix
      modifies writer, writer.buffer
      ensures writer.Valid()
      ensures writer.whole == prefix + [SPACE] + thread + LOST_TEXT + AlignedDecimal(count, 0, SPACE) + RECORDS_TEXT
    {
      writer.AppendChar(SPACE);
      writer.Append(thread);
      writer.Append(LOST_TEXT);
      writer.AppendDecimal(count, 0, SPACE);
      writer.Append(RECORDS_TEXT);
    }
  }
}
