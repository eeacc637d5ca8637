/** From the log of a run to the bytes of the file. */
module LogFile {
  import opened Words
  import opened Swar
  import opened Text
  import opened Clock
  import opened LogRecord
  import opened LogFormat
  import opened LineFields
  import opened LineLaws
  import opened LossLines
  import opened FileLines
  import opened Output
  import opened Logger
  import LP = LoggerProtocol
  import LS = LoggerSafety

  /** The names of the producers, and the clock's reading when each line of losses is written. */
  datatype Setting = Setting(cat: Catalog, clock: TickConversion, names: LP.Id -> bytes, nows: nat -> uint64) {
    ghost predicate Valid() {
      clock.Valid() && Fits(cat) && forall id :: |names(id)| <= MAX_NAME_SIZE
    }
  }

  // ---------------------------------------------------------------- the bytes of a log

  /** The line of an entry. Losses that a 64-bit counter says are none have none. */
  function EntryBytes(at: Setting, k: nat, e: LP.Entry): bytes
    requires at.clock.Valid()
  {
    match e
    case Line(id, record) => RecordLine(at.cat, at.clock, record, at.names(id))
    case Lost(id, count) =>
      if Wrap(count) == 0 then [] else LossLine(at.clock, at.nows(k), at.names(id), Wrap(count))
  }

  /** The lines of the entries, in order. */
  ghost function LogBytes(at: Setting, log: seq<LP.Entry>): bytes
    requires at.clock.Valid()
  {
    if log == [] then []
    else
      var n := |log| - 1;
      LogBytes(at, log[..n]) + EntryBytes(at, n, log[n])
  }

  /** Of the bytes of a log, the lines of one producer's records. */
  ghost function RecordBytes(at: Setting, log: seq<LP.Entry>, id: LP.Id): bytes
    requires at.clock.Valid()
  {
    if log == [] then []
    else
      var n := |log| - 1;
      RecordBytes(at, log[..n], id) + Lines(at.cat, at.clock, at.names(id), RecordOf(log[n], id))
  }

  /** The record of an entry, if it is one of this producer. */
  function RecordOf(e: LP.Entry, id: LP.Id): seq<Record> {
    if e.Line? && e.id == id then [e.record] else []
  }

  /** The line of such an entry is the entry's bytes. */
  lemma RecordBytesOfEntry(at: Setting, k: nat, e: LP.Entry, id: LP.Id)
    requires at.clock.Valid() && e.Line? && e.id == id
    ensures Lines(at.cat, at.clock, at.names(id), RecordOf(e, id)) == EntryBytes(at, k, e)
  {
    LinesOfOne(at, e.record, id);
  }

  /** They are the lines of the records written of it. */
  lemma {:induction false} RecordBytesAreWritten(at: Setting, log: seq<LP.Entry>, id: LP.Id)
    requires at.clock.Valid()
    ensures RecordBytes(at, log, id) == Lines(at.cat, at.clock, at.names(id), LP.WrittenOf(log, id))
  {
    if log != [] {
      var n := |log| - 1;
      RecordBytesAreWritten(at, log[..n], id);
      LinesOfBoth(at, LP.WrittenOf(log[..n], id), RecordOf(log[n], id), id);
    }
  }

  lemma LinesOfBoth(at: Setting, records: seq<Record>, more: seq<Record>, id: LP.Id)
    requires at.clock.Valid() && |more| <= 1
    ensures
      Lines(at.cat, at.clock, at.names(id), records + more)
      == Lines(at.cat, at.clock, at.names(id), records) + Lines(at.cat, at.clock, at.names(id), more)
  {
    if more == [] {
      assert records + more == records;
    } else {
      assert more == [more[0]];
      LinesOneMore(at, records, more[0], id);
      LinesOfOne(at, more[0], id);
    }
  }

  lemma LinesOneMore(at: Setting, records: seq<Record>, r: Record, id: LP.Id)
    requires at.clock.Valid()
    ensures
      Lines(at.cat, at.clock, at.names(id), records + [r])
      == Lines(at.cat, at.clock, at.names(id), records) + RecordLine(at.cat, at.clock, r, at.names(id))
  {
    assert (records + [r])[..|records|] == records;
  }

  lemma LinesOfOne(at: Setting, r: Record, id: LP.Id)
    requires at.clock.Valid()
    ensures Lines(at.cat, at.clock, at.names(id), [r]) == RecordLine(at.cat, at.clock, r, at.names(id))
  {
    LinesOneMore(at, [], r, id);
    assert [] + [r] == [r];
    NothingBefore(RecordLine(at.cat, at.clock, r, at.names(id)));
  }

  lemma NothingBefore(text: bytes)
    ensures [] + text == text
  {
  }

  lemma OneMoreEntry(at: Setting, log: seq<LP.Entry>, k: nat, was: bytes)
    requires at.clock.Valid() && k < |log|
    ensures was + LogBytes(at, log[..k]) + EntryBytes(at, k, log[k]) == was + LogBytes(at, log[..k + 1])
  {
    assert log[..k + 1][..k] == log[..k];
    Associative(was, LogBytes(at, log[..k]), EntryBytes(at, k, log[k]));
  }

  // ---------------------------------------------------------------- reading a log back

  /** The lines the entries put into the file, one for each entry that has one. */
  ghost function Pieces(at: Setting, log: seq<LP.Entry>): seq<bytes>
    requires at.clock.Valid()
  {
    if log == [] then []
    else
      var n := |log| - 1;
      Pieces(at, log[..n]) + (if HasLine(log[n]) then [EntryBytes(at, n, log[n])] else [])
  }

  predicate HasLine(e: LP.Entry) {
    e.Line? || Wrap(e.count) != 0
  }

  ghost predicate PrintableNames(at: Setting, log: seq<LP.Entry>) {
    forall j | 0 <= j < |log| :: Printable(at.names(log[j].id))
  }

  lemma FittedIsPrintable(name: bytes)
    requires Printable(name)
    ensures Printable(Fitted(name, THREAD_WIDTH, SPACE))
  {
  }

  lemma EntryIsOneLine(at: Setting, k: nat, e: LP.Entry)
    requires at.Valid() && Printable(at.names(e.id)) && HasLine(e)
    ensures OneLine(EntryBytes(at, k, e))
  {
    match e {
      case Line(id, record) =>
        FittedIsPrintable(at.names(id));
        RecordIsOneLine(at.cat, at.clock, record, at.names(id));
      case Lost(id, count) =>
        LossLineIsOneLine(at.clock, at.nows(k), at.names(id), Wrap(count));
    }
  }

  /** With printable names the lines of the file are those of the entries, one for one. */
  lemma {:induction false} LinesAreTheEntries(at: Setting, log: seq<LP.Entry>)
    requires at.Valid() && PrintableNames(at, log)
    ensures LinesOf(LogBytes(at, log)) == Pieces(at, log) && Whole(LogBytes(at, log))
  {
    if log != [] {
      var n := |log| - 1;
      LinesAreTheEntries(at, log[..n]);
      EntryIsALineOrNone(at, n, log[n]);
      LinesOfMore(LogBytes(at, log[..n]), EntryBytes(at, n, log[n]), Pieces(at, log[..n]));
    }
  }

  lemma EntryIsALineOrNone(at: Setting, k: nat, e: LP.Entry)
    requires at.Valid() && Printable(at.names(e.id))
    ensures if HasLine(e) then OneLine(EntryBytes(at, k, e)) else EntryBytes(at, k, e) == []
  {
    if HasLine(e) { EntryIsOneLine(at, k, e); }
  }

  lemma LinesOfMore(file: bytes, line: bytes, pieces: seq<bytes>)
    requires LinesOf(file) == pieces && Whole(file) && (line == [] || OneLine(line))
    ensures LinesOf(file + line) == pieces + (if line == [] then [] else [line]) && Whole(file + line)
  {
    if line == [] {
      assert file + line == file && pieces + [] == pieces;
    } else {
      LineBehind(file, line);
    }
  }

  /** No record's thread is shown as the logger itself. */
  ghost predicate NoneIsTheLogger(at: Setting, log: seq<LP.Entry>) {
    forall j | 0 <= j < |log| :: log[j].Line? ==> !Spells(Fitted(at.names(log[j].id), 8, SPACE), "logger  ")
  }

  /** The losses of the threads of this name, as their 64-bit counters say. */
  ghost function LostUnder(at: Setting, log: seq<LP.Entry>, name: bytes): nat {
    if log == [] then 0
    else
      var last := log[|log| - 1];
      LostUnder(at, log[..|log| - 1], name) + (if last.Lost? && at.names(last.id) == name then Wrap(last.count) else 0)
  }

  lemma EntryTellsLosses(at: Setting, k: nat, e: LP.Entry, name: bytes)
    requires at.clock.Valid() && HasLine(e)
    requires e.Line? ==> !Spells(Fitted(at.names(e.id), 8, SPACE), "logger  ")
    ensures
      LossesOn(EntryBytes(at, k, e), name) == if e.Lost? && at.names(e.id) == name then Wrap(e.count) else 0
  {
    match e {
      case Line(id, record) =>
        RecordIsNoLoss(at.cat, at.clock, record, at.names(id));
      case Lost(id, count) =>
        LossIsRead(at.clock, at.nows(k), at.names(id), Wrap(count));
    }
  }

  /** The losses read from the lines are those of the entries, under every name. */
  lemma {:induction false} LossesAreRead(at: Setting, log: seq<LP.Entry>, name: bytes)
    requires at.clock.Valid() && NoneIsTheLogger(at, log)
    ensures LossesUnder(Pieces(at, log), name) == LostUnder(at, log, name)
  {
    if log != [] {
      var n := |log| - 1;
      LossesAreRead(at, log[..n], name);
      LossesOfMore(at, Pieces(at, log[..n]), n, log[n], name);
    }
  }

  lemma LossesOfMore(at: Setting, pieces: seq<bytes>, k: nat, e: LP.Entry, name: bytes)
    requires at.clock.Valid()
    requires e.Line? ==> !Spells(Fitted(at.names(e.id), 8, SPACE), "logger  ")
    ensures
      LossesUnder(pieces + (if HasLine(e) then [EntryBytes(at, k, e)] else []), name)
      == LossesUnder(pieces, name) + (if e.Lost? && at.names(e.id) == name then Wrap(e.count) else 0)
  {
    if HasLine(e) {
      EntryTellsLosses(at, k, e, name);
      MoreLosses(pieces, EntryBytes(at, k, e), name);
    } else {
      assert pieces + [] == pieces;
    }
  }

  /** No other producer in the log has this one's name. */
  ghost predicate NameIsOwn(at: Setting, log: seq<LP.Entry>, id: LP.Id) {
    forall j | 0 <= j < |log| :: at.names(log[j].id) == at.names(id) ==> log[j].id == id
  }

  ghost predicate CountsFit(log: seq<LP.Entry>, id: LP.Id) {
    forall j | 0 <= j < |log| :: log[j].Lost? && log[j].id == id ==> log[j].count < TWO_TO_64
  }

  /** Under a producer's own name they are the losses the log counts, if and only if no count is too large for
      64 bits. */
  lemma {:induction false} LostUnderOwnName(at: Setting, log: seq<LP.Entry>, id: LP.Id)
    requires NameIsOwn(at, log, id)
    ensures LostUnder(at, log, at.names(id)) <= LP.LostOf(log, id)
    ensures LostUnder(at, log, at.names(id)) == LP.LostOf(log, id) <==> CountsFit(log, id)
  {
    if log != [] {
      var n := |log| - 1;
      LostUnderOwnName(at, log[..n], id);
      CountsFitSoFar(log, n, id);
    }
  }

  lemma CountsFitSoFar(log: seq<LP.Entry>, n: nat, id: LP.Id)
    requires |log| == n + 1
    ensures
      CountsFit(log, id) <==> CountsFit(log[..n], id) && (log[n].Lost? && log[n].id == id ==> log[n].count < TWO_TO_64)
  {
    if CountsFit(log, id) {
      forall j | 0 <= j < n ensures log[..n][j].Lost? && log[..n][j].id == id ==> log[..n][j].count < TWO_TO_64 {
        assert log[..n][j] == log[j];
      }
    } else {
      assert CountsFit(log[..n], id) ==> forall j | 0 <= j < n :: log[j] == log[..n][j];
    }
  }

  /** The file tells a thread's losses: its lines can be told apart, and so can the thread. */
  ghost predicate Tells(at: Setting, log: seq<LP.Entry>, id: LP.Id) {
    PrintableNames(at, log) && NoneIsTheLogger(at, log) && NameIsOwn(at, log, id)
  }

  /** What the lines of the file say of a thread's losses is what the log counts, if and only if no count is
      too large for 64 bits. */
  lemma FileTellsLosses(at: Setting, log: seq<LP.Entry>, id: LP.Id)
    requires at.Valid() && Tells(at, log, id)
    ensures LossesUnder(LinesOf(LogBytes(at, log)), at.names(id)) == LP.LostOf(log, id) <==> CountsFit(log, id)
  {
    LinesAreTheEntries(at, log);
    LossesAreRead(at, log, at.names(id));
    LostUnderOwnName(at, log, id);
  }

  // ---------------------------------------------------------------- writing a log

  /** The logger writes in this setting, and has appended the first k entries. */
  ghost predicate WrittenUpTo(logger: Logger, at: Setting, log: seq<LP.Entry>, was: bytes, sink: Sink, k: nat)
    reads logger.batch, logger.batch.data, logger.batch.file
  {
    && at.Valid() && logger.cat == at.cat && logger.clock == at.clock
    && logger.CanWrite() && Keeps(sink, logger.batch.Out())
    && k <= |log| && logger.batch.appended == was + LogBytes(at, log[..k])
  }

  /** Write one entry: the line of a record, or of losses if there are any. */
  method WriteEntry(logger: Logger, at: Setting, log: seq<LP.Entry>, k: nat, ghost was: bytes, ghost sink: Sink)
    requires k < |log| && WrittenUpTo(logger, at, log, was, sink, k)
    modifies logger.batch, logger.batch.data, logger.batch.file
    ensures WrittenUpTo(logger, at, log, was, sink, k + 1)
  {
    OneMoreEntry(at, log, k, was);
    match log[k] {
      case Line(id, record) =>
        logger.WriteLine(record, at.names(id));
      case Lost(id, count) =>
        if Wrap(count) != 0 {
          logger.WriteLosses(Wrap(count), at.names(id), at.nows(k));
        }
    }
  }

  /** Write the entries of a log one after the other, as the logger thread appends them, and flush. */
  method WriteLog(logger: Logger, at: Setting, log: seq<LP.Entry>)
    requires at.Valid() && logger.cat == at.cat && logger.clock == at.clock && logger.CanWrite()
    modifies logger.batch, logger.batch.data, logger.batch.file
    ensures logger.CanWrite() && logger.batch.appended == old(logger.batch.appended) + LogBytes(at, log)
    ensures Keeps(old(logger.batch.Out()), logger.batch.Out())
    ensures !logger.batch.failed ==> logger.batch.file.content == logger.batch.appended
  {
    ghost var was, sink := logger.batch.appended, logger.batch.Out();
    assert log[..0] == [] && was + [] == was;
    for k := 0 to |log|
      invariant WrittenUpTo(logger, at, log, was, sink, k)
    {
      WriteEntry(logger, at, log, k, was, sink);
    }
    assert log[..|log|] == log;
    RoomKeeps(logger.batch.Out(), logger.batch.data[..logger.batch.size]);
    logger.batch.Flush();
    assert logger.batch.file.content + [] == logger.batch.file.content;
  }

  /** The log of a run that has ended, written by a new logger to a file whose calls do not fail: the file
      holds the lines of its entries and nothing else; among them, for each producer, the lines of all the
      records its ring took, in call order; and every other call is counted in its lines of losses, from which
      the number of those calls reads back if the counts fit 64 bits. */
  method WriteRun(logger: Logger, at: Setting, log: seq<LP.Entry>,
                  ghost ss: seq<LP.State>, ghost ls: seq<LP.Label>, ghost k: nat)
    requires at.Valid() && logger.cat == at.cat && logger.clock == at.clock && logger.CanWrite()
    requires logger.batch.appended == [] && !logger.batch.failed && NeverFails(logger.batch.file.script)
    requires LS.IsRun(ss, ls) && k < |ss| && LS.Ended(ss[k]) && log == ss[k].log
    modifies logger.batch, logger.batch.data, logger.batch.file
    ensures logger.batch.file.content == LogBytes(at, log)
    ensures forall id | id in ss[k].producers ::
      var p := ss[k].producers[id];
      && RecordBytes(at, log, id) == Lines(at.cat, at.clock, at.names(id), LP.Accepted(p.calls))
      && |p.calls| == |LP.Accepted(p.calls)| + LP.LostOf(log, id)
      && (Tells(at, log, id) && CountsFit(log, id)
          ==> LossesUnder(LinesOf(logger.batch.file.content), at.names(id)) == LP.LostOf(log, id))
  {
    WriteLog(logger, at, log);
    assert [] + LogBytes(at, log) == LogBytes(at, log);
    forall id | id in ss[k].producers && Tells(at, log, id) && CountsFit(log, id)
      ensures LossesUnder(LinesOf(LogBytes(at, log)), at.names(id)) == LP.LostOf(log, id)
    {
      FileTellsLosses(at, log, id);
    }
    FileHasEveryCall(at, ss, ls, k);
  }

  lemma FileHasEveryCall(at: Setting, ss: seq<LP.State>, ls: seq<LP.Label>, k: nat)
    requires at.clock.Valid() && LS.IsRun(ss, ls) && k < |ss| && LS.Ended(ss[k])
    ensures forall id | id in ss[k].producers ::
      var p := ss[k].producers[id];
      && RecordBytes(at, ss[k].log, id) == Lines(at.cat, at.clock, at.names(id), LP.Accepted(p.calls))
      && |p.calls| == |LP.Accepted(p.calls)| + LP.LostOf(ss[k].log, id)
  {
    LS.NothingIsForgotten(ss, ls, k);
    forall id | id in ss[k].producers
      ensures
        RecordBytes(at, ss[k].log, id)
        == Lines(at.cat, at.clock, at.names(id), LP.Accepted(ss[k].producers[id].calls))
    {
      RecordBytesAreWritten(at, ss[k].log, id);
    }
  }
}
