/** A pass of the logger told as entries of the log. */
module PassEntries {
  import opened Words
  import opened Wrappers
  import opened Swar
  import opened Text
  import opened Clock
  import opened LogRecord
  import opened LogFormat
  import opened LineFields
  import opened Output
  import opened Logger
  import opened LogFile
  import LoggerPass
  import LP = LoggerProtocol

  /** What a pass that finds this of a producer adds to the log: a line for each record in the ring, in order,
      and then its losses, if there are any. */
  ghost function Entries(id: LP.Id, f: Findings): seq<LP.Entry> {
    LineEntries(id, f.queue) + LossEntries(id, f.lost)
  }

  function LossEntries(id: LP.Id, lost: nat): seq<LP.Entry> {
    if lost == 0 then [] else [LP.Lost(id, lost)]
  }

  ghost function LineEntries(id: LP.Id, records: seq<Record>): (entries: seq<LP.Entry>)
    ensures |entries| == |records|
  {
    if records == [] then []
    else
      var n := |records| - 1;
      LineEntries(id, records[..n]) + [LP.Line(id, records[n])]
  }

  /** They are this producer's records and losses, and nobody else's. */
  lemma {:induction false} LineEntriesAre(id: LP.Id, records: seq<Record>, other: LP.Id)
    ensures LP.WrittenOf(LineEntries(id, records), other) == if other == id then records else []
    ensures LP.LostOf(LineEntries(id, records), other) == 0
  {
    if records != [] {
      var n := |records| - 1;
      LineEntriesAre(id, records[..n], other);
      LP.OneMoreEntry(LineEntries(id, records[..n]), LP.Line(id, records[n]), other);
      assert records == records[..n] + [records[n]];
    }
  }

  lemma EntriesAre(id: LP.Id, f: Findings, other: LP.Id)
    ensures LP.WrittenOf(Entries(id, f), other) == if other == id then f.queue else []
    ensures LP.LostOf(Entries(id, f), other) == if other == id then f.lost else 0
  {
    LineEntriesAre(id, f.queue, other);
    if f.lost == 0 {
      assert LineEntries(id, f.queue) + [] == LineEntries(id, f.queue);
    } else {
      LP.OneMoreEntry(LineEntries(id, f.queue), LP.Lost(id, f.lost), other);
    }
  }

  /** Appended to the log, the entries add this text to its bytes. */
  ghost predicate Adds(of: seq<LP.Entry> -> bytes, log: seq<LP.Entry>, entries: seq<LP.Entry>, text: bytes) {
    of(log + entries) == of(log) + text
  }

  /** Each entry adds its bytes behind those of the log before it. */
  ghost predicate Grows(of: seq<LP.Entry> -> bytes, at: Setting)
    requires at.clock.Valid()
  {
    forall log, e :: of(log + [e]) == of(log) + EntryBytes(at, |log|, e)
  }

  lemma AddsNone(of: seq<LP.Entry> -> bytes, log: seq<LP.Entry>)
    ensures Adds(of, log, [], [])
  {
    assert log + [] == log;
    assert of(log) + [] == of(log);
  }

  lemma AddsOne(of: seq<LP.Entry> -> bytes, at: Setting, log: seq<LP.Entry>, k: nat, e: LP.Entry)
    requires at.clock.Valid() && Grows(of, at) && k == |log|
    ensures Adds(of, log, [e], EntryBytes(at, k, e))
  {
  }

  lemma AddsBoth(
    of: seq<LP.Entry> -> bytes, log: seq<LP.Entry>, some: seq<LP.Entry>, one: bytes, more: seq<LP.Entry>,
    other: bytes)
    requires Adds(of, log, some, one) && Adds(of, log + some, more, other)
    ensures Adds(of, log, some + more, one + other)
  {
    assert log + (some + more) == log + some + more;
    Associative(of(log), one, other);
  }

  /** The entries of some records add their lines. */
  lemma {:induction false} LinesAreEntries(
    of: seq<LP.Entry> -> bytes, at: Setting, log: seq<LP.Entry>, id: LP.Id, records: seq<Record>)
    requires at.clock.Valid() && Grows(of, at)
    ensures Adds(of, log, LineEntries(id, records), Lines(at.cat, at.clock, at.names(id), records))
  {
    if records == [] {
      AddsNone(of, log);
    } else {
      var n := |records| - 1;
      LinesAreEntries(of, at, log, id, records[..n]);
      LineIsEntry(of, at, log + LineEntries(id, records[..n]), id, records[n]);
      AddsBoth(
        of, log, LineEntries(id, records[..n]), Lines(at.cat, at.clock, at.names(id), records[..n]),
        [LP.Line(id, records[n])], RecordLine(at.cat, at.clock, records[n], at.names(id)));
    }
  }

  lemma LineIsEntry(
    of: seq<LP.Entry> -> bytes, at: Setting, log: seq<LP.Entry>, id: LP.Id, r: Record)
    requires at.clock.Valid() && Grows(of, at)
    ensures Adds(of, log, [LP.Line(id, r)], RecordLine(at.cat, at.clock, r, at.names(id)))
  {
    AddsOne(of, at, log, |log|, LP.Line(id, r));
  }

  lemma LossesAreEntry(
    of: seq<LP.Entry> -> bytes, at: Setting, log: seq<LP.Entry>, k: nat, id: LP.Id, f: Findings, now: uint64)
    requires at.clock.Valid() && Grows(of, at) && f.name == at.names(id) && k == |log| && now == at.nows(k)
    ensures Adds(of, log, LossEntries(id, f.lost), Losses(at.clock, now, f))
  {
    if f.lost == 0 {
      AddsNone(of, log);
    } else {
      AddsOne(of, at, log, k, LP.Lost(id, f.lost));
      LossesAreBytes(at, k, id, f, now);
    }
  }

  lemma LossesAreBytes(at: Setting, k: nat, id: LP.Id, f: Findings, now: uint64)
    requires at.clock.Valid() && f.name == at.names(id) && now == at.nows(k)
    ensures EntryBytes(at, k, LP.Lost(id, f.lost)) == Losses(at.clock, now, f)
  {
  }

  lemma LossesBehind(
    of: seq<LP.Entry> -> bytes, at: Setting, log: seq<LP.Entry>, some: seq<LP.Entry>, one: bytes, k: nat, id: LP.Id,
    f: Findings, now: uint64)
    requires at.clock.Valid() && Grows(of, at) && Adds(of, log, some, one)
    requires f.name == at.names(id) && k == |log| + |some| && now == at.nows(k)
    ensures Adds(of, log, some + LossEntries(id, f.lost), one + Losses(at.clock, now, f))
  {
    LossesAreEntry(of, at, log + some, k, id, f, now);
    AddsBoth(of, log, some, one, LossEntries(id, f.lost), Losses(at.clock, now, f));
  }

  /** What a pass writes of a producer is the bytes of its entries, behind those of any log. */
  lemma ReportIsEntries(
    of: seq<LP.Entry> -> bytes, at: Setting, log: seq<LP.Entry>, k: nat, id: LP.Id, f: Findings, now: uint64)
    requires at.clock.Valid() && Grows(of, at)
    requires f.name == at.names(id) && k == |log| + |f.queue| && now == at.nows(k)
    ensures Adds(of, log, Entries(id, f), Report(at.cat, at.clock, now, f))
  {
    LinesAreEntries(of, at, log, id, f.queue);
    LossesBehind(of, at, log, LineEntries(id, f.queue), Lines(at.cat, at.clock, f.name, f.queue), k, id, f, now);
  }

  // ---------------------------------------------------------------- calls and passes

  /** What is found at a producer after some more calls. */
  ghost function Called(f: Findings, records: seq<Record>): Findings {
    if records == [] then f
    else Called(f, records[..|records| - 1]).Pushed(records[|records| - 1])
  }

  function Least(a: int, b: int): int {
    if a < b then a else b
  }

  /** Between two passes the first calls are taken, up to 4096 records, and every other one is counted. */
  lemma {:induction false} CallsFillTheRing(f: Findings, records: seq<Record>)
    requires |f.queue| <= 4096
    ensures
      var taken := Least(|records|, 4096 - |f.queue|);
      Called(f, records) == Findings(f.name, f.phase, f.queue + records[..taken], f.lost + |records| - taken)
  {
    if records == [] {
      assert f.queue + records[..0] == f.queue;
    } else {
      var n := |records| - 1;
      CallsFillTheRing(f, records[..n]);
      var taken := Least(n, 4096 - |f.queue|);
      assert records[..n][..taken] == records[..taken];
      if |f.queue| + n < 4096 {
        assert f.queue + records[..n] + [records[n]] == f.queue + records[..n + 1];
      }
    }
  }

  /** Each call since the last pass is told by the next one's entries, once: its record in its place, or one more
      of the losses; and the pass leaves nothing to tell again. */
  lemma PassTellsTheCalls(id: LP.Id, f: Findings, records: seq<Record>)
    requires |f.queue| <= 4096
    ensures
      var found, taken := Called(f.Drained(), records), Least(|records|, 4096);
      && LP.WrittenOf(Entries(id, found), id) == records[..taken]
      && LP.LostOf(Entries(id, found), id) == |records| - taken
      && Entries(id, found.Drained()) == []
      && found.name == f.name
  {
    CallsFillTheRing(f.Drained(), records);
    assert [] + records[..Least(|records|, 4096)] == records[..Least(|records|, 4096)];
    EntriesAre(id, Called(f.Drained(), records), id);
  }

  /** What is told a full ring here is told one of a visit of the protocol: 4096 records of a live one. */
  lemma FullIsARingful(f: Findings, slot: nat, id: LP.Id)
    ensures f.Full() <==> f.phase == LP.Live && |f.queue| == 4096
    ensures f.Full() <==> LoggerPass.TookRingful(LP.Visit(slot, Some(id), f.phase, |f.queue|))
  {
  }

  // ---------------------------------------------------------------- a whole pass

  /** The entries of a pass, slot after slot. */
  ghost function EntriesOf(ids: seq<LP.Id>, fs: seq<Option<Findings>>): seq<LP.Entry>
    requires |ids| == |fs|
  {
    if fs == [] then []
    else
      var n := |fs| - 1;
      EntriesOf(ids[..n], fs[..n]) + EntriesAt(ids[n], fs[n])
  }

  ghost function EntriesAt(id: LP.Id, f: Option<Findings>): seq<LP.Entry> {
    if f.None? then [] else Entries(id, f.value)
  }

  /** The setting gives each producer its name, and each line of losses the reading of the clock for its slot. */
  ghost predicate Suits(at: Setting, k: nat, ids: seq<LP.Id>, fs: seq<Option<Findings>>, nows: seq<uint64>)
    requires |ids| == |fs| <= |nows|
  {
    fs == []
    || var n := |fs| - 1;
       && Suits(at, k, ids[..n], fs[..n], nows)
       && (fs[n].Some? ==>
             && fs[n].value.name == at.names(ids[n])
             && nows[n] == at.nows(k + |EntriesOf(ids[..n], fs[..n])| + |fs[n].value.queue|))
  }

  lemma LastSuits(at: Setting, start: nat, ids: seq<LP.Id>, fs: seq<Option<Findings>>, nows: seq<uint64>)
    returns (k: nat)
    requires |ids| == |fs| <= |nows| && fs != [] && Suits(at, start, ids, fs, nows)
    ensures
      var n := |fs| - 1;
      && Suits(at, start, ids[..n], fs[..n], nows)
      && (fs[n].Some? ==>
            && fs[n].value.name == at.names(ids[n]) && nows[n] == at.nows(k)
            && k == start + |EntriesOf(ids[..n], fs[..n])| + |fs[n].value.queue|)
  {
    var n := |fs| - 1;
    k := if fs[n].Some? then start + |EntriesOf(ids[..n], fs[..n])| + |fs[n].value.queue| else 0;
  }

  /** What a pass appends is the bytes of its entries, behind those of any log. */
  lemma {:induction false} PassIsEntries(
    of: seq<LP.Entry> -> bytes, at: Setting, log: seq<LP.Entry>, ids: seq<LP.Id>, fs: seq<Option<Findings>>,
    nows: seq<uint64>)
    requires at.clock.Valid() && Grows(of, at) && |ids| == |fs| <= |nows| && Suits(at, |log|, ids, fs, nows)
    ensures Adds(of, log, EntriesOf(ids, fs), Reports(at.cat, at.clock, nows, fs))
  {
    if fs == [] {
      AddsNone(of, log);
    } else {
      var n := |fs| - 1;
      var some := EntriesOf(ids[..n], fs[..n]);
      var k := LastSuits(at, |log|, ids, fs, nows);
      PassIsEntries(of, at, log, ids[..n], fs[..n], nows);
      ReportBehind(of, at, log, some, Reports(at.cat, at.clock, nows, fs[..n]), k, ids[n], fs[n], nows[n]);
    }
  }

  lemma ReportBehind(
    of: seq<LP.Entry> -> bytes, at: Setting, log: seq<LP.Entry>, some: seq<LP.Entry>, one: bytes, k: nat, id: LP.Id,
    f: Option<Findings>, now: uint64)
    requires at.clock.Valid() && Grows(of, at) && Adds(of, log, some, one)
    requires
      f.Some? ==> f.value.name == at.names(id) && k == |log| + |some| + |f.value.queue| && now == at.nows(k)
    ensures Adds(of, log, some + EntriesAt(id, f), one + ReportAt(at.cat, at.clock, now, f))
  {
    if f.None? {
      AddsNone(of, log + some);
    } else {
      ReportIsEntries(of, at, log + some, k, id, f.value, now);
    }
    AddsBoth(of, log, some, one, EntriesAt(id, f), ReportAt(at.cat, at.clock, now, f));
  }

  /** The bytes of a log grow entry by entry. */
  lemma GrowingBytes(at: Setting) returns (of: seq<LP.Entry> -> bytes)
    requires at.clock.Valid()
    ensures Grows(of, at) && forall log :: of(log) == LogBytes(at, log)
  {
    of := log => LogBytes(at, log);
    forall log: seq<LP.Entry>, e
      ensures LogBytes(at, log + [e]) == LogBytes(at, log) + EntryBytes(at, |log|, e)
    {
      assert (log + [e])[..|log|] == log;
    }
  }

  /** Behind the bytes of any log, the bytes a pass appends are those of its entries: the logger's passes write
      the log of the protocol. */
  lemma PassWritesItsEntries(
    at: Setting, log: seq<LP.Entry>, ids: seq<LP.Id>, fs: seq<Option<Findings>>, nows: seq<uint64>)
    requires at.clock.Valid() && |ids| == |fs| <= |nows| && Suits(at, |log|, ids, fs, nows)
    ensures LogBytes(at, log) + Reports(at.cat, at.clock, nows, fs) == LogBytes(at, log + EntriesOf(ids, fs))
  {
    var of := GrowingBytes(at);
    PassIsEntries(of, at, log, ids, fs, nows);
    AddedIs(of, log, EntriesOf(ids, fs), Reports(at.cat, at.clock, nows, fs));
  }

  lemma AddedIs(of: seq<LP.Entry> -> bytes, log: seq<LP.Entry>, entries: seq<LP.Entry>, text: bytes)
    requires Adds(of, log, entries, text)
    ensures of(log) + text == of(log + entries)
  {
  }

  /** The shared producer goes by this name. */
  lemma SharedIsNamed()
    ensures Spells(SHARED_NAME, "shared")
  {
  }
}
