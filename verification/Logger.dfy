/** The logger as an object: producers with their rings, slots that publish them, and the passes that
    drain them into the batch. Seen from one thread at a time; LoggerProtocol lets the threads
    interleave. */
module Logger {
  import opened Words
  import opened Wrappers
  import opened Text
  import opened Clock
  import opened LogRecord
  import opened LogFormat
  import opened Output
  import LP = LoggerProtocol
  import SR = SpscRing

  const SHARED_NAME: bytes := [115, 104, 97, 114, 101, 100]

  // ---------------------------------------------------------------- producers

  /** As much of a name as is kept. */
  function Cut(name: bytes): bytes {
    if |name| <= MAX_NAME_SIZE then name else name[..MAX_NAME_SIZE]
  }

  /** The first sixteen bytes of a name, or all of it. */
  lemma CutIsPrefix(name: bytes)
    ensures Cut(name) <= name && |Cut(name)| == if |name| < 16 then |name| else 16
  {
  }

  /** Everything one registered thread owns. */
  class Producer {
    const ring: SR.SpscRing<Record>
    const name: bytes
    var phase: LP.Phase
    var dropped: uint64
    var reported: uint64

    // The losses since the last report.
    ghost var unreported: nat

    ghost predicate Valid()
      reads this, ring, ring.slots
    {
      && ring.Valid() && ring.capacity == LP.RING_CAPACITY && |name| <= MAX_NAME_SIZE
      && dropped == Wrap(reported + unreported)
    }

    ghost function Found(): (f: Findings)
      requires Valid()
      reads this, ring, ring.slots
    {
      Findings(name, phase, ring.Contents(), unreported)
    }

    constructor (name: bytes)
      ensures Valid() && fresh(ring) && fresh(ring.slots)
      ensures Found() == Findings(Cut(name), LP.Live, [], 0)
    {
      assert Pow2(12) == LP.RING_CAPACITY;
      ring := new SR.SpscRing<Record>(LP.RING_CAPACITY, 12);
      this.name := Cut(name);
      phase, dropped, reported, unreported := LP.Live, 0, 0, 0;
    }

    /** Push the record, or count it as lost if the ring is full. */
    method Push(r: Record)
      requires Valid()
      modifies this, ring, ring.slots
      ensures Valid() && Found() == old(Found()).Pushed(r)
    {
      var ok := ring.TryPush(r);
      if !ok {
        WrappedNext(reported + unreported);
        dropped, unreported := Wrap(dropped + 1), unreported + 1;
      }
    }

    /** The thread will never push again. */
    method Close()
      requires Valid()
      modifies this`phase
      ensures Valid() && Found() == old(Found()).(phase := LP.Closed)
    {
      phase := LP.Closed;
    }

    /** Remove and return the oldest record. */
    method Pop() returns (r: Option<Record>)
      requires Valid()
      modifies ring
      ensures Valid()
      ensures r.None? <==> old(Found()).queue == []
      ensures r.None? ==> Found() == old(Found())
      ensures r.Some? ==> Found().queue == old(Found()).queue[1..] && r.value == old(Found()).queue[0]
      ensures r.Some? ==> Found() == old(Found()).(queue := Found().queue)
    {
      r := ring.TryPop();
    }

    /** Its first n records are taken, the others still there. */
    ghost predicate Left(f: Findings, n: nat)
      reads this, ring, ring.slots
    {
      Valid() && n <= |f.queue| && Found() == f.(queue := f.queue[n..])
    }

    /** Take the next of the records found. */
    method PopNext(ghost f: Findings, ghost n: nat) returns (r: Option<Record>)
      requires Left(f, n)
      modifies ring
      ensures r.None? ==> n == |f.queue| && Left(f, n)
      ensures r.Some? ==> n < |f.queue| && r.value == f.queue[n] && Left(f, n + 1)
    {
      r := Pop();
      if r.Some? {
        assert f.queue[n..][1..] == f.queue[n + 1..];
      }
    }

    /** How many records were lost since the last call, as a 64-bit counter says it. */
    method TakeDropped() returns (news: uint64)
      requires Valid()
      modifies this`reported, this`unreported
      ensures Valid() && news == Wrap(old(Found()).lost) && Found() == old(Found()).(lost := 0)
    {
      news := Wrap(dropped - reported);
      DistanceOf(reported, unreported);
      reported, unreported := dropped, 0;
    }
  }

  lemma WrappedNext(n: nat)
    ensures Wrap(Wrap(n) + 1) == Wrap(n + 1)
  {
    WrappedSum(n, 1);
  }

  lemma DistanceOf(a: uint64, n: nat)
    ensures Wrap(Wrap(a + n) - a) == Wrap(n)
  {
  }

  /** The right of one thread to log: owns its producer until it is moved from or destroyed. */
  class Handle {
    var producer: Producer?

    constructor (producer: Producer)
      ensures this.producer == producer
    {
      this.producer := producer;
    }

    /** Take the producer over; the original is left with none. */
    constructor Move(original: Handle)
      modifies original
      ensures producer == old(original.producer) && original.producer == null
    {
      producer := original.producer;
      new;
      original.producer := null;
    }

    /** Log a record. A handle moved from must not log. */
    method Log(r: Record)
      requires producer != null && producer.Valid()
      modifies producer, producer.ring, producer.ring.slots
      ensures producer.Valid() && producer.Found() == old(producer.Found()).Pushed(r)
    {
      producer.Push(r);
    }

    /** Close the producer, if there is one still. */
    method Destroy()
      requires producer != null ==> producer.Valid()
      modifies if producer != null then {producer} else {}
      ensures producer != null ==> producer.Valid() && producer.Found() == old(producer.Found()).(phase := LP.Closed)
    {
      if producer != null {
        producer.Close();
      }
    }
  }

  /** What a pass finds at a producer. */
  datatype Findings = Findings(name: bytes, phase: LP.Phase, queue: seq<Record>, lost: nat) {
    ghost function Pushed(r: Record): Findings {
      if |queue| < LP.RING_CAPACITY then this.(queue := queue + [r]) else this.(lost := lost + 1)
    }

    /** What is left of it after the pass. */
    ghost function Drained(): Findings {
      this.(queue := [], lost := 0)
    }

    /** A whole pass's worth of a live ring, which may hold more. */
    ghost predicate Full() {
      phase.Live? && |queue| == LP.RING_CAPACITY
    }
  }

  // ---------------------------------------------------------------- what a pass writes

  /** The lines of some records of one thread. */
  ghost function Lines(cat: Catalog, clock: TickConversion, name: bytes, records: seq<Record>): bytes
    requires clock.Valid()
  {
    if records == [] then []
    else
      var n := |records| - 1;
      Lines(cat, clock, name, records[..n]) + RecordLine(cat, clock, records[n], name)
  }

  lemma OneMoreLine(cat: Catalog, clock: TickConversion, name: bytes, all: seq<Record>, count: nat, was: bytes)
    requires clock.Valid() && count < |all|
    ensures
      var more := RecordLine(cat, clock, all[count], name);
      was + Lines(cat, clock, name, all[..count]) + more == was + Lines(cat, clock, name, all[..count + 1])
  {
    assert all[..count + 1][..count] == all[..count];
    Associative(was, Lines(cat, clock, name, all[..count]), RecordLine(cat, clock, all[count], name));
  }

  /** What a pass writes of a producer: its records in order, then one line for all its losses. */
  ghost function Report(cat: Catalog, clock: TickConversion, now: uint64, f: Findings): bytes
    requires clock.Valid()
  {
    Lines(cat, clock, f.name, f.queue) + Losses(clock, now, f)
  }

  ghost function Losses(clock: TickConversion, now: uint64, f: Findings): bytes
    requires clock.Valid()
  {
    if Wrap(f.lost) == 0 then [] else LossLine(clock, now, f.name, Wrap(f.lost))
  }

  /** No batch is lost as long as no call of write fails. */
  ghost predicate Keeps(before: Sink, after: Sink) {
    NeverFails(before.script) ==> NeverFails(after.script) && after.failed == before.failed
  }

  lemma RoomKeeps(sink: Sink, batch: bytes)
    ensures Keeps(sink, sink.WithRoom(batch)) && Keeps(sink, sink.Flushed(batch))
  {
    if NeverFails(sink.script) { FlushMovesTheBatch(sink, batch); }
  }

  // ---------------------------------------------------------------- many producers

  /** What a pass changes at a slot, and what it reads. */
  ghost function ChangedAt(p: Producer?): set<object> {
    if p == null then {} else {p, p.ring}
  }

  ghost function ReadAt(p: Producer?): set<object> {
    if p == null then {} else {p, p.ring, p.ring.slots}
  }

  ghost function Changed(ps: seq<Producer?>): set<object> {
    set i, o | 0 <= i < |ps| && o in ChangedAt(ps[i]) :: o
  }

  lemma ChangedAtIsChanged(ps: seq<Producer?>)
    ensures forall i | 0 <= i < |ps| :: ChangedAt(ps[i]) <= Changed(ps)
  {
  }

  ghost function Read(ps: seq<Producer?>): set<object> {
    set i, o | 0 <= i < |ps| && o in ReadAt(ps[i]) :: o
  }

  /** Each slot has a producer of its own, with a ring of its own. */
  ghost predicate Distinct(ps: seq<Producer?>) {
    forall i, j | 0 <= i < |ps| && 0 <= j < |ps| && i != j :: DistinctAt(ps, i, j)
  }

  ghost predicate DistinctAt(ps: seq<Producer?>, i: nat, j: nat)
    requires i < |ps| && j < |ps|
  {
    ps[i] != null && ps[j] != null ==> Strangers(ps[i], ps[j])
  }

  /** Two producers that share nothing. */
  ghost predicate Strangers(p: Producer, q: Producer) {
    p != q && p.ring != q.ring && p.ring.slots != q.ring.slots
  }

  ghost predicate AllValid(ps: seq<Producer?>)
    reads Read(ps)
  {
    forall i | 0 <= i < |ps| && ps[i] != null :: assert ReadAt(ps[i]) <= Read(ps); ps[i].Valid()
  }

  /** What a pass finds at every slot. */
  ghost function AllFound(ps: seq<Producer?>): (fs: seq<Option<Findings>>)
    requires AllValid(ps)
    reads Read(ps)
  {
    seq(|ps|, i requires 0 <= i < |ps| && AllValid(ps) reads Read(ps) =>
      if ps[i] == null then None else assert ReadAt(ps[i]) <= Read(ps); Some(ps[i].Found()))
  }

  /** What a pass writes, slot after slot. */
  ghost function Reports(cat: Catalog, clock: TickConversion, nows: seq<uint64>, fs: seq<Option<Findings>>): bytes
    requires clock.Valid() && |nows| >= |fs|
  {
    if fs == [] then []
    else
      var n := |fs| - 1;
      Reports(cat, clock, nows, fs[..n]) + ReportAt(cat, clock, nows[n], fs[n])
  }

  ghost function ReportAt(cat: Catalog, clock: TickConversion, now: uint64, f: Option<Findings>): bytes
    requires clock.Valid()
  {
    if f.None? then [] else Report(cat, clock, now, f.value)
  }

  lemma OneMoreReport(
    cat: Catalog, clock: TickConversion, nows: seq<uint64>, fs: seq<Option<Findings>>, n: nat, was: bytes)
    requires clock.Valid() && n < |fs| <= |nows|
    ensures
      var more := ReportAt(cat, clock, nows[n], fs[n]);
      was + Reports(cat, clock, nows, fs[..n]) + more == was + Reports(cat, clock, nows, fs[..n + 1])
  {
    assert fs[..n + 1][..n] == fs[..n];
    Associative(was, Reports(cat, clock, nows, fs[..n]), ReportAt(cat, clock, nows[n], fs[n]));
  }

  /** Some of the first n producers gave a whole ring's worth. */
  ghost predicate FullAmong(fs: seq<Option<Findings>>, n: nat)
    requires n <= |fs|
  {
    exists j | 0 <= j < n :: FullAt(fs[j])
  }

  lemma OneMoreFull(fs: seq<Option<Findings>>, n: nat)
    requires n < |fs|
    ensures FullAmong(fs, n + 1) == (FullAmong(fs, n) || FullAt(fs[n]))
  {
    if FullAmong(fs, n) {
      var j :| 0 <= j < n && FullAt(fs[j]);
      assert FullAt(fs[j]);
    }
  }

  /** What the slots hold when the first n producers are drained. */
  ghost predicate KeptUpTo(now: seq<Producer?>, ps: seq<Producer?>, fs: seq<Option<Findings>>, n: nat) {
    && |now| <= |ps| == |fs|
    && forall j | 0 <= j < |now| :: now[j] == if j < n then Kept(ps[j], fs[j]) else ps[j]
  }

  /** Where a pass stands: the first n producers are drained, the others as they were found. */
  ghost predicate DrainedUpTo(ps: seq<Producer?>, fs: seq<Option<Findings>>, n: nat)
    reads Read(ps)
  {
    && |fs| == |ps| && AllValid(ps)
    && (forall j | 0 <= j < |ps| && ps[j] == null :: fs[j].None?)
    && forall j | 0 <= j < |ps| && ps[j] != null ::
         assert ReadAt(ps[j]) <= Read(ps);
         fs[j].Some? && ps[j].Found() == if j < n then fs[j].value.Drained() else fs[j].value
  }

  /** What a slot holds after its producer was drained. */
  ghost function Kept(p: Producer?, f: Option<Findings>): Producer? {
    if f.Some? && f.value.phase.Closed? then null else p
  }

  ghost predicate FullAt(f: Option<Findings>) {
    f.Some? && f.value.Full()
  }

  /** A pass frees the closed producers' slots and no other. */
  lemma KeptUnlessClosed(p: Producer?, f: Option<Findings>)
    ensures Kept(p, f) == p <==> p == null || !(f.Some? && f.value.phase == LP.Closed)
    ensures Kept(p, f) != p ==> Kept(p, f) == null
  {
  }

  /** Once every handle is gone, one pass frees every slot. */
  lemma ClosedSlotsAreFreed(now: seq<Producer?>, ps: seq<Producer?>, fs: seq<Option<Findings>>)
    requires KeptUpTo(now, ps, fs, |now|)
    requires forall i | 0 <= i < |now| && ps[i] != null :: fs[i].Some? && fs[i].value.phase.Closed?
    ensures forall i | 0 <= i < |now| :: now[i] == null
  {
  }

  // ---------------------------------------------------------------- the logger

  class Logger {
    const slots: array<Producer?>
    const shared: Producer
    const batch: Batch
    const clock: TickConversion
    const cat: Catalog

    /** The producers in the slots, none where a slot is free, and the shared one after them. */
    ghost function Producers(): seq<Producer?>
      reads slots
    {
      slots[..] + [shared]
    }

    ghost predicate Valid()
      reads slots, Read(Producers()), batch, batch.data, batch.file
    {
      && slots.Length == LP.MAX_THREADS && CanWrite()
      && Distinct(Producers()) && AllValid(Producers()) && AllApart(Producers())
    }

    ghost predicate CanWrite()
      reads batch, batch.data, batch.file
    {
      batch.Valid() && clock.Valid() && Fits(cat)
    }

    /** Some bytes were appended, and no batch was lost unless a call of write failed. */
    twostate predicate Wrote(text: bytes)
      reads batch, batch.data, batch.file
    {
      CanWrite() && batch.appended == old(batch.appended) + text && Keeps(old(batch.Out()), batch.Out())
    }

    constructor (file: File, clock: TickConversion, cat: Catalog)
      requires file.content == [] && clock.Valid() && Fits(cat)
      ensures Valid() && batch.file == file && batch.appended == []
      ensures shared.Valid() && shared.Found() == Findings(SHARED_NAME, LP.Live, [], 0)
      ensures forall i | 0 <= i < LP.MAX_THREADS :: slots[i] == null
    {
      slots := new Producer?[LP.MAX_THREADS](_ => null);
      shared := new Producer(SHARED_NAME);
      batch := new Batch(file);
      this.clock, this.cat := clock, cat;
    }

    /** Make a producer for a thread and publish it in the first free slot; refuse if there is none. */
    method Register(name: bytes) returns (handle: Handle?)
      requires Valid()
      modifies slots
      ensures Valid()
      ensures handle == null <==> null !in old(slots[..])
      ensures handle == null ==> slots[..] == old(slots[..])
      ensures handle != null ==>
        && fresh(handle) && handle.producer != null && fresh(handle.producer)
        && handle.producer.Valid() && handle.producer.Found() == Findings(Cut(name), LP.Live, [], 0)
        && exists i | 0 <= i < |old(slots[..])| ::
             && old(slots[..])[i] == null && null !in old(slots[..])[..i]
             && slots[..] == old(slots[..])[i := handle.producer]
    {
      var producer := new Producer(name);
      for i := 0 to slots.Length
        invariant slots[..] == old(slots[..]) && null !in slots[..i]
        invariant Valid() && producer.Valid() && producer.Found() == Findings(Cut(name), LP.Live, [], 0)
        invariant fresh(producer) && fresh(producer.ring) && fresh(producer.ring.slots)
      {
        if slots[i] == null {
          Publish(i, producer);
          handle := new Handle(producer);
          return;
        }
      }
      return null;
    }

    /** Put a new producer into a free slot. */
    method Publish(i: nat, producer: Producer)
      requires Valid() && i < slots.Length && slots[i] == null
      requires producer.Valid() && Apart(producer) && forall p: Producer | p in Producers() :: Strangers(p, producer)
      modifies slots
      ensures Valid() && slots[..] == old(slots[..])[i := producer]
      ensures producer.Valid() && producer.Found() == old(producer.Found())
    {
      ghost var ps := Producers();
      slots[i] := producer;
      ghost var now := Producers();
      assert now == ps[i := producer];
      forall j | 0 <= j < |now| && now[j] != null ensures now[j].Valid() && Apart(now[j]) {
        assert j != i ==> Apart(ps[j]);
      }
      forall j, k | 0 <= j < |now| && 0 <= k < |now| && j != k ensures DistinctAt(now, j, k) {
        assert DistinctAt(ps, j, k);
        assert j != i ==> ps[j] in ps;
        assert k != i ==> ps[k] in ps;
      }
    }

    /** Append the line of one record: whole, since no record is larger than the room. */
    method WriteLine(r: Record, name: bytes)
      requires CanWrite()
      modifies batch, batch.data, batch.file
      ensures Wrote(RecordLine(cat, clock, r, name))
    {
      RoomKeeps(batch.Out(), batch.data[..batch.size]);
      RecordIsNeverCut(cat, clock, r, name, batch.size);
      batch.WriteRecord(cat, clock, r, name);
    }

    /** Append the line that reports a producer's losses. */
    method WriteLosses(count: uint64, name: bytes, now: uint64)
      requires CanWrite() && |name| <= MAX_NAME_SIZE
      modifies batch, batch.data, batch.file
      ensures Wrote(LossLine(clock, now, name, count))
    {
      RoomKeeps(batch.Out(), batch.data[..batch.size]);
      batch.WriteLoss(clock, now, name, count);
    }

    /** Empty the ring of a producer and report its losses. Reads the phase first, and takes at most a
        ring's worth from a live ring. */
    method DrainOne(producer: Producer, now: uint64) returns (phase: LP.Phase, full: bool)
      requires CanWrite() && producer.Valid() && Apart(producer)
      modifies producer, producer.ring, batch, batch.data, batch.file
      ensures producer.Valid() && producer.Found() == old(producer.Found()).Drained()
      ensures phase == producer.phase && full == old(producer.Found()).Full()
      ensures Wrote(Report(cat, clock, now, old(producer.Found())))
    {
      phase := producer.phase;
      var limit := LP.Limit(phase);
      ghost var was, f := batch.appended, producer.Found();
      var count := TakeRecords(producer, limit);
      var dropped := producer.TakeDropped();
      if dropped != 0 {
        WriteLosses(dropped, producer.name, now);
      }
      Associative(was, Lines(cat, clock, f.name, f.queue), Losses(clock, now, f));
      full := count == limit;
    }

    /** Write the oldest records of a producer, at most limit of them. */
    method TakeRecords(producer: Producer, limit: nat) returns (count: nat)
      requires CanWrite() && producer.Valid() && Apart(producer) && limit >= LP.RING_CAPACITY
      modifies producer.ring, batch, batch.data, batch.file
      ensures producer.Valid() && producer.Found() == old(producer.Found()).(queue := [])
      ensures count == |old(producer.Found()).queue|
      ensures Wrote(Lines(cat, clock, producer.name, old(producer.Found()).queue))
    {
      ghost var f, was, sink := producer.Found(), batch.appended, batch.Out();
      count := 0;
      assert f.queue[0..] == f.queue && f.queue[..0] == [] && was + [] == was;
      while count < limit
        invariant count <= |f.queue| <= LP.RING_CAPACITY && Taken(producer, f, was, sink, count)
      {
        var r := TakeRecord(producer, f, was, sink, count);
        if r.None? {
          break;
        }
        count := count + 1;
      }
      assert f.queue[..count] == f.queue && f.queue[count..] == [];
    }

    /** Where the draining of a producer stands: its first n records are written, the others still there. */
    ghost predicate Taken(producer: Producer, f: Findings, was: bytes, sink: Sink, n: nat)
      reads producer, producer.ring, producer.ring.slots, batch, batch.data, batch.file
    {
      producer.Left(f, n) && LinesWritten(f, was, sink, n)
    }

    ghost predicate LinesWritten(f: Findings, was: bytes, sink: Sink, n: nat)
      reads batch, batch.data, batch.file
    {
      && CanWrite() && Keeps(sink, batch.Out())
      && n <= |f.queue| && batch.appended == was + Lines(cat, clock, f.name, f.queue[..n])
    }

    /** Write the next record of a producer, if there is one. */
    method TakeRecord(producer: Producer, ghost f: Findings, ghost was: bytes, ghost sink: Sink, ghost n: nat)
      returns (r: Option<Record>)
      requires Apart(producer) && Taken(producer, f, was, sink, n)
      modifies producer.ring, batch, batch.data, batch.file
      ensures r.None? ==> n == |f.queue| && Taken(producer, f, was, sink, n)
      ensures r.Some? ==> n < |f.queue| && Taken(producer, f, was, sink, n + 1)
    {
      r := producer.PopNext(f, n);
      if r.Some? {
        WriteNext(r.value, producer.name, f, was, sink, n);
      }
    }

    /** Write one more record of some that are being written. */
    method WriteNext(r: Record, name: bytes, ghost f: Findings, ghost was: bytes, ghost sink: Sink, ghost n: nat)
      requires LinesWritten(f, was, sink, n) && n < |f.queue| && r == f.queue[n] && name == f.name
      modifies batch, batch.data, batch.file
      ensures LinesWritten(f, was, sink, n + 1)
    {
      OneMoreLine(cat, clock, name, f.queue, n, was);
      WriteLine(r, name);
    }

    /** Drain the producer of one slot, and free it if it is closed. */
    method DrainSlot(i: nat, now: uint64, ghost ps: seq<Producer?>, ghost fs: seq<Option<Findings>>)
      returns (full: bool)
      requires CanWrite() && Distinct(ps) && AllApart(ps) && DrainedUpTo(ps, fs, i)
      requires i < slots.Length && i < |ps| && slots[i] == ps[i]
      modifies slots, ChangedAt(ps[i]), batch, batch.data, batch.file
      ensures DrainedUpTo(ps, fs, i + 1) && full == FullAt(fs[i])
      ensures slots[..] == old(slots[..])[i := Kept(ps[i], fs[i])]
      ensures Wrote(ReportAt(cat, clock, now, fs[i]))
    {
      var producer := slots[i];
      if producer == null {
        assert slots[..] == slots[..][i := ps[i]];
        return false;
      }
      var phase;
      phase, full := DrainOneOf(producer, now, i, ps, fs);
      if phase.Closed? {
        FreeSlot(i, ps, fs);
      } else {
        assert slots[..] == slots[..][i := ps[i]];
      }
    }

    /** Empty a slot. */
    method FreeSlot(i: nat, ghost ps: seq<Producer?>, ghost fs: seq<Option<Findings>>)
      requires AllApart(ps) && i < slots.Length && DrainedUpTo(ps, fs, i + 1)
      modifies slots
      ensures slots[..] == old(slots[..])[i := null]
      ensures DrainedUpTo(ps, fs, i + 1)
    {
      slots[i] := null;
      forall j | 0 <= j < |ps| && ps[j] != null
        ensures ps[j].Valid() && ps[j].Found() == old(ps[j].Found())
      {
        assert Apart(ps[j]);
      }
    }

    /** Drain one of some producers, and leave the others alone. */
    method DrainOneOf(
      producer: Producer, now: uint64, ghost i: nat, ghost ps: seq<Producer?>, ghost fs: seq<Option<Findings>>)
      returns (phase: LP.Phase, full: bool)
      requires CanWrite() && Distinct(ps) && AllApart(ps) && DrainedUpTo(ps, fs, i)
      requires i < |ps| && ps[i] == producer
      modifies producer, producer.ring, batch, batch.data, batch.file
      ensures DrainedUpTo(ps, fs, i + 1)
      ensures phase == fs[i].value.phase && full == FullAt(fs[i])
      ensures Wrote(ReportAt(cat, clock, now, fs[i]))
    {
      phase, full := DrainOne(producer, now);
      forall j | 0 <= j < |ps| && j != i && ps[j] != null
        ensures ps[j].Valid() && ps[j].Found() == old(ps[j].Found())
      {
        assert Apart(ps[j]) && DistinctAt(ps, i, j);
      }
    }

    /** Drain every producer once, report losses, and free the closed ones. The result says whether a live
        ring gave a whole ring's worth. */
    method Drain(nows: seq<uint64>) returns (behind: bool)
      requires Valid() && |nows| == LP.MAX_THREADS + 1
      modifies slots, Changed(Producers()), batch, batch.data, batch.file
      ensures Valid() && DrainedUpTo(old(Producers()), old(AllFound(Producers())), LP.MAX_THREADS + 1)
      ensures KeptUpTo(slots[..], old(Producers()), old(AllFound(Producers())), LP.MAX_THREADS)
      ensures Wrote(Reports(cat, clock, nows, old(AllFound(Producers()))))
      ensures behind == FullAmong(old(AllFound(Producers())), LP.MAX_THREADS + 1)
    {
      ghost var ps, fs, was, sink := Producers(), AllFound(Producers()), batch.appended, batch.Out();
      assert fs[..0] == [] && was + [] == was;
      behind := DrainAll(nows, ps, fs, was, sink);
      KeptAreValid(ps, slots[..] + [shared]);
      assert fs[..slots.Length + 1] == fs;
    }

    /** Drain the producers in the slots, then the shared one. */
    method DrainAll(
      nows: seq<uint64>, ghost ps: seq<Producer?>, ghost fs: seq<Option<Findings>>, ghost was: bytes, ghost sink: Sink)
      returns (behind: bool)
      requires Distinct(ps) && AllApart(ps) && PassAt(ps, fs, nows, was, sink, 0)
      requires ps == slots[..] + [shared]
      modifies slots, Changed(ps), batch, batch.data, batch.file
      ensures PassAt(ps, fs, nows, was, sink, slots.Length + 1)
      ensures KeptUpTo(slots[..], ps, fs, slots.Length) && behind == FullAmong(fs, slots.Length + 1)
    {
      ChangedAtIsChanged(ps);
      assert ps[slots.Length] == shared;
      behind := DrainSlots(nows, ps, fs, was, sink);
      var full := DrainShared(nows, ps, fs, was, sink);
      OneMoreFull(fs, slots.Length);
      behind := full || behind;
    }

    /** Where a pass stands: the first n producers are drained and reported. */
    ghost predicate PassAt(
      ps: seq<Producer?>, fs: seq<Option<Findings>>, nows: seq<uint64>, was: bytes, sink: Sink, n: nat)
      reads Read(ps), batch, batch.data, batch.file
    {
      && CanWrite() && Keeps(sink, batch.Out()) && DrainedUpTo(ps, fs, n)
      && n <= |ps| <= |nows| && batch.appended == was + Reports(cat, clock, nows, fs[..n])
    }

    /** Drain the producers in the slots. */
    method DrainSlots(
      nows: seq<uint64>, ghost ps: seq<Producer?>, ghost fs: seq<Option<Findings>>, ghost was: bytes, ghost sink: Sink)
      returns (behind: bool)
      requires Distinct(ps) && AllApart(ps) && PassAt(ps, fs, nows, was, sink, 0)
      requires ps == slots[..] + [shared]
      modifies slots, Changed(ps), batch, batch.data, batch.file
      ensures PassAt(ps, fs, nows, was, sink, slots.Length)
      ensures KeptUpTo(slots[..], ps, fs, slots.Length) && behind == FullAmong(fs, slots.Length)
    {
      behind := false;
      ChangedAtIsChanged(ps);
      for i := 0 to slots.Length
        invariant PassAt(ps, fs, nows, was, sink, i)
        invariant KeptUpTo(slots[..], ps, fs, i) && behind == FullAmong(fs, i)
      {
        var full := DrainNext(i, nows, ps, fs, was, sink);
        OneMoreFull(fs, i);
        behind := behind || full;
      }
    }

    /** What holds of some producers holds of those that are kept of them. */
    lemma KeptAreValid(ps: seq<Producer?>, kept: seq<Producer?>)
      requires |kept| == |ps| && forall i | 0 <= i < |ps| :: kept[i] == ps[i] || kept[i] == null
      requires AllValid(ps) && Distinct(ps) && AllApart(ps)
      ensures AllValid(kept) && Distinct(kept) && AllApart(kept)
    {
      forall i, j | 0 <= i < |ps| && 0 <= j < |ps| && i != j ensures DistinctAt(kept, i, j) {
        assert DistinctAt(ps, i, j);
      }
    }

    /** Drain the next slot of a pass. */
    method DrainNext(
      i: nat, nows: seq<uint64>, ghost ps: seq<Producer?>, ghost fs: seq<Option<Findings>>, ghost was: bytes,
      ghost sink: Sink)
      returns (full: bool)
      requires Distinct(ps) && AllApart(ps) && PassAt(ps, fs, nows, was, sink, i)
      requires i < slots.Length < |ps| && KeptUpTo(slots[..], ps, fs, i)
      modifies slots, ChangedAt(ps[i]), batch, batch.data, batch.file
      ensures PassAt(ps, fs, nows, was, sink, i + 1) && KeptUpTo(slots[..], ps, fs, i + 1)
      ensures full == FullAt(fs[i])
    {
      assert slots[..][i] == ps[i];
      full := DrainSlot(i, nows[i], ps, fs);
      OneMoreReport(cat, clock, nows, fs, i, was);
    }

    /** Drain the shared producer, after the last slot of a pass. */
    method DrainShared(
      nows: seq<uint64>, ghost ps: seq<Producer?>, ghost fs: seq<Option<Findings>>, ghost was: bytes, ghost sink: Sink)
      returns (full: bool)
      requires Distinct(ps) && AllApart(ps) && PassAt(ps, fs, nows, was, sink, slots.Length)
      requires |ps| == slots.Length + 1 && ps[slots.Length] == shared
      modifies ChangedAt(shared), batch, batch.data, batch.file
      ensures PassAt(ps, fs, nows, was, sink, slots.Length + 1)
      ensures full == FullAt(fs[slots.Length]) && slots[..] == old(slots[..])
    {
      var phase;
      phase, full := DrainOneOf(shared, nows[slots.Length], slots.Length, ps, fs);
      OneMoreReport(cat, clock, nows, fs, slots.Length, was);
    }

    /** One pass of the logger thread, or the last one, of the destructor: drain and flush. */
    method Pass(nows: seq<uint64>) returns (behind: bool)
      requires Valid() && |nows| == LP.MAX_THREADS + 1
      modifies slots, Changed(Producers()), batch, batch.data, batch.file
      ensures Valid() && DrainedUpTo(old(Producers()), old(AllFound(Producers())), LP.MAX_THREADS + 1)
      ensures KeptUpTo(slots[..], old(Producers()), old(AllFound(Producers())), LP.MAX_THREADS)
      ensures behind == FullAmong(old(AllFound(Producers())), LP.MAX_THREADS + 1)
      ensures Wrote(Reports(cat, clock, nows, old(AllFound(Producers()))))
      ensures !batch.failed ==> batch.file.content == batch.appended
      ensures old(EveryHandleGone()) ==> forall i | 0 <= i < slots.Length :: slots[..][i] == null
    {
      behind := Drain(nows);
      FlushBatch(old(Producers()), old(AllFound(Producers())));
      if old(EveryHandleGone()) {
        ClosedSlotsAreFreed(slots[..], old(Producers()), old(AllFound(Producers())));
      }
    }

    /** Every producer in a slot is closed. */
    ghost predicate EveryHandleGone()
      requires AllValid(Producers())
      reads slots, Read(Producers())
    {
      forall i | 0 <= i < slots.Length && Producers()[i] != null ::
        AllFound(Producers())[i].Some? && AllFound(Producers())[i].value.phase.Closed?
    }

    /** Write the batch to the file. */
    method FlushBatch(ghost ps: seq<Producer?>, ghost fs: seq<Option<Findings>>)
      requires Valid() && DrainedUpTo(ps, fs, LP.MAX_THREADS + 1)
      modifies batch, batch.file
      ensures Valid() && DrainedUpTo(ps, fs, LP.MAX_THREADS + 1)
      ensures batch.appended == old(batch.appended) && Keeps(old(batch.Out()), batch.Out())
      ensures !batch.failed ==> batch.file.content == batch.appended
    {
      RoomKeeps(batch.Out(), batch.data[..batch.size]);
      batch.Flush();
      assert batch.file.content + batch.data[..0] == batch.file.content;
    }

    ghost predicate AllApart(ps: seq<Producer?>) {
      slots as object != batch.data && forall i | 0 <= i < |ps| && ps[i] != null :: Apart(ps[i])
    }

    /** The producer's ring is not the batch. */
    ghost predicate Apart(producer: Producer) {
      producer.ring.slots as object != batch.data && producer.ring.slots as object != slots
    }
  }
}
