/** The logger as its threads see it: registering threads, handles that log, move and close, foreign
    threads behind a lock, and one logger thread that drains, reports losses and frees producers.
    Every atomic access is a step of its own and the steps of different threads interleave freely.

    A push or a pop of a producer's ring is one step here (RingCalls shows that the ring's own
    interleaved steps amount to it). The logger thread may see the other threads' counters, phases and
    slots late; it never sees them go backwards, and once it has read a phase as closed it sees everything
    stored before the close (release/acquire). */
module LoggerProtocol {
  import opened Wrappers
  import opened LogRecord

  const MAX_THREADS: nat := 32
  const RING_CAPACITY: nat := 4096
  const SIZE_MAX: nat := 0xFFFF_FFFF_FFFF_FFFF

  /** The identity of a producer. Never reused, unlike its address. */
  type Id = nat

  /** The producer of the locked callers, made with the logger and in no slot. */
  const SHARED: Id := 0

  datatype Phase = Live | Closed

  /** A call to push whose try_push has answered. */
  datatype Call = Call(record: Record, accepted: bool)

  datatype Producer = Producer(
    calls: seq<Call>,     // every push, in order
    dropped: nat,         // the counter of losses, pushing side
    counting: bool,       // inside push: refused by the ring, not yet counted
    phase: Phase,
    taken: nat,           // records popped
    cachedTail: nat,      // the ring's private copy of its tail, pushing side
    cachedHead: nat,      // the ring's private copy of its head, popping side
    headSeen: nat,        // no later load of the head returns less
    droppedSeen: nat,     // no later load of the losses returns less
    closeSeen: bool,      // the logger thread has read the phase as closed
    reported: nat,        // losses already reported
    owner: nat,           // the handle that holds it, while live
    slot: nat)            // the slot it was published in

  /** A line of the log: a record of a producer, or the report of its losses. */
  datatype Entry = Line(id: Id, record: Record) | Lost(id: Id, count: nat)

  /** What one pass found at one slot, or at the shared ring after the last slot. */
  datatype Visit = Visit(slot: nat, id: Option<Id>, phase: Phase, pops: nat)

  datatype LoggerPc =
    | Resting(result: bool)
    | AtSlot(i: nat, behind: bool)
    | ReadingPhase(i: nat, id: Id, behind: bool)
    | Draining(i: nat, id: Id, phase: Phase, count: nat, done: bool, behind: bool)
    | Freeing(i: nat, id: Id, behind: bool)
    | Clearing(i: nat, id: Id, behind: bool)

  datatype State = State(
    producers: map<Id, Producer>,       // every producer ever published, and the shared one
    freed: set<Id>,
    slots: seq<Option<Id>>,
    slotSeen: seq<bool>,                // the logger thread has seen what the slot holds
    handles: map<nat, Option<Id>>,      // the handles that exist, none once moved from
    scans: map<nat, nat>,               // registrations under way, and the slot each tries next
    logger: LoggerPc,
    stopping: bool,                     // the destructor has joined the logger thread
    log: seq<Entry>,
    visits: seq<Visit>)                 // of the pass under way or just ended

  datatype Label =
    | BeginRegister(scan: nat)
    | TrySlot(scan: nat, id: Id, handle: nat)
    | GiveUp(scan: nat)
    | MoveHandle(original: nat, copy: nat)
    | DestroyHandle(handle: nat)
    | Push(handle: nat, record: Record, seen: nat)
    | CountDrop(handle: nat)
    | PushLocked(record: Record, seen: nat)
    | CountDropLocked
    | StartPass
    | LoadSlot(sees: bool)
    | ReadPhase(phase: Phase)
    | Pop(head: nat)
    | TakeDropped(seen: nat)
    | Free
    | ClearSlot
    | BeginDestroy
  {
    predicate ByLogger() {
      StartPass? || LoadSlot? || ReadPhase? || Pop? || TakeDropped? || Free? || ClearSlot?
    }
  }

  // ---------------------------------------------------------------- histories

  /** The records the ring took, in call order. */
  function Accepted(calls: seq<Call>): (rs: seq<Record>)
    ensures |rs| <= |calls|
  {
    if calls == [] then []
    else
      var last := calls[|calls| - 1];
      Accepted(calls[..|calls| - 1]) + (if last.accepted then [last.record] else [])
  }

  /** The records of one producer in the log, in log order. */
  function WrittenOf(log: seq<Entry>, id: Id): seq<Record> {
    if log == [] then []
    else
      var last := log[|log| - 1];
      WrittenOf(log[..|log| - 1], id) + (if last.Line? && last.id == id then [last.record] else [])
  }

  /** The losses of one producer the log reports, summed. */
  function LostOf(log: seq<Entry>, id: Id): nat {
    if log == [] then 0
    else
      var last := log[|log| - 1];
      LostOf(log[..|log| - 1], id) + (if last.Lost? && last.id == id then last.count else 0)
  }

  lemma OneMoreCall(calls: seq<Call>, c: Call)
    ensures Accepted(calls + [c]) == Accepted(calls) + (if c.accepted then [c.record] else [])
  {
    assert (calls + [c])[..|calls|] == calls;
  }

  lemma OneMoreEntry(log: seq<Entry>, e: Entry, id: Id)
    ensures WrittenOf(log + [e], id) == WrittenOf(log, id) + (if e.Line? && e.id == id then [e.record] else [])
    ensures LostOf(log + [e], id) == LostOf(log, id) + (if e.Lost? && e.id == id then e.count else 0)
  {
    assert (log + [e])[..|log|] == log;
  }

  // ---------------------------------------------------------------- steps

  function Fresh(owner: nat, slot: nat): Producer {
    Producer([], 0, false, Live, 0, 0, 0, 0, 0, false, 0, owner, slot)
  }

  function Init(): State {
    State(map[SHARED := Fresh(0, MAX_THREADS)], {}, seq(MAX_THREADS, _ => None), seq(MAX_THREADS, _ => false),
          map[], map[], Resting(false), false, [], [])
  }

  /** The records in a producer's ring. */
  function Held(p: Producer): int {
    |Accepted(p.calls)| - p.taken
  }

  /** The most records one pass takes from a ring whose phase it read. */
  function Limit(phase: Phase): nat {
    if phase.Closed? then SIZE_MAX else RING_CAPACITY
  }

  /** A push may start, and its load of the tail, should it need one, may return this. */
  ghost predicate CanPush(p: Producer, seen: nat) {
    !p.counting && p.cachedTail <= seen <= p.taken
  }

  /** The producer behind a handle that has one. */
  ghost predicate Owns(s: State, handle: nat, id: Id) {
    handle in s.handles && s.handles[handle] == Some(id) && id in s.producers
  }

  /** The handle exists and its thread is not inside a push. */
  ghost predicate Idle(s: State, handle: nat) {
    && handle in s.handles
    && (s.handles[handle].Some? ==>
          s.handles[handle].value in s.producers && !s.producers[s.handles[handle].value].counting)
  }

  ghost predicate Enabled(s: State, l: Label) {
    match l
    case BeginRegister(scan) => !s.stopping && scan !in s.scans
    case TrySlot(scan, id, handle) =>
      && !s.stopping && scan in s.scans && s.scans[scan] < |s.slots| && s.scans[scan] < |s.slotSeen|
      && id !in s.producers && id > SHARED && handle !in s.handles
    case GiveUp(scan) => !s.stopping && scan in s.scans && s.scans[scan] == MAX_THREADS
    case MoveHandle(original, copy) => !s.stopping && Idle(s, original) && copy !in s.handles
    case DestroyHandle(handle) => !s.stopping && Idle(s, handle)
    case Push(handle, _, seen) =>
      && !s.stopping && exists id :: Owns(s, handle, id) && CanPush(s.producers[id], seen)
    case CountDrop(handle) =>
      && !s.stopping && exists id :: Owns(s, handle, id) && s.producers[id].counting
    case PushLocked(_, seen) =>
      !s.stopping && SHARED in s.producers && CanPush(s.producers[SHARED], seen)
    case CountDropLocked => !s.stopping && SHARED in s.producers && s.producers[SHARED].counting
    case StartPass => s.logger.Resting?
    case LoadSlot(sees) =>
      && s.logger.AtSlot? && s.logger.i < |s.slots| && s.logger.i < |s.slotSeen|
      && (!sees ==> !s.stopping && !s.slotSeen[s.logger.i])
    case ReadPhase(phase) =>
      && s.logger.ReadingPhase? && s.logger.id in s.producers
      && var p := s.producers[s.logger.id];
         phase == p.phase || (phase.Live? && !p.closeSeen && !s.stopping)
    case Pop(head) =>
      && s.logger.Draining? && s.logger.id in s.producers
      && !s.logger.done && s.logger.count < Limit(s.logger.phase)
      && var p := s.producers[s.logger.id];
         && p.headSeen <= head <= |Accepted(p.calls)|
         && (s.stopping ==> head == |Accepted(p.calls)|)
         && (if p.taken == p.cachedHead then p.taken <= head else p.taken < |Accepted(p.calls)|)
    case TakeDropped(seen) =>
      && s.logger.Draining? && s.logger.id in s.producers
      && (s.logger.done || s.logger.count == Limit(s.logger.phase))
      && var p := s.producers[s.logger.id];
         && p.droppedSeen <= seen <= p.dropped && p.reported <= seen
         && (s.stopping ==> seen == p.dropped)
    case Free => s.logger.Freeing?
    case ClearSlot => s.logger.Clearing? && s.logger.i < |s.slots| && s.logger.i < |s.slotSeen|
    case BeginDestroy =>
      && !s.stopping && s.logger.Resting?
      && (forall h | h in s.handles :: s.handles[h].None?)
      && s.scans == map[] && SHARED in s.producers && !s.producers[SHARED].counting
  }

  /** Where the pass goes after slot i. */
  function Advance(i: nat, behind: bool): LoggerPc {
    if i + 1 < MAX_THREADS then AtSlot(i + 1, behind) else ReadingPhase(MAX_THREADS, SHARED, behind)
  }

  /** The ring's private copy of its tail after a push: loaded only when the copy says full. */
  function KnownTail(p: Producer, seen: nat): nat {
    if |Accepted(p.calls)| - p.cachedTail == RING_CAPACITY then seen else p.cachedTail
  }

  /** Whether the ring takes a record: not when it is full as far as the copy knows. */
  predicate HasRoom(p: Producer, seen: nat) {
    |Accepted(p.calls)| - KnownTail(p, seen) != RING_CAPACITY
  }

  function AfterPush(p: Producer, record: Record, seen: nat): Producer {
    var room := HasRoom(p, seen);
    p.(calls := p.calls + [Call(record, room)], counting := !room, cachedTail := KnownTail(p, seen))
  }

  function AfterCount(p: Producer): Producer {
    p.(dropped := p.dropped + 1, counting := false)
  }

  /** The producer the handle owns. */
  ghost function Owned(s: State, handle: nat): (id: Id)
    requires exists id :: Owns(s, handle, id)
    ensures Owns(s, handle, id)
  {
    s.handles[handle].value
  }

  ghost function Next(s: State, l: Label): State
    requires Enabled(s, l)
  {
    match l
    case BeginRegister(scan) => s.(scans := s.scans[scan := 0])
    case TrySlot(scan, id, handle) => NextTrySlot(s, scan, id, handle)
    case GiveUp(scan) => s.(scans := s.scans - {scan})
    case MoveHandle(original, copy) => NextMove(s, original, copy)
    case DestroyHandle(handle) => NextDestroy(s, handle)
    case Push(handle, record, seen) =>
      var id := Owned(s, handle);
      s.(producers := s.producers[id := AfterPush(s.producers[id], record, seen)])
    case CountDrop(handle) =>
      var id := Owned(s, handle);
      s.(producers := s.producers[id := AfterCount(s.producers[id])])
    case PushLocked(record, seen) =>
      s.(producers := s.producers[SHARED := AfterPush(s.producers[SHARED], record, seen)])
    case CountDropLocked =>
      s.(producers := s.producers[SHARED := AfterCount(s.producers[SHARED])])
    case StartPass => s.(logger := AtSlot(0, false), visits := [])
    case LoadSlot(sees) => NextLoadSlot(s, sees)
    case ReadPhase(phase) => NextReadPhase(s, phase)
    case Pop(head) => NextPop(s, head)
    case TakeDropped(seen) => NextTakeDropped(s, seen)
    case Free =>
      var Freeing(i, id, behind) := s.logger;
      s.(freed := s.freed + {id}, logger := Clearing(i, id, behind))
    case ClearSlot =>
      var Clearing(i, _, behind) := s.logger;
      s.(slots := s.slots[i := None], slotSeen := s.slotSeen[i := true], logger := Advance(i, behind))
    case BeginDestroy => s.(stopping := true, visits := [])
  }

  /** One compare-exchange: it publishes the new producer in a free slot, or goes on to the next slot. */
  ghost function NextTrySlot(s: State, scan: nat, id: Id, handle: nat): State
    requires Enabled(s, TrySlot(scan, id, handle))
  {
    var i := s.scans[scan];
    if s.slots[i].None? then
      s.(slots := s.slots[i := Some(id)], slotSeen := s.slotSeen[i := false],
         producers := s.producers[id := Fresh(handle, i)],
         handles := s.handles[handle := Some(id)],
         scans := s.scans - {scan})
    else s.(scans := s.scans[scan := i + 1])
  }

  ghost function NextMove(s: State, original: nat, copy: nat): State
    requires Enabled(s, MoveHandle(original, copy))
  {
    var target := s.handles[original];
    var moved := s.(handles := s.handles[original := None][copy := target]);
    if target.Some?
    then moved.(producers := s.producers[target.value := s.producers[target.value].(owner := copy)])
    else moved
  }

  ghost function NextDestroy(s: State, handle: nat): State
    requires Enabled(s, DestroyHandle(handle))
  {
    var target := s.handles[handle];
    var gone := s.(handles := s.handles - {handle});
    if target.Some?
    then gone.(producers := s.producers[target.value := s.producers[target.value].(phase := Closed)])
    else gone
  }

  ghost function NextLoadSlot(s: State, sees: bool): State
    requires Enabled(s, LoadSlot(sees))
  {
    var AtSlot(i, behind) := s.logger;
    if sees && s.slots[i].Some?
    then s.(slotSeen := s.slotSeen[i := true], logger := ReadingPhase(i, s.slots[i].value, behind))
    else s.(logger := Advance(i, behind), visits := s.visits + [Visit(i, None, Live, 0)])
  }

  ghost function NextReadPhase(s: State, phase: Phase): State
    requires Enabled(s, ReadPhase(phase))
  {
    var ReadingPhase(i, id, behind) := s.logger;
    var p := s.producers[id];
    var now := s.(logger := Draining(i, id, phase, 0, false, behind));
    if phase.Closed?
    then
      var q := p.(closeSeen := true, headSeen := |Accepted(p.calls)|, droppedSeen := p.dropped);
      now.(producers := s.producers[id := q])
    else now
  }

  /** One try_pop: the head is loaded only when the private copy says empty. */
  ghost function NextPop(s: State, head: nat): State
    requires Enabled(s, Pop(head))
  {
    var Draining(i, id, phase, count, _, behind) := s.logger;
    var p := s.producers[id];
    if p.taken == p.cachedHead && p.taken == head then
      s.(producers := s.producers[id := p.(headSeen := head)],
         logger := Draining(i, id, phase, count, true, behind))
    else
      var known := if p.taken == p.cachedHead then p.(cachedHead := head, headSeen := head) else p;
      s.(producers := s.producers[id := known.(taken := p.taken + 1)],
         log := s.log + [Line(id, Accepted(p.calls)[p.taken])],
         logger := Draining(i, id, phase, count + 1, false, behind))
  }

  ghost function NextTakeDropped(s: State, seen: nat): State
    requires Enabled(s, TakeDropped(seen))
  {
    var Draining(i, id, phase, count, _, behind) := s.logger;
    var p := s.producers[id];
    var news := seen - p.reported;
    var now := s.(
      producers := s.producers[id := p.(reported := seen, droppedSeen := seen)],
      log := if news != 0 then s.log + [Lost(id, news)] else s.log,
      visits := s.visits + [Visit(i, Some(id), phase, count)]);
    var more := behind || count == Limit(phase);
    if i == MAX_THREADS then now.(logger := Resting(more))
    else if phase.Closed? then now.(logger := Freeing(i, id, more))
    else now.(logger := Advance(i, more))
  }
}
