/** What every step of the logger keeps. */
module LoggerInvariant {
  import opened Wrappers
  import opened LoggerProtocol

  /** One producer's counters: what the logger thread knows never runs ahead of what is there. */
  ghost predicate Sound(p: Producer) {
    && p.taken <= p.cachedHead <= p.headSeen <= |Accepted(p.calls)|
    && p.cachedTail <= p.taken && |Accepted(p.calls)| <= p.cachedTail + RING_CAPACITY
    && (p.dropped > 0 || p.counting ==> |Accepted(p.calls)| >= RING_CAPACITY)
    && p.reported <= p.droppedSeen <= p.dropped
    && |p.calls| == |Accepted(p.calls)| + p.dropped + (if p.counting then 1 else 0)
    && (p.phase.Closed? ==> !p.counting)
    && (p.closeSeen ==> p.phase.Closed? && p.headSeen == |Accepted(p.calls)| && p.droppedSeen == p.dropped)
  }

  /** Nothing of the producer is still to be written or reported. */
  ghost predicate AllOut(p: Producer) {
    Held(p) == 0 && p.reported == p.dropped && !p.counting
  }

  ghost predicate Shape(s: State) {
    && |s.slots| == MAX_THREADS && |s.slotSeen| == MAX_THREADS
    && SHARED in s.producers && SHARED !in s.freed && s.producers[SHARED].phase.Live?
  }

  ghost predicate AllSound(s: State) {
    forall id | id in s.producers :: Sound(s.producers[id])
  }

  /** A handle that has a producer is its one owner, and every live producer has its owner. */
  ghost predicate Handles(s: State) {
    && (forall h | h in s.handles && s.handles[h].Some? ::
          var id := s.handles[h].value;
          && id in s.producers && id != SHARED && s.producers[id].phase.Live? && s.producers[id].owner == h)
    && (forall id | id in s.producers && id != SHARED && s.producers[id].phase.Live? ::
          Owns(s, s.producers[id].owner, id))
  }

  /** A published producer sits in its own slot until it is freed, and is freed with nothing left. */
  ghost predicate Seats(s: State)
    requires |s.slots| == MAX_THREADS
  {
    && (forall i | 0 <= i < MAX_THREADS && s.slots[i].Some? ::
          var id := s.slots[i].value;
          && id in s.producers && id != SHARED && s.producers[id].slot == i
          && (id in s.freed ==> s.logger.Clearing? && s.logger.i == i && s.logger.id == id))
    && (forall id | id in s.producers && id != SHARED && id !in s.freed ::
          s.producers[id].slot < MAX_THREADS && s.slots[s.producers[id].slot] == Some(id))
    && (forall id | id in s.freed ::
          id in s.producers && s.producers[id].closeSeen && AllOut(s.producers[id]))
  }

  /** The log holds, for each producer, the records popped so far and the losses reported so far. */
  ghost predicate Logged(s: State) {
    && (forall id | id in s.producers :: LoggedAs(s.log, id, s.producers[id]))
    && (forall id | id !in s.producers :: Unlogged(s.log, id))
  }

  ghost predicate LoggedAs(log: seq<Entry>, id: Id, p: Producer) {
    && p.taken <= |Accepted(p.calls)|
    && WrittenOf(log, id) == Accepted(p.calls)[..p.taken]
    && LostOf(log, id) == p.reported
  }

  ghost predicate Unlogged(log: seq<Entry>, id: Id) {
    WrittenOf(log, id) == [] && LostOf(log, id) == 0
  }

  /** The producer the logger thread works on is published and not freed. */
  ghost predicate Target(s: State, i: nat, id: Id)
    requires |s.slots| == MAX_THREADS
  {
    && id in s.producers && id !in s.freed
    && if i < MAX_THREADS then s.slots[i] == Some(id) && id != SHARED else i == MAX_THREADS && id == SHARED
  }

  /** Inside drain_one: a ring nobody fills any more is drained before the limit is reached. */
  ghost predicate Drains(s: State)
    requires s.logger.Draining? && s.logger.id in s.producers
  {
    var p := s.producers[s.logger.id];
    && s.logger.count <= RING_CAPACITY
    && (s.logger.phase.Closed? ==> p.closeSeen)
    && (s.logger.phase.Live? && s.stopping ==> s.logger.id == SHARED)
    && (s.logger.phase.Closed? || s.stopping ==>
          && s.logger.count + Held(p) <= RING_CAPACITY
          && (s.logger.done ==> Held(p) == 0))
  }

  ghost predicate AtWork(s: State)
    requires |s.slots| == MAX_THREADS
  {
    match s.logger
    case Resting(_) => true
    case AtSlot(i, _) => i < MAX_THREADS
    case ReadingPhase(i, id, _) => Target(s, i, id)
    case Draining(i, id, _, _, _, _) => Target(s, i, id) && Drains(s)
    case Freeing(i, id, _) =>
      i < MAX_THREADS && Target(s, i, id) && s.producers[id].closeSeen && AllOut(s.producers[id])
    case Clearing(i, id, _) =>
      i < MAX_THREADS && s.slots[i] == Some(id) && id in s.freed
  }

  /** How many slots the pass under way has finished with. */
  function Passed(pc: LoggerPc): nat {
    match pc
    case Resting(_) => 0
    case AtSlot(i, _) => i
    case ReadingPhase(i, _, _) => i
    case Draining(i, _, _, _, _, _) => i
    case Freeing(i, _, _) => i
    case Clearing(i, _, _) => i
  }

  /** Once the destructor runs nobody logs, and its pass leaves the slots behind it empty. */
  ghost predicate Ending(s: State)
    requires |s.slots| == MAX_THREADS && SHARED in s.producers
  {
    s.stopping ==>
      && (forall h | h in s.handles :: s.handles[h].None?)
      && s.scans == map[] && !s.producers[SHARED].counting
      && (forall i | 0 <= i < MAX_THREADS && i < Passed(s.logger) :: s.slots[i].None?)
      && (s.logger.Resting? && s.visits != [] ==> Finished(s))
  }

  /** What the destructor's pass leaves. */
  ghost predicate Finished(s: State)
    requires |s.slots| == MAX_THREADS && SHARED in s.producers
  {
    AllOut(s.producers[SHARED]) && forall i | 0 <= i < MAX_THREADS :: s.slots[i].None?
  }

  ghost predicate Inv(s: State) {
    Shape(s) && AllSound(s) && Handles(s) && Seats(s) && Logged(s) && AtWork(s) && Ending(s)
  }
}
