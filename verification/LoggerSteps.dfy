/** Every step of every thread keeps the logger's invariant. */
module LoggerSteps {
  import opened LogRecord
  import opened LoggerProtocol
  import opened LoggerInvariant

  lemma InitKeepsInv()
    ensures Inv(Init())
  {
  }

  // ---------------------------------------------------------------- one producer changes

  /** Who holds what, apart from what each producer counts. */
  ghost predicate Structure(s: State) {
    Shape(s) && AllSound(s) && Handles(s) && Seats(s)
  }

  /** t differs from s by how producer id counts, and by what only the logger thread touches. */
  ghost predicate Counts(s: State, t: State, id: Id) {
    && id in s.producers && id in t.producers && t.producers == s.producers[id := t.producers[id]]
    && t.producers[id].phase == s.producers[id].phase
    && t.producers[id].owner == s.producers[id].owner && t.producers[id].slot == s.producers[id].slot
    && t.slots == s.slots && t.handles == s.handles && t.freed == s.freed && |t.slotSeen| == |s.slotSeen|
  }

  /** Counting differently for one producer that is not freed keeps who holds what. */
  lemma CountingKeepsStructure(s: State, t: State, id: Id)
    requires Structure(s) && Counts(s, t, id) && id !in s.freed && Sound(t.producers[id])
    requires t.logger == s.logger || !s.logger.Clearing?
    ensures Structure(t)
  {
    CountingKeepsHandles(s, t, id);
    CountingKeepsSeats(s, t, id);
    forall other | other in t.producers ensures Sound(t.producers[other]) {
      assert other != id ==> t.producers[other] == s.producers[other];
    }
  }

  lemma CountingKeepsHandles(s: State, t: State, id: Id)
    requires Shape(s) && Handles(s) && Counts(s, t, id)
    ensures Shape(t) && Handles(t)
  {
  }

  lemma CountingKeepsSeats(s: State, t: State, id: Id)
    requires |s.slots| == MAX_THREADS && Seats(s) && Counts(s, t, id) && id !in s.freed
    requires t.logger == s.logger || !s.logger.Clearing?
    ensures Seats(t)
  {
  }

  /** What the log holds stays right when one producer and the log change in step. */
  lemma CountingKeepsLogged(s: State, t: State, id: Id)
    requires Logged(s) && id in s.producers && id in t.producers
    requires t.producers == s.producers[id := t.producers[id]]
    requires forall other | other != id ::
      WrittenOf(t.log, other) == WrittenOf(s.log, other) && LostOf(t.log, other) == LostOf(s.log, other)
    requires LoggedAs(t.log, id, t.producers[id])
    ensures Logged(t)
  {
    forall other | other in t.producers ensures LoggedAs(t.log, other, t.producers[other]) {
      if other != id { assert LoggedAs(s.log, other, s.producers[other]); }
    }
    forall other | other !in t.producers ensures Unlogged(t.log, other) {
      assert Unlogged(s.log, other);
    }
  }

  // ---------------------------------------------------------------- registration and handles

  lemma BeginRegisterKeepsInv(s: State, l: Label)
    requires Inv(s) && (l.BeginRegister? || l.GiveUp?) && Enabled(s, l)
    ensures Inv(Next(s, l))
  {
  }

  lemma TrySlotKeepsInv(s: State, l: Label)
    requires Inv(s) && l.TrySlot? && Enabled(s, l)
    ensures Inv(Next(s, l))
  {
    TrySlotKeepsShape(s, l);
    TrySlotKeepsSeats(s, l);
    TrySlotKeepsWork(s, l);
    TrySlotKeepsLogged(s, l);
  }

  lemma TrySlotKeepsShape(s: State, l: Label)
    requires Shape(s) && Handles(s) && l.TrySlot? && Enabled(s, l)
    ensures Shape(Next(s, l)) && Handles(Next(s, l))
  {
  }

  lemma TrySlotKeepsSeats(s: State, l: Label)
    requires Shape(s) && Seats(s) && l.TrySlot? && Enabled(s, l)
    ensures |Next(s, l).slots| == MAX_THREADS && Seats(Next(s, l))
  {
  }

  lemma TrySlotKeepsWork(s: State, l: Label)
    requires Shape(s) && AtWork(s) && Ending(s) && l.TrySlot? && Enabled(s, l)
    ensures Shape(Next(s, l)) && AtWork(Next(s, l)) && Ending(Next(s, l))
  {
  }

  lemma TrySlotKeepsLogged(s: State, l: Label)
    requires Shape(s) && AllSound(s) && Logged(s) && l.TrySlot? && Enabled(s, l)
    ensures AllSound(Next(s, l)) && Logged(Next(s, l))
  {
    var t := Next(s, l);
    if t.producers != s.producers {
      assert Unlogged(s.log, l.id);
    }
  }

  lemma MoveHandleKeepsInv(s: State, l: Label)
    requires Inv(s) && l.MoveHandle? && Enabled(s, l)
    ensures Inv(Next(s, l))
  {
    MoveHandleKeepsHandles(s, l);
    MoveHandleKeepsSeats(s, l);
    MoveHandleKeepsLogged(s, l);
    MoveHandleKeepsWork(s, l);
  }

  lemma MoveHandleKeepsLogged(s: State, l: Label)
    requires Shape(s) && AllSound(s) && Logged(s) && l.MoveHandle? && Enabled(s, l)
    ensures AllSound(Next(s, l)) && Logged(Next(s, l))
  {
  }

  lemma MoveHandleKeepsWork(s: State, l: Label)
    requires Shape(s) && AtWork(s) && Ending(s) && l.MoveHandle? && Enabled(s, l)
    requires Shape(Next(s, l))
    ensures AtWork(Next(s, l)) && Ending(Next(s, l))
  {
  }

  lemma MoveHandleKeepsHandles(s: State, l: Label)
    requires Shape(s) && Handles(s) && l.MoveHandle? && Enabled(s, l)
    ensures Shape(Next(s, l)) && Handles(Next(s, l))
  {
  }

  lemma MoveHandleKeepsSeats(s: State, l: Label)
    requires Shape(s) && Seats(s) && l.MoveHandle? && Enabled(s, l)
    ensures |Next(s, l).slots| == MAX_THREADS && Seats(Next(s, l))
  {
  }

  lemma DestroyHandleKeepsInv(s: State, l: Label)
    requires Inv(s) && l.DestroyHandle? && Enabled(s, l)
    ensures Inv(Next(s, l))
  {
    DestroyHandleKeepsHandles(s, l);
    DestroyHandleKeepsSeats(s, l);
    DestroyHandleKeepsLogged(s, l);
    DestroyHandleKeepsWork(s, l);
  }

  lemma DestroyHandleKeepsLogged(s: State, l: Label)
    requires Shape(s) && AllSound(s) && Logged(s) && l.DestroyHandle? && Enabled(s, l)
    ensures AllSound(Next(s, l)) && Logged(Next(s, l))
  {
    DestroyHandleKeepsSound(s, l);
  }

  lemma DestroyHandleKeepsSound(s: State, l: Label)
    requires AllSound(s) && l.DestroyHandle? && Enabled(s, l)
    ensures AllSound(Next(s, l))
  {
  }

  lemma DestroyHandleKeepsWork(s: State, l: Label)
    requires Shape(s) && AtWork(s) && Ending(s) && l.DestroyHandle? && Enabled(s, l)
    requires Shape(Next(s, l))
    ensures AtWork(Next(s, l)) && Ending(Next(s, l))
  {
  }

  lemma DestroyHandleKeepsHandles(s: State, l: Label)
    requires Shape(s) && Handles(s) && l.DestroyHandle? && Enabled(s, l)
    ensures Shape(Next(s, l)) && Handles(Next(s, l))
  {
  }

  lemma DestroyHandleKeepsSeats(s: State, l: Label)
    requires Shape(s) && Seats(s) && l.DestroyHandle? && Enabled(s, l)
    ensures |Next(s, l).slots| == MAX_THREADS && Seats(Next(s, l))
  {
  }

  // ---------------------------------------------------------------- the pushing side

  /** p and q differ by what the pushing side changes. */
  ghost predicate OnlyPushed(p: Producer, q: Producer) {
    q == p.(calls := q.calls, dropped := q.dropped, counting := q.counting, cachedTail := q.cachedTail)
  }

  /** A step of the pushing side changes what its own producer holds and has lost, nothing else. */
  lemma PushingSideKeepsInv(s: State, id: Id, q: Producer)
    requires Inv(s) && !s.stopping && id in s.producers && id !in s.freed
    requires s.producers[id].phase.Live? && Sound(q)
    requires OnlyPushed(s.producers[id], q)
    requires Accepted(s.producers[id].calls) <= Accepted(q.calls)
    ensures Inv(s.(producers := s.producers[id := q]))
  {
    var t := s.(producers := s.producers[id := q]);
    CountingKeepsStructure(s, t, id);
    PushingSideKeepsLogged(s, id, q);
    PushingSideKeepsWork(s, id, q);
  }

  lemma PushingSideKeepsLogged(s: State, id: Id, q: Producer)
    requires Logged(s) && id in s.producers
    requires OnlyPushed(s.producers[id], q)
    requires Accepted(s.producers[id].calls) <= Accepted(q.calls)
    ensures Logged(s.(producers := s.producers[id := q]))
  {
    assert LoggedAs(s.log, id, s.producers[id]);
    CountingKeepsLogged(s, s.(producers := s.producers[id := q]), id);
  }

  lemma PushingSideKeepsWork(s: State, id: Id, q: Producer)
    requires Shape(s) && AtWork(s) && !s.stopping && id in s.producers && id !in s.freed
    requires s.producers[id].phase.Live? && Sound(s.producers[id])
    requires OnlyPushed(s.producers[id], q)
    ensures AtWork(s.(producers := s.producers[id := q]))
  {
  }

  lemma PushIsSound(p: Producer, record: Record, seen: nat)
    requires Sound(p) && p.phase.Live? && CanPush(p, seen)
    ensures Sound(AfterPush(p, record, seen))
    ensures Accepted(p.calls) <= Accepted(AfterPush(p, record, seen).calls)
  {
    OneMoreCall(p.calls, Call(record, HasRoom(p, seen)));
  }

  lemma PushKeepsInv(s: State, l: Label)
    requires Inv(s) && (l.Push? || l.PushLocked?) && Enabled(s, l)
    ensures Inv(Next(s, l))
  {
    var id := if l.Push? then Owned(s, l.handle) else SHARED;
    PushIsSound(s.producers[id], l.record, l.seen);
    PushingSideKeepsInv(s, id, AfterPush(s.producers[id], l.record, l.seen));
  }

  lemma CountDropKeepsInv(s: State, l: Label)
    requires Inv(s) && (l.CountDrop? || l.CountDropLocked?) && Enabled(s, l)
    ensures Inv(Next(s, l))
  {
    var id := if l.CountDrop? then Owned(s, l.handle) else SHARED;
    PushingSideKeepsInv(s, id, AfterCount(s.producers[id]));
  }

  // ---------------------------------------------------------------- the logger thread

  lemma StartPassKeepsInv(s: State, l: Label)
    requires Inv(s) && l.StartPass? && Enabled(s, l)
    ensures Inv(Next(s, l))
  {
  }

  lemma BeginDestroyKeepsInv(s: State, l: Label)
    requires Inv(s) && l.BeginDestroy? && Enabled(s, l)
    ensures Inv(Next(s, l))
  {
  }

  lemma LoadSlotKeepsInv(s: State, l: Label)
    requires Inv(s) && l.LoadSlot? && Enabled(s, l)
    ensures Inv(Next(s, l))
  {
    LoadSlotKeepsWork(s, l);
  }

  lemma LoadSlotKeepsWork(s: State, l: Label)
    requires Shape(s) && Seats(s) && AtWork(s) && Ending(s) && l.LoadSlot? && Enabled(s, l)
    ensures Shape(Next(s, l)) && AtWork(Next(s, l)) && Ending(Next(s, l))
  {
  }

  lemma ReadPhaseKeepsInv(s: State, l: Label)
    requires Inv(s) && l.ReadPhase? && Enabled(s, l)
    ensures Inv(Next(s, l))
  {
    var t := Next(s, l);
    var id := s.logger.id;
    ReadPhaseCounts(s, l);
    CountingKeepsStructure(s, t, id);
    assert LoggedAs(s.log, id, s.producers[id]);
    CountingKeepsLogged(s, t, id);
    ReadPhaseKeepsWork(s, l);
  }

  lemma ReadPhaseCounts(s: State, l: Label)
    requires l.ReadPhase? && Enabled(s, l) && Sound(s.producers[s.logger.id])
    ensures Counts(s, Next(s, l), s.logger.id) && Sound(Next(s, l).producers[s.logger.id])
  {
  }

  lemma PopCounts(s: State, l: Label)
    requires l.Pop? && Enabled(s, l) && Sound(s.producers[s.logger.id])
    ensures Counts(s, Next(s, l), s.logger.id) && Sound(Next(s, l).producers[s.logger.id])
  {
    NextPopCounts(s, l.head);
  }

  lemma NextPopCounts(s: State, head: nat)
    requires Enabled(s, Pop(head)) && Sound(s.producers[s.logger.id])
    ensures Counts(s, NextPop(s, head), s.logger.id) && Sound(NextPop(s, head).producers[s.logger.id])
  {
    PoppedIsSound(s.producers[s.logger.id], head);
    NextPopProducers(s, head);
  }

  /** What a pop leaves of the counters of a producer. */
  function Popped(p: Producer, head: nat): Producer {
    if p.taken == p.cachedHead && p.taken == head then p.(headSeen := head)
    else if p.taken == p.cachedHead then p.(cachedHead := head, headSeen := head, taken := p.taken + 1)
    else p.(taken := p.taken + 1)
  }

  lemma PoppedIsSound(p: Producer, head: nat)
    requires Sound(p) && p.headSeen <= head <= |Accepted(p.calls)|
    requires if p.taken == p.cachedHead then p.taken <= head else p.taken < |Accepted(p.calls)|
    ensures Sound(Popped(p, head))
  {
  }

  lemma NextPopProducers(s: State, head: nat)
    requires Enabled(s, Pop(head))
    ensures
      var t, id := NextPop(s, head), s.logger.id;
      && t.producers == s.producers[id := Popped(s.producers[id], head)]
      && t.slots == s.slots && t.handles == s.handles && t.freed == s.freed && t.slotSeen == s.slotSeen
  {
  }

  lemma TakeDroppedCounts(s: State, l: Label)
    requires l.TakeDropped? && Enabled(s, l) && Sound(s.producers[s.logger.id])
    ensures Counts(s, Next(s, l), s.logger.id) && Sound(Next(s, l).producers[s.logger.id])
  {
    NextTakeDroppedCounts(s, l.seen);
  }

  lemma NextTakeDroppedCounts(s: State, seen: nat)
    requires Enabled(s, TakeDropped(seen)) && Sound(s.producers[s.logger.id])
    ensures Counts(s, NextTakeDropped(s, seen), s.logger.id)
    ensures Sound(NextTakeDropped(s, seen).producers[s.logger.id])
  {
    var id := s.logger.id;
    ReportIsSound(s.producers[id], seen);
    NextTakeDroppedProducers(s, seen);
  }

  lemma ReportIsSound(p: Producer, seen: nat)
    requires Sound(p) && p.droppedSeen <= seen <= p.dropped && p.reported <= seen
    ensures Sound(p.(reported := seen, droppedSeen := seen))
  {
  }

  lemma NextTakeDroppedProducers(s: State, seen: nat)
    requires Enabled(s, TakeDropped(seen))
    ensures
      var t, id := NextTakeDropped(s, seen), s.logger.id;
      && t.producers == s.producers[id := s.producers[id].(reported := seen, droppedSeen := seen)]
      && t.slots == s.slots && t.handles == s.handles && t.freed == s.freed && t.slotSeen == s.slotSeen
  {
  }

  lemma ReadPhaseKeepsWork(s: State, l: Label)
    requires Shape(s) && Handles(s) && AtWork(s) && Ending(s) && l.ReadPhase? && Enabled(s, l)
    requires Shape(Next(s, l)) && Sound(s.producers[s.logger.id])
    ensures AtWork(Next(s, l)) && Ending(Next(s, l))
  {
  }

  lemma PopKeepsInv(s: State, l: Label)
    requires Inv(s) && l.Pop? && Enabled(s, l)
    ensures Inv(Next(s, l))
  {
    PopCounts(s, l);
    CountingKeepsStructure(s, Next(s, l), s.logger.id);
    PopKeepsLogged(s, l);
    PopKeepsWork(s, l);
  }

  /** Writing the record that is popped. */
  lemma LineKeepsLogged(s: State, t: State, id: Id)
    requires Logged(s) && Counts(s, t, id) && t.producers[id].calls == s.producers[id].calls
    requires s.producers[id].taken < |Accepted(s.producers[id].calls)|
    requires t.producers[id].taken == s.producers[id].taken + 1 && t.producers[id].reported == s.producers[id].reported
    requires t.log == s.log + [Line(id, Accepted(s.producers[id].calls)[s.producers[id].taken])]
    ensures Logged(t)
  {
    var all, n := Accepted(s.producers[id].calls), s.producers[id].taken;
    assert LoggedAs(s.log, id, s.producers[id]);
    forall other ensures other != id ==> WrittenOf(t.log, other) == WrittenOf(s.log, other)
    ensures LostOf(t.log, other) == LostOf(s.log, other)
    {
      OneMoreEntry(s.log, Line(id, all[n]), other);
    }
    OneMoreEntry(s.log, Line(id, all[n]), id);
    assert all[..n + 1] == all[..n] + [all[n]];
    CountingKeepsLogged(s, t, id);
  }

  lemma PopKeepsLogged(s: State, l: Label)
    requires Logged(s) && l.Pop? && Enabled(s, l) && Sound(s.producers[s.logger.id])
    ensures Logged(Next(s, l))
  {
    var t := Next(s, l);
    var id := s.logger.id;
    PopCounts(s, l);
    assert LoggedAs(s.log, id, s.producers[id]);
    if t.log == s.log {
      CountingKeepsLogged(s, t, id);
    } else {
      LineKeepsLogged(s, t, id);
    }
  }

  lemma PopKeepsWork(s: State, l: Label)
    requires Shape(s) && AtWork(s) && Ending(s) && l.Pop? && Enabled(s, l) && Sound(s.producers[s.logger.id])
    requires Shape(Next(s, l))
    ensures AtWork(Next(s, l)) && Ending(Next(s, l))
  {
  }

  lemma TakeDroppedKeepsInv(s: State, l: Label)
    requires Inv(s) && l.TakeDropped? && Enabled(s, l)
    ensures Inv(Next(s, l))
  {
    TakeDroppedCounts(s, l);
    CountingKeepsStructure(s, Next(s, l), s.logger.id);
    TakeDroppedKeepsLogged(s, l);
    TakeDroppedKeepsWork(s, l);
  }

  /** Reporting the losses that are new. */
  lemma LossKeepsLogged(s: State, t: State, id: Id, news: nat)
    requires Logged(s) && Counts(s, t, id) && t.producers[id].calls == s.producers[id].calls
    requires t.producers[id].taken == s.producers[id].taken
    requires t.producers[id].reported == s.producers[id].reported + news
    requires t.log == s.log + [Lost(id, news)]
    ensures Logged(t)
  {
    assert LoggedAs(s.log, id, s.producers[id]);
    forall other ensures WrittenOf(t.log, other) == WrittenOf(s.log, other)
    ensures other != id ==> LostOf(t.log, other) == LostOf(s.log, other)
    {
      OneMoreEntry(s.log, Lost(id, news), other);
    }
    OneMoreEntry(s.log, Lost(id, news), id);
    CountingKeepsLogged(s, t, id);
  }

  lemma TakeDroppedEffect(s: State, l: Label)
    requires l.TakeDropped? && Enabled(s, l) && Sound(s.producers[s.logger.id])
    ensures
      var t, p := Next(s, l), s.producers[s.logger.id];
      && s.logger.id in t.producers
      && t.producers[s.logger.id] == p.(reported := l.seen, droppedSeen := l.seen)
      && t.log == if l.seen == p.reported then s.log else s.log + [Lost(s.logger.id, l.seen - p.reported)]
  {
  }

  lemma TakeDroppedKeepsLogged(s: State, l: Label)
    requires Logged(s) && l.TakeDropped? && Enabled(s, l) && Sound(s.producers[s.logger.id])
    ensures Logged(Next(s, l))
  {
    TakeDroppedCounts(s, l);
    TakeDroppedEffect(s, l);
    ReportKeepsLogged(s, Next(s, l), s.logger.id, l.seen - s.producers[s.logger.id].reported);
  }

  lemma ReportKeepsLogged(s: State, t: State, id: Id, news: nat)
    requires Logged(s) && Counts(s, t, id) && t.producers[id].calls == s.producers[id].calls
    requires t.producers[id].taken == s.producers[id].taken
    requires t.producers[id].reported == s.producers[id].reported + news
    requires t.log == if news == 0 then s.log else s.log + [Lost(id, news)]
    ensures Logged(t)
  {
    if news == 0 {
      assert LoggedAs(s.log, id, s.producers[id]);
      CountingKeepsLogged(s, t, id);
    } else {
      LossKeepsLogged(s, t, id, news);
    }
  }

  lemma TakeDroppedKeepsWork(s: State, l: Label)
    requires Shape(s) && AtWork(s) && Ending(s) && l.TakeDropped? && Enabled(s, l) && Sound(s.producers[s.logger.id])
    requires Shape(Next(s, l))
    ensures AtWork(Next(s, l)) && Ending(Next(s, l))
  {
  }

  lemma FreeKeepsInv(s: State, l: Label)
    requires Inv(s) && (l.Free? || l.ClearSlot?) && Enabled(s, l)
    ensures Inv(Next(s, l))
  {
    FreeKeepsSeats(s, l);
    FreeKeepsWork(s, l);
  }

  lemma FreeKeepsSeats(s: State, l: Label)
    requires Shape(s) && Seats(s) && AtWork(s) && (l.Free? || l.ClearSlot?) && Enabled(s, l)
    ensures Shape(Next(s, l)) && Seats(Next(s, l))
  {
  }

  lemma FreeKeepsWork(s: State, l: Label)
    requires Shape(s) && AtWork(s) && Ending(s) && (l.Free? || l.ClearSlot?) && Enabled(s, l)
    requires Shape(Next(s, l))
    ensures AtWork(Next(s, l)) && Ending(Next(s, l))
  {
  }

  lemma LoggerStepKeepsInv(s: State, l: Label)
    requires Inv(s) && Enabled(s, l) && l.ByLogger()
    ensures Inv(Next(s, l))
  {
    match l
    case StartPass => StartPassKeepsInv(s, l);
    case LoadSlot(_) => LoadSlotKeepsInv(s, l);
    case ReadPhase(_) => ReadPhaseKeepsInv(s, l);
    case Pop(_) => PopKeepsInv(s, l);
    case TakeDropped(_) => TakeDroppedKeepsInv(s, l);
    case Free => FreeKeepsInv(s, l);
    case ClearSlot => FreeKeepsInv(s, l);
  }

  lemma OtherStepKeepsInv(s: State, l: Label)
    requires Inv(s) && Enabled(s, l) && !l.ByLogger()
    ensures Inv(Next(s, l))
  {
    match l
    case BeginRegister(_) => BeginRegisterKeepsInv(s, l);
    case TrySlot(_, _, _) => TrySlotKeepsInv(s, l);
    case GiveUp(_) => BeginRegisterKeepsInv(s, l);
    case MoveHandle(_, _) => MoveHandleKeepsInv(s, l);
    case DestroyHandle(_) => DestroyHandleKeepsInv(s, l);
    case Push(_, _, _) => PushKeepsInv(s, l);
    case CountDrop(_) => CountDropKeepsInv(s, l);
    case PushLocked(_, _) => PushKeepsInv(s, l);
    case CountDropLocked => CountDropKeepsInv(s, l);
    case BeginDestroy => BeginDestroyKeepsInv(s, l);
  }

  lemma StepKeepsInv(s: State, l: Label)
    requires Inv(s) && Enabled(s, l)
    ensures Inv(Next(s, l))
  {
    if l.ByLogger() {
      LoggerStepKeepsInv(s, l);
    } else {
      OtherStepKeepsInv(s, l);
    }
  }
}
