/** What the logger thread may still miss, and what it can no longer miss once it has seen it. */
module LoggerCoherence {
  import opened Wrappers
  import opened LogRecord
  import opened LoggerProtocol
  import opened LoggerInvariant
  import opened LoggerSteps
  import opened LoggerSafety

  // ---------------------------------------------------------------- what was seen

  /** The slot holds this producer, and the logger thread has seen it there. */
  predicate Seen(s: State, i: nat, id: Id) {
    i < |s.slots| && i < |s.slotSeen| && s.slots[i] == Some(id) && s.slotSeen[i]
  }

  /** The producer was published, and is not in this slot any more, or never was. */
  predicate Elsewhere(s: State, i: nat, id: Id) {
    id in s.producers && i < |s.slots| && s.slots[i] != Some(id)
  }

  lemma StepKeepsSeen(s: State, l: Label, i: nat, id: Id)
    requires Enabled(s, l) && (Seen(s, i, id) || Elsewhere(s, i, id)) && id in s.producers
    ensures Seen(Next(s, l), i, id) || Elsewhere(Next(s, l), i, id)
  {
    match l {
      case TrySlot(scan, other, handle) => TryKeepsSeen(s, scan, other, handle, i, id);
      case ClearSlot => ClearKeepsSeen(s, i, id);
      case LoadSlot(sees) => LoadKeepsSeen(s, sees, i, id);
      case _ =>
        SlotsStay(s, l);
        ProducersStay(s, l);
    }
  }

  lemma TryKeepsSeen(s: State, scan: nat, other: Id, handle: nat, i: nat, id: Id)
    requires Enabled(s, TrySlot(scan, other, handle)) && (Seen(s, i, id) || Elsewhere(s, i, id))
    ensures Seen(NextTrySlot(s, scan, other, handle), i, id) || Elsewhere(NextTrySlot(s, scan, other, handle), i, id)
  {
  }

  lemma ClearKeepsSeen(s: State, i: nat, id: Id)
    requires Enabled(s, ClearSlot) && (Seen(s, i, id) || Elsewhere(s, i, id))
    requires Seen(s, i, id) ==> id in s.producers
    ensures Seen(Next(s, ClearSlot), i, id) || Elsewhere(Next(s, ClearSlot), i, id)
  {
  }

  lemma LoadKeepsSeen(s: State, sees: bool, i: nat, id: Id)
    requires Enabled(s, LoadSlot(sees)) && (Seen(s, i, id) || Elsewhere(s, i, id))
    ensures Seen(NextLoadSlot(s, sees), i, id) || Elsewhere(NextLoadSlot(s, sees), i, id)
  {
  }

  lemma ProducersStay(s: State, l: Label)
    requires Enabled(s, l)
    ensures forall id | id in s.producers :: id in Next(s, l).producers
  {
  }

  lemma SlotsStay(s: State, l: Label)
    requires Enabled(s, l) && !l.TrySlot? && !l.ClearSlot? && !l.LoadSlot?
    ensures Next(s, l).slots == s.slots && Next(s, l).slotSeen == s.slotSeen
  {
  }

  lemma IsPublished(ss: seq<State>, ls: seq<Label>, u: nat, i: nat, id: Id)
    requires IsRun(ss, ls) && u < |ss| && (Seen(ss[u], i, id) || Elsewhere(ss[u], i, id))
    ensures id in ss[u].producers
  {
    RunKeepsInv(ss, ls, u);
  }

  /** From a load that found the producer on, the logger thread sees it in its slot as long as it is there. */
  lemma {:induction false} StillSeen(ss: seq<State>, ls: seq<Label>, t: nat, u: nat, id: Id)
    requires IsRun(ss, ls) && t < u < |ss| && ls[t] == LoadSlot(true) && ss[t].logger.AtSlot?
    requires ss[t].logger.i < |ss[t].slots| && ss[t].slots[ss[t].logger.i] == Some(id)
    ensures Seen(ss[u], ss[t].logger.i, id) || Elsewhere(ss[u], ss[t].logger.i, id)
    decreases u
  {
    assert StepAt(ss, ls, u - 1);
    if u > t + 1 {
      StillSeen(ss, ls, t, u - 1, id);
      IsPublished(ss, ls, u - 1, ss[t].logger.i, id);
      StepKeepsSeen(ss[u - 1], ls[u - 1], ss[t].logger.i, id);
    }
  }

  /** A producer found once is found by every later pass that loads its slot while it is there. */
  lemma FoundOnceIsFoundAgain(ss: seq<State>, ls: seq<Label>, t: nat, u: nat, id: Id)
    requires IsRun(ss, ls) && t < u < |ls| && ls[t] == LoadSlot(true) && ss[t].logger.AtSlot?
    requires ss[t].logger.i < |ss[t].slots| && ss[t].slots[ss[t].logger.i] == Some(id)
    requires ls[u].LoadSlot? && ss[u].logger.AtSlot? && ss[u].logger.i == ss[t].logger.i
    requires ss[u].logger.i < |ss[u].slots| && ss[u].slots[ss[u].logger.i] == Some(id)
    ensures ls[u].sees && ss[u + 1].logger.ReadingPhase? && ss[u + 1].logger.id == id
  {
    assert StepAt(ss, ls, u);
    StillSeen(ss, ls, t, u, id);
  }

  // ---------------------------------------------------------------- what may be missed

  /** One producer is published, in the first slot, with this much logged and this much of it seen. */
  predicate Alone(s: State, p: Producer, pc: LoggerPc) {
    && 1 in s.producers && s.producers[1] == p && s.logger == pc && !s.stopping && s.freed == {}
    && |s.slots| == 32 && |s.slotSeen| == 32 && s.slots[0] == Some(1)
  }

  /** A run to a state. */
  ghost predicate RunTo(ss: seq<State>, ls: seq<Label>, s: State) {
    IsRun(ss, ls) && ss[|ss| - 1] == s
  }

  lemma OneMoreStep(ss: seq<State>, ls: seq<Label>, s: State, l: Label, t: State)
    requires RunTo(ss, ls, s) && Enabled(s, l) && t == Next(s, l)
    ensures RunTo(ss + [t], ls + [l], t)
  {
    forall k | 0 <= k < |ls| + 1 ensures StepAt(ss + [t], ls + [l], k) {
      if k < |ls| { assert StepAt(ss, ls, k); }
    }
  }

  lemma Published() returns (ss: seq<State>, ls: seq<Label>, s: State)
    ensures ls == [BeginRegister(0), TrySlot(0, 1, 5)] && RunTo(ss, ls, s)
    ensures Alone(s, Fresh(5, 0), Resting(false)) && s.handles == map[5 := Some(1)] && !s.slotSeen[0]
  {
    var begun := Next(Init(), BeginRegister(0));
    s := Next(begun, TrySlot(0, 1, 5));
    ss, ls := [Init(), begun, s], [BeginRegister(0), TrySlot(0, 1, 5)];
    assert StepAt(ss, ls, 0) && StepAt(ss, ls, 1);
  }

  lemma Started(ss: seq<State>, ls: seq<Label>, s: State, p: Producer) returns (t: State)
    requires RunTo(ss, ls, s) && Alone(s, p, Resting(false))
    ensures RunTo(ss + [t], ls + [StartPass], t)
    ensures Alone(t, p, AtSlot(0, false)) && t.handles == s.handles && t.slotSeen == s.slotSeen && t.visits == []
  {
    t := Next(s, StartPass);
    OneMoreStep(ss, ls, s, StartPass, t);
  }

  lemma Missed(ss: seq<State>, ls: seq<Label>, s: State, p: Producer) returns (t: State)
    requires RunTo(ss, ls, s) && Alone(s, p, AtSlot(0, false)) && !s.slotSeen[0] && s.visits == []
    ensures RunTo(ss + [t], ls + [LoadSlot(false)], t)
    ensures Alone(t, p, AtSlot(1, false)) && t.visits == [Visit(0, None, Live, 0)]
  {
    t := Next(s, LoadSlot(false));
    OneMoreStep(ss, ls, s, LoadSlot(false), t);
  }

  /** A pass may miss a producer published before it starts. */
  lemma NewProducerMayBeMissed() returns (ss: seq<State>, ls: seq<Label>)
    ensures IsRun(ss, ls) && |ls| == 4 && ls[2].StartPass?
    ensures Alone(ss[2], Fresh(5, 0), Resting(false)) && Alone(ss[4], Fresh(5, 0), AtSlot(1, false))
    ensures ss[4].visits == [Visit(0, None, Live, 0)]
  {
    var s, t, u;
    ss, ls, s := Published();
    t := Started(ss, ls, s, Fresh(5, 0));
    u := Missed(ss + [t], ls + [StartPass], t, Fresh(5, 0));
    ss, ls := ss + [t] + [u], ls + [StartPass] + [LoadSlot(false)];
  }

  lemma Pushed(ss: seq<State>, ls: seq<Label>, s: State, r: Record) returns (t: State, p: Producer)
    requires RunTo(ss, ls, s) && Alone(s, Fresh(5, 0), Resting(false)) && s.handles == map[5 := Some(1)]
    ensures RunTo(ss + [t], ls + [Push(5, r, 0)], t)
    ensures p == Fresh(5, 0).(calls := [Call(r, true)]) && Accepted(p.calls) == [r]
    ensures Alone(t, p, Resting(false)) && t.handles == map[5 := Some(1)]
  {
    p := OnePush(r);
    assert Owns(s, 5, 1) && CanPush(s.producers[1], 0);
    t := Next(s, Push(5, r, 0));
    assert Owned(s, 5) == 1;
    OneMoreStep(ss, ls, s, Push(5, r, 0), t);
  }

  lemma OnePush(r: Record) returns (p: Producer)
    ensures p == Fresh(5, 0).(calls := [Call(r, true)]) && Accepted(p.calls) == [r]
    ensures AfterPush(Fresh(5, 0), r, 0) == p
  {
    p := AfterPush(Fresh(5, 0), r, 0);
    assert [] + [Call(r, true)] == [Call(r, true)];
    OneMoreCall([], Call(r, true));
  }

  lemma Loaded(ss: seq<State>, ls: seq<Label>, s: State, p: Producer) returns (t: State)
    requires RunTo(ss, ls, s) && Alone(s, p, AtSlot(0, false))
    ensures RunTo(ss + [t], ls + [LoadSlot(true)], t)
    ensures Alone(t, p, ReadingPhase(0, 1, false)) && t.handles == s.handles && t.visits == s.visits
  {
    t := Next(s, LoadSlot(true));
    OneMoreStep(ss, ls, s, LoadSlot(true), t);
  }

  lemma ClosedNow(ss: seq<State>, ls: seq<Label>, s: State, p: Producer, pc: LoggerPc) returns (t: State)
    requires RunTo(ss, ls, s) && Alone(s, p, pc) && s.handles == map[5 := Some(1)] && !p.counting
    ensures RunTo(ss + [t], ls + [DestroyHandle(5)], t)
    ensures Alone(t, p.(phase := Closed), pc) && t.visits == s.visits
  {
    assert Idle(s, 5);
    t := Next(s, DestroyHandle(5));
    OneMoreStep(ss, ls, s, DestroyHandle(5), t);
  }

  /** A phase read as it was before. */
  lemma ReadStale(ss: seq<State>, ls: seq<Label>, s: State, p: Producer) returns (t: State)
    requires RunTo(ss, ls, s) && Alone(s, p, ReadingPhase(0, 1, false)) && !p.closeSeen
    ensures RunTo(ss + [t], ls + [ReadPhase(Live)], t)
    ensures Alone(t, p, Draining(0, 1, Live, 0, false, false)) && t.visits == s.visits
  {
    t := Next(s, ReadPhase(Live));
    OneMoreStep(ss, ls, s, ReadPhase(Live), t);
  }

  /** A head read as it was before. */
  lemma PoppedStale(ss: seq<State>, ls: seq<Label>, s: State, p: Producer) returns (t: State)
    requires RunTo(ss, ls, s) && Alone(s, p, Draining(0, 1, Live, 0, false, false))
    requires p.taken == 0 && p.cachedHead == 0 && p.headSeen == 0
    ensures RunTo(ss + [t], ls + [Pop(0)], t)
    ensures Alone(t, p, Draining(0, 1, Live, 0, true, false)) && t.visits == s.visits
  {
    t := Next(s, Pop(0));
    OneMoreStep(ss, ls, s, Pop(0), t);
  }

  /** A counter of losses read as it was before. */
  lemma ReportedStale(ss: seq<State>, ls: seq<Label>, s: State, p: Producer) returns (t: State)
    requires RunTo(ss, ls, s) && Alone(s, p, Draining(0, 1, Live, 0, true, false)) && s.visits == []
    requires p.droppedSeen == 0 && p.reported == 0
    ensures RunTo(ss + [t], ls + [TakeDropped(0)], t)
    ensures Alone(t, p, AtSlot(1, false)) && t.visits == [Visit(0, Some(1), Live, 0)]
  {
    t := Next(s, TakeDropped(0));
    OneMoreStep(ss, ls, s, TakeDropped(0), t);
  }

  /** A pass may visit a producer that was closed before and miss its last record; it does not free it then. */
  lemma LastRecordMayBeMissed(r: Record) returns (ss: seq<State>, ls: seq<Label>, s: State, t: State, p: Producer)
    ensures RunTo(ss, ls, t) && |ls| == 9 && ls[5] == DestroyHandle(5) && ls[6] == ReadPhase(Live) && ss[6] == s
    ensures p.phase.Closed? && Held(p) == 1
    ensures Alone(s, p, ReadingPhase(0, 1, false)) && Alone(t, p, AtSlot(1, false))
    ensures t.visits == [Visit(0, Some(1), Live, 0)]
  {
    ss, ls, s := Published();
    var t1, live := Pushed(ss, ls, s, r);
    ss, ls := ss + [t1], ls + [Push(5, r, 0)];
    var t2 := Started(ss, ls, t1, live);
    ss, ls := ss + [t2], ls + [StartPass];
    var t3 := Loaded(ss, ls, t2, live);
    ss, ls := ss + [t3], ls + [LoadSlot(true)];
    s := ClosedNow(ss, ls, t3, live, ReadingPhase(0, 1, false));
    ss, ls := ss + [s], ls + [DestroyHandle(5)];
    p := live.(phase := Closed);
    ss, ls, t := VisitedStale(ss, ls, s, p);
  }

  lemma VisitedStale(before: seq<State>, labels: seq<Label>, s: State, p: Producer)
    returns (ss: seq<State>, ls: seq<Label>, t: State)
    requires RunTo(before, labels, s) && Alone(s, p, ReadingPhase(0, 1, false)) && s.visits == [] && !p.closeSeen
    requires p.taken == 0 && p.cachedHead == 0 && p.headSeen == 0 && p.droppedSeen == 0 && p.reported == 0
    ensures RunTo(ss, ls, t) && before <= ss && ls == labels + [ReadPhase(Live), Pop(0), TakeDropped(0)]
    ensures Alone(t, p, AtSlot(1, false)) && t.visits == [Visit(0, Some(1), Live, 0)]
  {
    var t1 := ReadStale(before, labels, s, p);
    ss, ls := before + [t1], labels + [ReadPhase(Live)];
    var t2 := PoppedStale(ss, ls, t1, p);
    ss, ls := ss + [t2], ls + [Pop(0)];
    t := ReportedStale(ss, ls, t2, p);
    ss, ls := ss + [t], ls + [TakeDropped(0)];
  }

  // ---------------------------------------------------------------- a logger can be destroyed

  /** Nothing was ever registered or logged, and the destructor's pass is this far. */
  predicate Idling(s: State, pc: LoggerPc) {
    && s.producers == map[SHARED := Fresh(0, MAX_THREADS)] && s.handles == map[] && s.scans == map[] && s.stopping
    && |s.slots| == 32 && |s.slotSeen| == 32 && (forall i | 0 <= i < 32 :: s.slots[i] == None) && s.logger == pc
  }

  lemma Stopped() returns (ss: seq<State>, ls: seq<Label>, s: State)
    ensures RunTo(ss, ls, s) && Idling(s, AtSlot(0, false))
  {
    var stopped := Next(Init(), BeginDestroy);
    s := Next(stopped, StartPass);
    ss, ls := [Init(), stopped, s], [BeginDestroy, StartPass];
    assert StepAt(ss, ls, 0) && StepAt(ss, ls, 1);
  }

  lemma {:induction false} SlotsPassed(i: nat) returns (ss: seq<State>, ls: seq<Label>, s: State)
    requires i <= 32
    ensures RunTo(ss, ls, s) && Idling(s, if i < 32 then AtSlot(i, false) else ReadingPhase(32, SHARED, false))
  {
    if i == 0 {
      ss, ls, s := Stopped();
    } else {
      var before, labels, was := SlotsPassed(i - 1);
      s := Next(was, LoadSlot(true));
      OneMoreStep(before, labels, was, LoadSlot(true), s);
      ss, ls := before + [s], labels + [LoadSlot(true)];
    }
  }

  /** A logger nobody uses can be destroyed, and its last pass comes to its end. */
  lemma DestructionEnds() returns (ss: seq<State>, ls: seq<Label>)
    ensures IsRun(ss, ls) && Ended(ss[|ss| - 1])
  {
    var before, labels, s := SlotsPassed(32);
    var t, u := EmptyRingRead(before, labels, s);
    ss, ls := before + [t] + [u], labels + [ReadPhase(Live)] + [Pop(0)];
    var v := Next(u, TakeDropped(0));
    OneMoreStep(ss, ls, u, TakeDropped(0), v);
    ss, ls := ss + [v], ls + [TakeDropped(0)];
  }

  lemma EmptyRingRead(ss: seq<State>, ls: seq<Label>, s: State) returns (t: State, u: State)
    requires RunTo(ss, ls, s) && Idling(s, ReadingPhase(32, SHARED, false))
    ensures RunTo(ss + [t] + [u], ls + [ReadPhase(Live)] + [Pop(0)], u)
    ensures Idling(u, Draining(32, SHARED, Live, 0, true, false))
  {
    t := Next(s, ReadPhase(Live));
    OneMoreStep(ss, ls, s, ReadPhase(Live), t);
    u := Next(t, Pop(0));
    OneMoreStep(ss + [t], ls + [ReadPhase(Live)], t, Pop(0), u);
  }

  /** Whenever nobody holds a handle, registers or logs and the logger thread rests, the destructor can begin. */
  lemma DestructorNeverWaits(s: State)
    requires Inv(s) && !s.stopping && s.logger.Resting? && s.scans == map[] && !s.producers[SHARED].counting
    requires forall id | id in s.producers && id != SHARED :: s.producers[id].phase.Closed?
    ensures Enabled(s, BeginDestroy)
  {
  }
}
