/** What the logger promises over whole runs: nothing freed is used, every call is written or reported,
    a pass is bounded and complete, and slots change hands in one order only. */
module LoggerSafety {
  import opened Wrappers
  import opened LoggerProtocol
  import opened LoggerInvariant
  import opened LoggerSteps

  /** ss are the states a run of the steps ls goes through, from the start. */
  ghost predicate IsRun(ss: seq<State>, ls: seq<Label>) {
    && |ss| == |ls| + 1 && ss[0] == Init()
    && forall k | 0 <= k < |ls| :: StepAt(ss, ls, k)
  }

  ghost predicate StepAt(ss: seq<State>, ls: seq<Label>, k: nat)
    requires k < |ls| && k + 1 < |ss|
  {
    Enabled(ss[k], ls[k]) && ss[k + 1] == Next(ss[k], ls[k])
  }

  lemma {:induction false} RunKeepsInv(ss: seq<State>, ls: seq<Label>, k: nat)
    requires IsRun(ss, ls) && k < |ss|
    ensures Inv(ss[k])
  {
    if k == 0 {
      InitKeepsInv();
    } else {
      RunKeepsInv(ss, ls, k - 1);
      assert StepAt(ss, ls, k - 1);
      StepKeepsInv(ss[k - 1], ls[k - 1]);
    }
  }

  // ---------------------------------------------------------------- nothing freed is used

  /** The step l reads or writes the producer id. */
  ghost predicate Touches(s: State, l: Label, id: Id) {
    match l
    case Push(handle, _, _) => handle in s.handles && s.handles[handle] == Some(id)
    case CountDrop(handle) => handle in s.handles && s.handles[handle] == Some(id)
    case DestroyHandle(handle) => handle in s.handles && s.handles[handle] == Some(id)
    case PushLocked(_, _) => id == SHARED
    case CountDropLocked => id == SHARED
    case ReadPhase(_) => s.logger.ReadingPhase? && s.logger.id == id
    case Pop(_) => s.logger.Draining? && s.logger.id == id
    case TakeDropped(_) => s.logger.Draining? && s.logger.id == id
    case Free => s.logger.Freeing? && s.logger.id == id
    case _ => false
  }

  lemma TouchedIsNotFreed(s: State, l: Label, id: Id)
    requires Inv(s) && Enabled(s, l) && Touches(s, l, id)
    ensures id in s.producers && id !in s.freed
  {
    match l {
      case Push(handle, _, _) => OwnedIsNotFreed(s, handle);
      case CountDrop(handle) => OwnedIsNotFreed(s, handle);
      case DestroyHandle(handle) => OwnedIsNotFreed(s, handle);
      case _ =>
    }
  }

  lemma OwnedIsNotFreed(s: State, handle: nat)
    requires Inv(s) && handle in s.handles && s.handles[handle].Some?
    ensures s.handles[handle].value in s.producers && s.handles[handle].value !in s.freed
  {
  }

  lemma {:induction false} FreedStaysFreed(ss: seq<State>, ls: seq<Label>, k: nat, m: nat)
    requires IsRun(ss, ls) && k <= m < |ss|
    ensures ss[k].freed <= ss[m].freed
  {
    if k < m {
      FreedStaysFreed(ss, ls, k, m - 1);
      assert StepAt(ss, ls, m - 1);
      FreedGrows(ss[m - 1], ls[m - 1]);
    }
  }

  lemma FreedGrows(s: State, l: Label)
    requires Enabled(s, l)
    ensures s.freed <= Next(s, l).freed
  {
    if l.Pop? {
      NextPopProducers(s, l.head);
    } else if l.TakeDropped? {
      NextTakeDroppedProducers(s, l.seen);
    } else if l.ByLogger() {
      LoggerFrees(s, l);
    }
  }

  lemma LoggerFrees(s: State, l: Label)
    requires Enabled(s, l) && l.ByLogger() && !l.Pop? && !l.TakeDropped?
    ensures s.freed <= Next(s, l).freed
  {
  }

  /** A producer is freed once closed, with its ring empty and every loss reported, all of it in the
      log, and no step after that touches it. */
  lemma FreedOnlyWhenDone(ss: seq<State>, ls: seq<Label>, k: nat)
    requires IsRun(ss, ls) && k < |ls| && ls[k] == Free
    ensures ss[k].logger.Freeing? && DoneWith(ss[k], ss[k].logger.id)
    ensures forall m | k < m < |ls| :: !Touches(ss[m], ls[m], ss[k].logger.id)
  {
    RunKeepsInv(ss, ls, k);
    assert StepAt(ss, ls, k);
    var id := ss[k].logger.id;
    FreeingIsDone(ss[k]);
    assert id in ss[k + 1].freed;
    forall m | k < m < |ls| ensures !Touches(ss[m], ls[m], id) {
      FreedIsNotTouched(ss, ls, k + 1, m, id);
    }
  }

  /** The producer is closed and empty, and the log has all of its calls. */
  ghost predicate DoneWith(s: State, id: Id) {
    && id in s.producers
    && var p := s.producers[id];
       && p.phase.Closed? && Held(p) == 0 && p.reported == p.dropped
       && WrittenOf(s.log, id) == Accepted(p.calls)
       && |p.calls| == |Accepted(p.calls)| + LostOf(s.log, id)
  }

  lemma FreeingIsDone(s: State)
    requires Inv(s) && s.logger.Freeing?
    ensures DoneWith(s, s.logger.id)
  {
    AllOutIsConserved(s, s.logger.id);
    assert Sound(s.producers[s.logger.id]);
  }

  lemma FreedIsNotTouched(ss: seq<State>, ls: seq<Label>, k: nat, m: nat, id: Id)
    requires IsRun(ss, ls) && k <= m < |ls| && id in ss[k].freed
    ensures !Touches(ss[m], ls[m], id)
  {
    FreedStaysFreed(ss, ls, k, m);
    RunKeepsInv(ss, ls, m);
    assert StepAt(ss, ls, m);
    if Touches(ss[m], ls[m], id) { TouchedIsNotFreed(ss[m], ls[m], id); }
  }

  // ---------------------------------------------------------------- conservation

  /** A producer with nothing left has each of its calls in the log: the records the ring took, in
      call order, and a count of all the others. */
  lemma AllOutIsConserved(s: State, id: Id)
    requires AllSound(s) && Logged(s) && id in s.producers && AllOut(s.producers[id])
    ensures WrittenOf(s.log, id) == Accepted(s.producers[id].calls)
    ensures |s.producers[id].calls| == |WrittenOf(s.log, id)| + LostOf(s.log, id)
  {
    var p := s.producers[id];
    assert Sound(p) && LoggedAs(s.log, id, p);
    assert Accepted(p.calls)[..|Accepted(p.calls)|] == Accepted(p.calls);
  }

  /** The destructor's pass is over. */
  predicate Ended(s: State) {
    s.stopping && s.logger.Resting? && s.visits != []
  }

  /** After the destructor's pass every slot is free, every producer but the shared one is freed, and
      every call ever made, shared ones included, is a line of the log, in call order, or counted lost. */
  lemma NothingIsForgotten(ss: seq<State>, ls: seq<Label>, k: nat)
    requires IsRun(ss, ls) && k < |ss| && Ended(ss[k])
    ensures |ss[k].slots| == MAX_THREADS && forall i | 0 <= i < MAX_THREADS :: ss[k].slots[i].None?
    ensures forall id | id in ss[k].producers ::
      && (id == SHARED || id in ss[k].freed)
      && WrittenOf(ss[k].log, id) == Accepted(ss[k].producers[id].calls)
      && |ss[k].producers[id].calls| == |WrittenOf(ss[k].log, id)| + LostOf(ss[k].log, id)
  {
    var s := ss[k];
    RunKeepsInv(ss, ls, k);
    forall id | id in s.producers
      ensures id == SHARED || id in s.freed
      ensures WrittenOf(s.log, id) == Accepted(s.producers[id].calls)
      ensures |s.producers[id].calls| == |WrittenOf(s.log, id)| + LostOf(s.log, id)
    {
      AllOutIsConserved(s, id);
    }
  }

  /** At every moment a call is a line of the log, held in the ring, counted lost, or about to be. */
  lemma CallsAreConserved(ss: seq<State>, ls: seq<Label>, k: nat, id: Id)
    requires IsRun(ss, ls) && k < |ss| && id in ss[k].producers
    ensures
      var p := ss[k].producers[id];
      && WrittenOf(ss[k].log, id) <= Accepted(p.calls)
      && 0 <= Held(p) <= RING_CAPACITY
      && LostOf(ss[k].log, id) <= p.dropped
      && |p.calls| == |WrittenOf(ss[k].log, id)| + Held(p) + p.dropped + (if p.counting then 1 else 0)
  {
    RunKeepsInv(ss, ls, k);
    var p := ss[k].producers[id];
    assert Sound(p) && LoggedAs(ss[k].log, id, p);
  }

  /** The producer a push of this step goes to. */
  ghost predicate PushesTo(s: State, l: Label, id: Id) {
    (l.Push? && Owns(s, l.handle, id)) || (l.PushLocked? && id == SHARED)
  }

  /** In every run, a record is refused exactly when a whole ring's worth had been accepted since the tail
      its push knew; a push that saw the current tail is refused only by a full ring. */
  lemma RefusedMeansFull(ss: seq<State>, ls: seq<Label>, k: nat, id: Id)
    requires IsRun(ss, ls) && k < |ls| && PushesTo(ss[k], ls[k], id) && id in ss[k].producers
    ensures
      var p, q := ss[k].producers[id], ss[k + 1].producers;
      && id in q && |q[id].calls| == |p.calls| + 1
      && var c := q[id].calls[|p.calls|];
         && c.record == ls[k].record
         && (!c.accepted <==> |Accepted(p.calls)| == q[id].cachedTail + RING_CAPACITY)
         && (!c.accepted && ls[k].seen == p.taken ==> Held(p) == RING_CAPACITY)
  {
    RunKeepsInv(ss, ls, k);
    assert StepAt(ss, ls, k);
    PushAnswers(ss[k], ls[k], id);
  }

  lemma PushAnswers(s: State, l: Label, id: Id)
    requires AllSound(s) && Enabled(s, l) && PushesTo(s, l, id) && id in s.producers
    ensures
      var p := s.producers[id];
      && CanPush(p, l.seen) && Sound(p)
      && Next(s, l).producers == s.producers[id := AfterPush(p, l.record, l.seen)]
  {
    assert Sound(s.producers[id]);
  }

  /** A thread that logs no more than a ring's worth loses nothing, however late it is drained. */
  lemma NoLossWithinARingful(ss: seq<State>, ls: seq<Label>, k: nat, id: Id)
    requires IsRun(ss, ls) && k < |ss| && id in ss[k].producers && |ss[k].producers[id].calls| <= RING_CAPACITY
    ensures ss[k].producers[id].dropped == 0 && LostOf(ss[k].log, id) == 0
    ensures |Accepted(ss[k].producers[id].calls)| == |ss[k].producers[id].calls|
  {
    RunKeepsInv(ss, ls, k);
    assert Sound(ss[k].producers[id]) && LoggedAs(ss[k].log, id, ss[k].producers[id]);
  }

  // ---------------------------------------------------------------- registration

  /** No two slots hold one producer, no two handles own one, and a producer is closed by its one
      owner while it is live. */
  lemma OneSlotOneOwner(ss: seq<State>, ls: seq<Label>, k: nat)
    requires IsRun(ss, ls) && k < |ss|
    ensures forall i, j | 0 <= i < |ss[k].slots| && 0 <= j < |ss[k].slots| && i != j && ss[k].slots[i].Some? ::
      ss[k].slots[i] != ss[k].slots[j]
    ensures forall g, h | g in ss[k].handles && h in ss[k].handles && g != h && ss[k].handles[g].Some? ::
      ss[k].handles[g] != ss[k].handles[h]
    ensures forall h | h in ss[k].handles && ss[k].handles[h].Some? ::
      ss[k].handles[h].value in ss[k].producers && ss[k].producers[ss[k].handles[h].value].phase.Live?
  {
    RunKeepsInv(ss, ls, k);
  }

  /** How one step may change a slot: free to a new live producer by the compare-exchange of a
      registration, or a closed and freed producer back to free by the logger thread. */
  ghost predicate SlotMoves(s: State, l: Label, t: State, i: nat)
    requires i < |s.slots| && i < |t.slots|
  {
    || t.slots[i] == s.slots[i]
    || (l.TrySlot? && s.slots[i].None? && t.slots[i] == Some(l.id)
          && l.id !in s.producers && l.id in t.producers && t.producers[l.id].phase.Live?)
    || (l.ClearSlot? && s.slots[i].Some? && t.slots[i].None?
          && s.slots[i].value in s.freed && s.slots[i].value in s.producers
          && s.producers[s.slots[i].value].phase.Closed?)
  }

  /** A producer's phase changes once, from live to closed, when its owner is destroyed. */
  ghost predicate PhaseMoves(s: State, l: Label, t: State, id: Id)
    requires id in s.producers && id in t.producers
  {
    || t.producers[id].phase == s.producers[id].phase
    || (l.DestroyHandle? && l.handle in s.handles && s.handles[l.handle] == Some(id)
          && s.producers[id].phase.Live? && t.producers[id].phase.Closed?)
  }

  lemma LifeOfARing(s: State, l: Label)
    requires Inv(s) && Enabled(s, l)
    ensures |Next(s, l).slots| == |s.slots|
    ensures forall i | 0 <= i < |s.slots| :: SlotMoves(s, l, Next(s, l), i)
    ensures forall id | id in s.producers :: id in Next(s, l).producers && PhaseMoves(s, l, Next(s, l), id)
  {
    SlotsMove(s, l);
    PhasesMove(s, l);
  }

  lemma SlotsMove(s: State, l: Label)
    requires Shape(s) && Seats(s) && AtWork(s) && AllSound(s) && Enabled(s, l)
    ensures |Next(s, l).slots| == |s.slots|
    ensures forall i | 0 <= i < |s.slots| :: SlotMoves(s, l, Next(s, l), i)
  {
    match l {
      case ClearSlot =>
        ClearedSlotWasFreed(s);
        ClearingMovesOneSlot(s, l);
      case TrySlot(_, _, _) => TryingMovesOneSlot(s, l);
      case _ => OnlyTwoStepsMoveSlots(s, l);
    }
  }

  lemma ClearingMovesOneSlot(s: State, l: Label)
    requires l.ClearSlot? && Enabled(s, l) && s.slots[s.logger.i] == Some(s.logger.id)
    requires s.logger.id in s.freed && s.logger.id in s.producers && s.producers[s.logger.id].phase.Closed?
    ensures |Next(s, l).slots| == |s.slots|
    ensures forall i | 0 <= i < |s.slots| :: SlotMoves(s, l, Next(s, l), i)
  {
  }

  lemma TryingMovesOneSlot(s: State, l: Label)
    requires l.TrySlot? && Enabled(s, l)
    ensures |Next(s, l).slots| == |s.slots|
    ensures forall i | 0 <= i < |s.slots| :: SlotMoves(s, l, Next(s, l), i)
  {
  }

  lemma ClearedSlotWasFreed(s: State)
    requires Shape(s) && Seats(s) && AtWork(s) && AllSound(s) && s.logger.Clearing?
    ensures s.slots[s.logger.i] == Some(s.logger.id) && s.logger.id in s.freed && s.logger.id in s.producers
    ensures s.producers[s.logger.id].phase.Closed?
  {
    assert Sound(s.producers[s.logger.id]);
  }

  lemma OnlyTwoStepsMoveSlots(s: State, l: Label)
    requires Enabled(s, l) && !l.ClearSlot? && !l.TrySlot?
    ensures Next(s, l).slots == s.slots
  {
  }

  lemma PhasesMove(s: State, l: Label)
    requires Shape(s) && Handles(s) && Enabled(s, l)
    ensures forall id | id in s.producers :: id in Next(s, l).producers && PhaseMoves(s, l, Next(s, l), id)
  {
    if l.DestroyHandle? {
    } else {
      OnlyClosingMovesPhases(s, l);
    }
  }

  lemma OnlyClosingMovesPhases(s: State, l: Label)
    requires Enabled(s, l) && !l.DestroyHandle?
    ensures KeepsPhases(s, Next(s, l))
  {
    if l.Pop? {
      NextPopProducers(s, l.head);
    } else if l.TakeDropped? {
      NextTakeDroppedProducers(s, l.seen);
    } else if l.ByLogger() {
      PassKeepsPhases(s, l);
    } else if l.Push? || l.PushLocked? || l.CountDrop? || l.CountDropLocked? {
      PushingKeepsPhases(s, l);
    } else {
      HandlingKeepsPhases(s, l);
    }
  }

  ghost predicate KeepsPhases(s: State, t: State) {
    forall id | id in s.producers :: id in t.producers && t.producers[id].phase == s.producers[id].phase
  }

  lemma PassKeepsPhases(s: State, l: Label)
    requires Enabled(s, l) && l.ByLogger() && !l.Pop? && !l.TakeDropped?
    ensures KeepsPhases(s, Next(s, l))
  {
  }

  lemma PushingKeepsPhases(s: State, l: Label)
    requires Enabled(s, l) && (l.Push? || l.PushLocked? || l.CountDrop? || l.CountDropLocked?)
    ensures KeepsPhases(s, Next(s, l))
  {
  }

  lemma HandlingKeepsPhases(s: State, l: Label)
    requires Enabled(s, l)
    requires l.BeginRegister? || l.TrySlot? || l.GiveUp? || l.MoveHandle? || l.BeginDestroy?
    ensures KeepsPhases(s, Next(s, l))
  {
  }

  /** A registration that is refused found every slot occupied when it tried it: while scan has gone
      past slot j, there is an earlier step of the same registration that tried j and lost. */
  lemma {:induction false} TriedSlotsWereOccupied(ss: seq<State>, ls: seq<Label>, k: nat, scan: nat, j: nat)
    returns (t: nat)
    requires IsRun(ss, ls) && k < |ss| && scan in ss[k].scans && j < ss[k].scans[scan]
    ensures t < k && ls[t].TrySlot? && ls[t].scan == scan
    ensures scan in ss[t].scans && ss[t].scans[scan] == j < |ss[t].slots| && ss[t].slots[j].Some?
    ensures forall u | t <= u <= k :: scan in ss[u].scans
  {
    assert k > 0;
    assert StepAt(ss, ls, k - 1);
    ScanGoesOn(ss[k - 1], ls[k - 1], scan, j);
    if ls[k - 1].TrySlot? && ls[k - 1].scan == scan && ss[k - 1].scans[scan] == j {
      t := k - 1;
    } else {
      t := TriedSlotsWereOccupied(ss, ls, k - 1, scan, j);
    }
  }

  /** A registration goes past a slot only by losing the compare-exchange there. */
  lemma ScanGoesOn(s: State, l: Label, scan: nat, j: nat)
    requires Enabled(s, l) && scan in Next(s, l).scans && j < Next(s, l).scans[scan]
    ensures scan in s.scans
    ensures j < s.scans[scan] ||
      (s.scans[scan] == j && l.TrySlot? && l.scan == scan && j < |s.slots| && s.slots[j].Some?)
  {
  }
}
