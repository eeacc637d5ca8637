/** What a visit of a pass means: a slot left out was free or not seen yet, and a producer visited was
    drained until it was found empty or had given a whole ring's worth, and freed if it was closed. */
module LoggerVisits {
  import opened Wrappers
  import opened LoggerProtocol
  import opened LoggerInvariant
  import opened LoggerSteps
  import opened LoggerSafety
  import opened LoggerPass

  /** The pass that starts with step a, up to the state m. */
  ghost predicate InPass(ss: seq<State>, ls: seq<Label>, a: nat, m: nat) {
    && IsRun(ss, ls) && a < m < |ss| && ls[a].StartPass?
    && forall u | a < u < m :: !ss[u].logger.Resting?
  }

  // ---------------------------------------------------------------- steps inside a pass

  /** What one step does to the visits and to the logger thread's place. */
  lemma StepInPass(s: State, l: Label)
    requires Shape(s) && AtWork(s) && Enabled(s, l) && !s.logger.Resting?
    ensures
      var t := Next(s, l);
      if l.LoadSlot? then
        && s.logger.AtSlot? && s.logger.i < 32
        && (if l.sees && s.slots[s.logger.i].Some? then
              t.visits == s.visits && t.logger.ReadingPhase?
              && t.logger.i == s.logger.i && s.slots[s.logger.i] == Some(t.logger.id)
            else t.visits == s.visits + [Visit(s.logger.i, None, Live, 0)] && Between(t.logger))
      else if l.TakeDropped? then
        && s.logger.Draining?
        && t.visits == s.visits + [Visit(s.logger.i, Some(s.logger.id), s.logger.phase, s.logger.count)]
        && !t.logger.Draining? && (t.logger.ReadingPhase? ==> t.logger.i == 32)
      else t.visits == s.visits
  {
    if l.Pop? {
      PopInPass(s, l.head);
    } else if l.TakeDropped? {
      TakeDroppedInPass(s, l.seen);
    } else if l.ByLogger() {
      LoggerInPass(s, l);
    } else {
      OthersLeaveTheLogger(s, l);
      OthersLeaveTheVisits(s, l);
    }
  }

  /** About to load a slot, or at the shared ring. */
  predicate Between(pc: LoggerPc) {
    pc.AtSlot? || (pc.ReadingPhase? && pc.i == 32)
  }

  lemma PopInPass(s: State, head: nat)
    requires Enabled(s, Pop(head))
    ensures NextPop(s, head).visits == s.visits
  {
  }

  lemma TakeDroppedInPass(s: State, seen: nat)
    requires Enabled(s, TakeDropped(seen))
    ensures
      var t := NextTakeDropped(s, seen);
      && s.logger.Draining?
      && t.visits == s.visits + [Visit(s.logger.i, Some(s.logger.id), s.logger.phase, s.logger.count)]
      && !t.logger.Draining? && (t.logger.ReadingPhase? ==> t.logger.i == 32)
  {
  }

  lemma LoggerInPass(s: State, l: Label)
    requires Shape(s) && AtWork(s) && Enabled(s, l) && l.ByLogger() && !s.logger.Resting?
    requires !l.Pop? && !l.TakeDropped?
    ensures
      var t := Next(s, l);
      if l.LoadSlot? then
        && s.logger.AtSlot? && s.logger.i < 32
        && (if l.sees && s.slots[s.logger.i].Some? then
              t.visits == s.visits && t.logger.ReadingPhase?
              && t.logger.i == s.logger.i && s.slots[s.logger.i] == Some(t.logger.id)
            else t.visits == s.visits + [Visit(s.logger.i, None, Live, 0)] && Between(t.logger))
      else t.visits == s.visits
  {
  }

  lemma OthersLeaveTheVisits(s: State, l: Label)
    requires Enabled(s, l) && !l.ByLogger() && !s.logger.Resting?
    ensures Next(s, l).visits == s.visits
  {
  }

  // ---------------------------------------------------------------- when a visit was made

  /** Every visit of a pass was made by one of its steps: a load of its slot, or a report of its losses. */
  lemma {:induction false} VisitWasMade(ss: seq<State>, ls: seq<Label>, a: nat, m: nat, v: nat) returns (t: nat)
    requires InPass(ss, ls, a, m) && v < |ss[m].visits|
    ensures a < t < m && (ls[t].LoadSlot? || ls[t].TakeDropped?)
    ensures |ss[t].visits| == v && v < |ss[t + 1].visits| && ss[t + 1].visits[v] == ss[m].visits[v]
    decreases m
  {
    assert StepAt(ss, ls, m - 1);
    t := a;
    if m > a + 1 {
      InvAtWork(ss, ls, m - 1);
      StepInPass(ss[m - 1], ls[m - 1]);
      if v < |ss[m - 1].visits| {
        t := VisitWasMade(ss, ls, a, m - 1, v);
      } else {
        t := m - 1;
      }
    }
  }

  /** A slot that was passed over was free when it was loaded, or the load did not see yet what another thread
      had put there. */
  lemma PassedOverWasFree(ss: seq<State>, ls: seq<Label>, a: nat, k: nat, v: nat) returns (t: nat)
    requires InPass(ss, ls, a, k) && v < |ss[k].visits| && ss[k].visits[v].id.None?
    ensures a < t < k && ls[t].LoadSlot? && ss[t].logger.AtSlot? && ss[t].logger.i == ss[k].visits[v].slot < 32
    ensures ss[k].visits[v].slot < |ss[t].slots| && (ss[t].slots[ss[k].visits[v].slot].None? || !ls[t].sees)
  {
    t := VisitWasMade(ss, ls, a, k, v);
    assert StepAt(ss, ls, t);
    InvAtWork(ss, ls, t);
    StepInPass(ss[t], ls[t]);
  }

  // ---------------------------------------------------------------- how a producer was drained

  /** The pop of step t finds the ring of producer id empty: no more was pushed than the head it knows, and
      all of that is taken. */
  ghost predicate FindsEmpty(ss: seq<State>, ls: seq<Label>, t: nat, i: nat, id: Id) {
    && t < |ls| && t < |ss| && ls[t].Pop? && ss[t].logger.Draining? && ss[t].logger.i == i && ss[t].logger.id == id
    && id in ss[t].producers && ss[t].producers[id].taken == ls[t].head == ss[t].producers[id].cachedHead
  }

  lemma PopGoesOn(s: State, head: nat)
    requires Enabled(s, Pop(head))
    ensures
      var pc, t, p := s.logger, NextPop(s, head), s.producers[s.logger.id];
      && t.logger.Draining? && t.logger.i == pc.i && t.logger.id == pc.id && !pc.done
      && (t.logger.done <==> p.taken == head == p.cachedHead)
  {
  }

  /** The step into Draining is the read of the phase, or a pop. */
  lemma IntoDraining(s: State, l: Label)
    requires Enabled(s, l) && Next(s, l).logger.Draining? && Next(s, l).logger.done
    ensures s.logger.Draining? && s.logger.i == Next(s, l).logger.i && s.logger.id == Next(s, l).logger.id
    ensures
      s.logger.done || (l.Pop? && s.producers[s.logger.id].taken == l.head == s.producers[s.logger.id].cachedHead)
  {
    if l.Pop? {
      PopGoesOn(s, l.head);
    } else if l.TakeDropped? {
      TakeDroppedInPass(s, l.seen);
    } else if l.ByLogger() {
      NoOtherIntoDone(s, l);
    } else {
      OthersLeaveTheLogger(s, l);
    }
  }

  lemma NoOtherIntoDone(s: State, l: Label)
    requires Enabled(s, l) && l.ByLogger() && !l.Pop? && !l.TakeDropped?
    ensures !(Next(s, l).logger.Draining? && Next(s, l).logger.done)
  {
  }

  lemma {:induction false} DoneWasFound(ss: seq<State>, ls: seq<Label>, a: nat, m: nat) returns (t: nat)
    requires InPass(ss, ls, a, m) && ss[m].logger.Draining? && ss[m].logger.done
    ensures a < t < m && FindsEmpty(ss, ls, t, ss[m].logger.i, ss[m].logger.id)
    decreases m
  {
    assert StepAt(ss, ls, m - 1);
    t := a;
    if m > a + 1 {
      IntoDraining(ss[m - 1], ls[m - 1]);
      if ss[m - 1].logger.done {
        t := DoneWasFound(ss, ls, a, m - 1);
      } else {
        t := m - 1;
      }
    }
  }

  /** A producer that was visited gave a whole ring's worth while live, or was found empty by a pop of the
      pass. */
  lemma VisitedWasDrained(ss: seq<State>, ls: seq<Label>, a: nat, k: nat, v: nat) returns (t: nat)
    requires InPass(ss, ls, a, k) && v < |ss[k].visits| && ss[k].visits[v].id.Some?
    ensures TookRingful(ss[k].visits[v]) ||
      (a < t < k && FindsEmpty(ss, ls, t, ss[k].visits[v].slot, ss[k].visits[v].id.value))
  {
    var u := VisitWasMade(ss, ls, a, k, v);
    assert StepAt(ss, ls, u);
    InvAtWork(ss, ls, u);
    StepInPass(ss[u], ls[u]);
    t := u;
    if ss[u].logger.Draining? && ss[u].logger.done {
      t := DoneWasFound(ss, ls, a, u);
    }
  }

  // ---------------------------------------------------------------- nothing accepted is left behind

  /** Every load of a head in the pass returned the current count. */
  ghost predicate FreshPops(ss: seq<State>, ls: seq<Label>, a: nat, k: nat) {
    forall t | a < t < k && t < |ls| && t < |ss| && ls[t].Pop? && ss[t].logger.Draining?
      && ss[t].logger.id in ss[t].producers ::
      ls[t].head == |Accepted(ss[t].producers[ss[t].logger.id].calls)|
  }

  /** What a ring has taken only grows. */
  lemma AcceptedGrows(s: State, l: Label, id: Id)
    requires Enabled(s, l) && id in s.producers
    ensures id in Next(s, l).producers && Accepted(s.producers[id].calls) <= Accepted(Next(s, l).producers[id].calls)
  {
    if l.Pop? {
      NextPopProducers(s, l.head);
    } else if l.TakeDropped? {
      NextTakeDroppedProducers(s, l.seen);
    } else if l.ByLogger() {
      LoggerLeavesCalls(s, l, id);
    } else if l.Push? || l.PushLocked? {
      PushGrowsCalls(s, l, id);
    } else {
      OthersLeaveCalls(s, l, id);
    }
  }

  lemma LoggerLeavesCalls(s: State, l: Label, id: Id)
    requires Enabled(s, l) && id in s.producers && l.ByLogger() && !l.Pop? && !l.TakeDropped?
    ensures id in Next(s, l).producers && Next(s, l).producers[id].calls == s.producers[id].calls
  {
  }

  lemma OthersLeaveCalls(s: State, l: Label, id: Id)
    requires Enabled(s, l) && id in s.producers && !l.ByLogger() && !l.Push? && !l.PushLocked?
    ensures id in Next(s, l).producers && Next(s, l).producers[id].calls == s.producers[id].calls
  {
  }

  lemma PushGrowsCalls(s: State, l: Label, id: Id)
    requires Enabled(s, l) && id in s.producers && (l.Push? || l.PushLocked?)
    ensures id in Next(s, l).producers && Accepted(s.producers[id].calls) <= Accepted(Next(s, l).producers[id].calls)
  {
    OneMoreCall(s.producers[id].calls, Call(l.record, HasRoom(s.producers[id], l.seen)));
  }

  lemma {:induction false} AcceptedOnlyGrows(ss: seq<State>, ls: seq<Label>, u: nat, t: nat, id: Id)
    requires IsRun(ss, ls) && u <= t < |ss| && id in ss[u].producers
    ensures id in ss[t].producers && Accepted(ss[u].producers[id].calls) <= Accepted(ss[t].producers[id].calls)
  {
    if u < t {
      AcceptedOnlyGrows(ss, ls, u, t - 1, id);
      assert StepAt(ss, ls, t - 1);
      AcceptedGrows(ss[t - 1], ls[t - 1], id);
    }
  }

  /** What the log holds of a producer only grows, too. */
  lemma {:induction false} TakenOnlyGrows(ss: seq<State>, ls: seq<Label>, u: nat, t: nat, id: Id)
    requires IsRun(ss, ls) && u <= t < |ss| && id in ss[u].producers
    ensures id in ss[t].producers && ss[u].producers[id].taken <= ss[t].producers[id].taken
  {
    if u < t {
      TakenOnlyGrows(ss, ls, u, t - 1, id);
      assert StepAt(ss, ls, t - 1);
      TakenGrows(ss[t - 1], ls[t - 1], id);
    }
  }

  lemma TakenGrows(s: State, l: Label, id: Id)
    requires Enabled(s, l) && id in s.producers
    ensures id in Next(s, l).producers && s.producers[id].taken <= Next(s, l).producers[id].taken
  {
    if l.Pop? {
      NextPopProducers(s, l.head);
    } else if l.TakeDropped? {
      NextTakeDroppedProducers(s, l.seen);
    } else if l.ByLogger() {
      LoggerLeavesTaken(s, l, id);
    } else {
      OthersLeaveTaken(s, l, id);
    }
  }

  lemma LoggerLeavesTaken(s: State, l: Label, id: Id)
    requires Enabled(s, l) && id in s.producers && l.ByLogger() && !l.Pop? && !l.TakeDropped?
    ensures id in Next(s, l).producers && s.producers[id].taken == Next(s, l).producers[id].taken
  {
  }

  lemma OthersLeaveTaken(s: State, l: Label, id: Id)
    requires Enabled(s, l) && id in s.producers && !l.ByLogger()
    ensures id in Next(s, l).producers && s.producers[id].taken == Next(s, l).producers[id].taken
  {
  }

  /** When the loads of a pass are current, every record that a visited producer's ring had taken before the
      pop that found it empty is in the log when the pass ends, unless the ring gave a whole ring's worth. */
  lemma NothingIsLeftBehind(ss: seq<State>, ls: seq<Label>, a: nat, k: nat, v: nat) returns (t: nat)
    requires InPass(ss, ls, a, k) && v < |ss[k].visits| && ss[k].visits[v].id.Some?
    requires FreshPops(ss, ls, a, k)
    ensures
      var id := ss[k].visits[v].id.value;
      !TookRingful(ss[k].visits[v]) ==>
        && a < t < k && FindsEmpty(ss, ls, t, ss[k].visits[v].slot, id)
        && forall u | 0 <= u <= t && id in ss[u].producers ::
             Accepted(ss[u].producers[id].calls) <= WrittenOf(ss[k].log, id)
  {
    t := VisitedWasDrained(ss, ls, a, k, v);
    if !TookRingful(ss[k].visits[v]) {
      var id := ss[k].visits[v].id.value;
      forall u | 0 <= u <= t && id in ss[u].producers
        ensures Accepted(ss[u].producers[id].calls) <= WrittenOf(ss[k].log, id)
      {
        AcceptedOnlyGrows(ss, ls, u, t, id);
        TakenIsWritten(ss, ls, t, k, id);
      }
    }
  }

  /** What was taken by then is written when the pass ends. */
  lemma TakenIsWritten(ss: seq<State>, ls: seq<Label>, t: nat, k: nat, id: Id)
    requires IsRun(ss, ls) && t <= k < |ss| && id in ss[t].producers
    requires ss[t].producers[id].taken == |Accepted(ss[t].producers[id].calls)|
    ensures Accepted(ss[t].producers[id].calls) <= WrittenOf(ss[k].log, id)
  {
    AcceptedOnlyGrows(ss, ls, t, k, id);
    TakenOnlyGrows(ss, ls, t, k, id);
    RunKeepsInv(ss, ls, k);
    assert LoggedAs(ss[k].log, id, ss[k].producers[id]);
  }

  /** The pop that finds a ring empty comes after the load of its slot in the same pass. */
  lemma {:induction false} LoadedBefore(ss: seq<State>, ls: seq<Label>, a: nat, m: nat) returns (t: nat)
    requires InPass(ss, ls, a, m) && (ss[m].logger.ReadingPhase? || ss[m].logger.Draining?) && ss[m].logger.i < 32
    ensures a < t < m && ls[t].LoadSlot? && ss[t].logger.AtSlot? && ss[t].logger.i == ss[m].logger.i
    ensures ss[m].logger.i < |ss[t].slots| && ss[t].slots[ss[m].logger.i] == Some(ss[m].logger.id)
    decreases m
  {
    assert StepAt(ss, ls, m - 1);
    t := a;
    if m > a + 1 {
      VisitGoesOn(ss, ls, m - 1);
      if ls[m - 1].LoadSlot? {
        t := m - 1;
      } else {
        t := LoadedBefore(ss, ls, a, m - 1);
      }
    }
  }

  /** What is visited after a step was found by it, or was visited before. */
  lemma VisitGoesOn(ss: seq<State>, ls: seq<Label>, m: nat)
    requires IsRun(ss, ls) && m < |ls| && m + 1 < |ss| && !ss[m].logger.Resting?
    requires (ss[m + 1].logger.ReadingPhase? || ss[m + 1].logger.Draining?) && ss[m + 1].logger.i < 32
    ensures
      var pc := ss[m + 1].logger;
      if ls[m].LoadSlot? then
        ss[m].logger.AtSlot? && ss[m].logger.i == pc.i && pc.i < |ss[m].slots| && ss[m].slots[pc.i] == Some(pc.id)
      else (ss[m].logger.ReadingPhase? || ss[m].logger.Draining?) && ss[m].logger.i == pc.i && ss[m].logger.id == pc.id
  {
    assert StepAt(ss, ls, m);
    InvAtWork(ss, ls, m);
    IntoVisit(ss[m], ls[m]);
  }

  lemma IntoVisit(s: State, l: Label)
    requires Shape(s) && AtWork(s) && Enabled(s, l) && !s.logger.Resting?
    requires (Next(s, l).logger.ReadingPhase? || Next(s, l).logger.Draining?) && Next(s, l).logger.i < 32
    ensures
      var pc := Next(s, l).logger;
      if l.LoadSlot? then s.logger.AtSlot? && s.logger.i == pc.i && s.slots[pc.i] == Some(pc.id)
      else (s.logger.ReadingPhase? || s.logger.Draining?) && s.logger.i == pc.i && s.logger.id == pc.id
  {
    if l.Pop? {
      PopGoesOn(s, l.head);
    } else if l.TakeDropped? {
      TakeDroppedInPass(s, l.seen);
    } else if l.ByLogger() {
      LoggerIntoVisit(s, l);
    } else {
      OthersLeaveTheLogger(s, l);
    }
  }

  lemma LoggerIntoVisit(s: State, l: Label)
    requires Shape(s) && AtWork(s) && Enabled(s, l) && l.ByLogger() && !s.logger.Resting?
    requires !l.Pop? && !l.TakeDropped?
    requires (Next(s, l).logger.ReadingPhase? || Next(s, l).logger.Draining?) && Next(s, l).logger.i < 32
    ensures
      var pc := Next(s, l).logger;
      if l.LoadSlot? then s.logger.AtSlot? && s.logger.i == pc.i && s.slots[pc.i] == Some(pc.id)
      else (s.logger.ReadingPhase? || s.logger.Draining?) && s.logger.i == pc.i && s.logger.id == pc.id
  {
  }

  /** So with current loads, what a ring had taken when its slot was loaded is in the log when the pass ends,
      unless it gave a whole ring's worth. */
  lemma LoadedIsWritten(ss: seq<State>, ls: seq<Label>, a: nat, k: nat, v: nat) returns (t: nat)
    requires InPass(ss, ls, a, k) && v < |ss[k].visits| && ss[k].visits[v].id.Some?
    requires FreshPops(ss, ls, a, k) && ss[k].visits[v].slot < 32 && !TookRingful(ss[k].visits[v])
    ensures a < t < k && ls[t].LoadSlot? && ss[t].logger.AtSlot? && ss[t].logger.i == ss[k].visits[v].slot
    ensures
      var id := ss[k].visits[v].id.value;
      && ss[k].visits[v].slot < |ss[t].slots| && ss[t].slots[ss[k].visits[v].slot] == Some(id)
      && id in ss[t].producers && Accepted(ss[t].producers[id].calls) <= WrittenOf(ss[k].log, id)
  {
    var u := NothingIsLeftBehind(ss, ls, a, k, v);
    t := LoadedBefore(ss, ls, a, u);
    RunKeepsInv(ss, ls, t);
  }

  // ---------------------------------------------------------------- closed producers are freed

  /** A producer whose phase was read as closed is freed by the same pass. */
  ghost predicate ClosedAreFreed(s: State) {
    forall v | 0 <= v < |s.visits| && s.visits[v].id.Some? && s.visits[v].phase.Closed? && s.visits[v].slot < 32 ::
      s.visits[v].id.value in s.freed || (s.logger.Freeing? && s.logger.id == s.visits[v].id.value)
  }

  lemma {:induction false} PassKeepsClosedFreed(ss: seq<State>, ls: seq<Label>, a: nat, m: nat)
    requires InPass(ss, ls, a, m)
    ensures ClosedAreFreed(ss[m])
    decreases m
  {
    assert StepAt(ss, ls, m - 1);
    if m > a + 1 {
      PassKeepsClosedFreed(ss, ls, a, m - 1);
      InvAtWork(ss, ls, m - 1);
      StepKeepsClosedFreed(ss[m - 1], ls[m - 1]);
    }
  }

  lemma StepKeepsClosedFreed(s: State, l: Label)
    requires Shape(s) && AtWork(s) && Enabled(s, l) && !s.logger.Resting? && ClosedAreFreed(s)
    ensures ClosedAreFreed(Next(s, l))
  {
    StepInPass(s, l);
    FreedGrows(s, l);
    if l.Free? {
      FreeFrees(s);
    } else if l.TakeDropped? {
      ClosedGoesToFreeing(s, l.seen);
    } else if s.logger.Freeing? {
      assert !l.ByLogger();
      OthersLeaveTheLogger(s, l);
    }
  }

  lemma FreeFrees(s: State)
    requires Enabled(s, Free)
    ensures Next(s, Free).freed == s.freed + {s.logger.id} && Next(s, Free).visits == s.visits
  {
  }

  lemma ClosedGoesToFreeing(s: State, seen: nat)
    requires Enabled(s, TakeDropped(seen))
    ensures
      var t := NextTakeDropped(s, seen);
      s.logger.phase.Closed? && s.logger.i < 32 ==> t.logger.Freeing? && t.logger.id == s.logger.id
    ensures NextTakeDropped(s, seen).freed == s.freed
  {
  }

  /** At the end of a pass, every producer in a slot whose phase it read as closed is freed and in no slot. */
  lemma ClosedIsGone(ss: seq<State>, ls: seq<Label>, a: nat, k: nat, v: nat)
    requires InPass(ss, ls, a, k) && ss[k].logger.Resting? && v < |ss[k].visits|
    requires ss[k].visits[v].id.Some? && ss[k].visits[v].phase.Closed? && ss[k].visits[v].slot < 32
    ensures ss[k].visits[v].id.value in ss[k].freed
    ensures forall i | 0 <= i < |ss[k].slots| :: ss[k].slots[i] != ss[k].visits[v].id
  {
    PassKeepsClosedFreed(ss, ls, a, k);
    RunKeepsInv(ss, ls, k);
  }
}
