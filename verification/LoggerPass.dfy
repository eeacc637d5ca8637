/** One pass of the logger thread: it ends whatever the other threads do, visits every slot and the
    shared ring once, and says whether a ring may hold more. */
module LoggerPass {
  import opened Wrappers
  import opened LoggerProtocol
  import opened LoggerInvariant
  import opened LoggerSafety

  /** The visit took a whole ring's worth of a live ring, which may hold more. */
  predicate TookRingful(v: Visit) {
    v.id.Some? && v.phase.Live? && v.pops == RING_CAPACITY
  }

  /** The visits go through the slots in order, and take at most a ring's worth at each. */
  ghost predicate InOrder(vs: seq<Visit>) {
    forall k | 0 <= k < |vs| :: vs[k].slot == k && vs[k].pops <= RING_CAPACITY
  }

  ghost predicate SomeRingful(vs: seq<Visit>) {
    exists k | 0 <= k < |vs| :: TookRingful(vs[k])
  }

  /** The visits so far are those of the slots passed, and the flag carried says whether a ringful was
      among them. */
  ghost predicate Visited(s: State) {
    && InOrder(s.visits)
    && match s.logger
       case Resting(result) => s.visits == [] || (|s.visits| == MAX_THREADS + 1 && result == SomeRingful(s.visits))
       case AtSlot(i, behind) => |s.visits| == i && behind == SomeRingful(s.visits)
       case ReadingPhase(i, _, behind) => |s.visits| == i && behind == SomeRingful(s.visits)
       case Draining(i, _, _, _, _, behind) => |s.visits| == i && behind == SomeRingful(s.visits)
       case Freeing(i, _, behind) => |s.visits| == i + 1 && behind == SomeRingful(s.visits)
       case Clearing(i, _, behind) => |s.visits| == i + 1 && behind == SomeRingful(s.visits)
  }

  lemma OneMoreVisit(vs: seq<Visit>, v: Visit)
    requires InOrder(vs) && v.slot == |vs| && v.pops <= RING_CAPACITY
    ensures InOrder(vs + [v])
    ensures SomeRingful(vs + [v]) <==> SomeRingful(vs) || TookRingful(v)
  {
    var ws := vs + [v];
    if TookRingful(v) { assert TookRingful(ws[|vs|]); }
    if SomeRingful(vs) {
      var k :| 0 <= k < |vs| && TookRingful(vs[k]);
      assert TookRingful(ws[k]);
    }
  }

  lemma StepKeepsVisited(s: State, l: Label)
    requires Shape(s) && AtWork(s) && Visited(s) && Enabled(s, l)
    ensures Visited(Next(s, l))
  {
    match l {
      case LoadSlot(sees) => LoadSlotKeepsVisited(s, sees);
      case TakeDropped(seen) => TakeDroppedKeepsVisited(s, seen);
      case _ => OtherStepsKeepVisited(s, l);
    }
  }

  lemma LoadSlotKeepsVisited(s: State, sees: bool)
    requires Visited(s) && Enabled(s, LoadSlot(sees)) && s.logger.i < MAX_THREADS
    ensures Visited(NextLoadSlot(s, sees))
  {
    OneMoreVisit(s.visits, Visit(s.logger.i, None, Live, 0));
  }

  lemma TakeDroppedKeepsVisited(s: State, seen: nat)
    requires Visited(s) && Enabled(s, TakeDropped(seen)) && s.logger.i <= MAX_THREADS && s.logger.count <= RING_CAPACITY
    ensures Visited(NextTakeDropped(s, seen))
  {
    OneMoreVisit(s.visits, Visit(s.logger.i, Some(s.logger.id), s.logger.phase, s.logger.count));
  }

  lemma OtherStepsKeepVisited(s: State, l: Label)
    requires Visited(s) && ClearsInRange(s) && Enabled(s, l) && !l.LoadSlot? && !l.TakeDropped?
    ensures Visited(Next(s, l))
  {
  }

  // A consequence of AtWork.
  ghost predicate ClearsInRange(s: State) {
    s.logger.Clearing? ==> s.logger.i < MAX_THREADS
  }

  lemma {:induction false} RunKeepsVisited(ss: seq<State>, ls: seq<Label>, k: nat)
    requires IsRun(ss, ls) && k < |ss|
    ensures Visited(ss[k])
  {
    if k == 0 {
    } else {
      RunKeepsVisited(ss, ls, k - 1);
      InvAtWork(ss, ls, k - 1);
      assert StepAt(ss, ls, k - 1);
      StepKeepsVisited(ss[k - 1], ls[k - 1]);
    }
  }

  lemma InvAtWork(ss: seq<State>, ls: seq<Label>, k: nat)
    requires IsRun(ss, ls) && k < |ss|
    ensures Shape(ss[k]) && AtWork(ss[k])
  {
    RunKeepsInv(ss, ls, k);
  }

  /** A pass that has ended went to every slot once, in order, and then to the shared ring; it took at
      most a ring's worth from each, and its answer says whether a live ring gave that much. */
  lemma PassVisitsEverything(ss: seq<State>, ls: seq<Label>, k: nat)
    requires IsRun(ss, ls) && k < |ss| && ss[k].logger.Resting? && ss[k].visits != []
    ensures |ss[k].visits| == MAX_THREADS + 1
    ensures forall i | 0 <= i <= MAX_THREADS :: ss[k].visits[i].slot == i && ss[k].visits[i].pops <= RING_CAPACITY
    ensures ss[k].logger.result <==> exists i :: 0 <= i <= MAX_THREADS && TookRingful(ss[k].visits[i])
  {
    RunKeepsVisited(ss, ls, k);
  }

  // ---------------------------------------------------------------- a pass ends

  const SLOT_STEPS := RING_CAPACITY + 6

  /** How many steps of its own the logger thread needs at most to end the pass. */
  function Rank(pc: LoggerPc): int {
    match pc
    case Resting(_) => 0
    case AtSlot(i, _) => (MAX_THREADS - i) * SLOT_STEPS + RING_CAPACITY + 5
    case ReadingPhase(i, _, _) => (MAX_THREADS - i) * SLOT_STEPS + RING_CAPACITY + 4
    case Draining(i, _, _, count, done, _) =>
      (MAX_THREADS - i) * SLOT_STEPS + (if done then 2 else RING_CAPACITY - count + 3)
    case Freeing(i, _, _) => (MAX_THREADS - i) * SLOT_STEPS + 1
    case Clearing(i, _, _) => (MAX_THREADS - i) * SLOT_STEPS
  }

  /** Each step of the logger thread brings the end of the pass nearer, and no step of another thread
      takes it further away. */
  lemma PassIsBounded(s: State, l: Label)
    requires Inv(s) && Enabled(s, l)
    ensures l.StartPass? ==> Rank(Next(s, l).logger) <= (MAX_THREADS + 1) * SLOT_STEPS
    ensures l.ByLogger() && !l.StartPass? ==> 0 <= Rank(Next(s, l).logger) < Rank(s.logger)
    ensures !l.ByLogger() ==> Next(s, l).logger == s.logger
  {
    StepIsBounded(s, l);
  }

  lemma StepIsBounded(s: State, l: Label)
    requires Shape(s) && AtWork(s) && Enabled(s, l)
    ensures l.StartPass? ==> Rank(Next(s, l).logger) <= (MAX_THREADS + 1) * SLOT_STEPS
    ensures l.ByLogger() && !l.StartPass? ==> 0 <= Rank(Next(s, l).logger) < Rank(s.logger)
    ensures !l.ByLogger() ==> Next(s, l).logger == s.logger
  {
    if l.Pop? {
      PopIsBounded(s, l.head);
    } else if l.TakeDropped? {
      TakeDroppedIsBounded(s, l.seen);
    } else {
      OtherStepsAreBounded(s, l);
    }
  }

  lemma PopIsBounded(s: State, head: nat)
    requires Shape(s) && AtWork(s) && Enabled(s, Pop(head))
    ensures 0 <= Rank(NextPop(s, head).logger) < Rank(s.logger)
  {
    PopMovesLogger(s, head);
  }

  /** A pop counts one more record, or finds nothing and is the last of its ring. */
  lemma PopMovesLogger(s: State, head: nat)
    requires Enabled(s, Pop(head))
    ensures
      var pc, now := s.logger, NextPop(s, head).logger;
      && !pc.done && now.Draining? && now.i == pc.i
      && (if now.done then now.count == pc.count else now.count == pc.count + 1)
  {
  }

  lemma TakeDroppedIsBounded(s: State, seen: nat)
    requires Shape(s) && AtWork(s) && Enabled(s, TakeDropped(seen))
    ensures 0 <= Rank(NextTakeDropped(s, seen).logger) < Rank(s.logger)
  {
  }

  lemma OtherStepsAreBounded(s: State, l: Label)
    requires Shape(s) && AtWork(s) && Enabled(s, l) && !l.Pop? && !l.TakeDropped?
    ensures l.StartPass? ==> Rank(Next(s, l).logger) <= (MAX_THREADS + 1) * SLOT_STEPS
    ensures l.ByLogger() && !l.StartPass? ==> 0 <= Rank(Next(s, l).logger) < Rank(s.logger)
    ensures !l.ByLogger() ==> Next(s, l).logger == s.logger
  {
    if l.ByLogger() {
      LoggerStepsAreBounded(s, l);
    } else {
      OthersLeaveTheLogger(s, l);
    }
  }

  lemma LoggerStepsAreBounded(s: State, l: Label)
    requires Shape(s) && AtWork(s) && Enabled(s, l) && l.ByLogger() && !l.Pop? && !l.TakeDropped?
    ensures l.StartPass? ==> Rank(Next(s, l).logger) <= (MAX_THREADS + 1) * SLOT_STEPS
    ensures !l.StartPass? ==> 0 <= Rank(Next(s, l).logger) < Rank(s.logger)
  {
  }

  lemma OthersLeaveTheLogger(s: State, l: Label)
    requires Enabled(s, l) && !l.ByLogger()
    ensures Next(s, l).logger == s.logger
  {
  }

  /** The step the logger thread can take now, whatever the others are doing. */
  function Move(s: State): Label {
    match s.logger
    case Resting(_) => StartPass
    case AtSlot(_, _) => LoadSlot(true)
    case ReadingPhase(_, id, _) => if id in s.producers then ReadPhase(s.producers[id].phase) else StartPass
    case Draining(_, id, phase, count, done, _) =>
      if id !in s.producers then StartPass
      else if done || count == Limit(phase) then TakeDropped(s.producers[id].dropped)
      else Pop(|Accepted(s.producers[id].calls)|)
    case Freeing(_, _, _) => Free
    case Clearing(_, _, _) => ClearSlot
  }

  lemma PassNeverBlocks(s: State)
    requires Inv(s)
    ensures Enabled(s, Move(s)) && Move(s).ByLogger()
    ensures !s.logger.Resting? ==> !Move(s).StartPass?
  {
    if s.logger.Draining? {
      assert Sound(s.producers[s.logger.id]);
    }
  }
}
