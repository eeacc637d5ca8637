/** Registration: refused only after all 32 slots were tried, and never stuck. */
module LoggerRegistration {
  import opened Wrappers
  import opened LogRecord
  import opened LoggerProtocol
  import opened LoggerInvariant
  import opened LoggerSteps
  import opened LoggerSafety

  /** A registration that is refused tried each of the 32 slots, and found it occupied when it tried it. */
  lemma RefusedAfterEverySlot(ss: seq<State>, ls: seq<Label>, k: nat, scan: nat, j: nat) returns (t: nat)
    requires IsRun(ss, ls) && k < |ls| && ls[k] == GiveUp(scan) && j < 32
    ensures t < k && ls[t].TrySlot? && ls[t].scan == scan
    ensures scan in ss[t].scans && ss[t].scans[scan] == j < |ss[t].slots| && ss[t].slots[j].Some?
    ensures forall u | t <= u <= k :: scan in ss[u].scans
  {
    assert StepAt(ss, ls, k);
    t := TriedSlotsWereOccupied(ss, ls, k, scan, j);
  }

  // ---------------------------------------------------------------- a registration goes on

  /** No registration is past the last slot. */
  ghost predicate ScansInRange(s: State) {
    forall scan | scan in s.scans :: s.scans[scan] <= MAX_THREADS
  }

  lemma StepKeepsScans(s: State, l: Label)
    requires Shape(s) && ScansInRange(s) && Enabled(s, l)
    ensures ScansInRange(Next(s, l))
  {
    if l.ByLogger() {
      LoggerLeavesScans(s, l);
    } else if l.BeginRegister? || l.TrySlot? || l.GiveUp? {
      RegistrationKeepsScans(s, l);
    } else {
      OthersLeaveScans(s, l);
    }
  }

  lemma LoggerLeavesScans(s: State, l: Label)
    requires Enabled(s, l) && l.ByLogger()
    ensures Next(s, l).scans == s.scans
  {
  }

  lemma OthersLeaveScans(s: State, l: Label)
    requires Enabled(s, l) && !l.ByLogger() && !l.BeginRegister? && !l.TrySlot? && !l.GiveUp?
    ensures Next(s, l).scans == s.scans
  {
  }

  lemma RegistrationKeepsScans(s: State, l: Label)
    requires Shape(s) && ScansInRange(s) && Enabled(s, l) && (l.BeginRegister? || l.TrySlot? || l.GiveUp?)
    ensures ScansInRange(Next(s, l))
  {
  }

  lemma {:induction false} RunKeepsScans(ss: seq<State>, ls: seq<Label>, k: nat)
    requires IsRun(ss, ls) && k < |ss|
    ensures ScansInRange(ss[k])
  {
    if k > 0 {
      RunKeepsScans(ss, ls, k - 1);
      RunKeepsInv(ss, ls, k - 1);
      assert StepAt(ss, ls, k - 1);
      StepKeepsScans(ss[k - 1], ls[k - 1]);
    }
  }

  /** A number greater than every key. */
  lemma {:induction false} AboveKeys<T>(m: map<nat, T>) returns (n: nat)
    ensures n > 0 && forall key | key in m :: key < n
    decreases |m|
  {
    if m == map[] {
      n := 1;
    } else {
      var key :| key in m;
      var rest := m - {key};
      assert |rest.Keys| < |m.Keys| by { assert rest.Keys == m.Keys - {key}; }
      n := AboveKeys(rest);
      if n <= key { n := key + 1; }
      forall other | other in m ensures other < n {
        assert other != key ==> other in rest;
      }
    }
  }

  /** The steps of a registration. */
  predicate OfScan(l: Label, scan: nat) {
    (l.TrySlot? && l.scan == scan) || l == GiveUp(scan)
  }

  /** At every moment of every run before the destructor, a registration under way has a step it can take, and
      none is further than the 33rd. */
  lemma RegistrationGoesOn(ss: seq<State>, ls: seq<Label>, k: nat, scan: nat) returns (l: Label)
    requires IsRun(ss, ls) && k < |ss| && !ss[k].stopping && scan in ss[k].scans
    ensures ss[k].scans[scan] <= 32 && Enabled(ss[k], l) && OfScan(l, scan)
  {
    var s := ss[k];
    RunKeepsInv(ss, ls, k);
    RunKeepsScans(ss, ls, k);
    if s.scans[scan] == MAX_THREADS {
      l := GiveUp(scan);
    } else {
      var id := AboveKeys(s.producers);
      var handle := AboveKeys(s.handles);
      l := TrySlot(scan, id, handle);
    }
  }

  /** Each of its steps ends the registration or takes it one slot further; a free slot is always taken, with
      a new live producer and its one handle. */
  lemma RegistrationStep(s: State, l: Label, scan: nat)
    requires Inv(s) && Enabled(s, l) && OfScan(l, scan)
    ensures scan in s.scans
    ensures
      var t, i := Next(s, l), s.scans[scan];
      if scan in t.scans then t.scans[scan] == i + 1 && i < |s.slots| && s.slots[i].Some?
      else if l.TrySlot? then
        && i < |s.slots| && s.slots[i].None? && t.slots == s.slots[i := Some(l.id)]
        && l.id in t.producers && t.producers[l.id].phase.Live? && t.producers[l.id].calls == []
        && l.handle in t.handles && t.handles[l.handle] == Some(l.id)
      else t.slots == s.slots && t.handles == s.handles && t.producers == s.producers
  {
  }

  // ---------------------------------------------------------------- nobody waits

  /** A thread with a handle can log, or go on logging, and between its calls it can give the handle away or
      destroy it, whatever the others are doing. */
  lemma OwnerNeverWaits(s: State, handle: nat, id: Id, record: Record)
    requires Inv(s) && !s.stopping && Owns(s, handle, id)
    ensures
      if s.producers[id].counting then Enabled(s, CountDrop(handle))
      else Enabled(s, Push(handle, record, s.producers[id].taken)) && Enabled(s, DestroyHandle(handle))
    ensures
      !s.producers[id].counting ==> forall copy: nat | copy !in s.handles :: Enabled(s, MoveHandle(handle, copy))
  {
    var p := s.producers[id];
    assert Sound(p);
    if p.counting {
      assert Owns(s, handle, id) && s.producers[id].counting;
    } else {
      assert Owns(s, handle, id) && CanPush(p, p.taken);
    }
  }

  /** So can a thread inside the lock of the shared ring. */
  lemma LockHolderNeverWaits(s: State, record: Record)
    requires Inv(s) && !s.stopping
    ensures
      if s.producers[SHARED].counting then Enabled(s, CountDropLocked)
      else Enabled(s, PushLocked(record, s.producers[SHARED].taken))
  {
    assert Sound(s.producers[SHARED]);
  }
}
