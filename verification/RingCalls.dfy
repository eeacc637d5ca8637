/** The ring's micro-steps and the logger's calls: a push or a pop that runs among the steps of the other
    thread does to a producer's counters what LoggerProtocol does in one step, with the same count seen. */
module RingCalls {
  import opened RingProtocol
  import opened RingSafety
  import LP = LoggerProtocol
  import LS = LoggerSteps
  import LogRecord

  /** How the object representation of an element is read as a record. */
  type Reading = Value -> LogRecord.Record

  function Records(read: Reading, values: seq<Value>): (rs: seq<LogRecord.Record>)
    ensures |rs| == |values|
  {
    if values == [] then [] else Records(read, values[..|values| - 1]) + [read(values[|values| - 1])]
  }

  lemma OneMoreRecord(read: Reading, values: seq<Value>, v: Value)
    ensures Records(read, values + [v]) == Records(read, values) + [read(v)]
  {
    assert (values + [v])[..|values|] == values;
  }

  lemma {:induction false} RecordAt(read: Reading, values: seq<Value>, k: nat)
    requires k < |values|
    ensures Records(read, values)[k] == read(values[k])
  {
    if k < |values| - 1 { RecordAt(read, values[..|values| - 1], k); }
  }

  // ---------------------------------------------------------------- between two calls

  /** The private copy of the tail before the push under way: as it is, or, when the push has loaded it
      since, one that said full. */
  ghost predicate TailBefore(r: Ring, s: State, cachedTail: nat) {
    if s.producer.Copying? then
      && cachedTail <= s.cachedTail && s.head != s.cachedTail + r.cap
      && (cachedTail == s.cachedTail || s.head == cachedTail + r.cap)
    else
      && cachedTail == s.cachedTail
      && (s.producer.RefreshTail? ==> s.head == cachedTail + r.cap)
  }

  /** The private copy of the head before the pop under way: as it is, or, when the pop has loaded it
      since, one that said empty. */
  ghost predicate HeadBefore(s: State, cachedHead: nat) {
    if s.consumer.Reading? then
      s.tail < s.cachedHead && (cachedHead == s.cachedHead || cachedHead == s.tail)
    else cachedHead == s.cachedHead
  }

  ghost predicate SinglePush(s: State) {
    match s.producer
    case ProducerIdle => true
    case RefreshTail(p) => p.Single?
    case Copying(vs, _, _) => |vs| == 1
  }

  /** The producer p is what the calls that have ended have made of the ring. */
  ghost predicate Shows(r: Ring, read: Reading, s: State, p: LP.Producer) {
    && r.cap == LP.RING_CAPACITY && SinglePush(s)
    && LP.Accepted(p.calls) == Records(read, s.pushed) && p.taken == s.tail
    && TailBefore(r, s, p.cachedTail) && HeadBefore(s, p.cachedHead)
    && p.headSeen == p.cachedHead && !p.counting
  }

  /** One call, done at once. A refused push counts its loss before it returns. */
  datatype Call = PushCall(record: LogRecord.Record, seen: nat) | PopCall(seen: nat) {
    /** What LoggerProtocol asks of the counters before the call. */
    ghost predicate Allowed(p: LP.Producer) {
      match this
      case PushCall(_, seen) => LP.CanPush(p, seen)
      case PopCall(seen) =>
        && p.headSeen <= seen <= |LP.Accepted(p.calls)|
        && (if p.taken == p.cachedHead then p.taken <= seen else p.taken < |LP.Accepted(p.calls)|)
    }

    ghost function Done(p: LP.Producer): LP.Producer {
      match this
      case PushCall(record, seen) =>
        var q := LP.AfterPush(p, record, seen);
        if q.counting then LP.AfterCount(q) else q
      case PopCall(seen) => LS.Popped(p, seen)
    }
  }

  /** What the caller is told is what the call does. */
  ghost predicate Tells(read: Reading, p: LP.Producer, c: Call, e: Event) {
    match e
    case Silent => false
    case Accepted(vs) => |vs| == 1 && c.PushCall? && c.record == read(vs[0]) && LP.HasRoom(p, c.seen)
    case Refused(push) => push.Single? && c.PushCall? && c.record == read(push.value) && !LP.HasRoom(p, c.seen)
    case Took(v) =>
      && c.PopCall? && c.Done(p).taken == p.taken + 1
      && p.taken < |LP.Accepted(p.calls)| && read(v) == LP.Accepted(p.calls)[p.taken]
    case FoundEmpty => c.PopCall? && c.Done(p).taken == p.taken
  }

  // ---------------------------------------------------------------- the simulation

  /** The call a step ends, with the count its load returned. */
  ghost function CallOf(read: Reading, s: State, l: Label): Call
    requires l.StoreHead? ==> s.producer.Copying? && |s.producer.vs| > 0
    requires l.LoadTail? ==> s.producer.RefreshTail? && s.producer.push.Single?
  {
    match l
    case StoreHead => PushCall(read(s.producer.vs[0]), s.cachedTail)
    case LoadTail(seen) => PushCall(read(s.producer.push.value), seen)
    case LoadHead(seen) => PopCall(seen)
    case _ => PopCall(s.cachedHead)
  }

  lemma SilentStep(r: Ring, read: Reading, s: State, l: Label, p: LP.Producer)
    requires Inv(r, s) && Enabled(r, s, l) && Shows(r, read, s, p) && EventOf(r, s, l).Silent?
    requires l.BeginPush? ==> l.push.Single?
    ensures Shows(r, read, Next(r, s, l), p)
  {
  }

  lemma StoreHeadEndsPush(r: Ring, read: Reading, s: State, p: LP.Producer)
    requires Inv(r, s) && Enabled(r, s, StoreHead) && Shows(r, read, s, p)
    ensures
      var c := CallOf(read, s, StoreHead);
      && c.Allowed(p) && Tells(read, p, c, EventOf(r, s, StoreHead))
      && Shows(r, read, Next(r, s, StoreHead), c.Done(p))
  {
    var v := s.producer.vs[0];
    assert s.producer.vs == [v];
    OneMoreRecord(read, s.pushed, v);
    LP.OneMoreCall(p.calls, LP.Call(read(v), true));
    assert LP.KnownTail(p, s.cachedTail) == s.cachedTail;
  }

  lemma LoadTailEndsPush(r: Ring, read: Reading, s: State, seen: nat, p: LP.Producer)
    requires Inv(r, s) && Enabled(r, s, LoadTail(seen)) && Shows(r, read, s, p)
    requires EventOf(r, s, LoadTail(seen)).Refused?
    ensures
      var c := CallOf(read, s, LoadTail(seen));
      && c.Allowed(p) && Tells(read, p, c, EventOf(r, s, LoadTail(seen)))
      && Shows(r, read, Next(r, s, LoadTail(seen)), c.Done(p))
  {
    LP.OneMoreCall(p.calls, LP.Call(read(s.producer.push.value), false));
  }

  lemma StoreTailEndsPop(r: Ring, read: Reading, s: State, p: LP.Producer)
    requires Inv(r, s) && Enabled(r, s, StoreTail) && Shows(r, read, s, p)
    ensures
      var c := CallOf(read, s, StoreTail);
      && c.Allowed(p) && Tells(read, p, c, EventOf(r, s, StoreTail))
      && Shows(r, read, Next(r, s, StoreTail), c.Done(p))
  {
    TakenIsOldest(r, s);
    RecordAt(read, s.pushed, s.tail);
  }

  lemma LoadHeadEndsPop(r: Ring, read: Reading, s: State, seen: nat, p: LP.Producer)
    requires Inv(r, s) && Enabled(r, s, LoadHead(seen)) && Shows(r, read, s, p)
    requires EventOf(r, s, LoadHead(seen)).FoundEmpty?
    ensures
      var c := CallOf(read, s, LoadHead(seen));
      && c.Allowed(p) && Tells(read, p, c, EventOf(r, s, LoadHead(seen)))
      && Shows(r, read, Next(r, s, LoadHead(seen)), c.Done(p))
  {
  }

  /** Each micro-step of a single push or a pop either leaves the producer as it is, or ends a call and
      changes the producer as that call does at once, with the count the call's load returned. */
  lemma StepIsCall(r: Ring, read: Reading, s: State, l: Label, p: LP.Producer)
    requires Inv(r, s) && Enabled(r, s, l) && Shows(r, read, s, p)
    requires l.BeginPush? ==> l.push.Single?
    ensures EventOf(r, s, l).Silent? ==> Shows(r, read, Next(r, s, l), p)
    ensures !EventOf(r, s, l).Silent? ==>
      && (l.StoreHead? || l.LoadTail? || l.StoreTail? || l.LoadHead?)
      && var c := CallOf(read, s, l);
         c.Allowed(p) && Tells(read, p, c, EventOf(r, s, l)) && Shows(r, read, Next(r, s, l), c.Done(p))
  {
    if EventOf(r, s, l).Silent? {
      SilentStep(r, read, s, l, p);
    } else {
      match l {
        case StoreHead => StoreHeadEndsPush(r, read, s, p);
        case LoadTail(seen) => LoadTailEndsPush(r, read, s, seen, p);
        case StoreTail => StoreTailEndsPop(r, read, s, p);
        case LoadHead(seen) => LoadHeadEndsPop(r, read, s, seen, p);
      }
    }
  }

  // ---------------------------------------------------------------- runs

  /** The calls cs, done one after the other, take p to q. */
  ghost predicate CallsRun(p: LP.Producer, cs: seq<Call>, q: LP.Producer)
    decreases |cs|
  {
    if cs == [] then q == p else cs[0].Allowed(p) && CallsRun(cs[0].Done(p), cs[1..], q)
  }

  /** Every run of single pushes and pops, in any interleaving, is a run of calls done at once, each with the
      count it saw, and the producer shows the ring after it as before it. */
  lemma {:induction false} RunIsCalls(r: Ring, read: Reading, s: State, ls: seq<Label>, t: State, p: LP.Producer)
    returns (cs: seq<Call>, q: LP.Producer)
    requires Inv(r, s) && Runs(r, s, ls, t) && Shows(r, read, s, p)
    requires forall i | 0 <= i < |ls| && ls[i].BeginPush? :: ls[i].push.Single?
    ensures CallsRun(p, cs, q) && Shows(r, read, t, q)
    decreases |ls|
  {
    if ls == [] {
      cs, q := [], p;
    } else {
      var l, s' := ls[0], Next(r, s, ls[0]);
      StepKeepsInv(r, s, l);
      StepIsCall(r, read, s, l, p);
      if EventOf(r, s, l).Silent? {
        cs, q := RunIsCalls(r, read, s', ls[1..], t, p);
      } else {
        var c := CallOf(read, s, l);
        cs, q := RunIsCalls(r, read, s', ls[1..], t, c.Done(p));
        cs := [c] + cs;
      }
    }
  }

  /** The ring of a new producer shows as that producer. */
  lemma NewRingShows(r: Ring, read: Reading, owner: nat, slot: nat)
    requires r.cap == LP.RING_CAPACITY && r.size > 0
    ensures Shows(r, read, Init(r), LP.Fresh(owner, slot))
  {
  }
}
