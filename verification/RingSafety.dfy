/** What the ring promises over whole runs: exclusive slots, nothing lost or reordered, a bounded
    FIFO to its callers, and calls that finish in a bounded number of their own steps. */
module RingSafety {
  import opened RingProtocol

  // ---------------------------------------------------------------- runs

  /** The steps ls lead from s to t. */
  ghost predicate Runs(r: Ring, s: State, ls: seq<Label>, t: State)
    decreases |ls|
  {
    if ls == [] then t == s
    else WellFormed(r, s) && Enabled(r, s, ls[0]) && Runs(r, Next(r, s, ls[0]), ls[1..], t)
  }

  lemma {:induction false} RunKeepsInv(r: Ring, s: State, ls: seq<Label>, t: State)
    requires Inv(r, s) && Runs(r, s, ls, t)
    ensures Inv(r, t)
    decreases |ls|
  {
    if ls == [] {
    } else {
      StepKeepsInv(r, s, ls[0]);
      RunKeepsInv(r, Next(r, s, ls[0]), ls[1..], t);
    }
  }

  // ---------------------------------------------------------------- safety

  /** The values in the slots [tail, head), oldest first. */
  ghost function Held(r: Ring, s: State): seq<Value>
    requires WellFormed(r, s) && s.tail <= s.head
  {
    seq(s.head - s.tail, k requires 0 <= k => s.slots[Slot(r, s.tail + k)])
  }

  /** No slot is touched by both threads, none is reused before it was read, and every earlier
      access of the other thread to a slot is ordered before this one by a counter already acquired. */
  ghost predicate Exclusive(r: Ring, s: State)
    requires r.cap > 0
  {
    && (s.producer.Copying? && s.producer.i < |s.producer.vs| ==>
          var m := s.head + s.producer.i;
          && (s.consumer.Reading? ==> Slot(r, m) != Slot(r, s.tail))
          && (forall n | s.tail <= n < s.head :: Slot(r, n) != Slot(r, m))
          && (forall n | 0 <= n < m && Slot(r, n) == Slot(r, m) :: n < s.cachedTail))
    && (s.consumer.Reading? ==> s.tail < s.cachedHead)
  }

  lemma InvIsExclusive(r: Ring, s: State)
    requires Inv(r, s)
    ensures Exclusive(r, s)
  {
    if s.producer.Copying? && s.producer.i < |s.producer.vs| {
      OthersUntouched(r, s);
      EarlierUsesAcquired(r, s);
    }
  }

  /** Every earlier use of the slot being copied into was handed back before the count acquired. */
  lemma EarlierUsesAcquired(r: Ring, s: State)
    requires r.cap > 0 && Ordered(r, s)
    requires s.producer.Copying? && s.producer.i < |s.producer.vs| && s.head + |s.producer.vs| <= s.cachedTail + r.cap
    ensures
      var m := s.head + s.producer.i;
      forall n | 0 <= n < m && Slot(r, n) == Slot(r, m) :: n < s.cachedTail
  {
    var m := s.head + s.producer.i;
    forall n | 0 <= n < m && Slot(r, n) == Slot(r, m) ensures n < s.cachedTail {
      if n >= s.cachedTail { SlotsDiffer(r, n, m); }
    }
  }

  /** Whatever the interleaving and however stale the loads: counters stay ordered, slots exclusive,
      and what was popped followed by what is held is exactly what was pushed. */
  lemma RunIsSafe(r: Ring, ls: seq<Label>, s: State)
    requires r.cap > 0 && r.size > 0
    requires Runs(r, Init(r), ls, s)
    ensures WellFormed(r, s) && Ordered(r, s)
    ensures Exclusive(r, s)
    ensures s.popped + Held(r, s) == s.pushed
  {
    InitKeepsInv(r);
    RunKeepsInv(r, Init(r), ls, s);
    InvIsExclusive(r, s);
    assert s.pushed == s.pushed[..s.tail] + s.pushed[s.tail..];
    assert Held(r, s) == s.pushed[s.tail..];
  }

  // ---------------------------------------------------------------- the bounded FIFO

  /** What a step means to the callers of push and pop. */
  datatype Event =
    | Silent
    | Accepted(values: seq<Value>) | Refused(push: Push)
    | Took(value: Value) | FoundEmpty

  ghost function EventOf(r: Ring, s: State, l: Label): Event
    requires WellFormed(r, s) && Enabled(r, s, l)
  {
    match l
    case BeginPush(p) =>
      if p.Batch? && p.values == [] then Accepted([])
      else if p.Batch? && |p.values| > r.cap then Refused(p)
      else Silent
    case LoadTail(seen) =>
      if TooLittleRoom(r, s.producer.push, s.head, seen) then Refused(s.producer.push) else Silent
    case StoreHead => Accepted(s.producer.vs)
    case LoadHead(seen) => if s.tail == seen then FoundEmpty else Silent
    case StoreTail => Took(s.consumer.bytes)
    case _ => Silent
  }

  /** A FIFO whose two sides may see each other late: all that was ever put in, how much of it was taken
      out, and how far each side has seen the other one's count. */
  datatype Fifo = Fifo(pushed: seq<Value>, popped: nat, tailSeen: nat, headSeen: nat) {
    predicate InOrder(cap: nat) {
      tailSeen <= popped <= headSeen <= |pushed| <= tailSeen + cap
    }
  }

  /** One atomic operation of a FIFO of at most cap values. What a side has seen never goes back. A push is
      refused exactly for too little room as far as the producer has seen, and nothing is found exactly
      when everything the consumer has seen is taken. A strict one has seen the current count: it refuses
      only when there is too little room and finds nothing only when it is empty. */
  predicate FifoStep(cap: nat, strict: bool, f: Fifo, e: Event, g: Fifo) {
    && g.InOrder(cap) && f.tailSeen <= g.tailSeen && f.headSeen <= g.headSeen
    && match e
       case Silent => g.pushed == f.pushed && g.popped == f.popped
       case Accepted(vs) => g == f.(pushed := f.pushed + vs)
       case Refused(p) =>
         && g == f.(tailSeen := g.tailSeen)
         && |f.pushed| + |p.All()| > g.tailSeen + cap
         && (strict ==> |f.pushed| - f.popped + |p.All()| > cap)
       case Took(v) =>
         f.popped < f.headSeen <= |f.pushed| && v == f.pushed[f.popped] && g == f.(popped := f.popped + 1)
       case FoundEmpty =>
         && g == f.(headSeen := g.headSeen)
         && g.headSeen == f.popped
         && (strict ==> f.popped == |f.pushed|)
  }

  /** The load of this step, if it has one, returned the counter's current value. */
  predicate Fresh(s: State, l: Label) {
    (l.LoadTail? ==> l.seen == s.tail) && (l.LoadHead? ==> l.seen == s.head)
  }

  function FifoOf(s: State): Fifo {
    Fifo(s.pushed, s.tail, s.cachedTail, s.cachedHead)
  }

  /** Each step is one operation of the FIFO, and the step that ends a call is the only one of the
      call that is an event: a batch appears whole at its one store or not at all. */
  lemma StepRefinesFifo(r: Ring, s: State, l: Label)
    requires Inv(r, s) && Enabled(r, s, l)
    ensures Inv(r, Next(r, s, l))
    ensures FifoStep(r.cap, Fresh(s, l), FifoOf(s), EventOf(r, s, l), FifoOf(Next(r, s, l)))
    ensures EventOf(r, s, l).Accepted? || EventOf(r, s, l).Refused?
       <==> l.ByProducer() && Next(r, s, l).producer.ProducerIdle?
    ensures EventOf(r, s, l).Took? || EventOf(r, s, l).FoundEmpty?
       <==> !l.ByProducer() && Next(r, s, l).consumer.ConsumerIdle?
  {
    StepKeepsInv(r, s, l);
    if l.ByProducer() {
      PushRefinesFifo(r, s, l);
    } else {
      PopRefinesFifo(r, s, l);
    }
  }

  lemma PushRefinesFifo(r: Ring, s: State, l: Label)
    requires Inv(r, s) && Enabled(r, s, l) && l.ByProducer() && Ordered(r, Next(r, s, l))
    requires |Next(r, s, l).pushed| == Next(r, s, l).head
    ensures FifoStep(r.cap, Fresh(s, l), FifoOf(s), EventOf(r, s, l), FifoOf(Next(r, s, l)))
    ensures EventOf(r, s, l).Accepted? || EventOf(r, s, l).Refused? <==> Next(r, s, l).producer.ProducerIdle?
    ensures !EventOf(r, s, l).Took? && !EventOf(r, s, l).FoundEmpty?
  {
    assert s.pushed + [] == s.pushed;
  }

  lemma PopRefinesFifo(r: Ring, s: State, l: Label)
    requires Inv(r, s) && Enabled(r, s, l) && !l.ByProducer() && Ordered(r, Next(r, s, l))
    requires |Next(r, s, l).pushed| == Next(r, s, l).head
    ensures FifoStep(r.cap, Fresh(s, l), FifoOf(s), EventOf(r, s, l), FifoOf(Next(r, s, l)))
    ensures EventOf(r, s, l).Took? || EventOf(r, s, l).FoundEmpty? <==> Next(r, s, l).consumer.ConsumerIdle?
    ensures !EventOf(r, s, l).Accepted? && !EventOf(r, s, l).Refused?
  {
    if l.StoreTail? {
      TakenIsOldest(r, s);
    }
  }

  lemma TakenIsOldest(r: Ring, s: State)
    requires Inv(r, s) && Enabled(r, s, StoreTail)
    ensures s.tail < |s.pushed| && s.consumer.bytes == s.pushed[s.tail]
  {
    var slot := s.slots[Slot(r, s.tail)];
    assert slot[..r.size] == slot;
  }

  /** The events of a run, each with whether its load was fresh. */
  ghost function Events(r: Ring, s: State, ls: seq<Label>, t: State): seq<(bool, Event)>
    requires Runs(r, s, ls, t)
    decreases |ls|
  {
    if ls == [] then []
    else [(Fresh(s, ls[0]), EventOf(r, s, ls[0]))] + Events(r, Next(r, s, ls[0]), ls[1..], t)
  }

  /** The events es, done one at a time, take the FIFO f to g. */
  ghost predicate FifoRuns(cap: nat, f: Fifo, es: seq<(bool, Event)>, g: Fifo)
    decreases |es|
  {
    if es == [] then g == f
    else exists h :: FifoStep(cap, es[0].0, f, es[0].1, h) && FifoRuns(cap, h, es[1..], g)
  }

  /** Every run of the ring is, event by event, a run of the bounded FIFO. */
  lemma {:induction false} RunRefinesFifo(r: Ring, s: State, ls: seq<Label>, t: State)
    requires Inv(r, s) && Runs(r, s, ls, t)
    ensures Inv(r, t)
    ensures FifoRuns(r.cap, FifoOf(s), Events(r, s, ls, t), FifoOf(t))
    decreases |ls|
  {
    if ls != [] {
      var s' := Next(r, s, ls[0]);
      StepRefinesFifo(r, s, ls[0]);
      RunRefinesFifo(r, s', ls[1..], t);
      var es := Events(r, s, ls, t);
      assert es[1..] == Events(r, s', ls[1..], t);
      assert FifoStep(r.cap, es[0].0, FifoOf(s), es[0].1, FifoOf(s'));
    }
  }

  /** The events alone. */
  function Plain(es: seq<(bool, Event)>): (ps: seq<Event>)
    ensures |ps| == |es|
  {
    if es == [] then [] else [es[0].1] + Plain(es[1..])
  }

  /** The values the events put in, and those they hand out, in order. */
  function PutIn(es: seq<Event>): seq<Value> {
    if es == [] then [] else (if es[0].Accepted? then es[0].values else []) + PutIn(es[1..])
  }

  function HandedOut(es: seq<Event>): seq<Value> {
    if es == [] then [] else (if es[0].Took? then [es[0].value] else []) + HandedOut(es[1..])
  }

  lemma Associative(a: seq<Value>, b: seq<Value>, c: seq<Value>)
    ensures a + b + c == a + (b + c)
  {
  }

  /** The histories of a run grow by what its events put in and hand out. */
  lemma {:induction false} EventsAreTheHistory(r: Ring, s: State, ls: seq<Label>, t: State)
    requires Runs(r, s, ls, t)
    ensures
      var es := Plain(Events(r, s, ls, t));
      t.pushed == s.pushed + PutIn(es) && t.popped == s.popped + HandedOut(es)
    decreases |ls|
  {
    if ls == [] {
      assert s.pushed + [] == s.pushed && s.popped + [] == s.popped;
    } else {
      var s', es := Next(r, s, ls[0]), Events(r, s, ls, t);
      EventsAreTheHistory(r, s', ls[1..], t);
      assert es[1..] == Events(r, s', ls[1..], t);
      EventGrowsHistory(r, s, ls[0]);
      FirstEvent(EventOf(r, s, ls[0]), Plain(es[1..]), s, s');
    }
  }

  lemma EventGrowsHistory(r: Ring, s: State, l: Label)
    requires WellFormed(r, s) && Enabled(r, s, l)
    ensures
      var e, t := EventOf(r, s, l), Next(r, s, l);
      && t.pushed == s.pushed + (if e.Accepted? then e.values else [])
      && t.popped == s.popped + (if e.Took? then [e.value] else [])
  {
  }

  lemma FirstEvent(e: Event, es: seq<Event>, s: State, t: State)
    requires t.pushed == s.pushed + (if e.Accepted? then e.values else [])
    requires t.popped == s.popped + (if e.Took? then [e.value] else [])
    ensures s.pushed + PutIn([e] + es) == t.pushed + PutIn(es)
    ensures s.popped + HandedOut([e] + es) == t.popped + HandedOut(es)
  {
    assert ([e] + es)[1..] == es;
    Associative(s.pushed, if e.Accepted? then e.values else [], PutIn(es));
    Associative(s.popped, if e.Took? then [e.value] else [], HandedOut(es));
  }

  // ---------------------------------------------------------------- wait freedom

  /** How many of its own steps the producer still needs to finish its call. */
  function ProducerRank(r: Ring, s: State): int {
    match s.producer
    case ProducerIdle => 0
    case RefreshTail(p) => 2 + |p.All()| * r.size
    case Copying(vs, i, j) => 1 + (|vs| - i) * r.size - j
  }

  function ConsumerRank(r: Ring, s: State): int {
    match s.consumer
    case ConsumerIdle => 0
    case RefreshHead => 2 + r.size
    case Reading(bytes) => 1 + r.size - |bytes|
  }

  /** The step a producer inside a call can take now, whatever the consumer is doing. */
  function ProducerMove(s: State): Label {
    match s.producer
    case RefreshTail(_) => LoadTail(s.tail)
    case Copying(vs, i, _) => if i < |vs| then CopyByte else StoreHead
    case ProducerIdle => BeginPush(Batch([]))
  }

  function ConsumerMove(r: Ring, s: State): Label {
    match s.consumer
    case RefreshHead => LoadHead(s.head)
    case Reading(bytes) => if |bytes| < r.size then ReadByte else StoreTail
    case ConsumerIdle => BeginPop
  }

  /** Neither thread ever waits: inside a call it always has a step to take. */
  lemma NeverBlocked(r: Ring, s: State)
    requires Inv(r, s)
    ensures Enabled(r, s, ProducerMove(s)) && ProducerMove(s).ByProducer()
    ensures Enabled(r, s, ConsumerMove(r, s)) && !ConsumerMove(r, s).ByProducer()
  {
  }

  /** A push is at most two loads or stores and one byte copy per byte: each step of the producer
      brings its end nearer, and no step of the consumer takes it further away. */
  lemma PushIsWaitFree(r: Ring, s: State, l: Label)
    requires Inv(r, s) && Enabled(r, s, l)
    ensures l.BeginPush? ==> ProducerRank(r, Next(r, s, l)) <= 2 + r.cap * r.size
    ensures l.ByProducer() && !l.BeginPush? ==> 0 <= ProducerRank(r, Next(r, s, l)) < ProducerRank(r, s)
    ensures !l.ByProducer() ==> ProducerRank(r, Next(r, s, l)) == ProducerRank(r, s)
  {
    match l {
      case BeginPush(p) => BeginPushRank(r, s, p);
      case LoadTail(seen) => LoadTailRank(r, s, seen);
      case CopyByte => CopyByteRank(r, s);
      case _ =>
    }
  }

  lemma BeginPushRank(r: Ring, s: State, p: Push)
    requires WellFormed(r, s) && Enabled(r, s, BeginPush(p))
    ensures ProducerRank(r, Next(r, s, BeginPush(p))) <= 2 + r.cap * r.size
  {
    if |p.All()| <= r.cap { CopiesInOrder(|p.All()|, r.cap, r.size); }
  }

  lemma LoadTailRank(r: Ring, s: State, seen: nat)
    requires WellFormed(r, s) && Enabled(r, s, LoadTail(seen))
    ensures 0 <= ProducerRank(r, Next(r, s, LoadTail(seen))) < ProducerRank(r, s)
  {
    CopiesInOrder(0, |s.producer.push.All()|, r.size);
  }

  lemma CopyByteRank(r: Ring, s: State)
    requires WellFormed(r, s) && Enabled(r, s, CopyByte)
    ensures 0 <= ProducerRank(r, Next(r, s, CopyByte)) < ProducerRank(r, s)
  {
    CopyRankFalls(|s.producer.vs|, s.producer.i, r.size);
  }

  lemma CopiesInOrder(a: nat, b: nat, size: nat)
    requires a <= b
    ensures 0 <= a * size <= b * size
  {
  }

  lemma CopyRankFalls(count: nat, i: nat, size: nat)
    requires i < count
    ensures (count - i) * size == (count - (i + 1)) * size + size >= size
  {
  }

  lemma PopIsWaitFree(r: Ring, s: State, l: Label)
    requires Inv(r, s) && Enabled(r, s, l)
    ensures l.BeginPop? ==> ConsumerRank(r, Next(r, s, l)) <= 2 + r.size
    ensures !l.ByProducer() && !l.BeginPop? ==> 0 <= ConsumerRank(r, Next(r, s, l)) < ConsumerRank(r, s)
    ensures l.ByProducer() ==> ConsumerRank(r, Next(r, s, l)) == ConsumerRank(r, s)
  {
  }
}
