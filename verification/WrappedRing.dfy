/** The ring as the machine runs it: 64-bit counters that wrap, a mask in place of a remainder, and
    unsigned subtraction. It takes exactly the steps of the ring with unbounded counters. */
module WrappedRing {
  import opened Words
  import opened RingProtocol
  import opened RingSafety

  datatype Machine = Machine(
    head: uint64, cachedTail: uint64, tail: uint64, cachedHead: uint64, slots: seq<Value>,
    producer: ProducerPc, consumer: ConsumerPc)

  /** What the machine holds of a state with unbounded counters. */
  function Abs(s: State): Machine {
    Machine(Wrap(s.head), Wrap(s.cachedTail), Wrap(s.tail), Wrap(s.cachedHead), s.slots, s.producer, s.consumer)
  }

  /** The capacity has a single bit set, as the ring's concept asks. */
  ghost predicate PowerOfTwo(r: Ring) {
    r.size > 0 && exists k | 0 <= k < 64 :: r.cap == Pow2(k)
  }

  /** The slot for a counter: its low bits. */
  function MaskedSlot(r: Ring, counter: uint64): (k: nat)
    requires r.cap > 0
    ensures k < r.cap
  {
    BitAnd(counter, r.cap - 1)
  }

  /** The mask of a wrapped counter selects the slot of the counter itself. */
  lemma MaskSelectsSlot(r: Ring, counter: nat)
    requires PowerOfTwo(r)
    ensures r.cap > 0 && MaskedSlot(r, Wrap(counter)) == Slot(r, counter)
  {
    var k :| 0 <= k < 64 && r.cap == Pow2(k);
    MaskIsRemainder(Wrap(counter), k);
    WrapKeepsRemainder(counter, k);
  }

  lemma CapacityFits(r: Ring)
    requires PowerOfTwo(r)
    ensures 0 < r.cap < TWO_TO_64
  {
    var k :| 0 <= k < 64 && r.cap == Pow2(k);
    PowerFits(k);
  }

  predicate MachineTooLittleRoom(r: Ring, push: Push, head: uint64, cachedTail: uint64) {
    match push
    case Single(_) => Wrap(head - cachedTail) == r.cap
    case Batch(vs) => |vs| > Wrap(r.cap - Wrap(head - cachedTail))
  }

  /** The room test of the machine is the room test, and its subtraction never goes below zero. */
  lemma RoomTestAgrees(r: Ring, push: Push, head: nat, cachedTail: nat)
    requires PowerOfTwo(r) && cachedTail <= head <= cachedTail + r.cap
    ensures MachineTooLittleRoom(r, push, Wrap(head), Wrap(cachedTail)) <==> TooLittleRoom(r, push, head, cachedTail)
    ensures 0 <= r.cap - Wrap(Wrap(head) - Wrap(cachedTail)) < TWO_TO_64
  {
    CapacityFits(r);
    WrappedDistance(head, cachedTail);
  }

  ghost predicate MachineWellFormed(r: Ring, w: Machine) {
    && r.cap > 0 && r.size > 0 && |w.slots| == r.cap
    && forall k | 0 <= k < r.cap :: |w.slots[k]| == r.size
  }

  /** w lies between lo and hi, going up from lo and possibly through the wrap. */
  predicate Between(lo: uint64, w: uint64, hi: uint64) {
    Wrap(w - lo) <= Wrap(hi - lo)
  }

  ghost predicate MachineEnabled(r: Ring, w: Machine, l: Label) {
    match l
    case BeginPush(p) => w.producer.ProducerIdle? && forall v | v in p.All() :: |v| == r.size
    case LoadTail(seen) => w.producer.RefreshTail? && seen < TWO_TO_64 && Between(w.cachedTail, seen, w.tail)
    case CopyByte =>
      w.producer.Copying? && w.producer.i < |w.producer.vs| && w.producer.j < |w.producer.vs[w.producer.i]|
      && w.producer.j < r.size
    case StoreHead => w.producer.Copying? && w.producer.i == |w.producer.vs|
    case BeginPop => w.consumer.ConsumerIdle?
    case LoadHead(seen) => w.consumer.RefreshHead? && seen < TWO_TO_64 && Between(w.cachedHead, seen, w.head)
    case ReadByte => w.consumer.Reading? && |w.consumer.bytes| < r.size
    case StoreTail => w.consumer.Reading? && |w.consumer.bytes| == r.size
  }

  ghost function MachineNext(r: Ring, w: Machine, l: Label): Machine
    requires MachineWellFormed(r, w) && MachineEnabled(r, w, l)
  {
    match l
    case BeginPush(p) =>
      if p.Batch? && (p.values == [] || |p.values| > r.cap) then w
      else if MachineTooLittleRoom(r, p, w.head, w.cachedTail) then w.(producer := RefreshTail(p))
      else w.(producer := Copying(p.All(), 0, 0))
    case LoadTail(seen) =>
      if MachineTooLittleRoom(r, w.producer.push, w.head, seen)
      then w.(cachedTail := seen, producer := ProducerIdle)
      else w.(cachedTail := seen, producer := Copying(w.producer.push.All(), 0, 0))
    case CopyByte =>
      var Copying(vs, i, j) := w.producer;
      var k := MaskedSlot(r, Wrap(w.head + i));
      w.(slots := w.slots[k := w.slots[k][j := vs[i][j]]], producer := AfterByte(r, vs, i, j))
    case StoreHead =>
      w.(head := Wrap(w.head + |w.producer.vs|), producer := ProducerIdle)
    case BeginPop =>
      w.(consumer := if w.tail == w.cachedHead then RefreshHead else Reading([]))
    case LoadHead(seen) =>
      w.(cachedHead := seen, consumer := if w.tail == seen then ConsumerIdle else Reading([]))
    case ReadByte =>
      var bytes := w.consumer.bytes;
      w.(consumer := Reading(bytes + [w.slots[MaskedSlot(r, w.tail)][|bytes|]]))
    case StoreTail =>
      w.(tail := Wrap(w.tail + 1), consumer := ConsumerIdle)
  }

  // ---------------------------------------------------------------- the two machines agree

  /** The unbounded step a step of the machine stands for: a loaded counter is the one nearest above
      the private copy. */
  function Lift(s: State, l: Label): Label {
    match l
    case LoadTail(seen) => LoadTail(s.cachedTail + Wrap(seen - Wrap(s.cachedTail)))
    case LoadHead(seen) => LoadHead(s.cachedHead + Wrap(seen - Wrap(s.cachedHead)))
    case _ => l
  }

  /** The machine's step for an unbounded step. */
  function Drop(l: Label): Label {
    match l
    case LoadTail(seen) => LoadTail(Wrap(seen))
    case LoadHead(seen) => LoadHead(Wrap(seen))
    case _ => l
  }

  lemma LiftedCounter(lo: nat, w: nat)
    requires w < TWO_TO_64
    ensures Wrap(lo + Wrap(w - Wrap(lo))) == w
  {
  }

  lemma BetweenIsOrder(lo: nat, x: nat, hi: nat)
    requires lo <= x && lo <= hi && x - lo < TWO_TO_64 && hi - lo < TWO_TO_64
    ensures Between(Wrap(lo), Wrap(x), Wrap(hi)) <==> x <= hi
  {
    WrappedDistance(x, lo);
    WrappedDistance(hi, lo);
  }

  lemma BeginPushDrops(r: Ring, s: State, l: Label)
    requires PowerOfTwo(r) && WellFormed(r, s) && Ordered(r, s) && Enabled(r, s, l) && l.BeginPush?
    ensures MachineWellFormed(r, Abs(s)) && MachineEnabled(r, Abs(s), Drop(l))
    ensures MachineNext(r, Abs(s), Drop(l)) == Abs(Next(r, s, l))
  {
    RoomTestAgrees(r, l.push, s.head, s.cachedTail);
  }

  lemma LoadTailDrops(r: Ring, s: State, l: Label)
    requires PowerOfTwo(r) && WellFormed(r, s) && Ordered(r, s) && Enabled(r, s, l) && l.LoadTail?
    ensures MachineWellFormed(r, Abs(s)) && MachineEnabled(r, Abs(s), Drop(l))
    ensures MachineNext(r, Abs(s), Drop(l)) == Abs(Next(r, s, l))
  {
    CapacityFits(r);
    BetweenIsOrder(s.cachedTail, l.seen, s.tail);
    RoomTestAgrees(r, s.producer.push, s.head, l.seen);
  }

  lemma CopyByteDrops(r: Ring, s: State, l: Label)
    requires PowerOfTwo(r) && WellFormed(r, s) && Ordered(r, s) && Enabled(r, s, l) && l.CopyByte?
    ensures MachineWellFormed(r, Abs(s)) && MachineEnabled(r, Abs(s), Drop(l))
    ensures MachineNext(r, Abs(s), Drop(l)) == Abs(Next(r, s, l))
  {
    assert l == CopyByte;
    CopySlotDrops(r, s);
    CopyStepDrops(r, s);
  }

  lemma CopyStepDrops(r: Ring, s: State)
    requires WellFormed(r, s) && Enabled(r, s, CopyByte)
    requires MaskedSlot(r, Wrap(Abs(s).head + s.producer.i)) == Slot(r, s.head + s.producer.i)
    ensures MachineWellFormed(r, Abs(s)) && MachineEnabled(r, Abs(s), CopyByte)
    ensures MachineNext(r, Abs(s), CopyByte) == Abs(Next(r, s, CopyByte))
  {
  }

  lemma CopySlotDrops(r: Ring, s: State)
    requires PowerOfTwo(r) && s.producer.Copying?
    ensures r.cap > 0
    ensures MaskedSlot(r, Wrap(Abs(s).head + s.producer.i)) == Slot(r, s.head + s.producer.i)
  {
    MaskSelectsSlot(r, s.head + s.producer.i);
    WrappedSum(s.head, s.producer.i);
  }

  lemma StoreHeadDrops(r: Ring, s: State, l: Label)
    requires PowerOfTwo(r) && WellFormed(r, s) && Ordered(r, s) && Enabled(r, s, l) && l.StoreHead?
    ensures MachineWellFormed(r, Abs(s)) && MachineEnabled(r, Abs(s), Drop(l))
    ensures MachineNext(r, Abs(s), Drop(l)) == Abs(Next(r, s, l))
  {
    WrappedSum(s.head, |s.producer.vs|);
  }

  lemma BeginPopDrops(r: Ring, s: State, l: Label)
    requires PowerOfTwo(r) && WellFormed(r, s) && Ordered(r, s) && Enabled(r, s, l) && l.BeginPop?
    ensures MachineWellFormed(r, Abs(s)) && MachineEnabled(r, Abs(s), Drop(l))
    ensures MachineNext(r, Abs(s), Drop(l)) == Abs(Next(r, s, l))
  {
    CapacityFits(r);
    WrappedEqual(s.cachedHead, s.tail);
  }

  lemma LoadHeadDrops(r: Ring, s: State, l: Label)
    requires PowerOfTwo(r) && WellFormed(r, s) && Ordered(r, s) && Enabled(r, s, l) && l.LoadHead?
    ensures MachineWellFormed(r, Abs(s)) && MachineEnabled(r, Abs(s), Drop(l))
    ensures MachineNext(r, Abs(s), Drop(l)) == Abs(Next(r, s, l))
  {
    CapacityFits(r);
    BetweenIsOrder(s.cachedHead, l.seen, s.head);
    WrappedEqual(l.seen, s.tail);
  }

  lemma ReadDrops(r: Ring, s: State, l: Label)
    requires PowerOfTwo(r) && WellFormed(r, s) && Ordered(r, s) && Enabled(r, s, l) && (l.ReadByte? || l.StoreTail?)
    ensures MachineWellFormed(r, Abs(s)) && MachineEnabled(r, Abs(s), Drop(l))
    ensures MachineNext(r, Abs(s), Drop(l)) == Abs(Next(r, s, l))
  {
    MaskSelectsSlot(r, s.tail);
    WrappedSum(s.tail, 1);
  }

  /** Every step of the ring with unbounded counters is a step of the machine. */
  lemma StepDrops(r: Ring, s: State, l: Label)
    requires PowerOfTwo(r) && WellFormed(r, s) && Ordered(r, s) && Enabled(r, s, l)
    ensures MachineWellFormed(r, Abs(s)) && MachineEnabled(r, Abs(s), Drop(l))
    ensures MachineNext(r, Abs(s), Drop(l)) == Abs(Next(r, s, l))
  {
    match l {
      case BeginPush(_) => BeginPushDrops(r, s, l);
      case LoadTail(_) => LoadTailDrops(r, s, l);
      case CopyByte => CopyByteDrops(r, s, l);
      case StoreHead => StoreHeadDrops(r, s, l);
      case BeginPop => BeginPopDrops(r, s, l);
      case LoadHead(_) => LoadHeadDrops(r, s, l);
      case ReadByte | StoreTail => ReadDrops(r, s, l);
    }
  }

  /** Every step of the machine is a step of the ring with unbounded counters. */
  lemma StepLifts(r: Ring, s: State, l: Label)
    requires PowerOfTwo(r) && WellFormed(r, s) && Ordered(r, s) && MachineEnabled(r, Abs(s), l)
    ensures MachineWellFormed(r, Abs(s)) && Enabled(r, s, Lift(s, l))
    ensures MachineNext(r, Abs(s), l) == Abs(Next(r, s, Lift(s, l)))
  {
    LiftIsEnabled(r, s, l);
    StepDrops(r, s, Lift(s, l));
  }

  lemma LiftIsEnabled(r: Ring, s: State, l: Label)
    requires PowerOfTwo(r) && WellFormed(r, s) && Ordered(r, s) && MachineEnabled(r, Abs(s), l)
    ensures Enabled(r, s, Lift(s, l)) && Drop(Lift(s, l)) == l
  {
    CapacityFits(r);
    match l {
      case LoadTail(seen) => LiftedLoad(s.cachedTail, seen, s.tail);
      case LoadHead(seen) => LiftedLoad(s.cachedHead, seen, s.head);
      case _ =>
    }
  }

  /** The counter nearest above lo that wraps to w is at most hi when w is between lo and hi. */
  lemma LiftedLoad(lo: nat, w: uint64, hi: nat)
    requires lo <= hi < lo + TWO_TO_64 && Between(Wrap(lo), w, Wrap(hi))
    ensures Wrap(lo + Wrap(w - Wrap(lo))) == w && lo + Wrap(w - Wrap(lo)) <= hi
  {
    LiftedCounter(lo, w);
    BetweenIsOrder(lo, lo + Wrap(w - Wrap(lo)), hi);
  }

  // ---------------------------------------------------------------- runs of the machine

  ghost predicate MachineRuns(r: Ring, w: Machine, ls: seq<Label>, t: Machine)
    decreases |ls|
  {
    if ls == [] then t == w
    else
      && MachineWellFormed(r, w) && MachineEnabled(r, w, ls[0])
      && MachineRuns(r, MachineNext(r, w, ls[0]), ls[1..], t)
  }

  /** What a step of the machine means to the callers, told from the machine alone. */
  ghost function MachineEventOf(r: Ring, w: Machine, l: Label): Event
    requires MachineWellFormed(r, w) && MachineEnabled(r, w, l)
  {
    match l
    case BeginPush(p) =>
      if p.Batch? && p.values == [] then Accepted([])
      else if p.Batch? && |p.values| > r.cap then Refused(p)
      else Silent
    case LoadTail(seen) =>
      if MachineTooLittleRoom(r, w.producer.push, w.head, seen) then Refused(w.producer.push) else Silent
    case StoreHead => Accepted(w.producer.vs)
    case LoadHead(seen) => if w.tail == seen then FoundEmpty else Silent
    case StoreTail => Took(w.consumer.bytes)
    case _ => Silent
  }

  /** The load of this step, if it has one, returned the counter's current value. */
  predicate MachineFresh(w: Machine, l: Label) {
    (l.LoadTail? ==> l.seen == w.tail) && (l.LoadHead? ==> l.seen == w.head)
  }

  /** The events of a run of the machine, each with whether its load was fresh. */
  ghost function MachineEvents(r: Ring, w: Machine, ls: seq<Label>, t: Machine): seq<(bool, Event)>
    requires MachineRuns(r, w, ls, t)
    decreases |ls|
  {
    if ls == [] then []
    else
      [(MachineFresh(w, ls[0]), MachineEventOf(r, w, ls[0]))]
      + MachineEvents(r, MachineNext(r, w, ls[0]), ls[1..], t)
  }

  lemma EventLifts(r: Ring, s: State, l: Label)
    requires PowerOfTwo(r) && WellFormed(r, s) && Ordered(r, s) && MachineEnabled(r, Abs(s), l)
    requires MachineWellFormed(r, Abs(s)) && Enabled(r, s, Lift(s, l)) && Drop(Lift(s, l)) == l
    ensures MachineEventOf(r, Abs(s), l) == EventOf(r, s, Lift(s, l))
    ensures MachineFresh(Abs(s), l) == Fresh(s, Lift(s, l))
  {
    CapacityFits(r);
    match l {
      case LoadTail(seen) =>
        RoomTestAgrees(r, s.producer.push, s.head, Lift(s, l).seen);
        WrappedEqual(s.tail, Lift(s, l).seen);
      case LoadHead(seen) =>
        WrappedEqual(Lift(s, l).seen, s.tail);
        WrappedEqual(s.head, Lift(s, l).seen);
      case _ =>
    }
  }

  /** The labels us stand, one by one, for the machine's labels ls. */
  ghost predicate StandFor(us: seq<Label>, ls: seq<Label>) {
    |us| == |ls| && forall i | 0 <= i < |ls| :: Drop(us[i]) == ls[i]
  }

  /** Every run of the machine, through any number of wraps, shadows a run with unbounded counters: label
      by label and event by event. */
  lemma {:induction false} RunLifts(r: Ring, s: State, ls: seq<Label>, t: Machine) returns (us: seq<Label>, u: State)
    requires PowerOfTwo(r) && Inv(r, s) && MachineRuns(r, Abs(s), ls, t)
    ensures Runs(r, s, us, u) && Inv(r, u) && Abs(u) == t && StandFor(us, ls)
    ensures Events(r, s, us, u) == MachineEvents(r, Abs(s), ls, t)
    decreases |ls|
  {
    if ls == [] {
      us, u := [], s;
    } else {
      var l := Lift(s, ls[0]);
      StepLifts(r, s, ls[0]);
      LiftIsEnabled(r, s, ls[0]);
      EventLifts(r, s, ls[0]);
      StepKeepsInv(r, s, l);
      var vs;
      vs, u := RunLifts(r, Next(r, s, l), ls[1..], t);
      us := OneMoreLifted(r, s, l, vs, u);
    }
  }

  /** One more step in front of a run. */
  lemma OneMoreLifted(r: Ring, s: State, l: Label, vs: seq<Label>, u: State) returns (us: seq<Label>)
    requires WellFormed(r, s) && Enabled(r, s, l) && Runs(r, Next(r, s, l), vs, u)
    ensures us == [l] + vs && Runs(r, s, us, u)
    ensures Events(r, s, us, u) == [(Fresh(s, l), EventOf(r, s, l))] + Events(r, Next(r, s, l), vs, u)
  {
    us := [l] + vs;
    assert us[1..] == vs;
  }

  /** The run with unbounded counters that a run of the machine from the start shadows. */
  lemma MachineRunLifts(r: Ring, ls: seq<Label>, w: Machine) returns (us: seq<Label>, u: State)
    requires PowerOfTwo(r) && MachineRuns(r, Abs(Init(r)), ls, w)
    ensures Runs(r, Init(r), us, u) && Inv(r, u) && Abs(u) == w && StandFor(us, ls)
    ensures Events(r, Init(r), us, u) == MachineEvents(r, Abs(Init(r)), ls, w)
  {
    CapacityFits(r);
    InitKeepsInv(r);
    us, u := RunLifts(r, Init(r), ls, w);
  }

  /** The machine never has both threads in one slot, and its indices stay inside the slots. */
  lemma MachineRunIsSafe(r: Ring, ls: seq<Label>, w: Machine)
    requires PowerOfTwo(r) && MachineRuns(r, Abs(Init(r)), ls, w)
    ensures MachineWellFormed(r, w)
    ensures w.producer.Copying? && w.producer.i < |w.producer.vs| && w.consumer.Reading? ==>
      MaskedSlot(r, Wrap(w.head + w.producer.i)) != MaskedSlot(r, w.tail)
  {
    var u := MachineShadow(r, ls, w);
    ShadowIsSafe(r, u);
  }

  lemma MachineShadow(r: Ring, ls: seq<Label>, w: Machine) returns (u: State)
    requires PowerOfTwo(r) && MachineRuns(r, Abs(Init(r)), ls, w)
    ensures Inv(r, u) && Abs(u) == w
  {
    var us;
    us, u := MachineRunLifts(r, ls, w);
  }

  /** What the machine has handed out is the start of what was put in, and the rest fits the ring. */
  lemma MachineHandsOutWhatWasPutIn(r: Ring, ls: seq<Label>, w: Machine)
    requires PowerOfTwo(r) && MachineRuns(r, Abs(Init(r)), ls, w)
    ensures
      var es := Plain(MachineEvents(r, Abs(Init(r)), ls, w));
      HandedOut(es) <= PutIn(es) && |PutIn(es)| <= |HandedOut(es)| + r.cap
  {
    var us, u := MachineRunLifts(r, ls, w);
    EventsAreTheHistory(r, Init(r), us, u);
    var es := Plain(MachineEvents(r, Abs(Init(r)), ls, w));
    assert [] + PutIn(es) == PutIn(es) && [] + HandedOut(es) == HandedOut(es);
    assert u.popped == u.pushed[..u.tail];
  }

  /** Event by event, a run of the machine is a run of the bounded FIFO: strict at every load that returned
      the machine's current counter. */
  lemma MachineRefinesFifo(r: Ring, ls: seq<Label>, w: Machine) returns (f: Fifo)
    requires PowerOfTwo(r) && MachineRuns(r, Abs(Init(r)), ls, w)
    ensures FifoRuns(r.cap, Fifo([], 0, 0, 0), MachineEvents(r, Abs(Init(r)), ls, w), f)
    ensures Wrap(|f.pushed|) == w.head && Wrap(f.popped) == w.tail
  {
    var us, u := MachineRunLifts(r, ls, w);
    CapacityFits(r);
    InitKeepsInv(r);
    RunRefinesFifo(r, Init(r), us, u);
    f := FifoOf(u);
  }

  lemma ShadowIsSafe(r: Ring, u: State)
    requires PowerOfTwo(r) && Inv(r, u)
    ensures
      var w := Abs(u);
      && MachineWellFormed(r, w)
      && (w.producer.Copying? && w.producer.i < |w.producer.vs| && w.consumer.Reading? ==>
            MaskedSlot(r, Wrap(w.head + w.producer.i)) != MaskedSlot(r, w.tail))
  {
    InvIsExclusive(r, u);
    if u.producer.Copying? && u.producer.i < |u.producer.vs| && u.consumer.Reading? {
      ExclusiveSlots(r, u);
    }
  }

  lemma ExclusiveSlots(r: Ring, s: State)
    requires PowerOfTwo(r) && WellFormed(r, s) && Exclusive(r, s)
    requires s.producer.Copying? && s.producer.i < |s.producer.vs| && s.consumer.Reading?
    ensures MaskedSlot(r, Wrap(Wrap(s.head) + s.producer.i)) != MaskedSlot(r, Wrap(s.tail))
  {
    WrappedSum(s.head, s.producer.i);
    MaskSelectsSlot(r, s.head + s.producer.i);
    MaskSelectsSlot(r, s.tail);
  }
}
