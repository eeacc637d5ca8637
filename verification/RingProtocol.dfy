/** The single-producer, single-consumer ring as two threads see it: every load, byte copy and
    store of a push and of a pop is a step of its own, and the two threads interleave freely.

    An acquire load of the other side's counter may return any value from the last one seen up to
    the current one, which is all that coherence and the release/acquire pairs promise (C++23,
    sections 33.5.4 and 6.9.2.2). Counters are unbounded here; WrappedRing shows that 64-bit
    counters behave the same. */
module RingProtocol {
  import Words

  /** The object representation of one element. */
  type Value = seq<bv8>

  datatype Push = Single(value: Value) | Batch(values: seq<Value>) {
    function All(): seq<Value> {
      if Single? then [value] else values
    }
  }

  datatype ProducerPc =
    | ProducerIdle
    | RefreshTail(push: Push)                  // about to load the real tail
    | Copying(vs: seq<Value>, i: nat, j: nat)  // byte j of value i is next

  datatype ConsumerPc =
    | ConsumerIdle
    | RefreshHead                              // about to load the real head
    | Reading(bytes: Value)                    // the bytes copied out of the slot so far

  datatype Ring = Ring(cap: nat, size: nat)

  /** The two counters, the two private copies, the slots and both program counters, with the
      histories of values published and handed out. */
  datatype State = State(
    head: nat, cachedTail: nat, tail: nat, cachedHead: nat, slots: seq<Value>,
    producer: ProducerPc, consumer: ConsumerPc,
    pushed: seq<Value>, popped: seq<Value>)

  datatype Label =
    | BeginPush(push: Push) | LoadTail(seen: nat) | CopyByte | StoreHead
    | BeginPop | LoadHead(seen: nat) | ReadByte | StoreTail
  {
    predicate ByProducer() { BeginPush? || LoadTail? || CopyByte? || StoreHead? }
  }

  function Slot(r: Ring, counter: nat): (k: nat)
    requires r.cap > 0
    ensures k < r.cap
  {
    counter % r.cap
  }

  ghost predicate WellFormed(r: Ring, s: State) {
    && r.cap > 0 && r.size > 0
    && |s.slots| == r.cap
    && forall k | 0 <= k < r.cap :: |s.slots[k]| == r.size
  }

  function Init(r: Ring): State {
    State(0, 0, 0, 0, seq(r.cap, _ => seq(r.size, _ => 0)), ProducerIdle, ConsumerIdle, [], [])
  }

  /** The producer's own test, in the form each of the two pushes uses. */
  predicate TooLittleRoom(r: Ring, push: Push, head: nat, cachedTail: nat) {
    match push
    case Single(_) => head - cachedTail == r.cap
    case Batch(vs) => |vs| > r.cap - (head - cachedTail)
  }

  ghost predicate Enabled(r: Ring, s: State, l: Label) {
    match l
    case BeginPush(p) => s.producer.ProducerIdle? && forall v | v in p.All() :: |v| == r.size
    case LoadTail(seen) => s.producer.RefreshTail? && s.cachedTail <= seen <= s.tail
    case CopyByte =>
      s.producer.Copying? && s.producer.i < |s.producer.vs| && s.producer.j < |s.producer.vs[s.producer.i]|
      && s.producer.j < r.size
    case StoreHead => s.producer.Copying? && s.producer.i == |s.producer.vs|
    case BeginPop => s.consumer.ConsumerIdle?
    case LoadHead(seen) => s.consumer.RefreshHead? && s.cachedHead <= seen <= s.head
    case ReadByte => s.consumer.Reading? && |s.consumer.bytes| < r.size
    case StoreTail => s.consumer.Reading? && |s.consumer.bytes| == r.size
  }

  function AfterByte(r: Ring, vs: seq<Value>, i: nat, j: nat): ProducerPc {
    if j + 1 == r.size then Copying(vs, i + 1, 0) else Copying(vs, i, j + 1)
  }

  ghost function Next(r: Ring, s: State, l: Label): State
    requires WellFormed(r, s) && Enabled(r, s, l)
  {
    match l
    case BeginPush(p) =>
      if p.Batch? && (p.values == [] || |p.values| > r.cap) then s
      else if TooLittleRoom(r, p, s.head, s.cachedTail) then s.(producer := RefreshTail(p))
      else s.(producer := Copying(p.All(), 0, 0))
    case LoadTail(seen) =>
      if TooLittleRoom(r, s.producer.push, s.head, seen)
      then s.(cachedTail := seen, producer := ProducerIdle)
      else s.(cachedTail := seen, producer := Copying(s.producer.push.All(), 0, 0))
    case CopyByte =>
      var Copying(vs, i, j) := s.producer;
      var k := Slot(r, s.head + i);
      s.(slots := s.slots[k := s.slots[k][j := vs[i][j]]], producer := AfterByte(r, vs, i, j))
    case StoreHead =>
      s.(head := s.head + |s.producer.vs|, pushed := s.pushed + s.producer.vs, producer := ProducerIdle)
    case BeginPop =>
      s.(consumer := if s.tail == s.cachedHead then RefreshHead else Reading([]))
    case LoadHead(seen) =>
      s.(cachedHead := seen, consumer := if s.tail == seen then ConsumerIdle else Reading([]))
    case ReadByte =>
      var bytes := s.consumer.bytes;
      s.(consumer := Reading(bytes + [s.slots[Slot(r, s.tail)][|bytes|]]))
    case StoreTail =>
      s.(tail := s.tail + 1, popped := s.popped + [s.consumer.bytes], consumer := ConsumerIdle)
  }

  // ---------------------------------------------------------------- the invariant

  /** The order of the four counters. */
  predicate Ordered(r: Ring, s: State) {
    s.cachedTail <= s.tail <= s.cachedHead <= s.head <= s.cachedTail + r.cap
  }

  /** Every published value not yet handed back is whole in its slot. */
  ghost predicate Published(r: Ring, s: State)
    requires WellFormed(r, s)
  {
    && |s.pushed| == s.head && |s.popped| == s.tail <= s.head
    && s.popped == s.pushed[..s.tail]
    && forall n | s.tail <= n < s.head :: s.slots[Slot(r, n)] == s.pushed[n]
  }

  ghost predicate ProducerOk(r: Ring, s: State)
    requires WellFormed(r, s)
  {
    match s.producer
    case ProducerIdle => true
    case RefreshTail(p) =>
      && 1 <= |p.All()| <= r.cap && forall v | v in p.All() :: |v| == r.size
    case Copying(vs, i, j) =>
      && i <= |vs| && 1 <= |vs| && (i == |vs| ==> j == 0) && s.head + |vs| <= s.cachedTail + r.cap
      && (forall v | v in vs :: |v| == r.size)
      && (forall k | 0 <= k < i :: s.slots[Slot(r, s.head + k)] == vs[k])
      && (i < |vs| ==> j < r.size && s.slots[Slot(r, s.head + i)][..j] == vs[i][..j])
  }

  ghost predicate ConsumerOk(r: Ring, s: State)
    requires WellFormed(r, s) && Published(r, s)
  {
    s.consumer.Reading? ==>
      && s.tail < s.cachedHead <= s.head
      && |s.consumer.bytes| <= r.size
      && s.consumer.bytes == s.slots[Slot(r, s.tail)][..|s.consumer.bytes|]
  }

  ghost predicate Inv(r: Ring, s: State) {
    && WellFormed(r, s) && Ordered(r, s) && Published(r, s) && ProducerOk(r, s) && ConsumerOk(r, s)
    && (s.consumer.RefreshHead? ==> s.tail == s.cachedHead)
  }

  /** Two counters less than a capacity apart never share a slot. */
  lemma SlotsDiffer(r: Ring, a: nat, b: nat)
    requires r.cap > 0 && a < b < a + r.cap
    ensures Slot(r, a) != Slot(r, b)
  {
    Words.ResiduesDiffer(a, b, r.cap);
  }

  lemma InitKeepsInv(r: Ring)
    requires r.cap > 0 && r.size > 0
    ensures Inv(r, Init(r))
  {
  }

  lemma BeginPushKeepsInv(r: Ring, s: State, l: Label)
    requires Inv(r, s) && l.BeginPush? && Enabled(r, s, l)
    ensures Inv(r, Next(r, s, l))
  {
  }

  lemma LoadTailKeepsInv(r: Ring, s: State, l: Label)
    requires Inv(r, s) && l.LoadTail? && Enabled(r, s, l)
    ensures Inv(r, Next(r, s, l))
  {
  }

  lemma CopyByteKeepsInv(r: Ring, s: State, l: Label)
    requires Inv(r, s) && l.CopyByte? && Enabled(r, s, l)
    ensures Inv(r, Next(r, s, l))
  {
    assert l == CopyByte;
    CopyByteStepKeepsInv(r, s);
  }

  lemma CopyByteStepKeepsInv(r: Ring, s: State)
    requires Inv(r, s) && Enabled(r, s, CopyByte)
    ensures Inv(r, Next(r, s, CopyByte))
  {
    CopyByteKeepsOthers(r, s);
    CopyByteKeepsProducer(r, s);
    CopyByteKeepsCounters(r, s);
    PartsMakeInv(r, Next(r, s, CopyByte));
  }

  lemma PartsMakeInv(r: Ring, s: State)
    requires WellFormed(r, s) && Ordered(r, s) && Published(r, s) && ProducerOk(r, s) && ConsumerOk(r, s)
    requires s.consumer.RefreshHead? ==> s.tail == s.cachedHead
    ensures Inv(r, s)
  {
  }

  lemma CopyByteKeepsProducer(r: Ring, s: State)
    requires Inv(r, s) && Enabled(r, s, CopyByte)
    ensures WellFormed(r, Next(r, s, CopyByte)) && ProducerOk(r, Next(r, s, CopyByte))
  {
    CopiedUntouched(r, s);
    CopyByteKeepsBatch(r, s);
  }

  lemma CopyByteKeepsCounters(r: Ring, s: State)
    requires WellFormed(r, s) && Enabled(r, s, CopyByte) && Ordered(r, s)
    requires s.consumer.RefreshHead? ==> s.tail == s.cachedHead
    ensures
      var t := Next(r, s, CopyByte);
      Ordered(r, t) && (t.consumer.RefreshHead? ==> t.tail == t.cachedHead)
  {
  }

  /** The slot being copied into is none of those copied already. */
  ghost predicate CopiedApart(r: Ring, s: State)
    requires r.cap > 0 && s.producer.Copying?
  {
    forall n | s.head <= n < s.head + s.producer.i :: Slot(r, n) != Slot(r, s.head + s.producer.i)
  }

  lemma CopiedUntouched(r: Ring, s: State)
    requires Inv(r, s) && Enabled(r, s, CopyByte)
    ensures CopiedApart(r, s)
  {
    OthersUntouched(r, s);
  }

  lemma CopyByteKeepsBatch(r: Ring, s: State)
    requires WellFormed(r, s) && ProducerOk(r, s) && Enabled(r, s, CopyByte)
    requires CopiedApart(r, s)
    ensures WellFormed(r, Next(r, s, CopyByte)) && ProducerOk(r, Next(r, s, CopyByte))
  {
    var Copying(vs, i, j) := s.producer;
    OneMoreByte(s.slots[Slot(r, s.head + i)], vs[i], j);
  }

  lemma CopyByteKeepsOthers(r: Ring, s: State)
    requires Inv(r, s) && Enabled(r, s, CopyByte)
    ensures WellFormed(r, Next(r, s, CopyByte)) && Published(r, Next(r, s, CopyByte))
    ensures ConsumerOk(r, Next(r, s, CopyByte))
  {
    UnreadUntouched(r, s);
    CopyByteKeepsUnread(r, s);
  }

  /** The slot being copied into holds no unread value. */
  ghost predicate UnreadApart(r: Ring, s: State)
    requires r.cap > 0 && s.producer.Copying?
  {
    forall n | s.tail <= n < s.head :: Slot(r, n) != Slot(r, s.head + s.producer.i)
  }

  lemma UnreadUntouched(r: Ring, s: State)
    requires Inv(r, s) && Enabled(r, s, CopyByte)
    ensures UnreadApart(r, s)
  {
    OthersUntouched(r, s);
  }

  lemma CopyByteKeepsUnread(r: Ring, s: State)
    requires WellFormed(r, s) && Published(r, s) && ConsumerOk(r, s) && Enabled(r, s, CopyByte)
    requires UnreadApart(r, s)
    ensures WellFormed(r, Next(r, s, CopyByte)) && Published(r, Next(r, s, CopyByte))
    ensures ConsumerOk(r, Next(r, s, CopyByte))
  {
  }

  lemma OneMoreByte(was: Value, v: Value, j: nat)
    requires |was| == |v| && j < |v| && was[..j] == v[..j]
    ensures was[j := v[j]][..j + 1] == v[..j + 1]
    ensures j + 1 == |v| ==> was[j := v[j]] == v
  {
    var now := was[j := v[j]];
    assert now[..j + 1] == was[..j] + [v[j]];
    assert v[..j + 1] == v[..j] + [v[j]];
    if j + 1 == |v| {
      assert now == now[..j + 1] && v == v[..j + 1];
    }
  }

  /** The slot being copied into holds no unread value and none of the batch already copied. */
  lemma OthersUntouched(r: Ring, s: State)
    requires Inv(r, s) && s.producer.Copying? && s.producer.i < |s.producer.vs|
    ensures forall n | s.tail <= n < s.head + |s.producer.vs| && n != s.head + s.producer.i ::
              Slot(r, n) != Slot(r, s.head + s.producer.i)
  {
    var m := s.head + s.producer.i;
    forall n | s.tail <= n < s.head + |s.producer.vs| && n != m
      ensures Slot(r, n) != Slot(r, m)
    {
      if n < m { SlotsDiffer(r, n, m); } else { SlotsDiffer(r, m, n); }
    }
  }

  lemma StoreHeadKeepsInv(r: Ring, s: State, l: Label)
    requires Inv(r, s) && l.StoreHead? && Enabled(r, s, l)
    ensures Inv(r, Next(r, s, l))
  {
    BatchIsPublished(r, s);
  }

  /** The values copied are in the slots that are published with them. */
  lemma BatchIsPublished(r: Ring, s: State)
    requires Inv(r, s) && Enabled(r, s, StoreHead)
    ensures
      var t := Next(r, s, StoreHead);
      |t.pushed| == t.head && forall n | t.tail <= n < t.head :: t.slots[Slot(r, n)] == t.pushed[n]
  {
    var t := Next(r, s, StoreHead);
    forall n | t.tail <= n < t.head ensures t.slots[Slot(r, n)] == t.pushed[n] {
      if n >= s.head { assert s.slots[Slot(r, s.head + (n - s.head))] == s.producer.vs[n - s.head]; }
    }
  }

  lemma BeginPopKeepsInv(r: Ring, s: State, l: Label)
    requires Inv(r, s) && (l.BeginPop? || l.LoadHead?) && Enabled(r, s, l)
    ensures Inv(r, Next(r, s, l))
  {
  }

  lemma ReadByteKeepsInv(r: Ring, s: State, l: Label)
    requires Inv(r, s) && l.ReadByte? && Enabled(r, s, l)
    ensures Inv(r, Next(r, s, l))
  {
    var slot, n := s.slots[Slot(r, s.tail)], |s.consumer.bytes|;
    assert slot[..n + 1] == slot[..n] + [slot[n]];
  }

  lemma StoreTailKeepsInv(r: Ring, s: State, l: Label)
    requires Inv(r, s) && l.StoreTail? && Enabled(r, s, l)
    ensures Inv(r, Next(r, s, l))
  {
    var slot := s.slots[Slot(r, s.tail)];
    assert slot[..r.size] == slot == s.pushed[s.tail];
    assert s.pushed[..s.tail + 1] == s.pushed[..s.tail] + [s.pushed[s.tail]];
  }

  lemma StepKeepsInv(r: Ring, s: State, l: Label)
    requires Inv(r, s) && Enabled(r, s, l)
    ensures Inv(r, Next(r, s, l))
  {
    match l
    case BeginPush(_) => BeginPushKeepsInv(r, s, l);
    case LoadTail(_) => LoadTailKeepsInv(r, s, l);
    case CopyByte => CopyByteKeepsInv(r, s, l);
    case StoreHead => StoreHeadKeepsInv(r, s, l);
    case BeginPop | LoadHead(_) => BeginPopKeepsInv(r, s, l);
    case ReadByte => ReadByteKeepsInv(r, s, l);
    case StoreTail => StoreTailKeepsInv(r, s, l);
  }
}
