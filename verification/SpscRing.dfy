/** The ring as an object: wrapping counters, private copies, masked slots, updated in place. Seen
    from one thread at a time every refresh load returns the current counter, so a call either does
    all of its work or nothing. RingProtocol lets two threads interleave inside the calls. */
module SpscRing {
  import opened Words
  import opened Wrappers

  class SpscRing<T(0)> {
    const capacity: nat
    ghost const bits: nat

    // The producer's counter and copy, then the consumer's.
    var head: uint64
    var cachedTail: uint64
    var tail: uint64
    var cachedHead: uint64
    const slots: array<T>

    // The counters as they would be without wrapping.
    ghost var pushes: nat
    ghost var pops: nat
    ghost var knownPops: nat
    ghost var knownPushes: nat

    ghost predicate Valid()
      reads this, slots
    {
      && bits < 64 && capacity == Pow2(bits) && capacity < TWO_TO_64 && slots.Length == capacity
      && head == Wrap(pushes) && tail == Wrap(pops)
      && cachedTail == Wrap(knownPops) && cachedHead == Wrap(knownPushes)
      && knownPops <= pops <= knownPushes <= pushes <= knownPops + capacity
    }

    /** The values held, oldest first. */
    ghost function Contents(): (c: seq<T>)
      requires Valid()
      reads this, slots
    {
      Window(slots[..], pops, pushes - pops)
    }

    /** Create an empty ring. The capacity is a power of two that a 64-bit size can hold. */
    constructor (capacity: nat, ghost bits: nat)
      requires bits < 64 && capacity == Pow2(bits)
      ensures Valid() && fresh(slots)
      ensures this.capacity == capacity && Contents() == []
    {
      this.capacity, this.bits := capacity, bits;
      head, cachedTail, tail, cachedHead := 0, 0, 0, 0;
      pushes, pops, knownPops, knownPushes := 0, 0, 0, 0;
      slots := new T[capacity];
      new;
      PowerFits(bits);
    }

    /** The slot for a counter. */
    function Slot(counter: uint64): (k: nat)
      requires capacity > 0
      ensures k < capacity
    {
      BitAnd(counter, capacity - 1)
    }

    lemma SlotOf(counter: nat)
      requires bits < 64 && capacity == Pow2(bits)
      ensures Slot(Wrap(counter)) == counter % capacity
    {
      MaskIsRemainder(Wrap(counter), bits);
      WrapKeepsRemainder(counter, bits);
    }

    /** The values the producer knows to be in the ring, by its private copy. */
    function KnownHeld(): uint64
      reads this
    {
      Wrap(head - cachedTail)
    }

    lemma KnownHeldIsDistance()
      requires Valid()
      ensures KnownHeld() == pushes - knownPops <= capacity
      ensures Wrap(capacity - KnownHeld()) == capacity - KnownHeld()
    {
      WrappedDistance(pushes, knownPops);
    }

    /** Load the consumer's counter into the private copy. */
    method LoadTail()
      requires Valid()
      modifies this`cachedTail, this`knownPops
      ensures Valid() && knownPops == pops
    {
      cachedTail, knownPops := tail, pops;
    }

    /** Copy the value into the slot i places past the head, which no held value uses. */
    method Put(value: T, i: nat)
      requires Valid() && pushes + i < pops + capacity
      modifies slots
      ensures Valid()
      ensures
        Window(slots[..], pops, pushes + i + 1 - pops) == old(Window(slots[..], pops, pushes + i - pops)) + [value]
    {
      WrappedSum(pushes, i);
      SlotOf(pushes + i);
      WindowGrows(slots[..], pops, pushes + i - pops, value);
      var k := Slot(Wrap(head + i));
      assert k == (pops + (pushes + i - pops)) % capacity;
      slots[k] := value;
      assert slots[..] == old(slots[..])[k := value];
    }

    /** Publish the next count slots. */
    method StoreHead(count: nat)
      requires Valid() && pushes + count <= knownPops + capacity
      modifies this`head, this`pushes
      ensures Valid() && pushes == old(pushes) + count
    {
      WrappedSum(pushes, count);
      head, pushes := Wrap(head + count), pushes + count;
    }

    /** Append the value, or refuse and change nothing exactly when the ring is full. */
    method TryPush(value: T) returns (ok: bool)
      requires Valid()
      modifies this`head, this`cachedTail, this`pushes, this`knownPops, slots
      ensures Valid()
      ensures ok <==> |old(Contents())| < capacity
      ensures Contents() == if ok then old(Contents()) + [value] else old(Contents())
    {
      KnownHeldIsDistance();
      if KnownHeld() == capacity {
        LoadTail();
        KnownHeldIsDistance();
        if KnownHeld() == capacity {
          return false;
        }
      }
      Put(value, 0);
      StoreHead(1);
      return true;
    }

    /** Append all the values in order, or refuse and append none exactly when they do not all fit. */
    method TryPushAll(values: seq<T>) returns (ok: bool)
      requires Valid()
      modifies this`head, this`cachedTail, this`pushes, this`knownPops, slots
      ensures Valid()
      ensures ok <==> |old(Contents())| + |values| <= capacity
      ensures Contents() == if ok then old(Contents()) + values else old(Contents())
    {
      if values == [] {
        return true;
      }
      var count := |values|;
      if count > capacity {
        return false;
      }
      KnownHeldIsDistance();
      if count > Wrap(capacity - KnownHeld()) {
        LoadTail();
        KnownHeldIsDistance();
        if count > Wrap(capacity - KnownHeld()) {
          return false;
        }
      }
      PutAll(values);
      StoreHead(count);
      return true;
    }

    /** Copy the values, in order, into the slots from the head on. */
    method PutAll(values: seq<T>)
      requires Valid() && pushes + |values| <= pops + capacity
      modifies slots
      ensures Valid()
      ensures Window(slots[..], pops, pushes + |values| - pops) == old(Contents()) + values
    {
      var i := 0;
      while i < |values|
        invariant i <= |values| && Valid()
        invariant Window(slots[..], pops, pushes + i - pops) == old(Contents()) + values[..i]
      {
        Put(values[i], i);
        OneMoreValue(old(Contents()), values, i);
        i := i + 1;
      }
      assert values[..i] == values;
    }

    /** Load the producer's counter into the private copy. */
    method LoadHead()
      requires Valid()
      modifies this`cachedHead, this`knownPushes
      ensures Valid() && knownPushes == pushes
    {
      cachedHead, knownPushes := head, pushes;
    }

    /** Hand the oldest slot back. */
    method StoreTail()
      requires Valid() && pops < knownPushes
      modifies this`tail, this`pops
      ensures Valid() && pops == old(pops) + 1
    {
      WrappedSum(pops, 1);
      tail, pops := Wrap(tail + 1), pops + 1;
    }

    lemma KnownEmpty()
      requires Valid()
      ensures tail == cachedHead <==> pops == knownPushes
    {
      WrappedDistance(knownPushes, pops);
    }

    /** Remove and return the oldest value; nothing exactly when the ring is empty. */
    method TryPop() returns (r: Option<T>)
      requires Valid()
      modifies this`tail, this`cachedHead, this`pops, this`knownPushes
      ensures Valid()
      ensures r.None? <==> old(Contents()) == []
      ensures r.None? ==> Contents() == old(Contents())
      ensures r.Some? ==> old(Contents()) == [r.value] + Contents()
    {
      KnownEmpty();
      if tail == cachedHead {
        LoadHead();
        KnownEmpty();
        if tail == cachedHead {
          return None;
        }
      }
      SlotOf(pops);
      WindowShrinks(slots[..], pops, pushes - pops);
      var value := slots[Slot(tail)];
      StoreTail();
      return Some(value);
    }
  }

  lemma OneMoreValue<T>(held: seq<T>, values: seq<T>, i: nat)
    requires i < |values|
    ensures held + values[..i] + [values[i]] == held + values[..i + 1]
  {
  }

  /** The n elements of the circular buffer s from counter lo on. */
  ghost function Window<T>(s: seq<T>, lo: nat, n: nat): (w: seq<T>)
    requires |s| > 0 || n == 0
  {
    seq(n, i requires 0 <= i < n => s[(lo + i) % |s|])
  }

  /** Writing the element after a window that does not fill the buffer extends the window only. */
  lemma WindowGrows<T>(s: seq<T>, lo: nat, n: nat, v: T)
    requires n < |s|
    ensures Window(s[(lo + n) % |s| := v], lo, n + 1) == Window(s, lo, n) + [v]
  {
    var t := s[(lo + n) % |s| := v];
    forall i | 0 <= i < n ensures Window(t, lo, n + 1)[i] == Window(s, lo, n)[i] {
      ResiduesDiffer(lo + i, lo + n, |s|);
    }
  }

  lemma WindowShrinks<T>(s: seq<T>, lo: nat, n: nat)
    requires 0 < n <= |s|
    ensures Window(s, lo, n) == [s[lo % |s|]] + Window(s, lo + 1, n - 1)
  {
    forall i | 0 < i < n ensures Window(s, lo, n)[i] == Window(s, lo + 1, n - 1)[i - 1] {
      assert lo + i == (lo + 1) + (i - 1);
    }
  }
}
