/** Finding the first control character of eight at once, in one 64-bit word. */
module Swar {

  type byte = bv8

  const SPACE: byte := 0x20
  const DEL: byte := 0x7F

  const ONES: bv64 := 0x0101_0101_0101_0101
  const SPACES: bv64 := 0x2020_2020_2020_2020
  const DELS: bv64 := 0x7F7F_7F7F_7F7F_7F7F
  const HIGHS: bv64 := 0x8080_8080_8080_8080

  /** A byte below a space, or DEL. */
  predicate IsControl(b: byte) {
    b < SPACE || b == DEL
  }

  /** The little-endian word eight bytes make. */
  function Pack(b: seq<byte>): bv64
    requires |b| == 8
  {
    Word(b[0], b[1], b[2], b[3], b[4], b[5], b[6], b[7])
  }

  function Word(b0: byte, b1: byte, b2: byte, b3: byte, b4: byte, b5: byte, b6: byte, b7: byte): bv64 {
    (b0 as bv64) | ((b1 as bv64) << 8) | ((b2 as bv64) << 16) | ((b3 as bv64) << 24)
    | ((b4 as bv64) << 32) | ((b5 as bv64) << 40) | ((b6 as bv64) << 48) | ((b7 as bv64) << 56)
  }

  /** Flag, in its top bit, each byte of x below the same byte of limit; a borrow may flag bytes above. */
  function Below(x: bv64, limit: bv64): bv64 {
    (x - limit) & !x & HIGHS
  }

  function Flagged(word: bv64): bv64 {
    Below(word, SPACES) | Below(word ^ DELS, ONES)
  }

  /** The number of zero bits below the lowest one bit, by halving. */
  function CountrZero(w: bv64): nat {
    if w == 0 then 64
    else if w & 0xFFFF_FFFF == 0 then 32 + CountrZero32(w >> 32)
    else CountrZero32(w)
  }

  function CountrZero32(w: bv64): nat {
    if w & 0xFFFF == 0 then 16 + CountrZero16(w >> 16) else CountrZero16(w)
  }

  function CountrZero16(w: bv64): nat {
    if w & 0xFF == 0 then 8 + CountrZero8(w >> 8) else CountrZero8(w)
  }

  function CountrZero8(w: bv64): nat {
    if w & 0xF == 0 then 4 + CountrZero4(w >> 4) else CountrZero4(w)
  }

  function CountrZero4(w: bv64): nat {
    if w & 1 != 0 then 0 else if w & 2 != 0 then 1 else if w & 4 != 0 then 2 else 3
  }

  // ---------------------------------------------------------------- lanes

  /** Byte k of a word, counted from the lowest. */
  function Lane(w: bv64, k: nat): (b: bv64)
    requires k < 8
    ensures b <= 0xFF
  {
    if k == 0 then w & 0xFF
    else if k == 1 then (w >> 8) & 0xFF
    else if k == 2 then (w >> 16) & 0xFF
    else if k == 3 then (w >> 24) & 0xFF
    else if k == 4 then (w >> 32) & 0xFF
    else if k == 5 then (w >> 40) & 0xFF
    else if k == 6 then (w >> 48) & 0xFF
    else (w >> 56) & 0xFF
  }

  function LaneBits(k: nat): bv64
    requires k < 8
  {
    if k == 0 then 0xFF
    else if k == 1 then 0xFF00
    else if k == 2 then 0xFF0000
    else if k == 3 then 0xFF000000
    else if k == 4 then 0xFF00000000
    else if k == 5 then 0xFF0000000000
    else if k == 6 then 0xFF000000000000
    else 0xFF00000000000000
  }

  function TopBit(k: nat): bv64
    requires k < 8
  {
    if k == 0 then 0x80
    else if k == 1 then 0x8000
    else if k == 2 then 0x800000
    else if k == 3 then 0x80000000
    else if k == 4 then 0x8000000000
    else if k == 5 then 0x800000000000
    else if k == 6 then 0x80000000000000
    else 0x8000000000000000
  }

  /** The bits of the lanes before lane k. */
  function LowBits(k: nat): bv64
    requires k <= 8
  {
    if k == 8 then 0xFFFF_FFFF_FFFF_FFFF
    else if k == 0 then 0x0
    else if k == 1 then 0xFF
    else if k == 2 then 0xFFFF
    else if k == 3 then 0xFFFFFF
    else if k == 4 then 0xFFFFFFFF
    else if k == 5 then 0xFFFFFFFFFF
    else if k == 6 then 0xFFFFFFFFFFFF
    else 0xFFFFFFFFFFFFFF
  }

  predicate IsControlLane(b: bv64) {
    b < 0x20 || b == 0x7F
  }

  /** With nothing flagged before it, a lane is flagged exactly when it holds a control character. */
  lemma LaneFlag(w: bv64, k: nat)
    requires k < 8 && Flagged(w) & LowBits(k) == 0
    ensures Flagged(w) & LaneBits(k) == if IsControlLane(Lane(w, k)) then TopBit(k) else 0
  {
    if k == 0 {
    } else if k == 1 {
    } else if k == 2 {
    } else if k == 3 {
    } else if k == 4 {
    } else if k == 5 {
    } else if k == 6 {
    }
  }

  lemma LowBitsGrow(f: bv64, k: nat)
    requires k < 8 && f & LowBits(k) == 0 && f & LaneBits(k) == 0
    ensures f & LowBits(k + 1) == 0
  {
  }

  lemma OneMoreLane(w: bv64, k: nat)
    requires k < 8 && Flagged(w) & LowBits(k) == 0 && !IsControlLane(Lane(w, k))
    ensures Flagged(w) & LowBits(k + 1) == 0
  {
    LaneFlag(w, k);
    LowBitsGrow(Flagged(w), k);
  }

  /** No control character among the first k bytes, and nothing is flagged there. */
  lemma {:induction false} NothingFlagged(w: bv64, k: nat)
    requires k <= 8 && forall i | 0 <= i < k :: !IsControlLane(Lane(w, i))
    ensures Flagged(w) & LowBits(k) == 0
  {
    if k == 0 {
    } else {
      NothingFlagged(w, k - 1);
      OneMoreLane(w, k - 1);
    }
  }

  /** A word whose lowest one bit is the top bit of lane k. */
  lemma LowestTopBit(f: bv64, k: nat)
    requires k < 8 && f & LowBits(k) == 0 && f & LaneBits(k) == TopBit(k)
    ensures f != 0 && CountrZero(f) / 8 == k
  {
    assert CountrZero(f) == 8 * k + 7;
  }

  lemma LanesOfWord(b0: byte, b1: byte, b2: byte, b3: byte, b4: byte, b5: byte, b6: byte, b7: byte)
    ensures Lane(Word(b0, b1, b2, b3, b4, b5, b6, b7), 0) == b0 as bv64
    ensures Lane(Word(b0, b1, b2, b3, b4, b5, b6, b7), 1) == b1 as bv64
    ensures Lane(Word(b0, b1, b2, b3, b4, b5, b6, b7), 2) == b2 as bv64
    ensures Lane(Word(b0, b1, b2, b3, b4, b5, b6, b7), 3) == b3 as bv64
    ensures Lane(Word(b0, b1, b2, b3, b4, b5, b6, b7), 4) == b4 as bv64
    ensures Lane(Word(b0, b1, b2, b3, b4, b5, b6, b7), 5) == b5 as bv64
    ensures Lane(Word(b0, b1, b2, b3, b4, b5, b6, b7), 6) == b6 as bv64
    ensures Lane(Word(b0, b1, b2, b3, b4, b5, b6, b7), 7) == b7 as bv64
  {
  }

  lemma LaneOfPack(b: seq<byte>, k: nat)
    requires |b| == 8 && k < 8
    ensures Lane(Pack(b), k) == b[k] as bv64
  {
    LanesOfWord(b[0], b[1], b[2], b[3], b[4], b[5], b[6], b[7]);
    LaneByCase(Pack(b), b, k);
  }

  lemma LaneByCase(w: bv64, b: seq<byte>, k: nat)
    requires |b| == 8 && k < 8
    requires Lane(w, 0) == b[0] as bv64
    requires Lane(w, 1) == b[1] as bv64
    requires Lane(w, 2) == b[2] as bv64
    requires Lane(w, 3) == b[3] as bv64
    requires Lane(w, 4) == b[4] as bv64
    requires Lane(w, 5) == b[5] as bv64
    requires Lane(w, 6) == b[6] as bv64
    requires Lane(w, 7) == b[7] as bv64
    ensures Lane(w, k) == b[k] as bv64
  {
    if k == 0 {
    } else if k == 1 {
    } else if k == 2 {
    } else if k == 3 {
    } else if k == 4 {
    } else if k == 5 {
    } else if k == 6 {
    }
  }

  lemma ControlLanes(b: byte)
    ensures IsControlLane(b as bv64) <==> IsControl(b)
  {
  }

  /** Byte k of a word, as it is stored. */
  function LaneByte(w: bv64, k: nat): byte
    requires k < 8
  {
    Lane(w, k) as byte
  }

  /** A word stores the bytes it was loaded from. */
  lemma StoresWhatWasLoaded(b: seq<byte>, k: nat)
    requires |b| == 8 && k < 8
    ensures LaneByte(Pack(b), k) == b[k]
  {
    LaneOfPack(b, k);
    ByteThroughWord(b[k]);
  }

  lemma ByteThroughWord(b: byte)
    ensures (b as bv64) as byte == b
  {
  }

  /** The flag word is zero exactly when none of the eight bytes is a control character; otherwise its
      lowest one bit is in the byte of the first that is, whatever the borrows flag above it. */
  lemma FlagsFindTheFirst(b: seq<byte>, k: nat)
    requires |b| == 8 && k <= 8
    requires forall i | 0 <= i < k :: !IsControl(b[i])
    requires k < 8 ==> IsControl(b[k])
    ensures Flagged(Pack(b)) == 0 <==> k == 8
    ensures k < 8 ==> CountrZero(Flagged(Pack(b))) / 8 == k
  {
    forall i | 0 <= i < k ensures !IsControlLane(Lane(Pack(b), i)) {
      LaneOfPack(b, i);
      ControlLanes(b[i]);
    }
    NothingFlagged(Pack(b), k);
    if k < 8 {
      LaneOfPack(b, k);
      ControlLanes(b[k]);
      LaneFlag(Pack(b), k);
      LowestTopBit(Flagged(Pack(b)), k);
    }
  }
}
