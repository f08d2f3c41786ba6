/** 32-bit block masks, and the sets of bit positions they stand for. */
module Bitmask {
  import opened Collections

  /** `1 << i`. */
  function One(i: nat): bv32
    requires i < 32
  {
    (1 as bv32) << i
  }

  predicate Shares(m: bv32, x: bv32) {
    m & x != 0
  }

  predicate Bit(m: bv32, i: nat)
    requires i < 32
  {
    Shares(m, One(i))
  }

  ghost function Bits(m: bv32): set<nat> {
    set i | 0 <= i < 32 && Bit(m, i)
  }

  /** `mask &= ~bit`. */
  function Clear(m: bv32, i: nat): bv32
    requires i < 32
  {
    Except(m, One(i))
  }

  function Except(m: bv32, x: bv32): bv32 {
    m & !x
  }

  lemma OnesDiffer(i: nat, j: nat)
    requires i < 32 && j < 32
    ensures One(i) != 0
    ensures i != j ==> !Shares(One(i), One(j)) && One(i) != One(j)
  {
  }

  lemma ClearSelf(m: bv32, x: bv32)
    ensures !Shares(Except(m, x), x)
  {
  }

  /** Clearing a word affects no other word that shares no bit with it. */
  lemma ClearOther(m: bv32, x: bv32, y: bv32)
    requires !Shares(x, y)
    ensures Shares(Except(m, x), y) <==> Shares(m, y)
  {
  }

  lemma ClearBit(m: bv32, i: nat, j: nat)
    requires i < 32 && j < 32
    ensures Bit(Clear(m, i), j) <==> Bit(m, j) && j != i
  {
    hide One, Shares, Except;
    if i == j {
      ClearSelf(m, One(i));
    } else {
      OnesDiffer(i, j);
      ClearOther(m, One(i), One(j));
    }
  }

  lemma ClearBits(m: bv32, i: nat)
    requires i < 32
    ensures Bits(Clear(m, i)) == Bits(m) - {i}
  {
    forall j: nat | j < 32 ensures Bit(Clear(m, i), j) <==> Bit(m, j) && j != i {
      ClearBit(m, i, j);
    }
  }

  lemma NextOne(i: nat)
    requires i < 31
    ensures One(i + 1) == One(i) << 1
  {
  }

  lemma ShiftWord(m: bv32, x: bv32)
    requires !Shares(x, 0x8000_0000)
    ensures Shares(m >> 1, x) <==> Shares(m, x << 1)
  {
  }

  lemma ShiftBit(m: bv32, i: nat)
    requires i < 32
    ensures Bit(m >> 1, i) <==> i < 31 && Bit(m, i + 1)
  {
    if i < 31 {
      NextOne(i);
      OnesDiffer(i, 31);
      ShiftWord(m, One(i));
    }
  }

  /** A word that is not zero has a bit. */
  lemma {:induction false} SomeBit(m: bv32) returns (j: nat)
    requires m != 0
    ensures j < 32 && Bit(m, j)
    decreases m
  {
    if m & 1 != 0 {
      j := 0;
    } else {
      j := SomeBit(m >> 1);
      ShiftBit(m, j);
      j := j + 1;
    }
  }

  lemma ZeroBits(m: bv32)
    ensures m == 0 <==> Bits(m) == {}
  {
    if m != 0 {
      var j := SomeBit(m);
      assert j in Bits(m);
    }
  }

  // ---- the loop of schedule_reference ----

  lemma NextOnes(i: nat)
    requires i < 31
    ensures (One(i) - 1) | One(i) == One(i + 1) - 1
  {
  }

  lemma OnesBit(len: nat, i: nat)
    requires len < 32 && i < 32
    ensures Bit(One(len) - 1, i) <==> i < len
  {
  }

  /** The mask of a request of `len` blocks is 2^len - 1: one bit per block. */
  method FullMask(len: nat) returns (m: bv32)
    requires len < 32
    ensures m == One(len) - 1
    ensures Bits(m) == Interval(0, len)
  {
    m := 0;
    for i := 0 to len
      invariant m == One(i) - 1
    {
      NextOnes(i);
      m := m | One(i);
    }
    forall i: nat | i < 32 ensures Bit(m, i) <==> i in Interval(0, len) {
      OnesBit(len, i);
    }
  }

  // ---- the loop of process_batch_request ----

  ghost predicate BitOf(m: bv32, i: nat) {
    i < 32 && Bit(m, i)
  }

  /** The word `m` holds the members of `bits` from `i` up, moved down by `i`. */
  ghost predicate Shifted(bits: set<nat>, m: bv32, i: nat) {
    && (forall b | b in bits :: b >= i)
    && (forall b | b in bits :: BitOf(m, b - i))
    && (forall j: nat | BitOf(m, j) :: i + j in bits)
  }

  lemma BitsShifted(m: bv32)
    ensures Shifted(Bits(m), m, 0)
  {
    forall j: nat | BitOf(m, j) ensures 0 + j in Bits(m) {
      assert j in Bits(m);
    }
  }

  /** One turn of the shift loop: the low bit tells about position `i`, the rest moves down. */
  lemma ShiftDown(bits: set<nat>, m: bv32, i: nat)
    requires Shifted(bits, m, i)
    ensures m & 1 != 0 <==> i in bits
    ensures Shifted(bits - {i}, m >> 1, i + 1)
  {
    assert m & 1 != 0 <==> BitOf(m, 0);
    assert BitOf(m, 0) ==> i + 0 in bits;
    forall b | b in bits - {i} ensures BitOf(m >> 1, b - (i + 1)) {
      assert BitOf(m, b - i);
      ShiftBit(m, b - (i + 1));
    }
    var (next, low, rest) := (i + 1, m >> 1, bits - {i});
    forall j: nat | BitOf(low, j) ensures next + j in rest {
      ShiftBit(m, j);
      assert BitOf(m, j + 1);
      assert i + (j + 1) in bits;
    }
  }

  lemma ShiftedZero(bits: set<nat>, m: bv32, i: nat)
    requires Shifted(bits, m, i)
    ensures m == 0 <==> bits == {}
  {
    if m != 0 {
      var j := SomeBit(m);
      assert BitOf(m, j);
    }
    if b :| b in bits {
      assert BitOf(m, b - i);
    }
  }

  // ---- clearing bits ----

  ghost function ClearAll(m: bv32, bits: seq<nat>): bv32
    requires forall i | 0 <= i < |bits| :: bits[i] < 32
  {
    if bits == [] then m else ClearAll(Clear(m, bits[0]), bits[1..])
  }

  /**
   Clearing bits in any order leaves zero exactly when all set bits were among them: at the last one and not before.
   */
  lemma {:induction false} ClearingOrder(m: bv32, bits: seq<nat>)
    requires forall i | 0 <= i < |bits| :: bits[i] < 32
    ensures Bits(ClearAll(m, bits)) == Bits(m) - set i | 0 <= i < |bits| :: bits[i]
    ensures ClearAll(m, bits) == 0 <==> forall b | b in Bits(m) :: b in bits
    decreases |bits|
  {
    if bits != [] {
      ClearBits(m, bits[0]);
      ClearingOrder(Clear(m, bits[0]), bits[1..]);
      assert bits == [bits[0]] + bits[1..];
    }
    ZeroBits(ClearAll(m, bits));
  }
}
