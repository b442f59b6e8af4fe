/**
 Comparing ranges of bits of two IDs, for IDs of any length. Bit 0 is the least significant bit of byte 0. The
 masks are only ever and-ed with bytes, so they are bytes too.
 */
module IDBits {
  type Byte = bv8
  type ID = seq<Byte>

  const BITS_PER_BYTE := 8

  /** The bit of a byte, as a byte that is 0 or 1. */
  function ByteBit(b: Byte, k: nat): Byte
    requires k < 8
  {
    (b >> k) & 1
  }

  /** The per-bit reference. */
  function Bit(id: ID, i: nat): Byte
    requires i < |id| * BITS_PER_BYTE
  {
    ByteBit(id[i / BITS_PER_BYTE], i % BITS_PER_BYTE)
  }

  function StartMask(startBit: nat): Byte
    requires startBit < 8
  {
    0xFF << startBit
  }

  function StopMask(stopBit: nat): Byte
    requires stopBit < 8
  {
    (1 << (stopBit + 1)) - 1
  }

  lemma StartMaskBits(s: nat, k: nat)
    requires s < 8 && k < 8
    ensures ByteBit(StartMask(s), k) == if s <= k then 1 else 0
  {
    if s == 0 { Bits8(StartMask(0), k); } else if s == 1 { Bits8(StartMask(1), k); }
    else if s == 2 { Bits8(StartMask(2), k); } else if s == 3 { Bits8(StartMask(3), k); }
    else if s == 4 { Bits8(StartMask(4), k); } else if s == 5 { Bits8(StartMask(5), k); }
    else if s == 6 { Bits8(StartMask(6), k); } else { Bits8(StartMask(7), k); }
  }

  lemma Bits8(b: Byte, k: nat)
    requires k < 8
    ensures ByteBit(b, k) == if k == 0 then b & 1 else if k == 1 then (b >> 1) & 1 else if k == 2 then (b >> 2) & 1
      else if k == 3 then (b >> 3) & 1 else if k == 4 then (b >> 4) & 1 else if k == 5 then (b >> 5) & 1
      else if k == 6 then (b >> 6) & 1 else (b >> 7) & 1
  {
  }

  lemma StopMaskBits(s: nat, k: nat)
    requires s < 8 && k < 8
    ensures ByteBit(StopMask(s), k) == if k <= s then 1 else 0
  {
    if s == 0 { Bits8(StopMask(0), k); } else if s == 1 { Bits8(StopMask(1), k); }
    else if s == 2 { Bits8(StopMask(2), k); } else if s == 3 { Bits8(StopMask(3), k); }
    else if s == 4 { Bits8(StopMask(4), k); } else if s == 5 { Bits8(StopMask(5), k); }
    else if s == 6 { Bits8(StopMask(6), k); } else { Bits8(StopMask(7), k); }
  }

  lemma AndBits(a: Byte, b: Byte, k: nat)
    requires k < 8
    ensures ByteBit(a & b, k) == ByteBit(a, k) & ByteBit(b, k)
  {
    if k == 0 { assert ((a & b) >> 0) & 1 == ((a >> 0) & 1) & ((b >> 0) & 1); }
    if k == 1 { assert ((a & b) >> 1) & 1 == ((a >> 1) & 1) & ((b >> 1) & 1); }
    if k == 2 { assert ((a & b) >> 2) & 1 == ((a >> 2) & 1) & ((b >> 2) & 1); }
    if k == 3 { assert ((a & b) >> 3) & 1 == ((a >> 3) & 1) & ((b >> 3) & 1); }
    if k == 4 { assert ((a & b) >> 4) & 1 == ((a >> 4) & 1) & ((b >> 4) & 1); }
    if k == 5 { assert ((a & b) >> 5) & 1 == ((a >> 5) & 1) & ((b >> 5) & 1); }
    if k == 6 { assert ((a & b) >> 6) & 1 == ((a >> 6) & 1) & ((b >> 6) & 1); }
    if k == 7 { assert ((a & b) >> 7) & 1 == ((a >> 7) & 1) & ((b >> 7) & 1); }
  }

  lemma BitsOfXor(a: Byte, b: Byte, k: nat)
    requires k < 8
    ensures ByteBit(a ^ b, k) == ByteBit(a, k) ^ ByteBit(b, k)
  {
    if k == 0 { assert ((a ^ b) >> 0) & 1 == ((a >> 0) & 1) ^ ((b >> 0) & 1); }
    if k == 1 { assert ((a ^ b) >> 1) & 1 == ((a >> 1) & 1) ^ ((b >> 1) & 1); }
    if k == 2 { assert ((a ^ b) >> 2) & 1 == ((a >> 2) & 1) ^ ((b >> 2) & 1); }
    if k == 3 { assert ((a ^ b) >> 3) & 1 == ((a >> 3) & 1) ^ ((b >> 3) & 1); }
    if k == 4 { assert ((a ^ b) >> 4) & 1 == ((a >> 4) & 1) ^ ((b >> 4) & 1); }
    if k == 5 { assert ((a ^ b) >> 5) & 1 == ((a >> 5) & 1) ^ ((b >> 5) & 1); }
    if k == 6 { assert ((a ^ b) >> 6) & 1 == ((a >> 6) & 1) ^ ((b >> 6) & 1); }
    if k == 7 { assert ((a ^ b) >> 7) & 1 == ((a >> 7) & 1) ^ ((b >> 7) & 1); }
  }

  lemma XorBits(a: Byte, b: Byte, k: nat)
    requires k < 8
    ensures ByteBit(a ^ b, k) == 0 <==> ByteBit(a, k) == ByteBit(b, k)
  {
    hide ByteBit;
    BitsOfXor(a, b, k);
    XorIsZero(ByteBit(a, k), ByteBit(b, k));
  }

  /** Bytes with the same bits are the same. */
  lemma SameBits(a: Byte, b: Byte)
    requires forall k :: 0 <= k < 8 ==> ByteBit(a, k) == ByteBit(b, k)
    ensures a == b
  {
    assert ByteBit(a, 0) == ByteBit(b, 0) && ByteBit(a, 1) == ByteBit(b, 1) && ByteBit(a, 2) == ByteBit(b, 2);
    assert ByteBit(a, 3) == ByteBit(b, 3) && ByteBit(a, 4) == ByteBit(b, 4) && ByteBit(a, 5) == ByteBit(b, 5);
    assert ByteBit(a, 6) == ByteBit(b, 6) && ByteBit(a, 7) == ByteBit(b, 7);
  }

  lemma BitIsBinary(a: Byte, k: nat)
    requires k < 8
    ensures ByteBit(a, k) == 0 || ByteBit(a, k) == 1
    ensures 1 & ByteBit(a, k) == ByteBit(a, k) && 0 & ByteBit(a, k) == 0
  {
    Bits8(a, k);
  }

  /** Masked bytes are equal exactly when their bits agree wherever the mask has a one. */
  lemma MaskedEqual(m: Byte, a: Byte, b: Byte)
    ensures m & a == m & b <==> forall k :: 0 <= k < 8 && ByteBit(m, k) == 1 ==> ByteBit(a, k) == ByteBit(b, k)
  {
    forall k | 0 <= k < 8
      ensures ByteBit(m & a, k) == ByteBit(m & b, k) <==> (ByteBit(m, k) == 1 ==> ByteBit(a, k) == ByteBit(b, k))
    {
      MaskedBits(m, a, b, k);
    }
    if forall k :: 0 <= k < 8 && ByteBit(m, k) == 1 ==> ByteBit(a, k) == ByteBit(b, k) {
      SameBits(m & a, m & b);
    }
  }

  /** The number of zeros below the lowest one. */
  function TrailingZeros(b: Byte): nat {
    if b & 0x01 != 0 then 0 else if b & 0x02 != 0 then 1 else if b & 0x04 != 0 then 2 else if b & 0x08 != 0 then 3
    else if b & 0x10 != 0 then 4 else if b & 0x20 != 0 then 5 else if b & 0x40 != 0 then 6 else if b & 0x80 != 0 then 7
    else 8
  }

  lemma TrailingZerosIsLowest(b: Byte)
    requires b != 0
    ensures TrailingZeros(b) < 8 && ByteBit(b, TrailingZeros(b)) == 1
    ensures forall k :: 0 <= k < TrailingZeros(b) ==> ByteBit(b, k) == 0
  {
    forall k | 0 <= k < TrailingZeros(b) && k < 8 ensures ByteBit(b, k) == 0 {
      Bits8(b, k);
    }
    if TrailingZeros(b) < 8 {
      Bits8(b, TrailingZeros(b));
    }
  }

  /** The first bit in which two masked bytes differ. */
  lemma FirstMaskedDifference(m: Byte, a: Byte, b: Byte)
    requires m & a != m & b
    ensures var k := TrailingZeros((m & a) ^ (m & b));
      && k < 8 && ByteBit(m, k) == 1 && ByteBit(a, k) != ByteBit(b, k)
      && forall j :: 0 <= j < k && ByteBit(m, j) == 1 ==> ByteBit(a, j) == ByteBit(b, j)
  {
    var x := (m & a) ^ (m & b);
    XorIsZero(m & a, m & b);
    TrailingZerosIsLowest(x);
    forall j | 0 <= j < 8
      ensures ByteBit(x, j) == 0 <==> (ByteBit(m, j) == 1 ==> ByteBit(a, j) == ByteBit(b, j))
    {
      XorBits(m & a, m & b, j);
      MaskedBits(m, a, b, j);
    }
    BitIsBinary(m, TrailingZeros(x));
  }

  lemma XorIsZero(a: Byte, b: Byte)
    ensures a ^ b == 0 <==> a == b
  {
  }

  lemma MaskedBits(m: Byte, a: Byte, b: Byte, k: nat)
    requires k < 8
    ensures ByteBit(m & a, k) == ByteBit(m & b, k) <==> (ByteBit(m, k) == 1 ==> ByteBit(a, k) == ByteBit(b, k))
  {
    AndBits(m, a, k);
    AndBits(m, b, k);
    BitIsBinary(m, k);
    BitIsBinary(a, k);
    BitIsBinary(b, k);
  }

  // ---------------------------------------------------------------------------------------
  // Ranges of bits.
  // ---------------------------------------------------------------------------------------

  /** All bits from `start` up to but not including `stop` agree. */
  ghost predicate Agree(id1: ID, id2: ID, start: nat, stop: nat)
    requires |id1| == |id2| && stop <= |id1| * BITS_PER_BYTE
  {
    forall i :: start <= i < stop ==> Bit(id1, i) == Bit(id2, i)
  }

  /** The bits of byte `j` that lie in the range from `start` to `last`, both included. */
  ghost function MaskAt(j: nat, start: nat, last: nat): Byte {
    (if j == start / 8 then StartMask(start % 8) else 0xFF) & (if j == last / 8 then StopMask(last % 8) else 0xFF)
  }

  lemma AllOnes(k: nat)
    requires k < 8
    ensures ByteBit(0xFF, k) == 1
  {
    Bits8(0xFF, k);
  }

  lemma MaskAtBits(j: nat, start: nat, last: nat, k: nat)
    requires k < 8 && start / 8 <= j <= last / 8
    ensures ByteBit(MaskAt(j, start, last), k) == 1 <==> start <= 8 * j + k <= last
  {
    var m1 := if j == start / 8 then StartMask(start % 8) else 0xFF;
    var m2 := if j == last / 8 then StopMask(last % 8) else 0xFF;
    AndBits(m1, m2, k);
    BitIsBinary(m1, k);
    BitIsBinary(m2, k);
    AllOnes(k);
    StartMaskBits(start % 8, k);
    StopMaskBits(last % 8, k);
  }

  /** Equal in every bit in which the mask has a one. */
  predicate EqualUnder(m: Byte, a: Byte, b: Byte) {
    m & a == m & b
  }

  ghost predicate ByteAgrees(id1: ID, id2: ID, j: nat, start: nat, last: nat)
    requires j < |id1| == |id2|
  {
    EqualUnder(MaskAt(j, start, last), id1[j], id2[j])
  }

  lemma BitAt(id: ID, j: nat, k: nat)
    requires j < |id| && k < 8
    ensures 8 * j + k < |id| * BITS_PER_BYTE && Bit(id, 8 * j + k) == ByteBit(id[j], k)
  {
    assert (8 * j + k) / 8 == j && (8 * j + k) % 8 == k;
  }

  lemma MaskedRange(m: Byte, a: Byte, b: Byte, base: nat, start: nat, last: nat)
    requires forall k :: 0 <= k < 8 ==> (ByteBit(m, k) == 1 <==> start <= base + k <= last)
    ensures EqualUnder(m, a, b) <==>
      forall k :: 0 <= k < 8 && start <= base + k <= last ==> ByteBit(a, k) == ByteBit(b, k)
  {
    MaskedEqual(m, a, b);
  }

  lemma ByteAgreesIsBits(id1: ID, id2: ID, j: nat, start: nat, last: nat)
    requires |id1| == |id2| && last < |id1| * BITS_PER_BYTE && start / 8 <= j <= last / 8
    ensures ByteAgrees(id1, id2, j, start, last) <==>
      forall k :: 0 <= k < 8 && start <= 8 * j + k <= last ==> ByteBit(id1[j], k) == ByteBit(id2[j], k)
  {
    var m := MaskAt(j, start, last);
    forall k | 0 <= k < 8
      ensures ByteBit(m, k) == 1 <==> start <= 8 * j + k <= last
    {
      MaskAtBits(j, start, last, k);
    }
    MaskedRange(m, id1[j], id2[j], 8 * j, start, last);
  }

  /** A range of bits agrees exactly when its bytes do, each under its mask. */
  lemma AgreeByBytes(id1: ID, id2: ID, start: nat, last: nat)
    requires |id1| == |id2| && start <= last < |id1| * BITS_PER_BYTE
    ensures Agree(id1, id2, start, last + 1) <==>
      forall j :: start / 8 <= j <= last / 8 ==> ByteAgrees(id1, id2, j, start, last)
  {
    if Agree(id1, id2, start, last + 1) {
      forall j | start / 8 <= j <= last / 8
        ensures ByteAgrees(id1, id2, j, start, last)
      {
        ByteAgreesIsBits(id1, id2, j, start, last);
        forall k | 0 <= k < 8 && start <= 8 * j + k <= last
          ensures ByteBit(id1[j], k) == ByteBit(id2[j], k)
        {
          BitAt(id1, j, k);
          BitAt(id2, j, k);
        }
      }
    }
    if forall j :: start / 8 <= j <= last / 8 ==> ByteAgrees(id1, id2, j, start, last) {
      forall i | start <= i < last + 1
        ensures Bit(id1, i) == Bit(id2, i)
      {
        var j, k := i / 8, i % 8;
        assert ByteAgrees(id1, id2, j, start, last);
        ByteAgreesIsBits(id1, id2, j, start, last);
      }
    }
  }

  lemma AndAllOnes(b: Byte)
    ensures 0xFF & b == b && b & 0xFF == b
  {
  }

  /** The comparison of the bytes from `si` to `ti`, the first and the last of them masked. */
  predicate EqualBytes(id1: ID, id2: ID, si: nat, ti: nat, startMask: Byte, stopMask: Byte)
    requires si <= ti < |id1| == |id2|
  {
    if si + 1 < ti && id1[si + 1..ti] != id2[si + 1..ti] then false
    else if si == ti then EqualUnder(startMask & stopMask, id1[si], id2[si])
    else EqualUnder(startMask, id1[si], id2[si]) && EqualUnder(stopMask, id1[ti], id2[ti])
  }

  /** Whether the IDs are equal from bit `start` to bit `stop`, not included. */
  predicate EqualSubset(start: nat, stop: int, id1: ID, id2: ID)
    requires |id1| == |id2|
  {
    var last := stop - 1;
    if start > last || last < 0 then true
    else if last >= |id1| * BITS_PER_BYTE then false
    else EqualBytes(id1, id2, start / BITS_PER_BYTE, last / BITS_PER_BYTE,
                    StartMask(start % BITS_PER_BYTE), StopMask(last % BITS_PER_BYTE))
  }

  function Pick(j: nat, si: nat, ti: nat, startMask: Byte, stopMask: Byte): Byte {
    if si == ti then startMask & stopMask else if j == si then startMask else if j == ti then stopMask else 0xFF
  }

  lemma MaskAtEnds(j: nat, start: nat, last: nat)
    requires start / 8 <= j <= last / 8
    ensures MaskAt(j, start, last) == Pick(j, start / 8, last / 8, StartMask(start % 8), StopMask(last % 8))
  {
    AndAllOnes(StartMask(start % 8));
    AndAllOnes(StopMask(last % 8));
    AndAllOnes(0xFF);
  }

  lemma InteriorIsBytewise(id1: ID, id2: ID, si: nat, ti: nat)
    requires si < ti < |id1| == |id2|
    ensures !(si + 1 < ti && id1[si + 1..ti] != id2[si + 1..ti]) <==> forall j :: si < j < ti ==> id1[j] == id2[j]
  {
    if si + 1 < ti {
      var s1, s2 := id1[si + 1..ti], id2[si + 1..ti];
      assert forall j :: si < j < ti ==> id1[j] == s1[j - si - 1] && id2[j] == s2[j - si - 1];
      assert forall i :: 0 <= i < |s1| ==> s1[i] == id1[i + si + 1] && s2[i] == id2[i + si + 1];
    }
  }

  lemma EqualUnderAllOnes(a: Byte, b: Byte)
    ensures EqualUnder(0xFF, a, b) <==> a == b
  {
    AndAllOnes(a);
    AndAllOnes(b);
  }

  /** Every byte of the range agrees under its mask. */
  ghost predicate Bytewise(id1: ID, id2: ID, si: nat, ti: nat, sm: Byte, tm: Byte)
    requires si <= ti < |id1| == |id2|
  {
    forall j :: si <= j <= ti ==> EqualUnder(Pick(j, si, ti, sm, tm), id1[j], id2[j])
  }

  lemma EqualBytesIsBytewise(id1: ID, id2: ID, si: nat, ti: nat, sm: Byte, tm: Byte)
    requires si <= ti < |id1| == |id2|
    ensures EqualBytes(id1, id2, si, ti, sm, tm) <==> Bytewise(id1, id2, si, ti, sm, tm)
  {
    if si < ti {
      InteriorIsBytewise(id1, id2, si, ti);
      if EqualBytes(id1, id2, si, ti, sm, tm) {
        forall j | si <= j <= ti
          ensures EqualUnder(Pick(j, si, ti, sm, tm), id1[j], id2[j])
        {
          EqualUnderAllOnes(id1[j], id2[j]);
        }
      }
      if Bytewise(id1, id2, si, ti, sm, tm) {
        forall j | si < j < ti
          ensures id1[j] == id2[j]
        {
          EqualUnderAllOnes(id1[j], id2[j]);
          assert EqualUnder(Pick(j, si, ti, sm, tm), id1[j], id2[j]);
        }
        assert EqualUnder(Pick(si, si, ti, sm, tm), id1[si], id2[si]);
        assert EqualUnder(Pick(ti, si, ti, sm, tm), id1[ti], id2[ti]);
      }
    } else {
      if Bytewise(id1, id2, si, ti, sm, tm) {
        assert EqualUnder(Pick(si, si, ti, sm, tm), id1[si], id2[si]);
      }
    }
  }

  /** The byte-wise comparison decides whether all bits in the range agree. */
  lemma EqualSubsetIsAgreement(start: nat, stop: nat, id1: ID, id2: ID)
    requires |id1| == |id2| && stop <= |id1| * BITS_PER_BYTE
    ensures EqualSubset(start, stop, id1, id2) <==> Agree(id1, id2, start, stop)
  {
    if start < stop {
      var last := stop - 1;
      AgreeByBytes(id1, id2, start, last);
      EqualBytesIsBytewise(id1, id2, start / 8, last / 8, StartMask(start % 8), StopMask(last % 8));
      forall j | start / 8 <= j <= last / 8
        ensures ByteAgrees(id1, id2, j, start, last) <==>
          EqualUnder(Pick(j, start / 8, last / 8, StartMask(start % 8), StopMask(last % 8)), id1[j], id2[j])
      {
        MaskAtEnds(j, start, last);
      }
    }
  }

  /** The position of the lowest bit in which two masked bytes differ. */
  function MaskedDifference(m: Byte, a: Byte, b: Byte): nat {
    TrailingZeros((m & a) ^ (m & b))
  }

  lemma UnmaskedDifference(a: Byte, b: Byte)
    ensures MaskedDifference(0xFF, a, b) == TrailingZeros(a ^ b)
  {
    AndAllOnes(a);
    AndAllOnes(b);
  }

  /** All bits of the range before bit `k` of byte `j` agree. */
  lemma AgreeBefore(id1: ID, id2: ID, start: nat, last: nat, j: nat, k: nat)
    requires |id1| == |id2| && last < |id1| * BITS_PER_BYTE && start / 8 <= j <= last / 8 && k < 8
    requires forall i :: start / 8 <= i < j ==> ByteAgrees(id1, id2, i, start, last)
    requires forall h :: 0 <= h < k && start <= 8 * j + h ==> ByteBit(id1[j], h) == ByteBit(id2[j], h)
    requires 8 * j + k <= last
    ensures Agree(id1, id2, start, 8 * j + k)
  {
    forall i | start <= i < 8 * j + k
      ensures Bit(id1, i) == Bit(id2, i)
    {
      var c, h := i / 8, i % 8;
      assert i == 8 * c + h;
      BitAt(id1, c, h);
      BitAt(id2, c, h);
      if c < j {
        ByteAgreesIsBits(id1, id2, c, start, last);
      } else {
        assert c == j;
      }
    }
  }

  lemma FirstDifferenceInRange(m: Byte, a: Byte, b: Byte, base: nat, start: nat, last: nat)
    requires forall h :: 0 <= h < 8 ==> (ByteBit(m, h) == 1 <==> start <= base + h <= last)
    requires !EqualUnder(m, a, b)
    ensures var k := MaskedDifference(m, a, b);
      && k < 8 && start <= base + k <= last && ByteBit(a, k) != ByteBit(b, k)
      && forall h :: 0 <= h < k && start <= base + h ==> ByteBit(a, h) == ByteBit(b, h)
  {
    FirstMaskedDifference(m, a, b);
  }

  /** The lowest difference in the first byte that disagrees is the first difference. */
  lemma FirstByteHasFirstDifference(id1: ID, id2: ID, start: nat, last: nat, j: nat, k: nat)
    requires |id1| == |id2| && last < |id1| * BITS_PER_BYTE && start / 8 <= j <= last / 8
    requires !ByteAgrees(id1, id2, j, start, last)
    requires forall i :: start / 8 <= i < j ==> ByteAgrees(id1, id2, i, start, last)
    requires k == MaskedDifference(MaskAt(j, start, last), id1[j], id2[j])
    ensures k < 8 && start <= 8 * j + k <= last
    ensures Bit(id1, 8 * j + k) != Bit(id2, 8 * j + k) && Agree(id1, id2, start, 8 * j + k)
  {
    var m := MaskAt(j, start, last);
    forall h | 0 <= h < 8
      ensures ByteBit(m, h) == 1 <==> start <= 8 * j + h <= last
    {
      MaskAtBits(j, start, last, h);
    }
    FirstDifferenceInRange(m, id1[j], id2[j], 8 * j, start, last);
    BitAt(id1, j, k);
    BitAt(id2, j, k);
    AgreeBefore(id1, id2, start, last, j, k);
  }

  /** The first byte that disagrees under its mask, and the lowest bit in which it does. */
  method FirstDifferentByte(id1: ID, id2: ID, si: nat, ti: nat, sm: Byte, tm: Byte)
      returns (j: nat, k: nat, found: bool)
    requires si <= ti < |id1| == |id2|
    ensures !found ==> Bytewise(id1, id2, si, ti, sm, tm)
    ensures found ==> si <= j <= ti && !EqualUnder(Pick(j, si, ti, sm, tm), id1[j], id2[j])
    ensures found ==> k == MaskedDifference(Pick(j, si, ti, sm, tm), id1[j], id2[j])
    ensures found ==> forall i :: si <= i < j ==> EqualUnder(Pick(i, si, ti, sm, tm), id1[i], id2[i])
  {
    if si == ti {
      return si, MaskedDifference(sm & tm, id1[si], id2[si]), !EqualUnder(sm & tm, id1[si], id2[si]);
    }

    if !EqualUnder(sm, id1[si], id2[si]) {
      return si, MaskedDifference(sm, id1[si], id2[si]), true;
    }

    for i := si + 1 to ti
      invariant forall h :: si <= h < i ==> EqualUnder(Pick(h, si, ti, sm, tm), id1[h], id2[h])
    {
      EqualUnderAllOnes(id1[i], id2[i]);
      if id1[i] != id2[i] {
        UnmaskedDifference(id1[i], id2[i]);
        return i, TrailingZeros(id1[i] ^ id2[i]), true;
      }
    }

    return ti, MaskedDifference(tm, id1[ti], id2[ti]), !EqualUnder(tm, id1[ti], id2[ti]);
  }

  lemma MasksAtEnds(id1: ID, id2: ID, start: nat, last: nat)
    requires |id1| == |id2| && start <= last < |id1| * BITS_PER_BYTE
    ensures forall j :: start / 8 <= j <= last / 8 ==>
      && MaskAt(j, start, last) == Pick(j, start / 8, last / 8, StartMask(start % 8), StopMask(last % 8))
      && (ByteAgrees(id1, id2, j, start, last) <==>
          EqualUnder(Pick(j, start / 8, last / 8, StartMask(start % 8), StopMask(last % 8)), id1[j], id2[j]))
  {
    forall j | start / 8 <= j <= last / 8
      ensures MaskAt(j, start, last) == Pick(j, start / 8, last / 8, StartMask(start % 8), StopMask(last % 8))
    {
      MaskAtEnds(j, start, last);
    }
  }

  /** The first bit in the range in which the IDs differ; none exactly when EqualSubset holds. */
  method FirstDifferenceSubset(start: nat, stop: int, id1: ID, id2: ID) returns (index: nat, found: bool)
    requires |id1| == |id2|
    ensures found ==> start <= index < stop <= |id1| * BITS_PER_BYTE
    ensures found ==> Bit(id1, index) != Bit(id2, index) && Agree(id1, id2, start, index)
    ensures !found ==> index == 0
    ensures stop <= |id1| * BITS_PER_BYTE ==> (found <==> !EqualSubset(start, stop, id1, id2))
  {
    var last := stop - 1;
    if start > last || last < 0 || last >= |id1| * BITS_PER_BYTE {
      return 0, false;
    }
    EqualSubsetIsAgreement(start, stop, id1, id2);
    AgreeByBytes(id1, id2, start, last);
    MasksAtEnds(id1, id2, start, last);
    var j, k, differs := FirstDifferentByte(id1, id2, start / BITS_PER_BYTE, last / BITS_PER_BYTE,
                                            StartMask(start % BITS_PER_BYTE), StopMask(last % BITS_PER_BYTE));
    if !differs {
      return 0, false;
    }
    FirstByteHasFirstDifference(id1, id2, start, last, j, k);
    return k + j * BITS_PER_BYTE, true;
  }
}
