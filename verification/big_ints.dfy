/**
 Unbounded non-negative integers used as sets of bits, with their minimal big-endian bytes.
 */
module BigInts {
  type Byte = x: int | 0 <= x < 256

  predicate Bit(n: nat, i: nat) {
    if i == 0 then n % 2 == 1 else Bit(n / 2, i - 1)
  }

  function SetBit(n: nat, i: nat): nat {
    if i == 0 then (if n % 2 == 1 then n else n + 1) else 2 * SetBit(n / 2, i - 1) + n % 2
  }

  function BitLen(n: nat): nat {
    if n == 0 then 0 else 1 + BitLen(n / 2)
  }

  function ToBytes(n: nat): seq<Byte> {
    if n == 0 then [] else ToBytes(n / 256) + [n % 256]
  }

  function FromBytes(b: seq<Byte>): nat {
    if b == [] then 0 else FromBytes(b[..|b| - 1]) * 256 + b[|b| - 1]
  }

  function Pow2(k: nat): (p: nat)
    ensures p > 0
  {
    if k == 0 then 1 else 2 * Pow2(k - 1)
  }

  lemma {:induction false} BitLenBound(n: nat, k: nat)
    requires n < Pow2(k)
    ensures BitLen(n) <= k
  {
    if n != 0 {
      BitLenBound(n / 2, k - 1);
    }
  }

  /** Setting a bit sets that bit and leaves the others. */
  lemma {:induction false} SetBitBits(n: nat, i: nat, j: nat)
    ensures Bit(SetBit(n, i), j) <==> j == i || Bit(n, j)
  {
    if i == 0 {
      if j > 0 && n % 2 == 0 {
        assert (n + 1) / 2 == n / 2;
      }
    } else if j > 0 {
      SetBitBits(n / 2, i - 1, j - 1);
      assert SetBit(n, i) / 2 == SetBit(n / 2, i - 1);
    }
  }

  lemma {:induction false} ZeroHasNoBits(j: nat)
    ensures !Bit(0, j)
  {
    if j > 0 {
      ZeroHasNoBits(j - 1);
    }
  }

  /** All bits lie below the bit length. */
  lemma {:induction false} BitBelowLen(n: nat, i: nat)
    requires Bit(n, i)
    ensures i < BitLen(n)
  {
    if n == 0 {
      ZeroHasNoBits(i);
    } else if i > 0 {
      BitBelowLen(n / 2, i - 1);
    }
  }

  /** The bit below the bit length is set. */
  lemma {:induction false} TopBit(n: nat)
    requires n != 0
    ensures Bit(n, BitLen(n) - 1)
  {
    if n / 2 != 0 {
      TopBit(n / 2);
    }
  }

  /** Numbers with the same bits are the same. */
  lemma {:induction false} SameBits(a: nat, b: nat)
    requires forall i: nat :: Bit(a, i) <==> Bit(b, i)
    ensures a == b
    decreases a
  {
    if a == 0 {
      if b != 0 {
        TopBit(b);
        ZeroHasNoBits(BitLen(b) - 1);
      }
    } else {
      forall i: nat
        ensures Bit(a / 2, i) <==> Bit(b / 2, i)
      {
        assert Bit(a, i + 1) <==> Bit(b, i + 1);
      }
      SameBits(a / 2, b / 2);
      assert Bit(a, 0) <==> Bit(b, 0);
    }
  }

  lemma {:induction false} BytesRoundTrip(n: nat)
    ensures FromBytes(ToBytes(n)) == n
  {
    if n != 0 {
      BytesRoundTrip(n / 256);
      assert ToBytes(n)[..|ToBytes(n)| - 1] == ToBytes(n / 256);
    }
  }
}
