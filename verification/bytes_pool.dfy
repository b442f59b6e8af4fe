/**
 The pool of byte buffers. Bucket i makes buffers of length 2^i - 1; a buffer that is given back goes to the largest
 bucket it can serve.
 */
module BytesPool {
  import opened BigInts

  const INT_SIZE: nat := 64

  /** A buffer; `name` tells buffers of equal capacity apart. */
  datatype Buffer = Buffer(name: nat, capacity: nat)

  lemma {:induction false} BelowPow2(n: nat)
    ensures n < Pow2(BitLen(n))
    ensures n > 0 ==> Pow2(BitLen(n) - 1) <= n
  {
    if n > 0 {
      BelowPow2(n / 2);
    }
  }

  /** The length of the buffers that a bucket makes. */
  function SizeOf(bucket: nat): nat {
    Pow2(bucket) - 1
  }

  lemma {:induction false} Pow2Grows(j: nat, k: nat)
    requires j <= k
    ensures Pow2(j) <= Pow2(k)
  {
    if j < k {
      Pow2Grows(j, k - 1);
    }
  }

  /** The bucket for a length is the first one whose buffers are long enough. */
  lemma GetBucket(length: nat, i: nat)
    ensures length <= SizeOf(i) <==> BitLen(length) <= i
  {
    BelowPow2(length);
    if BitLen(length) <= i {
      Pow2Grows(BitLen(length), i);
    } else {
      Pow2Grows(i, BitLen(length) - 1);
    }
  }

  /** The bucket for a buffer is the last one whose size it has. */
  lemma PutBucket(capacity: nat, i: nat)
    ensures BitLen(capacity + 1) >= 1
    ensures SizeOf(i) <= capacity <==> i <= BitLen(capacity + 1) - 1
  {
    BelowPow2(capacity + 1);
    if i <= BitLen(capacity + 1) - 1 {
      Pow2Grows(i, BitLen(capacity + 1) - 1);
    } else {
      Pow2Grows(BitLen(capacity + 1), i);
    }
  }

  class Pool {
    var buckets: seq<multiset<Buffer>>
    var names: nat

    ghost predicate Valid()
      reads this
    {
      && |buckets| == INT_SIZE
      && forall i, b :: 0 <= i < |buckets| && b in buckets[i] ==> SizeOf(i) <= b.capacity
    }

    constructor ()
      ensures Valid() && forall i :: 0 <= i < |buckets| ==> buckets[i] == multiset{}
    {
      buckets := seq(INT_SIZE, _ => multiset{});
      names := 0;
    }

    /** A buffer of at least the requested length: one that was given back, or a new one. `reuse` picks among those. */
    method Get(length: nat, reuse: bool) returns (b: Buffer)
      requires Valid() && length < Pow2(INT_SIZE - 1)
      modifies this
      ensures Valid() && length <= b.capacity
      ensures BitLen(length) < INT_SIZE
      ensures var i := BitLen(length);
        if reuse && old(buckets)[i] != multiset{}
        then b in old(buckets)[i] && buckets == old(buckets)[i := old(buckets)[i] - multiset{b}]
        else b.capacity == SizeOf(i) && buckets == old(buckets)
    {
      BitLenBound(length, INT_SIZE - 1);
      GetBucket(length, BitLen(length));
      var index := BitLen(length);
      if reuse && buckets[index] != multiset{} {
        b :| b in buckets[index];
        buckets := buckets[index := buckets[index] - multiset{b}];
      } else {
        b := Buffer(names, SizeOf(index));
        names := names + 1;
      }
    }

    /** Gives a buffer back to the largest bucket that it can serve. */
    method Put(b: Buffer) returns (ghost bucket: nat)
      requires Valid() && b.capacity < Pow2(INT_SIZE - 1)
      modifies this
      ensures Valid()
      ensures bucket < INT_SIZE && SizeOf(bucket) <= b.capacity < SizeOf(bucket + 1)
      ensures buckets == old(buckets)[bucket := old(buckets)[bucket] + multiset{b}]
    {
      hide Pow2, BitLen, SizeOf;
      PutIndex(b.capacity);
      var index := BitLen(b.capacity + 1) - 1;
      PutBucket(b.capacity, index);
      PutBucket(b.capacity, index + 1);
      buckets := buckets[index := buckets[index] + multiset{b}];
      bucket := index;
    }
  }

  lemma PutIndex(capacity: nat)
    requires capacity < Pow2(INT_SIZE - 1)
    ensures 1 <= BitLen(capacity + 1) <= INT_SIZE
  {
    BitLenBound(capacity + 1, INT_SIZE);
  }
}
