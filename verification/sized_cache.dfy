/**
 A cache bounded by the total size of its entries, which drops the least recently used entries first.
 */
module SizedCache {
  import opened Wrappers

  datatype Entry<K, V> = Entry(key: K, value: V, size: nat)

  function Sum<K, V>(s: seq<Entry<K, V>>): nat {
    if s == [] then 0 else s[0].size + Sum(s[1..])
  }

  lemma {:induction false} SumConcat<K, V>(a: seq<Entry<K, V>>, b: seq<Entry<K, V>>)
    ensures Sum(a + b) == Sum(a) + Sum(b)
  {
    if a == [] {
      assert a + b == b;
    } else {
      SumConcat(a[1..], b);
      assert (a + b)[1..] == a[1..] + b;
    }
  }

  ghost predicate DistinctKeys<K, V>(s: seq<Entry<K, V>>) {
    forall i, j :: 0 <= i < j < |s| ==> s[i].key != s[j].key
  }

  /** The position of a key, or the length if there is none. */
  function Find<K(==), V>(s: seq<Entry<K, V>>, key: K): (i: nat)
    ensures i <= |s| && (i < |s| ==> s[i].key == key)
    ensures forall j :: 0 <= j < i ==> s[j].key != key
  {
    if s == [] || s[0].key == key then 0 else 1 + Find(s[1..], key)
  }

  function RemoveAt<T>(s: seq<T>, i: nat): (r: seq<T>)
    requires i < |s|
    ensures |r| == |s| - 1
    ensures forall k :: 0 <= k < |r| ==> r[k] == s[Shift(i, k)]
  {
    s[..i] + s[i + 1..]
  }

  /** Where a remaining position was before position `i` was removed. */
  function Shift(i: nat, k: nat): nat {
    if k < i then k else k + 1
  }

  function Without<K(==), V>(s: seq<Entry<K, V>>, key: K): seq<Entry<K, V>> {
    var i := Find(s, key);
    if i < |s| then RemoveAt(s, i) else s
  }

  /** Oldest entries are dropped until the rest fits. */
  function Fit<K, V>(s: seq<Entry<K, V>>, room: nat): seq<Entry<K, V>> {
    if Sum(s) <= room then s else Fit(s[1..], room)
  }

  function AfterPut<K(==), V>(s: seq<Entry<K, V>>, max: int, e: Entry<K, V>): seq<Entry<K, V>> {
    if e.size > max then [] else Fit(Without(s, e.key), max - e.size) + [e]
  }

  function Touched<K(==), V>(s: seq<Entry<K, V>>, key: K): seq<Entry<K, V>> {
    var i := Find(s, key);
    if i < |s| then Without(s, key) + [s[i]] else s
  }

  /** The entries that are kept are the longest run of the newest ones that fits. */
  lemma {:induction false} FitIsLongest<K, V>(s: seq<Entry<K, V>>, room: nat) returns (n: nat)
    ensures n <= |s| && Fit(s, room) == s[n..] && Sum(s[n..]) <= room
    ensures forall m :: 0 <= m < n ==> Sum(s[m..]) > room
  {
    if Sum(s) <= room {
      n := 0;
      assert s[0..] == s;
    } else {
      var k := FitIsLongest(s[1..], room);
      n := k + 1;
      assert s[1..][k..] == s[n..];
      forall m | 0 <= m < n
        ensures Sum(s[m..]) > room
      {
        if m == 0 {
          assert s[0..] == s;
        } else {
          assert s[1..][m - 1..] == s[m..];
        }
      }
    }
  }

  lemma {:induction false} RemoveAtSum<K, V>(s: seq<Entry<K, V>>, i: nat)
    requires i < |s|
    ensures Sum(s) == Sum(RemoveAt(s, i)) + s[i].size
    decreases i
  {
    if i == 0 {
      assert RemoveAt(s, 0) == s[1..];
    } else {
      RemoveAtSum(s[1..], i - 1);
      assert RemoveAt(s, i)[1..] == RemoveAt(s[1..], i - 1);
    }
  }

  lemma RemoveAtElements<K, V>(s: seq<Entry<K, V>>, i: nat, e: Entry<K, V>)
    requires i < |s| && DistinctKeys(s)
    ensures e in RemoveAt(s, i) <==> e in s && e.key != s[i].key
  {
    if e in s && e.key != s[i].key {
      var j :| 0 <= j < |s| && s[j] == e;
      assert e == RemoveAt(s, i)[if j < i then j else j - 1];
    }
    if e in RemoveAt(s, i) {
      var k :| 0 <= k < |s| - 1 && RemoveAt(s, i)[k] == e;
      assert e == s[Shift(i, k)];
    }
  }

  /** Exactly the entry of the key goes. */
  lemma WithoutRemoves<K, V>(s: seq<Entry<K, V>>, key: K)
    requires DistinctKeys(s)
    ensures DistinctKeys(Without(s, key))
    ensures forall e :: e in Without(s, key) <==> e in s && e.key != key
    ensures Sum(s) == Sum(Without(s, key)) + if Find(s, key) < |s| then s[Find(s, key)].size else 0
  {
    var i := Find(s, key);
    if i < |s| {
      RemoveAtSum(s, i);
      forall e
        ensures e in RemoveAt(s, i) <==> e in s && e.key != key
      {
        RemoveAtElements(s, i, e);
      }
    }
  }

  // ---------------------------------------------------------------------------------------
  // The cache.
  // ---------------------------------------------------------------------------------------

  class Cache<K(==), V> {
    var elements: seq<Entry<K, V>>
    var currentSize: int
    const maxSize: int
    const size: (K, V) -> nat

    ghost predicate Valid()
      reads this
    {
      && DistinctKeys(elements)
      && currentSize == Sum(elements)
      && (elements != [] ==> currentSize <= maxSize)
    }

    constructor (maxSize: int, size: (K, V) -> nat)
      ensures Valid() && elements == [] && this.maxSize == maxSize && this.size == size
    {
      elements, currentSize := [], 0;
      this.maxSize, this.size := maxSize, size;
    }

    method Flush()
      modifies this
      ensures Valid() && elements == []
    {
      elements, currentSize := [], 0;
    }

    method Evict(key: K)
      requires Valid()
      modifies this
      ensures Valid() && elements == Without(old(elements), key)
    {
      WithoutRemoves(elements, key);
      var i := Find(elements, key);
      if i < |elements| {
        var e := elements[i];
        elements := Without(elements, key);
        currentSize := currentSize - e.size;
      }
    }

    method Put(key: K, value: V)
      requires Valid()
      modifies this
      ensures Valid()
      ensures elements == AfterPut(old(elements), maxSize, Entry(key, value, size(key, value)))
      ensures KeepsNewest(old(elements), maxSize, Entry(key, value, size(key, value)), elements)
    {
      hide Without, Fit, KeepsNewest, DistinctKeys, Sum;
      PutKeepsNewest(elements, maxSize, Entry(key, value, size(key, value)));
      var newSize := size(key, value);
      if newSize > maxSize {
        Flush();
        return;
      }
      Evict(key);
      var entry := Entry(key, value, newSize);
      WithoutRemoves(old(elements), key);
      MakeRoom(maxSize - newSize);
      AppendEntry(elements, entry);
      elements := elements + [entry];
      currentSize := currentSize + newSize;
    }

    /** Drops the oldest entries until the rest fits. */
    method MakeRoom(room: nat)
      requires DistinctKeys(elements) && currentSize == Sum(elements)
      modifies this
      ensures elements == Fit(old(elements), room) && currentSize == Sum(elements) <= room
      ensures DistinctKeys(elements) && forall e :: e in elements ==> e in old(elements)
    {
      while currentSize > room
        invariant DistinctKeys(elements) && currentSize == Sum(elements)
        invariant forall e :: e in elements ==> e in old(elements)
        invariant Fit(elements, room) == Fit(old(elements), room)
        decreases |elements|
      {
        currentSize := currentSize - elements[0].size;
        elements := elements[1..];
      }
    }

    /** The value of a key, which becomes the most recently used. */
    method Get(key: K) returns (r: Option<V>)
      requires Valid()
      modifies this
      ensures Valid() && elements == Touched(old(elements), key)
      ensures r == if Find(old(elements), key) < |old(elements)|
        then Some(old(elements)[Find(old(elements), key)].value) else None
    {
      var i := Find(elements, key);
      if i == |elements| {
        return None;
      }
      var e := elements[i];
      WithoutRemoves(elements, key);
      AppendEntry(Without(elements, key), e);
      elements := Without(elements, key) + [e];
      return Some(e.value);
    }
  }

  lemma AppendEntry<K, V>(s: seq<Entry<K, V>>, e: Entry<K, V>)
    requires DistinctKeys(s) && forall x :: x in s ==> x.key != e.key
    ensures DistinctKeys(s + [e]) && Sum(s + [e]) == Sum(s) + e.size
  {
    SumConcat(s, [e]);
  }

  /** Asking for a key only changes the order of the entries. */
  lemma TouchedKeepsEntries<K, V>(s: seq<Entry<K, V>>, key: K)
    requires DistinctKeys(s)
    ensures forall e :: e in Touched(s, key) <==> e in s
  {
    WithoutRemoves(s, key);
    var i := Find(s, key);
    forall e | e in s && e.key == key
      ensures e == s[i]
    {
      var j :| 0 <= j < |s| && s[j] == e;
    }
  }

  /** The size of all entries but that of a key. */
  function SizeWithout<K(==), V>(s: seq<Entry<K, V>>, key: K): nat {
    if s == [] then 0 else (if s[0].key == key then 0 else s[0].size) + SizeWithout(s[1..], key)
  }

  lemma {:induction false} NoneWithout<K, V>(s: seq<Entry<K, V>>, key: K)
    requires forall x :: x in s ==> x.key != key
    ensures SizeWithout(s, key) == Sum(s)
  {
    if s != [] {
      assert s[0] in s;
      NoneWithout(s[1..], key);
    }
  }

  lemma {:induction false} WithoutSize<K, V>(s: seq<Entry<K, V>>, key: K)
    requires DistinctKeys(s)
    ensures Sum(Without(s, key)) == SizeWithout(s, key)
  {
    if s != [] {
      if s[0].key == key {
        assert Without(s, key) == s[1..];
        NoneWithout(s[1..], key);
      } else {
        WithoutSize(s[1..], key);
        WithoutCons(s, key);
        assert Without(s, key)[1..] == Without(s[1..], key);
      }
    }
  }

  lemma WithoutCons<K, V>(s: seq<Entry<K, V>>, key: K)
    requires s != [] && s[0].key != key
    ensures Without(s, key) == [s[0]] + Without(s[1..], key)
  {
  }

  lemma FitDrops<K, V>(s: seq<Entry<K, V>>, room: nat)
    requires Sum(s) > room
    ensures s != [] && Fit(s, room) == Fit(s[1..], room)
  {
  }

  lemma DropIsDistinct<K, V>(s: seq<Entry<K, V>>)
    requires DistinctKeys(s) && s != []
    ensures DistinctKeys(s[1..]) && s[0] !in s[1..]
  {
  }

  lemma {:induction false} FitKeeps<K, V>(s: seq<Entry<K, V>>, key: K, room: nat, i: nat)
    requires DistinctKeys(s) && i < |s| && s[i].key != key
    ensures s[i] in Fit(Without(s, key), room) <==> SizeWithout(s[i..], key) <= room
    decreases |s|
  {
    hide Fit, Without, DistinctKeys, SizeWithout, Sum;
    WithoutSize(s, key);
    var others := Without(s, key);
    WithoutRemoves(s, key);
    if SizeWithout(s, key) <= room {
      SizeShrinks(s, key, i);
      FitKeepsAll(others, room);
    } else if s[0].key == key {
      SizeSkips(s, key, i);
      WithoutFirst(s, key);
      FitKeepsLater(s, key, room, i);
    } else {
      WithoutCons(s, key);
      assert others[1..] == Without(s[1..], key);
      FitDrops(others, room);
      DropIsDistinct(s);
      if i == 0 {
        assert s[0..] == s;
        FitIsWithin(Without(s[1..], key), room, s[0]);
        WithoutRemoves(s[1..], key);
      } else {
        FitKeeps(s[1..], key, room, i - 1);
        assert s[1..][i - 1] == s[i] && s[1..][i - 1..] == s[i..];
      }
    }
  }

  lemma FitKeepsAll<K, V>(s: seq<Entry<K, V>>, room: nat)
    requires Sum(s) <= room
    ensures Fit(s, room) == s
  {
  }

  lemma WithoutFirst<K, V>(s: seq<Entry<K, V>>, key: K)
    requires s != [] && s[0].key == key
    ensures Without(s, key) == s[1..]
  {
  }

  lemma FitKeepsLater<K, V>(s: seq<Entry<K, V>>, key: K, room: nat, i: nat)
    requires DistinctKeys(s) && 0 < i < |s| && s[0].key == key
    ensures s[i] in Fit(s[1..], room) <==> SizeWithout(s[i..], key) <= room
  {
    hide Fit, Sum, SizeWithout;
    var rest := s[1..];
    var n := FitIsLongest(rest, room);
    assert rest[i - 1..] == s[i..] && rest[i - 1] == s[i];
    NoneWithout(s[i..], key);
    IsAmongLast(s, n + 1, i);
    assert rest[n..] == s[n + 1..];
    if n <= i - 1 {
      SumFrom(rest, n, i - 1);
    }
  }

  lemma IsAmongLast<K, V>(s: seq<Entry<K, V>>, n: nat, i: nat)
    requires DistinctKeys(s) && i < |s| && n <= |s|
    ensures s[i] in s[n..] <==> n <= i
  {
    if n <= i {
      assert s[n..][i - n] == s[i];
    }
  }

  lemma {:induction false} SumFrom<K, V>(s: seq<Entry<K, V>>, n: nat, i: nat)
    requires n <= i <= |s|
    ensures Sum(s[i..]) <= Sum(s[n..])
    decreases i - n
  {
    if n < i {
      assert s[n..][1..] == s[n + 1..];
      SumFrom(s, n + 1, i);
    }
  }

  lemma {:induction false} SizeShrinks<K, V>(s: seq<Entry<K, V>>, key: K, i: nat)
    requires i <= |s|
    ensures SizeWithout(s[i..], key) <= SizeWithout(s, key)
  {
    if i == 0 {
      assert s[0..] == s;
    } else {
      SizeShrinks(s[1..], key, i - 1);
      assert s[1..][i - 1..] == s[i..];
    }
  }

  lemma SizeSkips<K, V>(s: seq<Entry<K, V>>, key: K, i: nat)
    requires i < |s| && s[0].key == key && s[i].key != key
    ensures i > 0
  {
  }

  lemma FitIsWithin<K, V>(s: seq<Entry<K, V>>, room: nat, x: Entry<K, V>)
    ensures x in Fit(s, room) ==> x in s
  {
    var n := FitIsLongest(s, room);
  }

  /**
   An entry that does not fit at all empties the cache. Any other becomes the newest, and of the others exactly those
   stay that fit beside it together with all newer ones.
   */
  ghost predicate KeepsNewest<K, V>(s: seq<Entry<K, V>>, max: int, e: Entry<K, V>, t: seq<Entry<K, V>>) {
    if e.size > max then t == []
    else
      && t != [] && t[|t| - 1] == e
      && (forall x :: x in t ==> x == e || (x in s && x.key != e.key))
      && (forall i :: 0 <= i < |s| && s[i].key != e.key ==>
            (s[i] in t <==> SizeWithout(s[i..], e.key) + e.size <= max))
  }

  lemma PutKeepsNewest<K, V>(s: seq<Entry<K, V>>, max: int, e: Entry<K, V>)
    requires DistinctKeys(s)
    ensures KeepsNewest(s, max, e, AfterPut(s, max, e))
  {
    if e.size <= max {
      var others := Without(s, e.key);
      var t := AfterPut(s, max, e);
      WithoutRemoves(s, e.key);
      forall x | x in t && x != e
        ensures x in s && x.key != e.key
      {
        FitIsWithin(others, max - e.size, x);
      }
      forall i | 0 <= i < |s| && s[i].key != e.key
        ensures s[i] in t <==> SizeWithout(s[i..], e.key) + e.size <= max
      {
        FitKeeps(s, e.key, max - e.size, i);
      }
    }
  }

  // ---------------------------------------------------------------------------------------
  // Histories.
  // ---------------------------------------------------------------------------------------

  datatype Event<K, V> =
    | DidPut(entry: Entry<K, V>)
    | DidGet(key: K)
    | DidEvict(key: K)
    | DidFlush

  function Apply<K(==), V>(s: seq<Entry<K, V>>, max: int, e: Event<K, V>): seq<Entry<K, V>> {
    match e
    case DidPut(entry) => AfterPut(s, max, entry)
    case DidGet(key) => Touched(s, key)
    case DidEvict(key) => Without(s, key)
    case DidFlush => []
  }

  /** The entries after a history. */
  function Contents<K(==), V>(events: seq<Event<K, V>>, max: int): seq<Entry<K, V>> {
    if events == [] then [] else Apply(Contents(events[..|events| - 1], max), max, events[|events| - 1])
  }

  /** The last entry put for a key. */
  function LastPut<K(==), V>(events: seq<Event<K, V>>, key: K): Option<Entry<K, V>> {
    if events == [] then None
    else
      var e := events[|events| - 1];
      if e.DidPut? && e.entry.key == key then Some(e.entry) else LastPut(events[..|events| - 1], key)
  }

  /** When a key was last put or asked for, counted from 1. */
  function LastUse<K(==), V>(events: seq<Event<K, V>>, key: K): (t: nat)
    ensures t <= |events|
  {
    if events == [] then 0
    else
      var e := events[|events| - 1];
      if (e.DidPut? && e.entry.key == key) || (e.DidGet? && e.key == key) then |events|
      else LastUse(events[..|events| - 1], key)
  }

  /** Every entry is the last one put for its key, and entries are in the order of their last use. */
  ghost predicate Faithful<K, V>(events: seq<Event<K, V>>, s: seq<Entry<K, V>>) {
    && DistinctKeys(s)
    && (forall i :: 0 <= i < |s| ==> LastPut(events, s[i].key) == Some(s[i]))
    && (forall i, j :: 0 <= i < j < |s| ==> LastUse(events, s[i].key) < LastUse(events, s[j].key))
  }

  /** Some of the entries, in the same order. */
  ghost predicate Subsequence<K, V>(part: seq<Entry<K, V>>, s: seq<Entry<K, V>>, at: seq<nat>) {
    && |at| == |part|
    && (forall i :: 0 <= i < |at| ==> at[i] < |s| && part[i] == s[at[i]])
    && (forall i, j :: 0 <= i < j < |at| ==> at[i] < at[j])
  }

  lemma PartIsFaithful<K, V>(events: seq<Event<K, V>>, part: seq<Entry<K, V>>, s: seq<Entry<K, V>>, at: seq<nat>)
    requires Faithful(events, s) && Subsequence(part, s, at)
    ensures Faithful(events, part)
  {
  }

  lemma WithoutIsFaithful<K, V>(events: seq<Event<K, V>>, s: seq<Entry<K, V>>, key: K)
    requires Faithful(events, s)
    ensures Faithful(events, Without(s, key))
  {
    var i := Find(s, key);
    if i < |s| {
      var at := seq(|s| - 1, k requires 0 <= k < |s| - 1 => Shift(i, k));
      var part := RemoveAt(s, i);
      assert forall k :: 0 <= k < |at| ==> at[k] == Shift(i, k) && part[k] == s[Shift(i, k)];
      PartIsFaithful(events, part, s, at);
    }
  }

  lemma FitIsFaithful<K, V>(events: seq<Event<K, V>>, s: seq<Entry<K, V>>, room: nat)
    requires Faithful(events, s)
    ensures Faithful(events, Fit(s, room))
    ensures forall e :: e in Fit(s, room) ==> e in s
  {
    hide Fit, Sum, Faithful;
    var n := FitIsLongest(s, room);
    PartIsFaithful(events, Fit(s, room), s, seq(|s| - n, k requires 0 <= k < |s| - n => k + n));
  }

  /** An event that is about another key, or an eviction, changes neither the last put nor the last use. */
  lemma OtherEvent<K, V>(events: seq<Event<K, V>>, e: Event<K, V>, s: seq<Entry<K, V>>)
    requires Faithful(events, s)
    requires forall i :: 0 <= i < |s| ==>
      !(e.DidPut? && e.entry.key == s[i].key) && !(e.DidGet? && e.key == s[i].key)
    ensures Faithful(events + [e], s)
  {
    assert (events + [e])[..|events|] == events;
  }

  /** Appending the entry that was just used. */
  lemma AppendUsed<K, V>(events: seq<Event<K, V>>, e: Event<K, V>, s: seq<Entry<K, V>>, entry: Entry<K, V>)
    requires Faithful(events, s) && forall i :: 0 <= i < |s| ==> s[i].key != entry.key
    requires
      || (e.DidPut? && e.entry == entry)
      || (e.DidGet? && e.key == entry.key && LastPut(events, e.key) == Some(entry))
    ensures Faithful(events + [e], s + [entry])
  {
    OtherEvent(events, e, s);
    assert (events + [e])[..|events|] == events;
    assert LastUse(events + [e], entry.key) == |events| + 1;
    forall i | 0 <= i < |s|
      ensures LastUse(events + [e], s[i].key) < |events| + 1
    {
    }
  }

  lemma PutIsFaithful<K, V>(events: seq<Event<K, V>>, s: seq<Entry<K, V>>, max: int, entry: Entry<K, V>)
    requires Faithful(events, s)
    ensures Faithful(events + [DidPut(entry)], AfterPut(s, max, entry))
  {
    hide LastPut, LastUse, Fit, Without, Find;
    if entry.size <= max {
      var others := Without(s, entry.key);
      WithoutIsFaithful(events, s, entry.key);
      WithoutRemoves(s, entry.key);
      FitIsFaithful(events, others, max - entry.size);
      var kept := Fit(others, max - entry.size);
      assert forall i :: 0 <= i < |kept| ==> kept[i] in kept;
      AppendUsed(events, DidPut(entry), kept, entry);
    }
  }

  lemma GetIsFaithful<K, V>(events: seq<Event<K, V>>, s: seq<Entry<K, V>>, key: K)
    requires Faithful(events, s)
    ensures Faithful(events + [DidGet(key)], Touched(s, key))
  {
    if Find(s, key) < |s| {
      var entry := s[Find(s, key)];
      WithoutIsFaithful(events, s, key);
      WithoutRemoves(s, key);
      assert LastPut(events, entry.key) == Some(entry);
      var others := Without(s, key);
      assert forall i :: 0 <= i < |others| ==> others[i] in others;
      AppendUsed(events, DidGet(key), others, entry);
    } else {
      OtherEvent(events, DidGet(key), s);
    }
  }

  /** Over every history the cache holds, for each key it has, the last entry put, in the order of last use. */
  lemma {:induction false} ContentsAreFaithful<K, V>(events: seq<Event<K, V>>, max: int)
    ensures Faithful(events, Contents(events, max))
  {
    if events != [] {
      var front, e := events[..|events| - 1], events[|events| - 1];
      assert events == front + [e];
      ContentsAreFaithful(front, max);
      var s := Contents(front, max);
      match e
      case DidPut(entry) => PutIsFaithful(front, s, max, entry);
      case DidGet(key) => GetIsFaithful(front, s, key);
      case DidEvict(key) =>
        WithoutIsFaithful(front, s, key);
        OtherEvent(front, e, Without(s, key));
      case DidFlush =>
    }
  }

  /** A hit returns the last value put for the key. */
  lemma HitIsLastPut<K, V>(events: seq<Event<K, V>>, max: int, key: K)
    ensures var s := Contents(events, max);
      Find(s, key) < |s| ==> LastPut(events, key) == Some(s[Find(s, key)])
  {
    ContentsAreFaithful(events, max);
  }
}
