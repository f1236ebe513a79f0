/** The cache of AT responses, which is cut to a size by dropping the oldest responses. */
module AtCache {
  const LIMIT: nat := 1024 * 1024

  /** A cached response; `running` while a command is filling it. The cache lists them in any order. */
  datatype Slot = Slot(key: string, size: nat, updated: nat, running: bool)

  function Size(cache: seq<Slot>): nat {
    if cache == [] then 0 else cache[0].size + Size(cache[1..])
  }

  /** What may be dropped: neither the response just asked for nor one that is being filled. */
  predicate Idle(s: Slot, keep: string) {
    s.key != keep && !s.running
  }

  /** The first of the oldest idle slots, or the length of the cache if none is idle. */
  function Oldest(cache: seq<Slot>, keep: string): (k: nat)
    ensures k <= |cache|
    ensures k < |cache| ==> Idle(cache[k], keep)
    ensures k < |cache| ==> forall i :: 0 <= i < |cache| && Idle(cache[i], keep) ==>
      cache[k].updated <= cache[i].updated
    ensures k == |cache| ==> forall i :: 0 <= i < |cache| ==> !Idle(cache[i], keep)
  {
    if cache == [] then 0
    else
      var rest := cache[1..];
      var k := Oldest(rest, keep);
      assert forall i :: 0 < i < |cache| ==> cache[i] == rest[i - 1];
      if Idle(cache[0], keep) && (k == |rest| || cache[0].updated <= rest[k].updated) then 0 else k + 1
  }

  function Without(cache: seq<Slot>, k: nat): (r: seq<Slot>)
    requires k < |cache|
    ensures |r| == |cache| - 1
  {
    cache[..k] + cache[k + 1..]
  }

  function Trimmed(cache: seq<Slot>, keep: string): seq<Slot>
    decreases |cache|
  {
    var k := Oldest(cache, keep);
    if Size(cache) <= LIMIT || k == |cache| then cache else Trimmed(Without(cache, k), keep)
  }

  /** The loop; it ends because each round drops a slot. */
  method TrimCache(cache: seq<Slot>, keep: string) returns (r: seq<Slot>)
    ensures r == Trimmed(cache, keep)
  {
    r := cache;
    while Size(r) > LIMIT
      invariant Trimmed(r, keep) == Trimmed(cache, keep)
      decreases |r|
    {
      var k := Oldest(r, keep);
      if k == |r| {
        return;
      }
      r := Without(r, k);
    }
  }

  lemma {:induction false} SizeConcat(a: seq<Slot>, b: seq<Slot>)
    ensures Size(a + b) == Size(a) + Size(b)
  {
    if a == [] {
      assert a + b == b;
    } else {
      assert (a + b)[1..] == a[1..] + b;
      SizeConcat(a[1..], b);
    }
  }

  lemma SizeWithout(cache: seq<Slot>, k: nat)
    requires k < |cache|
    ensures Size(cache) == Size(Without(cache, k)) + cache[k].size
  {
    SizeConcat(cache[..k], cache[k..]);
    SizeConcat(cache[..k], cache[k + 1..]);
    assert cache[..k] + cache[k..] == cache;
  }

  lemma WithoutHas(cache: seq<Slot>, k: nat)
    requires k < |cache|
    ensures multiset(cache) == multiset(Without(cache, k)) + multiset{cache[k]}
  {
    assert cache == cache[..k] + [cache[k]] + cache[k + 1..];
  }

  /** What is dropped, in the order in which it is. */
  function Dropped(cache: seq<Slot>, keep: string): seq<Slot>
    decreases |cache|
  {
    var k := Oldest(cache, keep);
    if Size(cache) <= LIMIT || k == |cache| then [] else [cache[k]] + Dropped(Without(cache, k), keep)
  }

  lemma {:induction false} NothingIsLost(cache: seq<Slot>, keep: string)
    ensures multiset(cache) == multiset(Trimmed(cache, keep)) + multiset(Dropped(cache, keep))
    decreases |cache|
  {
    hide Size;
    var k := Oldest(cache, keep);
    if Size(cache) > LIMIT && k < |cache| {
      WithoutHas(cache, k);
      NothingIsLost(Without(cache, k), keep);
    }
  }

  lemma {:induction false} StaysInCache(cache: seq<Slot>, keep: string)
    ensures forall s :: s in Trimmed(cache, keep) ==> s in cache
    decreases |cache|
  {
    hide Size;
    var k := Oldest(cache, keep);
    if Size(cache) > LIMIT && k < |cache| {
      StaysInCache(Without(cache, k), keep);
    }
  }

  lemma {:induction false} OldestGoFirst(cache: seq<Slot>, keep: string)
    ensures forall d :: d in Dropped(cache, keep) ==> Idle(d, keep)
    ensures forall d, s :: d in Dropped(cache, keep) && s in Trimmed(cache, keep) && Idle(s, keep) ==>
      d.updated <= s.updated
    decreases |cache|
  {
    var k := Oldest(cache, keep);
    if Size(cache) > LIMIT && k < |cache| {
      var next := Without(cache, k);
      StaysInCache(next, keep);
      OldestGoFirst(next, keep);
      assert forall s :: s in next ==> s in cache;
      assert forall s :: s in cache && Idle(s, keep) ==> cache[k].updated <= s.updated;
      hide Size, Without, Oldest;
    }
  }

  lemma {:induction false} NoMoreThanNeeded(cache: seq<Slot>, keep: string)
    ensures var r, d := Trimmed(cache, keep), Dropped(cache, keep);
      && (Size(r) <= LIMIT || forall s :: s in r ==> !Idle(s, keep))
      && (d != [] ==> Size(r) + d[|d| - 1].size > LIMIT)
    decreases |cache|
  {
    var k := Oldest(cache, keep);
    if Size(cache) > LIMIT && k < |cache| {
      SizeWithout(cache, k);
      NoMoreThanNeeded(Without(cache, k), keep);
    }
  }

  /**
   What is left fits, or nothing more may be dropped. What was dropped was idle and no newer than any idle
   slot that stayed; and no more was dropped than had to be.
   */
  lemma TrimDropsOldest(cache: seq<Slot>, keep: string)
    ensures var r, d := Trimmed(cache, keep), Dropped(cache, keep);
      && multiset(cache) == multiset(r) + multiset(d)
      && (Size(r) <= LIMIT || forall s :: s in r ==> !Idle(s, keep))
      && (forall x :: x in d ==> Idle(x, keep))
      && (forall x, s :: x in d && s in r && Idle(s, keep) ==> x.updated <= s.updated)
      && (d != [] ==> Size(r) + d[|d| - 1].size > LIMIT)
  {
    hide *;
    NothingIsLost(cache, keep);
    OldestGoFirst(cache, keep);
    NoMoreThanNeeded(cache, keep);
  }

  /** The limit is one mebibyte of responses: a cache within it is left alone, one beyond it loses what it may. */
  lemma TrimmedExactly(cache: seq<Slot>, keep: string)
    ensures Trimmed(cache, keep) == cache <==>
      (Size(cache) <= 1_048_576 || forall s :: s in cache ==> s.key == keep || s.running)
  {
    var k := Oldest(cache, keep);
    if k == |cache| {
      assert forall s :: s in cache ==> !Idle(s, keep);
    } else {
      assert cache[k] in cache && Idle(cache[k], keep);
      if Size(cache) > LIMIT {
        TrimmedIsNoLonger(Without(cache, k), keep);
      }
    }
  }

  lemma {:induction false} TrimmedIsNoLonger(cache: seq<Slot>, keep: string)
    ensures |Trimmed(cache, keep)| <= |cache|
    decreases |cache|
  {
    hide Size;
    var k := Oldest(cache, keep);
    if Size(cache) > LIMIT && k < |cache| {
      TrimmedIsNoLonger(Without(cache, k), keep);
    }
  }
}
