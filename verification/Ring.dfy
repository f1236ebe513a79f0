/** The fixed-size ring buffers of the monitor: they keep the last `N` values added. */
module Ring {
  import opened Common

  /** The last `n` elements. */
  function Keep<T>(s: seq<T>, n: nat): (r: seq<T>) {
    if |s| <= n then s else s[|s| - n..]
  }

  /** Dropping old values as they come is dropping them once at the end. */
  lemma KeepKeep<T>(s: seq<T>, more: seq<T>, n: nat)
    ensures Keep(Keep(s, n) + more, n) == Keep(s + more, n)
  {
    if |s| > n {
      var cut := |s| - n;
      assert Keep(s, n) + more == (s + more)[cut..];
    }
  }

  lemma SlotMod(k: nat, n: nat)
    requires 0 < n && k < 2 * n
    ensures k % n == if k < n then k else k - n
  {
    var q: int := if k < n then 0 else 1;
    var d: int := k / n - q;
    assert d * n == (k / n) * n - q * n;
    assert d >= 1 ==> d * n >= n;
    assert d <= -1 ==> d * n <= -(n as int);
  }

  /** The slot of the `i`-th oldest of `count` values when `next` is the slot to write. */
  function Slot(n: nat, next: nat, count: nat, i: nat): (k: nat)
    requires next < n && i < count <= n
    ensures k < n
  {
    var k := next + n - count + i;
    if k < n then k else k - n
  }

  /** The values held, oldest first. */
  function Held<T>(values: seq<T>, next: nat, count: nat): (s: seq<T>)
    requires next < |values| && count <= |values|
    ensures |s| == count
  {
    seq(count, i requires 0 <= i < count => values[Slot(|values|, next, count, i)])
  }

  /** Writing one slot and moving on is appending, and dropping the oldest value of a full ring. */
  lemma AddHeld<T>(values: seq<T>, next: nat, count: nat, value: T)
    requires next < |values| && count <= |values|
    ensures var n := |values|;
      Held(values[next := value], if next + 1 < n then next + 1 else 0, Min(count + 1, n))
      == Keep(Held(values, next, count) + [value], n)
  {
    var n := |values|;
    var after := Held(values[next := value], if next + 1 < n then next + 1 else 0, Min(count + 1, n));
    var all := Held(values, next, count) + [value];
    var oldest := if count < n then 0 else 1;
    forall i | 0 <= i < Min(count + 1, n) ensures after[i] == all[i + oldest] {
      if i + oldest < count {
        assert Slot(n, if next + 1 < n then next + 1 else 0, Min(count + 1, n), i) == Slot(n, next, count, i + oldest);
      }
    }
  }

  class Buffer<T> {
    var values: array<T>
    var next: nat
    var count: nat

    ghost predicate Valid()
      reads this
    {
      next < values.Length && count <= values.Length
    }

    ghost function Contents(): (s: seq<T>)
      requires Valid()
      reads this, values
      ensures |s| == count
    {
      Held(values[..], next, count)
    }

    constructor (capacity: nat, empty: T)
      requires capacity > 0
      ensures Valid() && fresh(values) && values.Length == capacity && Contents() == []
    {
      values := new T[capacity](_ => empty);
      next := 0;
      count := 0;
    }

    method Add(value: T)
      requires Valid()
      modifies this`next, this`count, values
      ensures Valid() && Contents() == Keep(old(Contents()) + [value], values.Length)
    {
      hide Held, Keep;
      AddHeld(values[..], next, count, value);
      values[next] := value;
      assert values[..] == old(values[..])[old(next) := value];
      SlotMod(next + 1, values.Length);
      next := (next + 1) % values.Length;
      count := if count + 1 < values.Length then count + 1 else values.Length;
    }

    method Iter() returns (s: seq<T>)
      requires Valid()
      ensures s == Contents()
    {
      s := [];
      for i := 0 to count
        invariant |s| == i
        invariant forall k :: 0 <= k < i ==> s[k] == Contents()[k]
      {
        SlotMod(next + values.Length - count + i, values.Length);
        s := s + [values[(next + values.Length - count + i) % values.Length]];
      }
    }

    method Last() returns (r: Option<T>)
      requires Valid()
      ensures r == if Contents() == [] then None else Some(Contents()[|Contents()| - 1])
    {
      if count == 0 {
        r := None;
      } else {
        SlotMod(next + values.Length - 1, values.Length);
        r := Some(values[(next + values.Length - 1) % values.Length]);
      }
    }

    /** A reset forgets the values without touching the slots. */
    method Clear()
      requires Valid()
      modifies this`next, this`count
      ensures Valid() && Contents() == []
    {
      next := 0;
      count := 0;
    }
  }

  /** A ring after a whole run of additions: each value enters, the oldest leaves when it is full. */
  function Added<T>(kept: seq<T>, values: seq<T>, n: nat): seq<T>
    decreases values
  {
    if values == [] then kept else Added(Keep(kept + [values[0]], n), values[1..], n)
  }

  /** Whatever was added, the ring holds exactly the last `n` values, in order. */
  lemma {:induction false} AddedKeepsLast<T>(kept: seq<T>, values: seq<T>, n: nat)
    requires |kept| <= n
    ensures Added(kept, values, n) == Keep(kept + values, n)
    decreases values
  {
    if values == [] {
      assert kept + values == kept;
    } else {
      AddedKeepsLast(Keep(kept + [values[0]], n), values[1..], n);
      KeepKeep(kept + [values[0]], values[1..], n);
      assert kept + [values[0]] + values[1..] == kept + values;
    }
  }
}
