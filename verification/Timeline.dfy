/**
 Lists of samples in time order: cutting them at a time, and the client's merge of two of them,
 which goes through a map keyed by time, a filter, a sort and a slice.
 */
module Timeline {
  import opened Ring
  import Sorting

  ghost predicate Rising<T>(at: T -> nat, s: seq<T>) {
    forall i, j :: 0 <= i < j < |s| ==> at(s[i]) < at(s[j])
  }

  /** The samples later than `bound`. */
  function Later<T>(at: T -> nat, s: seq<T>, bound: int): (r: seq<T>)
    ensures |r| <= |s|
  {
    if s == [] then []
    else if at(s[0]) > bound then [s[0]] + Later(at, s[1..], bound)
    else Later(at, s[1..], bound)
  }

  /** How many samples are not later than `bound`. */
  function Early<T>(at: T -> nat, s: seq<T>, bound: int): nat {
    |s| - |Later(at, s, bound)|
  }

  /** In a rising list the later samples are a suffix. */
  lemma {:induction false} LaterIsSuffix<T>(at: T -> nat, s: seq<T>, bound: int)
    requires Rising(at, s)
    ensures Later(at, s, bound) == s[Early(at, s, bound)..]
    ensures forall i :: 0 <= i < Early(at, s, bound) ==> at(s[i]) <= bound
    ensures forall i :: Early(at, s, bound) <= i < |s| ==> at(s[i]) > bound
  {
    if s != [] {
      LaterIsSuffix(at, s[1..], bound);
      if at(s[0]) > bound {
        forall i | 0 <= i < |s| ensures at(s[i]) > bound {
          assert i > 0 ==> at(s[0]) < at(s[i]);
        }
        if |s| > 1 {
          assert at(s[1..][0]) > bound;
        }
      }
    }
  }

  /** The suffix is fixed by what lies before and after it. */
  lemma EarlyIs<T>(at: T -> nat, s: seq<T>, bound: int, k: nat)
    requires Rising(at, s) && k <= |s|
    requires k > 0 ==> at(s[k - 1]) <= bound
    requires k < |s| ==> at(s[k]) > bound
    ensures Early(at, s, bound) == k && Later(at, s, bound) == s[k..]
  {
    LaterIsSuffix(at, s, bound);
  }

  // ----- The client's merge

  /** `Map.set`: an entry with the same time is replaced where it stands, a new one goes last. */
  function Put<T>(at: T -> nat, s: seq<T>, x: T): seq<T> {
    if s == [] then [x]
    else if at(s[0]) == at(x) then [x] + s[1..]
    else [s[0]] + Put(at, s[1..], x)
  }

  function PutAll<T>(at: T -> nat, s: seq<T>, xs: seq<T>): seq<T>
    decreases xs
  {
    if xs == [] then s else PutAll(at, Put(at, s, xs[0]), xs[1..])
  }

  /** A stable sort by time. */
  function Sorted<T>(at: T -> nat, s: seq<T>): seq<T> {
    Sorting.Sort((x: T, y: T) => at(x) <= at(y), s)
  }

  /** The points by time, with the fresh ones over the old ones, cut at both ends. */
  function Merged<T>(at: T -> nat, previous: seq<T>, delta: seq<T>, cutoff: int, limit: nat): seq<T> {
    Keep(Sorted(at, Later(at, PutAll(at, PutAll(at, [], previous), delta), cutoff)), limit)
  }

  lemma {:induction false} PutNew<T>(at: T -> nat, s: seq<T>, x: T)
    requires forall i :: 0 <= i < |s| ==> at(s[i]) < at(x)
    ensures Put(at, s, x) == s + [x]
  {
    if s != [] {
      assert at(s[0]) < at(x);
      PutNew(at, s[1..], x);
    }
  }

  lemma {:induction false} PutAllNew<T>(at: T -> nat, s: seq<T>, xs: seq<T>)
    requires Rising(at, s + xs)
    ensures PutAll(at, s, xs) == s + xs
    decreases xs
  {
    if xs == [] {
      assert s + xs == s;
    } else {
      forall i | 0 <= i < |s| ensures at(s[i]) < at(xs[0]) {
        assert (s + xs)[i] == s[i] && (s + xs)[|s|] == xs[0];
      }
      PutNew(at, s, xs[0]);
      assert s + [xs[0]] + xs[1..] == s + xs;
      PutAllNew(at, s + [xs[0]], xs[1..]);
    }
  }

  lemma SortedRising<T>(at: T -> nat, s: seq<T>)
    requires Rising(at, s)
    ensures Sorted(at, s) == s
  {
    Sorting.SortOrdered((x: T, y: T) => at(x) <= at(y), s);
  }

  /** On rising lists the merge is concatenation, cut at both ends. */
  lemma MergedRising<T>(at: T -> nat, previous: seq<T>, delta: seq<T>, cutoff: int, limit: nat)
    requires Rising(at, previous + delta)
    ensures Merged(at, previous, delta, cutoff, limit) == Keep(Later(at, previous + delta, cutoff), limit)
  {
    assert previous == (previous + delta)[..|previous|] && [] + previous == previous;
    PutAllNew(at, [], previous);
    PutAllNew(at, previous, delta);
    LaterIsSuffix(at, previous + delta, cutoff);
    SortedRising(at, Later(at, previous + delta, cutoff));
  }

  /** The merge as the page runs it: a map of the old points, a loop over the fresh ones, filter, sort, slice. */
  method Merge<T>(at: T -> nat, previous: seq<T>, delta: seq<T>, cutoff: int, limit: nat) returns (r: seq<T>)
    ensures r == Merged(at, previous, delta, cutoff, limit)
  {
    var points := [];
    for i := 0 to |previous|
      invariant PutAll(at, points, previous[i..]) == PutAll(at, [], previous)
    {
      assert previous[i..][1..] == previous[i + 1..];
      points := Put(at, points, previous[i]);
    }
    for i := 0 to |delta|
      invariant PutAll(at, points, delta[i..]) == PutAll(at, PutAll(at, [], previous), delta)
    {
      assert delta[i..][1..] == delta[i + 1..];
      points := Put(at, points, delta[i]);
    }
    r := Keep(Sorted(at, Later(at, points, cutoff)), limit);
  }

  // ----- Why a delta is enough

  /** The newest time in a list, 0 when there is none. */
  function End<T>(at: T -> nat, s: seq<T>): nat {
    if s == [] then 0 else at(s[|s| - 1])
  }

  /** The window beyond the end of `kept` is what came after `kept`. */
  lemma EndOfKept<T>(at: T -> nat, kept: seq<T>, more: seq<T>, w: nat)
    requires Rising(at, kept + more) && w <= |kept + more|
    requires forall i :: w <= i < |kept + more| ==> at((kept + more)[i]) > 0
    ensures Later(at, (kept + more)[w..], End(at, kept)) == (kept + more)[if w < |kept| then |kept| else w..]
  {
    var all := kept + more;
    var d := if w < |kept| then |kept| else w;
    if kept != [] {
      assert all[|kept| - 1] == kept[|kept| - 1];
    }
    EarlyIs(at, all[w..], End(at, kept), d - w);
  }

  lemma RisingSlice<T>(at: T -> nat, s: seq<T>, i: nat, j: nat)
    requires Rising(at, s) && i <= j <= |s|
    ensures Rising(at, s[i..j]) && Rising(at, s[i..])
  {
  }

  /** Where the window of a ring that saw `all` begins: at the cutoff or at the oldest slot. */
  lemma WindowAt<T>(at: T -> nat, all: seq<T>, n: nat, cutoff: nat) returns (cut: nat, w: nat)
    requires Rising(at, all)
    ensures cut <= w <= |all| && (w == cut || |all| - w == n) && |all| - w <= n
    ensures forall i :: 0 <= i < cut ==> at(all[i]) <= cutoff
    ensures forall i :: cut <= i < |all| ==> at(all[i]) > cutoff
    ensures Later(at, Keep(all, n), cutoff) == all[w..]
  {
    hide Later;
    var start := if |all| <= n then 0 else |all| - n;
    LaterIsSuffix(at, all, cutoff);
    cut := Early(at, all, cutoff);
    w := if start < cut then cut else start;
    assert Keep(all, n) == all[start..];
    RisingSlice(at, all, start, |all|);
    assert w - start > 0 ==> all[start..][w - start - 1] == all[w - 1];
    assert w - start < |all| - start ==> all[start..][w - start] == all[w];
    EarlyIs(at, all[start..], cutoff, w - start);
    assert all[start..][w - start..] == all[w..];
  }

  /** Where the client's list begins, and that it begins no later than the new cutoff. */
  lemma ClientAt<T>(at: T -> nat, kept: seq<T>, more: seq<T>, cutoff0: nat, cutoff1: nat, cut: nat) returns (v: nat)
    requires Rising(at, kept + more) && cutoff0 <= cutoff1 && cut <= |kept + more|
    requires forall i :: cut <= i < |kept + more| ==> at((kept + more)[i]) > cutoff1
    ensures v <= cut && v <= |kept|
    ensures Later(at, kept, cutoff0) == (kept + more)[v..|kept|]
  {
    hide Later;
    var all := kept + more;
    assert kept == all[..|kept|];
    RisingSlice(at, all, 0, |kept|);
    LaterIsSuffix(at, kept, cutoff0);
    v := Early(at, kept, cutoff0);
    assert cut < |kept| ==> kept[cut] == all[cut];
    assert kept[v..] == all[v..|kept|];
  }

  /** The new window reaches back into what the client may know: the lists meet at the cursor. */
  lemma DeltaMeets<T>(at: T -> nat, all: seq<T>, k: nat, n: nat, v: nat, cut: nat, w: nat, cutoff: nat)
    requires Rising(at, all) && v <= cut <= w <= k <= |all|
    requires w == cut || |all| - w == n
    requires |all| - w <= n
    requires forall i :: 0 <= i < cut ==> at(all[i]) <= cutoff
    requires forall i :: cut <= i < |all| ==> at(all[i]) > cutoff
    ensures all[v..k] + all[k..] == all[v..]
    ensures Keep(Later(at, all[v..], cutoff), n) == all[w..]
  {
    hide Later;
    RisingSlice(at, all, v, |all|);
    EarlyIs(at, all[v..], cutoff, cut - v);
    assert all[v..][cut - v..] == all[cut..];
    assert all[cut..][w - cut..] == all[w..];
  }

  /** The new window lies entirely beyond the cursor: the client's old points drop out. */
  lemma DeltaReplaces<T>(at: T -> nat, all: seq<T>, k: nat, n: nat, v: nat, cut: nat, w: nat, cutoff: nat)
    requires Rising(at, all) && v <= cut <= w && v <= k < w <= |all|
    requires w == cut || |all| - w == n
    requires |all| - w <= n
    requires forall i :: 0 <= i < cut ==> at(all[i]) <= cutoff
    requires forall i :: cut <= i < |all| ==> at(all[i]) > cutoff
    ensures Rising(at, all[v..k] + all[w..])
    ensures Keep(Later(at, all[v..k] + all[w..], cutoff), n) == all[w..]
  {
    var both := all[v..k] + all[w..];
    forall i, j | 0 <= i < j < |both| ensures at(both[i]) < at(both[j]) {
      var p := if i < k - v then v + i else w + (i - (k - v));
      var q := if j < k - v then v + j else w + (j - (k - v));
      assert both[i] == all[p] && both[j] == all[q] && p < q;
    }
    var e := if cut < k then cut - v else k - v;
    assert e > 0 ==> both[e - 1] == all[v + e - 1];
    assert e < |both| ==> both[e] == if e < k - v then all[v + e] else all[w];
    EarlyIs(at, both, cutoff, e);
    assert both[k - v..] == all[w..];
  }

  /**
   A ring held `kept` when the client last looked and took what was later than `cutoff0`. Then `more`
   arrived. What the ring holds now beyond the cursor, appended to the client's list and cut, is what
   the ring holds now beyond the new cutoff. Either the delta is that whole window, or nothing is
   missing between the client's list and the delta.
   */
  lemma DeltaIsEnough<T>(at: T -> nat, kept: seq<T>, more: seq<T>, n: nat, cutoff0: nat, cutoff1: nat)
    requires 0 < n && |kept| <= n && cutoff0 <= cutoff1
    requires Rising(at, kept + more)
    ensures var window := Later(at, Keep(kept + more, n), cutoff1);
      var client := Later(at, kept, cutoff0);
      var delta := Later(at, window, End(at, kept));
      && Rising(at, client + delta)
      && Keep(Later(at, client + delta, cutoff1), n) == window
  {
    hide Later, Keep, End;
    var all := kept + more;
    var cut, w := WindowAt(at, all, n, cutoff1);
    var v := ClientAt(at, kept, more, cutoff0, cutoff1, cut);
    EndOfKept(at, kept, more, w);
    if w <= |kept| {
      DeltaMeets(at, all, |kept|, n, v, cut, w, cutoff1);
      RisingSlice(at, all, v, |all|);
    } else {
      DeltaReplaces(at, all, |kept|, n, v, cut, w, cutoff1);
    }
  }
}
