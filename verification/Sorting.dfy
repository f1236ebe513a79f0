/** A stable insertion sort, the model of the library's stable sorts. */
module Sorting {
  function Insert<T>(le: (T, T) -> bool, x: T, s: seq<T>): seq<T> {
    if s == [] || le(x, s[0]) then [x] + s else [s[0]] + Insert(le, x, s[1..])
  }

  function Sort<T>(le: (T, T) -> bool, s: seq<T>): seq<T> {
    if s == [] then [] else Insert(le, s[0], Sort(le, s[1..]))
  }

  ghost predicate Ordered<T>(le: (T, T) -> bool, s: seq<T>) {
    forall i, j :: 0 <= i < j < |s| ==> le(s[i], s[j])
  }

  /** Comparison by a numeric key. */
  function ByKey<T>(key: T -> int): (T, T) -> bool {
    (x: T, y: T) => key(x) <= key(y)
  }

  lemma {:induction false} InsertKeeps<T>(le: (T, T) -> bool, x: T, s: seq<T>)
    ensures multiset(Insert(le, x, s)) == multiset(s) + multiset{x}
  {
    if s == [] || le(x, s[0]) {
      assert multiset([x] + s) == multiset{x} + multiset(s);
    } else {
      InsertKeeps(le, x, s[1..]);
      assert s == [s[0]] + s[1..];
      assert multiset([s[0]] + Insert(le, x, s[1..])) == multiset{s[0]} + multiset(Insert(le, x, s[1..]));
    }
  }

  lemma {:induction false} SortKeeps<T>(le: (T, T) -> bool, s: seq<T>)
    ensures multiset(Sort(le, s)) == multiset(s) && |Sort(le, s)| == |s|
  {
    if s != [] {
      SortKeeps(le, s[1..]);
      InsertKeeps(le, s[0], Sort(le, s[1..]));
      assert s == [s[0]] + s[1..];
      assert |multiset(Sort(le, s))| == |multiset(s)|;
    }
  }

  lemma SameElements<T>(a: seq<T>, b: seq<T>)
    requires multiset(a) == multiset(b)
    ensures forall x :: x in a <==> x in b
  {
    forall x ensures x in a <==> x in b {
      assert x in multiset(a) <==> x in multiset(b);
    }
  }

  /** Any two elements compare, and comparison is transitive. */
  ghost predicate Linear<T(!new)>(le: (T, T) -> bool) {
    && (forall x, y :: le(x, y) || le(y, x))
    && (forall x, y, z :: le(x, y) && le(y, z) ==> le(x, z))
  }

  lemma {:induction false} InsertOrders<T(!new)>(le: (T, T) -> bool, x: T, s: seq<T>)
    requires Linear(le) && Ordered(le, s)
    ensures Ordered(le, Insert(le, x, s))
  {
    if s == [] {
    } else if le(x, s[0]) {
      forall k | 0 <= k < |s| ensures le(x, s[k]) {
        assert k > 0 ==> le(s[0], s[k]);
      }
    } else {
      InsertOrders(le, x, s[1..]);
      InsertKeeps(le, x, s[1..]);
      var rest := Insert(le, x, s[1..]);
      forall k | 0 <= k < |rest| ensures le(s[0], rest[k]) {
        assert rest[k] in multiset(rest);
        if rest[k] != x {
          assert rest[k] in multiset(s[1..]);
        }
      }
    }
  }

  lemma {:induction false} SortOrders<T(!new)>(le: (T, T) -> bool, s: seq<T>)
    requires Linear(le)
    ensures Ordered(le, Sort(le, s))
  {
    if s != [] {
      SortOrders(le, s[1..]);
      InsertOrders(le, s[0], Sort(le, s[1..]));
    }
  }

  /** Sorting a sorted list changes nothing. */
  lemma {:induction false} SortOrdered<T>(le: (T, T) -> bool, s: seq<T>)
    requires Ordered(le, s)
    ensures Sort(le, s) == s
  {
    if s != [] {
      SortOrdered(le, s[1..]);
      if |s| > 1 {
        assert le(s[0], s[1]);
      }
    }
  }
}
