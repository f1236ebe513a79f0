/**
 Greedy splitting of a list of indivisible items into consecutive groups of bounded weight:
 the loop shared by the SMS segmentation (`submit`) and the notification chunking (`chunks`).
 */
module Greedy {
  import opened Common

  function Weight<T>(w: T -> nat, items: seq<T>): nat {
    if items == [] then 0 else w(items[0]) + Weight(w, items[1..])
  }

  /** The groups still to be closed when `current` is open and `items` are left. */
  function Cut<T>(w: T -> nat, current: seq<T>, items: seq<T>, limit: nat): seq<seq<T>>
    decreases items
  {
    if items == [] then
      if current == [] then [] else [current]
    else if Weight(w, current) + w(items[0]) > limit then
      [current] + Cut(w, [items[0]], items[1..], limit)
    else
      Cut(w, current + [items[0]], items[1..], limit)
  }

  ghost predicate Fits<T>(w: T -> nat, groups: seq<seq<T>>, limit: nat) {
    forall k :: 0 <= k < |groups| ==> Weight(w, groups[k]) <= limit
  }

  lemma {:induction false} WeightConcat<T>(w: T -> nat, a: seq<T>, b: seq<T>)
    ensures Weight(w, a + b) == Weight(w, a) + Weight(w, b)
  {
    if a == [] {
      assert a + b == b;
    } else {
      WeightConcat(w, a[1..], b);
      assert (a + b)[1..] == a[1..] + b;
    }
  }

  /** Nothing is lost, reordered or duplicated. */
  lemma {:induction false} CutKeepsItems<T>(w: T -> nat, current: seq<T>, items: seq<T>, limit: nat)
    ensures Flatten(Cut(w, current, items, limit)) == current + items
    decreases items
  {
    if items == [] {
      assert Flatten([current]) == current + Flatten<T>([]);
    } else if Weight(w, current) + w(items[0]) > limit {
      CutKeepsItems(w, [items[0]], items[1..], limit);
    } else {
      CutKeepsItems(w, current + [items[0]], items[1..], limit);
    }
  }

  /** Every group respects the limit, provided each single item does; none of them is empty. */
  lemma {:induction false} CutFits<T>(w: T -> nat, current: seq<T>, items: seq<T>, limit: nat)
    requires Weight(w, current) <= limit
    requires forall k :: 0 <= k < |items| ==> w(items[k]) <= limit
    ensures Fits(w, Cut(w, current, items, limit), limit)
    ensures forall k :: 0 <= k < |Cut(w, current, items, limit)| ==> Cut(w, current, items, limit)[k] != []
    decreases items
  {
    if items != [] {
      WeightConcat(w, current, [items[0]]);
      assert Weight(w, [items[0]]) == w(items[0]) + Weight(w, []);
      if Weight(w, current) + w(items[0]) > limit {
        assert current == [] ==> Weight(w, current) == 0;
        CutFits(w, [items[0]], items[1..], limit);
      } else {
        CutFits(w, current + [items[0]], items[1..], limit);
      }
    }
  }

  /**
   The exchange argument. The greedy run has closed `mine` groups and has `current` open; a rival
   split has closed `theirs`, has an open group of weight `open` that still takes `rest`, and then
   `later` groups. While the greedy run is not behind, it stays so until the items run out.
   */
  lemma {:induction false} NeverBehind<T>(w: T -> nat, current: seq<T>, items: seq<T>, limit: nat, mine: nat,
                                         theirs: nat, open: nat, rest: seq<T>, later: seq<seq<T>>)
    requires items == rest + Flatten(later)
    requires open + Weight(w, rest) <= limit && Fits(w, later, limit)
    requires mine < theirs || (mine == theirs && Weight(w, current) <= open)
    ensures mine + |Cut(w, current, items, limit)| <= theirs + 1 + |later|
    decreases |items|, |later|
  {
    if items == [] {
    } else if rest == [] {
      assert later != [] && later[0] + Flatten(later[1..]) == items;
      NeverBehind(w, current, items, limit, mine, theirs + 1, 0, later[0], later[1..]);
    } else {
      var x := items[0];
      assert x == rest[0] && items[1..] == rest[1..] + Flatten(later);
      assert Weight(w, [x]) == w(x) + Weight(w, []);
      WeightConcat(w, current, [x]);
      if Weight(w, current) + w(x) > limit {
        NeverBehind(w, [x], items[1..], limit, mine + 1, theirs, open + w(x), rest[1..], later);
      } else {
        NeverBehind(w, current + [x], items[1..], limit, mine, theirs, open + w(x), rest[1..], later);
      }
    }
  }

  /** No split of the same items within the limit has fewer groups than the greedy one. */
  lemma CutIsMinimal<T>(w: T -> nat, items: seq<T>, limit: nat, rival: seq<seq<T>>)
    requires Flatten(rival) == items && Fits(w, rival, limit)
    ensures |Cut(w, [], items, limit)| <= |rival|
  {
    if rival != [] {
      NeverBehind(w, [], items, limit, 0, 0, 0, rival[0], rival[1..]);
    }
  }

  /** One group suffices exactly for a non-empty list within the limit. */
  lemma CutIsSingle<T>(w: T -> nat, items: seq<T>, limit: nat)
    requires forall k :: 0 <= k < |items| ==> w(items[k]) <= limit
    ensures |Cut(w, [], items, limit)| == 1 <==> items != [] && Weight(w, items) <= limit
  {
    assert [] + items == items;
    var groups := Cut(w, [], items, limit);
    CutKeepsItems(w, [], items, limit);
    CutFits(w, [], items, limit);
    if |groups| == 1 {
      assert Flatten(groups) == groups[0] + Flatten(groups[1..]);
      assert Flatten(groups) == groups[0] && groups[0] != [];
      assert Weight(w, groups[0]) <= limit;
    }
    if items != [] && Weight(w, items) <= limit {
      assert Flatten([items]) == items + Flatten<T>([]);
      CutIsMinimal(w, items, limit, [items]);
      assert groups == [] ==> Flatten(groups) == [];
    }
  }
}
