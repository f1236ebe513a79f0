/** Grouping the fragments that share a concatenation key into messages. */
module Fragments {
  import opened Common
  import opened Inbox
  import Sorting

  /** Reads a date as seconds; `None` when it is not in the expected form. */
  type Clock = string -> Option<int>

  predicate StringLe(a: string, b: string) {
    a == [] || (b != [] && (a[0] < b[0] || (a[0] == b[0] && StringLe(a[1..], b[1..]))))
  }

  predicate IndexLe(a: Option<nat>, b: Option<nat>) {
    a.None? || (b.Some? && a.value <= b.value)
  }

  /** The order of the fragments: by date, then by index. */
  predicate Precedes(a: Entry, b: Entry) {
    if a.date == b.date then IndexLe(FirstIndex(a), FirstIndex(b)) else StringLe(a.date, b.date)
  }

  const precedes: (Entry, Entry) -> bool := (a: Entry, b: Entry) => Precedes(a, b)

  predicate Close(clock: Clock, first: Entry, e: Entry) {
    match (clock(first.date), clock(e.date))
    case (Some(a), Some(b)) => -300 <= b - a <= 300
    case _ => first.date == e.date
  }

  /** Whether `e` continues the message `group` has begun. */
  predicate Joins(clock: Clock, group: seq<Entry>, e: Entry) {
    && group != []
    && Total(group[0]) == Total(e)
    && (forall i :: 0 <= i < |group| ==> Sequence(group[i]) != Sequence(e))
    && Close(clock, group[0], e)
  }

  /** Adds `e` to the first group it continues, or opens a new one. */
  function Place(clock: Clock, groups: seq<seq<Entry>>, e: Entry): seq<seq<Entry>> {
    if groups == [] then [[e]]
    else if Joins(clock, groups[0], e) then [groups[0] + [e]] + groups[1..]
    else [groups[0]] + Place(clock, groups[1..], e)
  }

  function PlaceAll(clock: Clock, groups: seq<seq<Entry>>, entries: seq<Entry>): seq<seq<Entry>>
    decreases entries
  {
    if entries == [] then groups else PlaceAll(clock, Place(clock, groups, entries[0]), entries[1..])
  }

  function Split(clock: Clock, entries: seq<Entry>): seq<seq<Entry>> {
    PlaceAll(clock, [], Sorting.Sort(precedes, entries))
  }

  lemma {:induction false} PlaceAt(clock: Clock, groups: seq<seq<Entry>>, e: Entry, k: nat)
    requires k <= |groups|
    requires forall i :: 0 <= i < k ==> !Joins(clock, groups[i], e)
    requires k < |groups| ==> Joins(clock, groups[k], e)
    ensures Place(clock, groups, e) == if k < |groups| then groups[k := groups[k] + [e]] else groups + [[e]]
  {
    if groups != [] {
      if k > 0 {
        assert !Joins(clock, groups[0], e);
        PlaceAt(clock, groups[1..], e, k - 1);
      }
    }
  }

  /** The grouping loops: each fragment in order, and for each the first group that takes it. */
  method SplitFragments(clock: Clock, entries: seq<Entry>) returns (groups: seq<seq<Entry>>)
    ensures groups == Split(clock, entries)
  {
    hide Joins, Place;
    var sorted := Sorting.Sort(precedes, entries);
    groups := [];
    for i := 0 to |sorted|
      invariant PlaceAll(clock, groups, sorted[i..]) == Split(clock, entries)
    {
      assert sorted[i..][1..] == sorted[i + 1..];
      var k := 0;
      while k < |groups| && !Joins(clock, groups[k], sorted[i])
        invariant 0 <= k <= |groups|
        invariant forall j :: 0 <= j < k ==> !Joins(clock, groups[j], sorted[i])
      {
        k := k + 1;
      }
      PlaceAt(clock, groups, sorted[i], k);
      if k < |groups| {
        groups := groups[k := groups[k] + [sorted[i]]];
      } else {
        groups := groups + [[sorted[i]]];
      }
    }
  }

  // ----- What a group is, and that nothing gets lost

  /** One total, no repeated sequence number, dates close to the first. */
  ghost predicate Coherent(clock: Clock, group: seq<Entry>) {
    && group != []
    && (forall i :: 0 <= i < |group| ==> Total(group[i]) == Total(group[0]))
    && (forall i, j :: 0 <= i < j < |group| ==> Sequence(group[i]) != Sequence(group[j]))
    && (forall i :: 0 < i < |group| ==> Close(clock, group[0], group[i]))
  }

  ghost predicate AllCoherent(clock: Clock, groups: seq<seq<Entry>>) {
    forall g :: 0 <= g < |groups| ==> Coherent(clock, groups[g])
  }

  lemma {:induction false} PlaceKeeps(clock: Clock, groups: seq<seq<Entry>>, e: Entry)
    requires AllCoherent(clock, groups)
    ensures AllCoherent(clock, Place(clock, groups, e))
    ensures multiset(Flatten(Place(clock, groups, e))) == multiset(Flatten(groups)) + multiset{e}
  {
    if groups == [] {
      assert Flatten([[e]]) == [e] + Flatten<Entry>([]);
      assert Coherent(clock, [e]);
    } else if Joins(clock, groups[0], e) {
      JoinedIsCoherent(clock, groups[0], e);
      var after := [groups[0] + [e]] + groups[1..];
      assert after[1..] == groups[1..];
    } else {
      PlaceKeeps(clock, groups[1..], e);
      var rest := Place(clock, groups[1..], e);
      assert ([groups[0]] + rest)[1..] == rest;
    }
  }

  lemma JoinedIsCoherent(clock: Clock, group: seq<Entry>, e: Entry)
    requires Coherent(clock, group) && Joins(clock, group, e)
    ensures Coherent(clock, group + [e])
  {
  }

  lemma {:induction false} PlaceAllKeeps(clock: Clock, groups: seq<seq<Entry>>, entries: seq<Entry>)
    requires AllCoherent(clock, groups)
    ensures AllCoherent(clock, PlaceAll(clock, groups, entries))
    ensures multiset(Flatten(PlaceAll(clock, groups, entries))) == multiset(Flatten(groups)) + multiset(entries)
    decreases entries
  {
    hide Coherent, Place, Flatten;
    if entries != [] {
      PlaceKeeps(clock, groups, entries[0]);
      PlaceAllKeeps(clock, Place(clock, groups, entries[0]), entries[1..]);
      assert entries == [entries[0]] + entries[1..];
      assert multiset(entries) == multiset{entries[0]} + multiset(entries[1..]);
    }
  }

  /** The groups are a partition of the fragments, each one total and without repeated sequence numbers. */
  lemma SplitPartitions(clock: Clock, entries: seq<Entry>)
    ensures multiset(Flatten(Split(clock, entries))) == multiset(entries)
    ensures AllCoherent(clock, Split(clock, entries))
  {
    Sorting.SortKeeps(precedes, entries);
    PlaceAllKeeps(clock, [], Sorting.Sort(precedes, entries));
  }

  /**
   Fragments of one message whose dates lie within five minutes of each other end up in one group,
   in the order of the sort.
   */
  lemma {:induction false} OneMessageOneGroup(clock: Clock, group: seq<Entry>, rest: seq<Entry>)
    requires Coherent(clock, group + rest) && group != []
    ensures PlaceAll(clock, [group], rest) == [group + rest]
    decreases rest
  {
    var all := group + rest;
    if rest == [] {
      assert all == group;
    } else {
      var e := rest[0];
      assert all[|group|] == e && all[0] == group[0];
      forall i | 0 <= i < |group| ensures Sequence(group[i]) != Sequence(e) {
        assert all[i] == group[i];
      }
      assert Joins(clock, group, e);
      assert Place(clock, [group], e) == [group + [e]];
      assert group + [e] + rest[1..] == all;
      OneMessageOneGroup(clock, group + [e], rest[1..]);
    }
  }
}
