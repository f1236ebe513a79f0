/** The inbox detector over runs of listings: what is published, how often, and with which text. */
module DetectorRun {
  import opened Common
  import opened Inbox
  import opened Detector
  import F = Fragments
  import Sorting

  // ----- Which identities a scan remembers and publishes

  /** How many of the published messages contain the identity. */
  function Times(identity: Identity, id: nat, published: seq<seq<Entry>>): nat {
    if published == [] then 0
    else (if id in Ids(identity, published[0]) then 1 else 0) + Times(identity, id, published[1..])
  }

  lemma {:induction false} ProcessPublishesOnce(identity: Identity, seen: set<nat>, groups: seq<seq<Entry>>, id: nat)
    requires NonEmpty(groups)
    ensures var (after, published) := Process(identity, seen, groups);
      && seen <= after
      && Times(identity, id, published) <= 1
      && (id in seen ==> Times(identity, id, published) == 0)
      && (Times(identity, id, published) > 0 ==> id in after)
    decreases groups
  {
    hide Ids, Complete, Publishable;
    if groups != [] {
      var group := groups[0];
      if !Complete(group) {
        ProcessPublishesOnce(identity, seen, groups[1..], id);
      } else {
        var ids := Ids(identity, group);
        var (after, rest) := Process(identity, seen + ids, groups[1..]);
        ProcessPublishesOnce(identity, seen + ids, groups[1..], id);
        assert ([group] + rest)[1..] == rest;
        if seen * ids == {} && id in ids {
          assert id !in seen by {
            assert id in seen ==> id in seen * ids;
          }
        }
      }
    }
  }

  /** Everything remembered was remembered before or belongs to one of the messages. */
  lemma {:induction false} ProcessRemembersGroups(identity: Identity, seen: set<nat>, groups: seq<seq<Entry>>,
                                                  bound: set<nat>)
    requires NonEmpty(groups) && seen <= bound
    requires forall g :: 0 <= g < |groups| ==> Ids(identity, groups[g]) <= bound
    ensures Process(identity, seen, groups).0 <= bound
    decreases groups
  {
    hide Ids, Complete, Publishable;
    if groups != [] {
      assert Ids(identity, groups[0]) <= bound;
      ProcessRemembersGroups(identity, seen, groups[1..], bound);
      ProcessRemembersGroups(identity, seen + Ids(identity, groups[0]), groups[1..], bound);
    }
  }

  lemma IdsOfPart(identity: Identity, part: seq<Entry>, whole: seq<Entry>)
    requires forall e :: e in part ==> e in whole
    ensures Ids(identity, part) <= Ids(identity, whole)
  {
    forall id | id in Ids(identity, part) ensures id in Ids(identity, whole) {
      var i :| 0 <= i < |part| && identity(part[i]) == id;
      assert part[i] in whole;
      var j :| 0 <= j < |whole| && whole[j] == part[i];
    }
  }

  lemma {:induction false} FlattenHas<T>(parts: seq<seq<T>>, i: nat, x: T)
    requires i < |parts| && x in parts[i]
    ensures x in Flatten(parts)
  {
    if i > 0 {
      FlattenHas(parts[1..], i - 1, x);
    }
  }

  lemma {:induction false} SelectIsPart(identity: Identity, entries: seq<Entry>, key: Key)
    ensures forall e :: e in Select(identity, entries, key) ==> e in entries
  {
    if entries != [] {
      SelectIsPart(identity, entries[1..], key);
    }
  }

  lemma {:induction false} GroupsArePresent(clock: F.Clock, identity: Identity, entries: seq<Entry>, keys: seq<Key>,
                                            g: nat)
    requires g < |Groups(clock, identity, entries, keys)|
    ensures Ids(identity, Groups(clock, identity, entries, keys)[g]) <= Ids(identity, entries)
  {
    hide Ids, F.Split, Select;
    var selected := Select(identity, entries, keys[0]);
    var split := F.Split(clock, selected);
    if g < |split| {
      F.SplitPartitions(clock, selected);
      Sorting.SameElements(Flatten(split), selected);
      SelectIsPart(identity, entries, keys[0]);
      forall e | e in split[g] ensures e in entries {
        FlattenHas(split, g, e);
      }
      IdsOfPart(identity, split[g], entries);
    } else {
      GroupsArePresent(clock, identity, entries, keys[1..], g - |split|);
    }
  }

  /** After a successful scan only identities of the listing are remembered. */
  lemma SeenIsPresent(clock: F.Clock, identity: Identity, d: State, entries: seq<Entry>, keys: seq<Key>)
    requires |entries| <= MAX_SEEN
    ensures Scanned(clock, identity, d, entries, keys).0.seen <= Ids(identity, entries)
  {
    hide Ids, Groups, Process;
    if d.initialized {
      GroupsNonEmpty(clock, identity, entries, keys);
      var groups := Groups(clock, identity, entries, keys);
      forall g | 0 <= g < |groups| ensures Ids(identity, groups[g]) <= Ids(identity, entries) {
        GroupsArePresent(clock, identity, entries, keys, g);
      }
      ProcessRemembersGroups(identity, d.seen * Ids(identity, entries), groups, Ids(identity, entries));
    }
  }

  // ----- Runs of listings

  /** A listing of the inbox, with the order in which its keys are visited, or a new detector after a reset. */
  datatype Scan = Listing(entries: seq<Entry>, keys: seq<Key>) | Fresh

  /** The messages published over a run, scan after scan. */
  function Emitted(clock: F.Clock, identity: Identity, d: State, scans: seq<Scan>): seq<seq<Entry>>
    decreases |scans|
  {
    if scans == [] then []
    else
      match scans[0]
      case Fresh => Emitted(clock, identity, State(false, {}), scans[1..])
      case Listing(entries, keys) =>
        var (after, published) := Scanned(clock, identity, d, entries, keys);
        (if published.Some? then published.value else []) + Emitted(clock, identity, after, scans[1..])
  }

  lemma {:induction false} TimesConcat(identity: Identity, id: nat, a: seq<seq<Entry>>, b: seq<seq<Entry>>)
    ensures Times(identity, id, a + b) == Times(identity, id, a) + Times(identity, id, b)
  {
    hide Ids;
    if a == [] {
      assert a + b == b;
    } else {
      TimesConcat(identity, id, a[1..], b);
      assert (a + b)[1..] == a[1..] + b;
    }
  }

  lemma ScanPublishesOnce(clock: F.Clock, identity: Identity, d: State, entries: seq<Entry>, keys: seq<Key>, id: nat)
    ensures var (after, published) := Scanned(clock, identity, d, entries, keys);
      published.Some? ==>
        && Times(identity, id, published.value) <= 1
        && (!d.initialized || (id in d.seen && id in Ids(identity, entries)) ==>
          Times(identity, id, published.value) == 0)
        && (id in Ids(identity, entries) && (!d.initialized || id in d.seen) ==> id in after.seen)
        && (id in Ids(identity, entries) && Times(identity, id, published.value) > 0 ==> id in after.seen)
        && after.initialized
  {
    hide Ids, Groups, Process;
    if |entries| <= MAX_SEEN && d.initialized {
      GroupsNonEmpty(clock, identity, entries, keys);
      ProcessPublishesOnce(identity, d.seen * Ids(identity, entries), Groups(clock, identity, entries, keys), id);
    }
  }

  /**
   Over every run of listings and resets during which an identity stays in the inbox it is published in at
   most one message, and in none if it was remembered or if the first successful listing of the detector
   already held it. Listings over capacity publish nothing and forget nothing.
   */
  lemma {:induction false} PublishedAtMostOnce(clock: F.Clock, identity: Identity, d: State, scans: seq<Scan>, id: nat)
    requires forall i :: 0 <= i < |scans| && scans[i].Listing? && |scans[i].entries| <= MAX_SEEN ==>
      id in Ids(identity, scans[i].entries)
    ensures Times(identity, id, Emitted(clock, identity, d, scans)) <= 1
    ensures !d.initialized || id in d.seen ==> Times(identity, id, Emitted(clock, identity, d, scans)) == 0
    decreases |scans|
  {
    if scans != [] {
      hide Ids, Groups, Process;
      if scans[0].Fresh? {
        PublishedAtMostOnce(clock, identity, State(false, {}), scans[1..], id);
      } else {
        var entries, keys := scans[0].entries, scans[0].keys;
        assert |entries| <= MAX_SEEN ==> id in Ids(identity, entries);
        var (after, published) := Scanned(clock, identity, d, entries, keys);
        ScanPublishesOnce(clock, identity, d, entries, keys, id);
        PublishedAtMostOnce(clock, identity, after, scans[1..], id);
        TimesConcat(identity, id, if published.Some? then published.value else [],
                    Emitted(clock, identity, after, scans[1..]));
      }
    }
  }

  /**
   Nothing new is missed: a complete, publishable message is published unless one of its identities
   is remembered or also belongs to a message before it.
   */
  lemma {:induction false} NewIsPublished(identity: Identity, seen: set<nat>, groups: seq<seq<Entry>>, g: nat)
    requires NonEmpty(groups) && g < |groups|
    requires Complete(groups[g]) && Publishable(groups[g])
    requires seen * Ids(identity, groups[g]) == {}
    requires forall h :: 0 <= h < g ==> Ids(identity, groups[h]) * Ids(identity, groups[g]) == {}
    ensures groups[g] in Process(identity, seen, groups).1
    decreases groups
  {
    hide Ids, Complete, Publishable;
    if g > 0 {
      assert groups[1..][g - 1] == groups[g];
      assert Ids(identity, groups[0]) * Ids(identity, groups[g]) == {};
      var after := seen + Ids(identity, groups[0]);
      assert after * Ids(identity, groups[g]) == {};
      forall h | 0 <= h < g - 1 ensures Ids(identity, groups[1..][h]) * Ids(identity, groups[g]) == {} {
        assert groups[1..][h] == groups[h + 1];
      }
      NewIsPublished(identity, seen, groups[1..], g - 1);
      NewIsPublished(identity, after, groups[1..], g - 1);
    }
  }

  // ----- The text of a multipart message

  lemma {:induction false} IntervalSize(s: set<nat>, n: nat)
    requires forall v :: 1 <= v <= n ==> v in s
    ensures |s| >= n
    ensures |s| == n ==> forall v :: v in s ==> 1 <= v <= n
    decreases n
  {
    if n == 0 {
      assert |s| == 0 ==> s == {};
    } else {
      var rest := s - {n};
      IntervalSize(rest, n - 1);
      forall v | v in s && |s| == n ensures 1 <= v <= n {
        assert v != n ==> v in rest;
      }
    }
  }

  lemma SequencesOfSame(a: seq<Entry>, b: seq<Entry>)
    requires multiset(a) == multiset(b)
    ensures Sequences(a) == Sequences(b)
  {
    Sorting.SameElements(a, b);
    SequencesOfPart(a, b);
    SequencesOfPart(b, a);
  }

  lemma SequencesOfPart(a: seq<Entry>, b: seq<Entry>)
    requires forall e :: e in a ==> e in b
    ensures Sequences(a) <= Sequences(b)
  {
    forall s | s in Sequences(a) ensures s in Sequences(b) {
      var i :| 0 <= i < |a| && Sequence(a[i]).Some? && Sequence(a[i]).value == s;
      assert a[i] in b;
      var j :| 0 <= j < |b| && b[j] == a[i];
    }
  }

  lemma SequencesSnoc(rest: seq<Entry>, e: Entry) returns (own: set<nat>)
    ensures own == if Sequence(e).Some? then {Sequence(e).value} else {}
    ensures Sequences(rest + [e]) == Sequences(rest) + own
  {
    own := if Sequence(e).Some? then {Sequence(e).value} else {};
    var all := rest + [e];
    SequencesOfPart(rest, all);
    assert all[|rest|] == e;
    forall s | s in Sequences(all) ensures s in Sequences(rest) + own {
      var i :| 0 <= i < |all| && Sequence(all[i]).Some? && Sequence(all[i]).value == s;
      if i < |rest| {
        assert rest[i] == all[i];
      }
    }
  }

  lemma SequenceIsIn(group: seq<Entry>, i: nat)
    requires i < |group|
    ensures Sequence(group[i]).Some? ==> Sequence(group[i]).value in Sequences(group)
  {
  }

  /** Every fragment has a sequence number, and no two share it. */
  ghost predicate AllNumbered(group: seq<Entry>) {
    && (forall i :: 0 <= i < |group| ==> Sequence(group[i]).Some?)
    && (forall i, j :: 0 <= i < j < |group| ==> Sequence(group[i]) != Sequence(group[j]))
  }

  lemma UnionSize(a: set<nat>, b: set<nat>)
    requires |b| <= 1
    ensures |a + b| <= |a| + 1
    ensures |a + b| == |a| + 1 ==> |b| == 1 && a !! b
  {
    assert a + b == a + (b - a);
    if b - a != b {
      assert |b - a| < |b|;
    }
  }

  lemma NumberedSnoc(rest: seq<Entry>, e: Entry)
    requires AllNumbered(rest) && Sequence(e).Some? && Sequence(e).value !in Sequences(rest)
    ensures AllNumbered(rest + [e])
  {
    forall i | 0 <= i < |rest| ensures Sequence(rest[i]) != Sequence(e) {
      SequenceIsIn(rest, i);
    }
  }

  /** As many numbers as fragments: the numbers are all there and all different. */
  lemma {:induction false} SequencesCount(group: seq<Entry>)
    ensures |Sequences(group)| <= |group|
    ensures |Sequences(group)| == |group| ==> AllNumbered(group)
  {
    if group == [] {
      assert Sequences(group) == {};
    } else {
      hide Sequences, Sequence, AllNumbered;
      var e := group[|group| - 1];
      var rest := group[..|group| - 1];
      SequencesCount(rest);
      var own := SequencesSnoc(rest, e);
      assert rest + [e] == group;
      UnionSize(Sequences(rest), own);
      if |Sequences(group)| == |group| {
        NumberedSnoc(rest, e);
      }
    }
  }

  lemma {:induction false} RisingNumbers(s: seq<int>, lo: int, hi: int, i: nat)
    requires i < |s| && |s| == hi - lo
    requires forall a, b :: 0 <= a < b < |s| ==> s[a] < s[b]
    requires forall a :: 0 <= a < |s| ==> lo <= s[a] < hi
    ensures s[i] == lo + i
    decreases |s|
  {
    RisingFrom(s, lo, i);
    RisingTo(s, hi, i);
  }

  lemma {:induction false} RisingFrom(s: seq<int>, lo: int, i: nat)
    requires i < |s| && forall a, b :: 0 <= a < b < |s| ==> s[a] < s[b]
    requires s[0] >= lo
    ensures s[i] >= lo + i
  {
    if i > 0 {
      RisingFrom(s, lo, i - 1);
      assert s[i - 1] < s[i];
    }
  }

  lemma {:induction false} RisingTo(s: seq<int>, hi: int, i: nat)
    requires i < |s| && forall a, b :: 0 <= a < b < |s| ==> s[a] < s[b]
    requires s[|s| - 1] < hi
    ensures s[i] <= hi - (|s| - i)
    decreases |s| - i
  {
    if i < |s| - 1 {
      RisingTo(s, hi, i + 1);
      assert s[i] < s[i + 1];
    }
  }

  /**
   A complete multipart message is published with the texts of its parts 1 to `total`, each exactly
   once and in this order.
   */
  lemma PublishedInOrder(group: seq<Entry>)
    requires group != [] && Complete(group) && TotalOf(group) > 1
    ensures |InOrder(group)| == TotalOf(group) && multiset(InOrder(group)) == multiset(group)
    ensures forall i :: 0 <= i < TotalOf(group) ==> Sequence(InOrder(group)[i]) == Some(i + 1)
    ensures Text(group) == FlatMap(textOf, InOrder(group))
  {
    var n := TotalOf(group);
    var sorted := InOrder(group);
    Sorting.SortKeeps(Sorting.ByKey(sequenceOf), group);
    Sorting.SortOrders(Sorting.ByKey(sequenceOf), group);
    SequencesOfSame(sorted, group);
    SequencesCount(sorted);
    IntervalSize(Sequences(group), n);
    var numbers := seq(n, i requires 0 <= i < n => sequenceOf(sorted[i]));
    forall i | 0 <= i < n ensures 1 <= numbers[i] < n + 1 {
      assert Sequence(sorted[i]).value in Sequences(sorted);
    }
    forall a, b | 0 <= a < b < n ensures numbers[a] < numbers[b] {
      assert Sorting.ByKey(sequenceOf)(sorted[a], sorted[b]);
      assert Sequence(sorted[a]) != Sequence(sorted[b]);
    }
    forall i | 0 <= i < n ensures Sequence(sorted[i]) == Some(i + 1) {
      RisingNumbers(numbers, 1, n + 1, i);
    }
  }
}
