/**
 What decides that entries of the inbox are one message, on the page and in a notification, and what the
 notification says of them.
 */
module MessageFacts {
  import opened Common
  import opened Inbox
  import D = Detector
  import DetectorRun
  import F = Fragments
  import L = SmsList
  import Sorting
  import Utf8

  // ----- Fragments

  /** Both dates can be read and are at most this many seconds apart. */
  predicate Apart(clock: F.Clock, a: string, b: string, seconds: nat) {
    && clock(a).Some? && clock(b).Some?
    && clock(a).value <= clock(b).value + seconds && clock(b).value <= clock(a).value + seconds
  }

  /** The entry is one more part of the message that the group has begun. */
  predicate Continues(clock: F.Clock, group: seq<Entry>, e: Entry) {
    && group != [] && Total(e) == Total(group[0])
    && (forall g :: g in group ==> Sequence(g) != Sequence(e))
    && (if clock(group[0].date).Some? && clock(e.date).Some? then Apart(clock, group[0].date, e.date, 5 * 60)
        else e.date == group[0].date)
  }

  lemma JoinsIsContinues(clock: F.Clock, group: seq<Entry>, e: Entry)
    ensures F.Joins(clock, group, e) <==> Continues(clock, group, e)
  {
  }

  /** A fragment goes to the first group that it continues, and opens a new one only if it continues none. */
  lemma {:induction false} FirstGroupTakesFragment(clock: F.Clock, groups: seq<seq<Entry>>, e: Entry)
    ensures var r := F.Place(clock, groups, e);
      || (r == groups + [[e]] && forall i :: 0 <= i < |groups| ==> !Continues(clock, groups[i], e))
      || exists k :: 0 <= k < |groups| && r == groups[k := groups[k] + [e]] && Continues(clock, groups[k], e)
          && forall i :: 0 <= i < k ==> !Continues(clock, groups[i], e)
  {
    hide Continues, F.Joins;
    forall group
      ensures F.Joins(clock, group, e) <==> Continues(clock, group, e)
    {
      JoinsIsContinues(clock, group, e);
    }
    var k := 0;
    while k < |groups| && !F.Joins(clock, groups[k], e)
      invariant 0 <= k <= |groups| && forall i :: 0 <= i < k ==> !F.Joins(clock, groups[i], e)
    {
      k := k + 1;
    }
    F.PlaceAt(clock, groups, e, k);
  }

  /** The first text is before the other in the order of its characters. */
  predicate Before(a: string, b: string) {
    a < b || exists k :: 0 <= k < |a| && k < |b| && a[..k] == b[..k] && a[k] < b[k]
  }

  lemma {:induction false} StringOrder(a: string, b: string)
    ensures F.StringLe(a, b) <==> a == b || Before(a, b)
  {
    if a != [] && b != [] {
      StringOrder(a[1..], b[1..]);
      if a[0] == b[0] {
        BeforeCons(a, b);
      }
    }
  }

  lemma BeforeCons(a: string, b: string)
    requires a != [] && b != [] && a[0] == b[0]
    ensures Before(a, b) <==> Before(a[1..], b[1..])
  {
    assert a == [a[0]] + a[1..] && b == [b[0]] + b[1..];
    if k :| 0 <= k < |a| && k < |b| && a[..k] == b[..k] && a[k] < b[k] {
      assert a[1..][..k - 1] == a[..k][1..] && b[1..][..k - 1] == b[..k][1..];
      assert a[1..][k - 1] < b[1..][k - 1];
    }
    if k :| 0 <= k < |a[1..]| && k < |b[1..]| && a[1..][..k] == b[1..][..k] && a[1..][k] < b[1..][k] {
      assert a[..k + 1] == [a[0]] + a[1..][..k] && b[..k + 1] == [b[0]] + b[1..][..k];
      assert a[k + 1] < b[k + 1];
    }
  }

  /** Fragments are looked at by date, and with the same date by index. */
  lemma FragmentOrder(a: Entry, b: Entry)
    ensures F.precedes(a, b) <==>
      || Before(a.date, b.date)
      || (a.date == b.date && FirstIndex(a).None?)
      || (a.date == b.date && FirstIndex(b).Some? && FirstIndex(a).Some? && FirstIndex(a).value <= FirstIndex(b).value)
  {
    StringOrder(a.date, b.date);
    NotBeforeItself(a.date);
  }

  lemma NotBeforeItself(a: string)
    ensures !Before(a, a)
  {
  }

  // ----- Runs of text-mode entries

  /** The entry goes on where the one before it ends: same sender, next index, and the same time within 5 seconds. */
  predicate GoesOn(clock: F.Clock, a: Entry, b: Entry) {
    && !a.pdu && !b.pdu && a.sender == b.sender != ""
    && a.indices != [] && b.indices != [] && b.indices[0] - 1 == a.indices[|a.indices| - 1]
    && (a.date == b.date != "" || Apart(clock, a.date, b.date, 5))
  }

  lemma AdjacentIsGoesOn(clock: F.Clock, a: Entry, b: Entry)
    ensures L.Adjacent(clock, a, b) <==> GoesOn(clock, a, b)
  {
  }

  /** Every entry goes on where the one before it ends. */
  predicate IsRun(clock: F.Clock, run: seq<Entry>) {
    run != [] && forall i :: 0 < i < |run| ==> GoesOn(clock, run[i - 1], run[i])
  }

  /** Runs that cannot be longer: none goes on where the one before it ends. */
  predicate AreRuns(clock: F.Clock, runs: seq<seq<Entry>>) {
    runs != [] ==>
      && IsRun(clock, runs[0]) && AreRuns(clock, runs[1..])
      && (|runs| > 1 ==> runs[1] != [] && !GoesOn(clock, runs[0][|runs[0]| - 1], runs[1][0]))
  }

  /** A listing of entries without a key is its maximal runs, each of them one message. */
  lemma PlainEntriesAreRuns(clock: F.Clock, entries: seq<Entry>) returns (runs: seq<seq<Entry>>)
    requires forall e :: e in entries ==> ConcatKey(e).None?
    ensures Flatten(runs) == entries && AreRuns(clock, runs)
    ensures L.Listed(clock, entries) == L.MergeAll(runs)
  {
    if entries == [] {
      runs := [];
    } else {
      assert entries == [entries[0]] + entries[1..];
      runs := RestIsRuns(clock, entries, [entries[0]], entries[1..]);
      assert [] + [entries[0]] == [entries[0]];
      assert L.Regroup(clock, entries, entries, {}, []) == L.Regroup(clock, entries, entries[1..], {}, [entries[0]]);
    }
  }

  lemma {:induction false} RestIsRuns(clock: F.Clock, all: seq<Entry>, open: seq<Entry>, rest: seq<Entry>)
    returns (runs: seq<seq<Entry>>)
    requires IsRun(clock, open) && forall e :: e in rest ==> ConcatKey(e).None?
    ensures runs != [] && |open| <= |runs[0]| && runs[0][..|open|] == open
    ensures Flatten(runs) == open + rest && AreRuns(clock, runs)
    ensures L.Regroup(clock, all, rest, {}, open) == L.MergeAll(runs)
    decreases rest
  {
    hide L.Merge, L.Adjacent, GoesOn, IsRun;
    RunIsNotEmpty(clock, open);
    if rest == [] {
      runs := [open];
      assert runs[1..] == [];
      assert Flatten(runs) == open + Flatten(runs[1..]);
      assert L.MergeAll(runs) == [L.Merge(open)] + L.MergeAll(runs[1..]);
    } else {
      AdjacentIsGoesOn(clock, open[|open| - 1], rest[0]);
      var longer := open + [rest[0]];
      assert rest == [rest[0]] + rest[1..];
      if L.Adjacent(clock, open[|open| - 1], rest[0]) {
        RunGrows(clock, open, rest[0]);
        runs := RestIsRuns(clock, all, longer, rest[1..]);
        assert longer + rest[1..] == open + rest;
        assert runs[0][..|open|] == runs[0][..|longer|][..|open|];
      } else {
        RunOfOne(clock, rest[0]);
        var later := RestIsRuns(clock, all, [rest[0]], rest[1..]);
        runs := [open] + later;
        assert runs[1..] == later && later[0][..1][0] == rest[0];
        assert L.MergeAll(runs) == [L.Merge(open)] + L.MergeAll(later);
      }
    }
  }

  lemma RunIsNotEmpty(clock: F.Clock, run: seq<Entry>)
    requires IsRun(clock, run)
    ensures run != []
  {
  }

  lemma RunGrows(clock: F.Clock, run: seq<Entry>, e: Entry)
    requires IsRun(clock, run) && GoesOn(clock, run[|run| - 1], e)
    ensures IsRun(clock, run + [e])
  {
  }

  lemma RunOfOne(clock: F.Clock, e: Entry)
    ensures IsRun(clock, [e])
  {
  }

  // ----- Notifications

  /** The part names the entry: its storage, its index and its digest. */
  predicate Names(identity: D.Identity, p: D.Part, e: Entry) {
    e.indices != [] && 0 <= e.indices[0] < 0x10000 && p == D.Part(e.storage, e.indices[0], identity(e))
  }

  lemma {:induction false} PartsName(identity: D.Identity, group: seq<Entry>, p: D.Part)
    ensures p in D.Parts(identity, group) <==> exists e :: e in group && Names(identity, p, e)
  {
    if group != [] {
      var e, rest := group[0], group[1..];
      PartsName(identity, rest, p);
      var index := FirstIndex(e);
      var own := if index.Some? && index.value < 0x10000 then [D.Part(e.storage, index.value, identity(e))] else [];
      assert D.Parts(identity, group) == own + D.Parts(identity, rest);
      assert p in own <==> Names(identity, p, e);
      hide Names;
      assert forall x :: x in group <==> x == e || x in rest;
    }
  }

  /** The number of a part, or 0. */
  function PartNumber(e: Entry): nat {
    if e.concat.Some? then e.concat.value.sequence else 0
  }

  /** A notification has the sender and the date of its first part, and names all entries that can be named. */
  lemma NotificationIsOfGroup(identity: D.Identity, device: string, group: seq<Entry>) returns (first: Entry)
    requires group != []
    ensures first in group && forall e :: e in group ==> PartNumber(first) <= PartNumber(e)
    ensures var n := D.Publish(identity, device, group);
      && n.sender == first.sender && n.receivedAt == first.date && n.id == identity(first) && n.device == device
      && n.text == FlatMap(D.textOf, D.InOrder(group))
      && forall p :: p in n.parts <==> exists e :: e in group && Names(identity, p, e)
  {
    D.SortNotEmpty(group);
    var sorted := D.InOrder(group);
    first := sorted[0];
    Sorting.SortKeeps(Sorting.ByKey(D.sequenceOf), group);
    Sorting.SortOrders(Sorting.ByKey(D.sequenceOf), group);
    Sorting.SameElements(sorted, group);
    assert first in sorted;
    forall e | e in group
      ensures PartNumber(first) <= PartNumber(e)
    {
      var i :| 0 <= i < |sorted| && sorted[i] == e;
      assert i > 0 ==> Sorting.ByKey(D.sequenceOf)(sorted[0], sorted[i]);
    }
    forall p
      ensures p in D.Parts(identity, sorted) <==> exists e :: e in group && Names(identity, p, e)
    {
      PartsName(identity, sorted, p);
    }
  }

  /** What the first entry says of the number of parts. */
  function Parts(group: seq<Entry>): nat
    requires group != []
  {
    if group[0].concat.Some? then group[0].concat.value.total else 1
  }

  /** The group has an entry with this number. */
  predicate HasPart(group: seq<Entry>, number: nat) {
    exists e :: e in group && e.concat.Some? && e.concat.value.sequence == number
  }

  lemma HasPartIsSequence(group: seq<Entry>, number: nat)
    ensures HasPart(group, number) <==> number in D.Sequences(group)
  {
    if number in D.Sequences(group) {
      var i :| 0 <= i < |group| && Sequence(group[i]).Some? && Sequence(group[i]).value == number;
      assert group[i] in group;
    }
    if HasPart(group, number) {
      var e :| e in group && e.concat.Some? && e.concat.value.sequence == number;
      var i :| 0 <= i < |group| && group[i] == e;
      assert Sequence(group[i]) == Some(number);
    }
  }

  /** A message is complete if it has one part, or up to 255, as many as it says, and each of them is there. */
  lemma CompleteExactly(group: seq<Entry>)
    requires group != []
    ensures D.Complete(group) <==>
      || Parts(group) <= 1
      || (|group| == Parts(group) <= 255 && forall n :: 1 <= n <= Parts(group) ==> HasPart(group, n))
  {
    var total := Parts(group);
    assert total == D.TotalOf(group);
    forall n: nat
      ensures HasPart(group, n) <==> n in D.Sequences(group)
    {
      HasPartIsSequence(group, n);
    }
    DetectorRun.SequencesCount(group);
    hide D.Sequences, HasPart;
    if forall n :: 1 <= n <= total ==> HasPart(group, n) {
      DetectorRun.IntervalSize(D.Sequences(group), total);
    }
  }

  /** A message is published only with a sender and a text of at most 64 KiB. */
  lemma PublishableExactly(group: seq<Entry>)
    requires group != []
    ensures |D.InOrder(group)| == |group|
    ensures D.Publishable(group) <==>
      && 0 < |FlatMap(D.textOf, D.InOrder(group))|
      && Utf8.Length(FlatMap(D.textOf, D.InOrder(group))) <= 64 * 1024 && D.InOrder(group)[0].sender != ""
  {
    D.SortNotEmpty(group);
  }

  /** Two entries can be parts of one message: same storage, sender and reference, or the same message twice. */
  predicate Related(identity: D.Identity, a: Entry, b: Entry) {
    if a.concat.Some? then
      b.concat.Some? && a.storage == b.storage && a.sender == b.sender
      && a.concat.value.reference == b.concat.value.reference
    else b.concat.None? && identity(a) == identity(b)
  }

  lemma {:induction false} SelectedHaveKey(identity: D.Identity, entries: seq<Entry>, key: D.Key)
    ensures forall e :: e in D.Select(identity, entries, key) ==> D.KeyOf(identity, e) == key
  {
    if entries != [] {
      SelectedHaveKey(identity, entries[1..], key);
    }
  }

  /** The entries of one group, and so of one notification, are parts of one message. */
  lemma {:induction false} GroupIsRelated(clock: F.Clock, identity: D.Identity, entries: seq<Entry>, keys: seq<D.Key>,
                                          g: nat)
    requires g < |D.Groups(clock, identity, entries, keys)|
    ensures var group := D.Groups(clock, identity, entries, keys)[g];
      forall a, b :: a in group && b in group ==> Related(identity, a, b)
  {
    var selected := D.Select(identity, entries, keys[0]);
    var split := F.Split(clock, selected);
    var groups := D.Groups(clock, identity, entries, keys);
    if g < |split| {
      F.SplitPartitions(clock, selected);
      Sorting.SameElements(Flatten(split), selected);
      SelectedHaveKey(identity, entries, keys[0]);
      hide D.Select, F.Split, D.Groups;
      forall a | a in split[g]
        ensures D.KeyOf(identity, a) == keys[0]
      {
        DetectorRun.FlattenHas(split, g, a);
      }
    } else {
      GroupIsRelated(clock, identity, entries, keys[1..], g - |split|);
    }
  }

  // ----- Merged messages

  /** By sequence number, and with the same number by index; entries that have none come first. */
  predicate InPartOrder(a: Entry, b: Entry) {
    var m := if a.concat.Some? then a.concat.value.sequence else 0;
    var n := if b.concat.Some? then b.concat.value.sequence else 0;
    m < n || (m == n && (if a.indices == [] then 0 else a.indices[0]) <= (if b.indices == [] then 0 else b.indices[0]))
  }

  /** A message of several entries: the texts in part order, the indices ascending, and the rest from the first. */
  lemma MergedMessageIs(group: seq<Entry>) returns (sorted: seq<Entry>)
    requires |group| > 1
    ensures multiset(sorted) == multiset(group)
    ensures forall i, j :: 0 <= i < j < |sorted| ==> InPartOrder(sorted[i], sorted[j])
    ensures var m := L.Merge(group);
      && m.text == FlatMap(L.textOf, sorted) && m.sender == group[0].sender && m.date == group[0].date
      && (forall i, j :: 0 <= i < j < |m.indices| ==> m.indices[i] <= m.indices[j])
      && multiset(m.indices) == multiset(FlatMap(L.indicesOf, sorted))
  {
    hide Sorting.Sort;
    sorted := Sorting.Sort(L.partOrder, group);
    Sorting.SortKeeps(L.partOrder, group);
    PartOrderIsLinear();
    Sorting.SortOrders(L.partOrder, group);
    Sorting.SortKeeps(L.ascending, FlatMap(L.indicesOf, sorted));
    Sorting.SortOrders(L.ascending, FlatMap(L.indicesOf, sorted));
    assert forall i, j :: 0 <= i < j < |sorted| ==> L.partOrder(sorted[i], sorted[j]);
    var indices := L.Merge(group).indices;
    assert forall i, j :: 0 <= i < j < |indices| ==> L.ascending(indices[i], indices[j]);
  }

  lemma PartOrderIsLinear()
    ensures Sorting.Linear(L.partOrder) && forall a, b :: L.partOrder(a, b) <==> InPartOrder(a, b)
  {
  }

  /** A listing is scanned if and only if it has at most 4096 entries; the first one only sets a mark. */
  lemma LargeListingIsRefused(clock: F.Clock, identity: D.Identity, d: D.State, entries: seq<Entry>, keys: seq<D.Key>)
    ensures var (after, published) := D.Scanned(clock, identity, d, entries, keys);
      && (published.None? <==> |entries| > 4096) && (published.None? ==> after == d)
      && (published.Some? ==> after.initialized)
      && (published.Some? && !d.initialized ==>
        published.value == [] && forall e :: e in entries ==> identity(e) in after.seen)
  {
    hide D.Process, D.Groups;
    assert forall e :: e in entries ==> exists i :: 0 <= i < |entries| && entries[i] == e;
  }

  // ----- What a scan remembers and publishes

  /** Nothing of the message is remembered, and it shares nothing with a complete message before it. */
  predicate IsNew(identity: D.Identity, seen: set<nat>, groups: seq<seq<Entry>>, g: nat)
    requires g < |groups| && forall i :: 0 <= i < |groups| ==> groups[i] != []
  {
    && D.Ids(identity, groups[g]) !! seen
    && forall h :: 0 <= h < g && D.Complete(groups[h]) ==> D.Ids(identity, groups[h]) !! D.Ids(identity, groups[g])
  }

  /** The messages from `g` on that are complete, can be published, and are new, in order. */
  function NewFrom(identity: D.Identity, seen: set<nat>, groups: seq<seq<Entry>>, g: nat): seq<seq<Entry>>
    requires g <= |groups| && forall i :: 0 <= i < |groups| ==> groups[i] != []
    decreases |groups| - g
  {
    if g == |groups| then []
    else
      var isNew := D.Complete(groups[g]) && D.Publishable(groups[g]) && IsNew(identity, seen, groups, g);
      (if isNew then [groups[g]] else []) + NewFrom(identity, seen, groups, g + 1)
  }

  /** The identities of the complete messages before `g`, and what was remembered. */
  predicate Remembers(identity: D.Identity, seen: set<nat>, groups: seq<seq<Entry>>, g: nat, after: set<nat>)
    requires g <= |groups| && forall i :: 0 <= i < |groups| ==> groups[i] != []
  {
    && seen <= after
    && (forall h :: 0 <= h < g && D.Complete(groups[h]) ==> D.Ids(identity, groups[h]) <= after)
    && forall id :: id in after ==>
        id in seen || exists h :: 0 <= h < g && D.Complete(groups[h]) && id in D.Ids(identity, groups[h])
  }

  /** A scan publishes exactly the new messages, and remembers exactly what it knew and the complete ones. */
  lemma ScanIsExact(identity: D.Identity, seen: set<nat>, groups: seq<seq<Entry>>)
    requires forall i :: 0 <= i < |groups| ==> groups[i] != []
    ensures D.NonEmpty(groups)
    ensures D.Process(identity, seen, groups).1 == NewFrom(identity, seen, groups, 0)
    ensures Remembers(identity, seen, groups, |groups|, D.Process(identity, seen, groups).0)
  {
    assert groups[0..] == groups;
    ScanFrom(identity, seen, groups, 0, seen);
  }

  lemma NewIsDisjoint(identity: D.Identity, seen: set<nat>, groups: seq<seq<Entry>>, g: nat, now: set<nat>)
    requires g < |groups| && forall i :: 0 <= i < |groups| ==> groups[i] != []
    requires Remembers(identity, seen, groups, g, now)
    ensures IsNew(identity, seen, groups, g) <==> now * D.Ids(identity, groups[g]) == {}
  {
    hide D.Ids, D.Complete;
    var ids := D.Ids(identity, groups[g]);
    assert now * ids == {} <==> now !! ids by {
      assert forall id :: id in now * ids <==> id in now && id in ids;
    }
    if now !! ids {
      forall h | 0 <= h < g && D.Complete(groups[h])
        ensures D.Ids(identity, groups[h]) !! ids
      {
        assert D.Ids(identity, groups[h]) <= now;
      }
    }
    if IsNew(identity, seen, groups, g) {
      forall id | id in now
        ensures id !in ids
      {
        if id !in seen {
          var h :| 0 <= h < g && D.Complete(groups[h]) && id in D.Ids(identity, groups[h]);
        }
      }
    }
  }

  lemma {:induction false} ScanFrom(identity: D.Identity, seen: set<nat>, groups: seq<seq<Entry>>, g: nat,
                                    now: set<nat>)
    requires g <= |groups| && forall i :: 0 <= i < |groups| ==> groups[i] != []
    requires Remembers(identity, seen, groups, g, now)
    ensures D.NonEmpty(groups[g..])
    ensures D.Process(identity, now, groups[g..]).1 == NewFrom(identity, seen, groups, g)
    ensures Remembers(identity, seen, groups, |groups|, D.Process(identity, now, groups[g..]).0)
    decreases |groups| - g
  {
    hide D.Ids, D.Complete, D.Publishable;
    if g < |groups| {
      assert groups[g..][0] == groups[g] && groups[g..][1..] == groups[g + 1..];
      NewIsDisjoint(identity, seen, groups, g, now);
      hide IsNew;
      if D.Complete(groups[g]) {
        ScanFrom(identity, seen, groups, g + 1, now + D.Ids(identity, groups[g]));
      } else {
        ScanFrom(identity, seen, groups, g + 1, now);
      }
    }
  }

  // ----- Entries with a key in a listing

  /** A plain entry extends the open run or ends it. */
  lemma PlainEntryNext(clock: F.Clock, all: seq<Entry>, p: Entry, rest: seq<Entry>, done: set<L.Key>, open: seq<Entry>)
    requires ConcatKey(p).None?
    ensures L.Regroup(clock, all, [p] + rest, done, open) ==
      if open != [] && !L.Adjacent(clock, open[|open| - 1], p) then
        L.Flush(open) + L.Regroup(clock, all, rest, done, [p])
      else L.Regroup(clock, all, rest, done, open + [p])
  {
    hide L.Merge, L.Adjacent;
    assert ([p] + rest)[1..] == rest;
  }

  lemma KeyedEntryNext(clock: F.Clock, all: seq<Entry>, e: Entry, rest: seq<Entry>, done: set<L.Key>, open: seq<Entry>)
    requires ConcatKey(e).Some?
    ensures var key := ConcatKey(e).value;
      L.Regroup(clock, all, [e] + rest, done, open) ==
      if key in done then L.Regroup(clock, all, rest, done, open)
      else
        L.Flush(open) + L.MergeAll(F.Split(clock, L.Select(all, key))) + L.Regroup(clock, all, rest, done + {key}, [])
  {
    hide L.Merge, L.MergeAll, F.Split, L.Select;
    assert ([e] + rest)[1..] == rest;
  }

  /** An entry whose message is out already is passed over; it does not end a run. */
  lemma {:induction false} TakenKeyIsPassedOver(clock: F.Clock, all: seq<Entry>, plain: seq<Entry>, e: Entry,
                                                rest: seq<Entry>, done: set<L.Key>, open: seq<Entry>)
    requires (forall p :: p in plain ==> ConcatKey(p).None?) && ConcatKey(e).Some? && ConcatKey(e).value in done
    ensures L.Regroup(clock, all, plain + [e] + rest, done, open) == L.Regroup(clock, all, plain + rest, done, open)
    decreases |plain|
  {
    hide L.Regroup, L.Adjacent, L.Flush, ConcatKey;
    if plain == [] {
      assert plain + [e] + rest == [e] + rest && plain + rest == rest;
      KeyedEntryNext(clock, all, e, rest, done, open);
    } else {
      var p, more := plain[0], plain[1..];
      assert p in plain && forall x :: x in more ==> x in plain;
      assert plain + [e] + rest == [p] + (more + [e] + rest) && plain + rest == [p] + (more + rest);
      PlainEntryNext(clock, all, p, more + [e] + rest, done, open);
      PlainEntryNext(clock, all, p, more + rest, done, open);
      TakenKeyIsPassedOver(clock, all, more, e, rest, done, [p]);
      TakenKeyIsPassedOver(clock, all, more, e, rest, done, open + [p]);
    }
  }

  /** The first entry with a key ends the run before it, and brings out all messages under its key. */
  lemma {:induction false} NewKeyBringsMessages(clock: F.Clock, all: seq<Entry>, plain: seq<Entry>, e: Entry,
                                                rest: seq<Entry>, done: set<L.Key>, open: seq<Entry>)
    requires (forall p :: p in plain ==> ConcatKey(p).None?) && ConcatKey(e).Some? && ConcatKey(e).value !in done
    ensures var key := ConcatKey(e).value;
      L.Regroup(clock, all, plain + [e] + rest, done, open)
        == L.Regroup(clock, all, plain, done, open) + L.MergeAll(F.Split(clock, L.Select(all, key)))
          + L.Regroup(clock, all, rest, done + {key}, [])
    decreases |plain|
  {
    NothingLeft(clock, all, done, open);
    hide L.Regroup, L.Adjacent, L.Flush, L.MergeAll, F.Split, L.Select, ConcatKey;
    if plain == [] {
      assert plain + [e] + rest == [e] + rest;
      KeyedEntryNext(clock, all, e, rest, done, open);
    } else {
      var p, more := plain[0], plain[1..];
      assert p in plain && forall x :: x in more ==> x in plain;
      assert plain + [e] + rest == [p] + (more + [e] + rest) && plain == [p] + more;
      PlainEntryNext(clock, all, p, more + [e] + rest, done, open);
      PlainEntryNext(clock, all, p, more, done, open);
      NewKeyBringsMessages(clock, all, more, e, rest, done, [p]);
      NewKeyBringsMessages(clock, all, more, e, rest, done, open + [p]);
    }
  }

  lemma NothingLeft(clock: F.Clock, all: seq<Entry>, done: set<L.Key>, open: seq<Entry>)
    ensures L.Regroup(clock, all, [], done, open) == L.Flush(open)
  {
    hide L.Merge;
  }
}
