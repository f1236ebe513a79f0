/** What the SMS list guarantees: no inbox index is lost or doubled, and a sent message is read back whole. */
module SmsListProps {
  import opened Common
  import opened Inbox
  import opened SmsList
  import opened Septets
  import F = Fragments
  import Sms
  import SmsRoundTrip
  import DetectorRun
  import Sorting

  // ----- Counting indices

  /** How often an inbox index occurs in some entries. */
  function Hits(x: int, entries: seq<Entry>): nat {
    if entries == [] then 0 else multiset(entries[0].indices)[x] + Hits(x, entries[1..])
  }

  function ListedHits(x: int, messages: seq<Message>): nat {
    if messages == [] then 0 else multiset(messages[0].indices)[x] + ListedHits(x, messages[1..])
  }

  lemma {:induction false} HitsAreFlat(x: int, entries: seq<Entry>)
    ensures multiset(FlatMap(indicesOf, entries))[x] == Hits(x, entries)
  {
    if entries != [] {
      HitsAreFlat(x, entries[1..]);
    }
  }

  lemma {:induction false} HitsConcat(x: int, a: seq<Entry>, b: seq<Entry>)
    ensures Hits(x, a + b) == Hits(x, a) + Hits(x, b)
  {
    if a == [] {
      assert a + b == b;
    } else {
      HitsConcat(x, a[1..], b);
      assert (a + b)[0] == a[0] && (a + b)[1..] == a[1..] + b;
    }
  }

  lemma {:induction false} ListedHitsConcat(x: int, a: seq<Message>, b: seq<Message>)
    ensures ListedHits(x, a + b) == ListedHits(x, a) + ListedHits(x, b)
  {
    if a == [] {
      assert a + b == b;
    } else {
      ListedHitsConcat(x, a[1..], b);
      assert (a + b)[0] == a[0] && (a + b)[1..] == a[1..] + b;
    }
  }

  lemma HitsSingle(x: int, e: Entry)
    ensures Hits(x, [e]) == multiset(e.indices)[x] && Hits(x, []) == 0
  {
    assert Hits(x, [e]) == multiset(e.indices)[x] + Hits(x, []);
  }

  lemma RemoveOne<T>(a: seq<T>, b: seq<T>) returns (j: nat)
    requires a != [] && multiset(a) == multiset(b)
    ensures j < |b| && b[j] == a[0] && b == b[..j] + ([b[j]] + b[j + 1..])
    ensures multiset(a[1..]) == multiset(b[..j] + b[j + 1..])
  {
    assert a[0] in multiset(b);
    j :| 0 <= j < |b| && b[j] == a[0];
    WithoutOne(a, 0);
    WithoutOne(b, j);
    assert a[..0] + a[1..] == a[1..];
  }

  lemma WithoutOne<T>(a: seq<T>, j: nat)
    requires j < |a|
    ensures a == a[..j] + ([a[j]] + a[j + 1..])
    ensures multiset(a[..j] + a[j + 1..]) == multiset(a) - multiset{a[j]}
  {
    var rest := a[j + 1..];
    assert a == a[..j] + ([a[j]] + rest);
    assert multiset(a[..j] + rest) == multiset(a[..j]) + multiset(rest);
    assert multiset(a[..j] + ([a[j]] + rest)) == multiset(a[..j]) + (multiset{a[j]} + multiset(rest));
  }

  /** The count does not depend on the order. */
  lemma {:induction false} HitsOfSame(x: int, a: seq<Entry>, b: seq<Entry>)
    requires multiset(a) == multiset(b)
    ensures Hits(x, a) == Hits(x, b)
    decreases |a|
  {
    if a == [] {
      assert |multiset(b)| == 0;
      assert b == [];
    } else {
      var j := RemoveOne(a, b);
      HitsOfSame(x, a[1..], b[..j] + b[j + 1..]);
      HitsConcat(x, b[..j], [b[j]] + b[j + 1..]);
      HitsConcat(x, [b[j]], b[j + 1..]);
      HitsConcat(x, b[..j], b[j + 1..]);
      HitsSingle(x, b[j]);
    }
  }

  lemma MergeKeeps(x: int, group: seq<Entry>)
    requires group != []
    ensures multiset(Merge(group).indices)[x] == Hits(x, group)
  {
    if |group| == 1 {
      assert Hits(x, group) == multiset(group[0].indices)[x] + Hits(x, group[1..]);
    } else {
      var sorted := Sorting.Sort(partOrder, group);
      Sorting.SortKeeps(partOrder, group);
      Sorting.SortKeeps(ascending, FlatMap(indicesOf, sorted));
      HitsAreFlat(x, sorted);
      HitsOfSame(x, sorted, group);
    }
  }

  lemma FlushKeeps(x: int, fragments: seq<Entry>)
    ensures ListedHits(x, Flush(fragments)) == Hits(x, fragments)
  {
    hide Merge;
    if fragments != [] {
      MergeKeeps(x, fragments);
      assert ListedHits(x, [Merge(fragments)]) == multiset(Merge(fragments).indices)[x] + ListedHits(x, []);
    }
  }

  lemma {:induction false} MergeAllKeeps(x: int, groups: seq<seq<Entry>>)
    ensures ListedHits(x, MergeAll(groups)) == Hits(x, Flatten(groups))
  {
    hide Merge;
    if groups != [] {
      MergeAllKeeps(x, groups[1..]);
      FlushKeeps(x, groups[0]);
      HitsConcat(x, groups[0], Flatten(groups[1..]));
      ListedHitsConcat(x, Flush(groups[0]), MergeAll(groups[1..]));
    }
  }

  // ----- Conservation

  function PlainHits(x: int, entries: seq<Entry>): nat {
    if entries == [] then 0
    else (if ConcatKey(entries[0]).None? then multiset(entries[0].indices)[x] else 0) + PlainHits(x, entries[1..])
  }

  function Keys(entries: seq<Entry>): set<Key> {
    if entries == [] then {}
    else (match ConcatKey(entries[0]) case Some(key) => {key} case None => {}) + Keys(entries[1..])
  }

  /** The count over the entries whose key is in `keys`. */
  function KeyedHits(x: int, entries: seq<Entry>, keys: set<Key>): nat {
    if entries == [] then 0
    else
      (match ConcatKey(entries[0])
       case Some(key) => if key in keys then multiset(entries[0].indices)[x] else 0
       case None => 0)
      + KeyedHits(x, entries[1..], keys)
  }

  lemma {:induction false} KeyedSplit(x: int, entries: seq<Entry>, keys: set<Key>, key: Key)
    requires key !in keys
    ensures KeyedHits(x, entries, keys + {key}) == KeyedHits(x, entries, keys) + Hits(x, Select(entries, key))
  {
    if entries != [] {
      KeyedSplit(x, entries[1..], keys, key);
      var e := entries[0];
      HitsSingle(x, e);
      HitsConcat(x, if ConcatKey(e) == Some(key) then [e] else [], Select(entries[1..], key));
    }
  }

  lemma {:induction false} KeyedAll(x: int, entries: seq<Entry>, keys: set<Key>)
    requires Keys(entries) <= keys
    ensures Hits(x, entries) == PlainHits(x, entries) + KeyedHits(x, entries, keys)
  {
    if entries != [] {
      KeyedAll(x, entries[1..], keys);
    }
  }

  lemma {:induction false} KeyedNothing(x: int, entries: seq<Entry>)
    ensures KeyedHits(x, entries, {}) == 0
  {
    if entries != [] {
      KeyedNothing(x, entries[1..]);
    }
  }

  lemma SelectedMessages(x: int, clock: F.Clock, entries: seq<Entry>, key: Key)
    ensures ListedHits(x, MergeAll(F.Split(clock, Select(entries, key)))) == Hits(x, Select(entries, key))
  {
    hide Hits, ListedHits, MergeAll;
    F.SplitPartitions(clock, Select(entries, key));
    MergeAllKeeps(x, F.Split(clock, Select(entries, key)));
    HitsOfSame(x, Flatten(F.Split(clock, Select(entries, key))), Select(entries, key));
  }

  /** What is still to come out: the open run, the plain entries left, and every group not yet taken. */
  lemma {:induction false} RegroupConserves(x: int, clock: F.Clock, all: seq<Entry>, rest: seq<Entry>, done: set<Key>,
                                            fragments: seq<Entry>)
    ensures ListedHits(x, Regroup(clock, all, rest, done, fragments)) + KeyedHits(x, all, done)
         == Hits(x, fragments) + PlainHits(x, rest) + KeyedHits(x, all, done + Keys(rest))
    decreases rest
  {
    hide Hits, ListedHits, MergeAll, Flush, Adjacent, F.Split, Select, KeyedHits;
    FlushKeeps(x, fragments);
    if rest == [] {
      assert done + Keys(rest) == done;
    } else {
      var v := rest[0];
      HitsSingle(x, v);
      match ConcatKey(v)
      case Some(key) =>
        if key in done {
          RegroupConserves(x, clock, all, rest[1..], done, fragments);
          assert done + Keys(rest) == done + Keys(rest[1..]);
        } else {
          RegroupConserves(x, clock, all, rest[1..], done + {key}, []);
          assert done + Keys(rest) == done + {key} + Keys(rest[1..]);
          var merged := MergeAll(F.Split(clock, Select(all, key)));
          ListedHitsConcat(x, Flush(fragments) + merged, Regroup(clock, all, rest[1..], done + {key}, []));
          ListedHitsConcat(x, Flush(fragments), merged);
          SelectedMessages(x, clock, all, key);
          KeyedSplit(x, all, done, key);
        }
      case None =>
        assert done + Keys(rest) == done + Keys(rest[1..]);
        if fragments != [] && !Adjacent(clock, fragments[|fragments| - 1], v) {
          RegroupConserves(x, clock, all, rest[1..], done, [v]);
          ListedHitsConcat(x, Flush(fragments), Regroup(clock, all, rest[1..], done, [v]));
        } else {
          RegroupConserves(x, clock, all, rest[1..], done, fragments + [v]);
          HitsConcat(x, fragments, [v]);
        }
    }
  }

  /** Every inbox index appears in the listed messages exactly as often as in the inbox. */
  lemma ListConservesIndices(x: int, clock: F.Clock, entries: seq<Entry>)
    ensures ListedHits(x, Listed(clock, entries)) == Hits(x, entries)
  {
    hide Regroup, ListedHits, PlainHits, KeyedHits;
    RegroupConserves(x, clock, entries, entries, {}, []);
    KeyedNothing(x, entries);
    assert {} + Keys(entries) == Keys(entries);
    KeyedAll(x, entries, Keys(entries));
  }

  // ----- A message that was sent

  /** Every group of every key present is listed. */
  lemma {:induction false} GroupsAreListed(clock: F.Clock, all: seq<Entry>, rest: seq<Entry>, done: set<Key>,
                                           fragments: seq<Entry>, key: Key, g: nat)
    requires key in Keys(rest) && key !in done
    requires g < |F.Split(clock, Select(all, key))|
    ensures F.Split(clock, Select(all, key))[g] != []
    ensures Merge(F.Split(clock, Select(all, key))[g]) in Regroup(clock, all, rest, done, fragments)
    decreases rest
  {
    hide Merge, MergeAll, Flush, Adjacent, F.Split, Select;
    F.SplitPartitions(clock, Select(all, key));
    var v := rest[0];
    if ConcatKey(v) == Some(key) {
      MergeAllHas(F.Split(clock, Select(all, key)), g);
    } else {
      match ConcatKey(v)
      case Some(other) =>
        if other in done {
          GroupsAreListed(clock, all, rest[1..], done, fragments, key, g);
        } else {
          GroupsAreListed(clock, all, rest[1..], done + {other}, [], key, g);
        }
      case None =>
        if fragments != [] && !Adjacent(clock, fragments[|fragments| - 1], v) {
          GroupsAreListed(clock, all, rest[1..], done, [v], key, g);
        } else {
          GroupsAreListed(clock, all, rest[1..], done, fragments + [v], key, g);
        }
    }
  }

  lemma {:induction false} MergeAllHas(groups: seq<seq<Entry>>, g: nat)
    requires g < |groups| && groups[g] != []
    ensures Merge(groups[g]) in MergeAll(groups)
  {
    hide Merge;
    if g > 0 {
      MergeAllHas(groups[1..], g - 1);
    }
  }

  /** The entries are parts 1 to n of one message, in some order, dated within five minutes. */
  ghost predicate Shuffled(clock: F.Clock, parts: seq<Entry>, entries: seq<Entry>) {
    && multiset(entries) == multiset(parts)
    && |parts| > 1
    && (forall i :: 0 <= i < |parts| ==> Total(parts[i]) == Some(|parts|) && Sequence(parts[i]) == Some(i + 1))
    && (forall i, j :: 0 <= i < |parts| && 0 <= j < |parts| ==> F.Close(clock, parts[i], parts[j]))
  }

  lemma {:induction false} CountOne<T>(s: seq<T>, i: nat, j: nat)
    requires i < j < |s| && s[i] == s[j]
    ensures multiset(s)[s[i]] >= 2
  {
    assert s == s[..j] + s[j..];
    assert s[i] in s[..j] && s[j] in s[j..];
    assert multiset(s) == multiset(s[..j]) + multiset(s[j..]);
    assert s[i] in multiset(s[..j]) && s[j] in multiset(s[j..]);
  }

  lemma {:induction false} CountDistinct<T>(s: seq<T>, x: T)
    requires forall i, j :: 0 <= i < j < |s| ==> s[i] != s[j]
    ensures multiset(s)[x] <= 1
  {
    if s != [] {
      CountDistinct(s[1..], x);
      assert s == [s[0]] + s[1..];
      assert multiset(s) == multiset{s[0]} + multiset(s[1..]);
      if s[0] == x {
        assert x !in s[1..];
      }
    }
  }

  lemma PartIndex(clock: F.Clock, parts: seq<Entry>, entries: seq<Entry>, e: Entry)
    requires Shuffled(clock, parts, entries) && e in entries
    ensures Sequence(e).Some? && 1 <= Sequence(e).value <= |parts| && parts[Sequence(e).value - 1] == e
  {
    Sorting.SameElements(entries, parts);
    var i :| 0 <= i < |parts| && parts[i] == e;
  }

  lemma ShuffledIsCoherent(clock: F.Clock, parts: seq<Entry>, entries: seq<Entry>)
    requires Shuffled(clock, parts, entries)
    ensures F.Coherent(clock, entries)
  {
    forall e | e in entries ensures Total(e) == Some(|parts|) {
      PartIndex(clock, parts, entries, e);
    }
    assert |multiset(entries)| == |multiset(parts)|;
    forall i, j | 0 <= i < j < |entries| ensures Sequence(entries[i]) != Sequence(entries[j]) {
      PartIndex(clock, parts, entries, entries[i]);
      PartIndex(clock, parts, entries, entries[j]);
      if entries[i] == entries[j] {
        CountOne(entries, i, j);
        CountDistinct(parts, entries[i]);
      }
    }
    forall i | 0 < i < |entries| ensures F.Close(clock, entries[0], entries[i]) {
      PartIndex(clock, parts, entries, entries[0]);
      PartIndex(clock, parts, entries, entries[i]);
    }
  }

  lemma {:induction false} FlatMapTexts(parts: seq<Entry>, texts: seq<string>)
    requires |parts| == |texts| && forall i :: 0 <= i < |parts| ==> parts[i].text == texts[i]
    ensures FlatMap(textOf, parts) == Flatten(texts)
  {
    if parts != [] {
      FlatMapTexts(parts[1..], texts[1..]);
    }
  }

  /** Sorting parts by sequence number puts them back into their order. */
  lemma SortRestores(clock: F.Clock, parts: seq<Entry>, entries: seq<Entry>)
    requires Shuffled(clock, parts, entries)
    ensures Sorting.Sort(partOrder, entries) == parts
  {
    hide Sorting.Sort, F.Close, Total;
    var sorted := Sorting.Sort(partOrder, entries);
    var n := |parts|;
    Sorting.SortKeeps(partOrder, entries);
    Sorting.SortOrders(partOrder, entries);
    assert |multiset(entries)| == |multiset(parts)|;
    ShuffledIsCoherent(clock, parts, sorted);
    var numbers := seq(n, i requires 0 <= i < n => SequenceOr0(sorted[i]));
    forall i | 0 <= i < n ensures 1 <= numbers[i] < n + 1 {
      PartIndex(clock, parts, sorted, sorted[i]);
    }
    forall a, b | 0 <= a < b < n ensures numbers[a] < numbers[b] {
      assert partOrder(sorted[a], sorted[b]);
      PartIndex(clock, parts, sorted, sorted[a]);
      PartIndex(clock, parts, sorted, sorted[b]);
    }
    forall i | 0 <= i < n ensures sorted[i] == parts[i] {
      DetectorRun.RisingNumbers(numbers, 1, n + 1, i);
      PartIndex(clock, parts, sorted, sorted[i]);
    }
  }

  /** The parts of one message, in any order among the entries, become one message with their texts in order. */
  lemma PartsAreOneMessage(clock: F.Clock, parts: seq<Entry>, entries: seq<Entry>)
    requires Shuffled(clock, parts, entries)
    ensures |F.Split(clock, entries)| == 1 && F.Split(clock, entries)[0] != []
    ensures Merge(F.Split(clock, entries)[0]).text == FlatMap(textOf, parts)
  {
    var sorted := Sorting.Sort(F.precedes, entries);
    Sorting.SortKeeps(F.precedes, entries);
    assert |multiset(entries)| == |multiset(parts)|;
    ShuffledIsCoherent(clock, parts, sorted);
    assert sorted == [sorted[0]] + sorted[1..];
    F.OneMessageOneGroup(clock, [sorted[0]], sorted[1..]);
    assert F.Place(clock, [], sorted[0]) == [[sorted[0]]];
    assert F.Split(clock, entries) == [sorted];
    SortRestores(clock, parts, sorted);
  }

  /** What the listing holds of a submitted message: its parts as they were delivered and decoded. */
  ghost predicate Delivered(table: seq<char>, message: string, reference: Octet, parts: seq<Entry>)
    requires |table| == 128
  {
    && |parts| == |Sms.Groups(table, message)|
    && forall i :: 0 <= i < |parts| ==>
         && parts[i].text == SmsRoundTrip.Heard(table, message, i)
         && parts[i].concat == SmsRoundTrip.Announced(reference, |parts|, i)
         && parts[i].pdu
  }

  /** An entry with a PDU and no key stands alone: it is never part of a run. */
  lemma {:induction false} PlainIsListed(clock: F.Clock, all: seq<Entry>, rest: seq<Entry>, done: set<Key>,
                                         fragments: seq<Entry>, p: Entry)
    requires p.pdu && ConcatKey(p).None? && (p in rest || fragments == [p])
    ensures Merge([p]) in Regroup(clock, all, rest, done, fragments)
    decreases rest
  {
    hide Merge, MergeAll, F.Split, Select;
    if rest != [] {
      var v := rest[0];
      match ConcatKey(v)
      case Some(key) =>
        if key in done {
          PlainIsListed(clock, all, rest[1..], done, fragments, p);
        } else if fragments != [p] {
          PlainIsListed(clock, all, rest[1..], done + {key}, [], p);
        }
      case None =>
        if fragments != [p] {
          assert fragments == [] ==> fragments + [v] == [v];
          if fragments != [] && !Adjacent(clock, fragments[|fragments| - 1], v) {
            PlainIsListed(clock, all, rest[1..], done, [v], p);
          } else {
            PlainIsListed(clock, all, rest[1..], done, fragments + [v], p);
          }
        }
    }
  }

  /**
   The parts stand in the inbox among any other entries, in any order: several as the only ones under their
   key and dated within five minutes of each other, a single one, which has no key, anywhere.
   */
  ghost predicate Stands(clock: F.Clock, parts: seq<Entry>, inbox: seq<Entry>, key: Key) {
    if |parts| == 1 then parts[0] in inbox
    else
      && multiset(Select(inbox, key)) == multiset(parts) && key in Keys(inbox)
      && forall i, j :: 0 <= i < |parts| && 0 <= j < |parts| ==> F.Close(clock, parts[i], parts[j])
  }

  /**
   From the sender to the page. A message was submitted, and its parts came back, each relayed and decoded,
   and stand in the inbox. The page lists one message with the inbox indices of just these parts, and its
   text is the text that was sent if and only if the codec did not lose a character of it.
   */
  lemma SentMessageIsListed(table: seq<char>, message: string, reference: Octet, clock: F.Clock,
                            parts: seq<Entry>, inbox: seq<Entry>, key: Key) returns (m: Message)
    requires |table| == 128 && |parts| >= 1
    requires Delivered(table, message, reference, parts) && Stands(clock, parts, inbox, key)
    ensures m in Listed(clock, inbox)
    ensures m.text == message <==> SmsRoundTrip.Survives(table, message)
    ensures forall x :: multiset(m.indices)[x] == Hits(x, parts)
  {
    hide Merge, Regroup, Select, Hits, Sms.Groups, SmsRoundTrip.Heard, F.Split, SmsRoundTrip.Survives;
    FlatMapTexts(parts, SmsRoundTrip.Transcript(table, message));
    SmsRoundTrip.TranscriptIsMessage(table, message);
    var group: seq<Entry>;
    if |parts| == 1 {
      group := parts;
      PlainIsListed(clock, inbox, inbox, {}, [], parts[0]);
      assert parts == [parts[0]];
      MergeOfOne(parts);
      forall x ensures multiset(Merge(group).indices)[x] == Hits(x, parts) {
        MergeKeeps(x, group);
      }
    } else {
      var entries := Select(inbox, key);
      assert Shuffled(clock, parts, entries);
      PartsAreOneMessage(clock, parts, entries);
      GroupsAreListed(clock, inbox, inbox, {}, [], key, 0);
      group := F.Split(clock, entries)[0];
      forall x ensures multiset(Merge(group).indices)[x] == Hits(x, parts) {
        SelectedHits(x, clock, entries, group);
        HitsOfSame(x, entries, parts);
      }
    }
    m := Merge(group);
  }

  lemma MergeOfOne(group: seq<Entry>)
    requires |group| == 1
    ensures Merge(group).text == FlatMap(textOf, group)
  {
    assert FlatMap(textOf, group) == group[0].text + FlatMap(textOf, group[1..]);
  }

  lemma SelectedHits(x: int, clock: F.Clock, entries: seq<Entry>, group: seq<Entry>)
    requires F.Split(clock, entries) == [group] && group != []
    ensures multiset(Merge(group).indices)[x] == Hits(x, entries)
  {
    hide Merge, Hits, F.Split;
    F.SplitPartitions(clock, entries);
    assert Flatten([group]) == group + Flatten<Entry>([]);
    MergeKeeps(x, group);
    HitsOfSame(x, group, entries);
  }
}
