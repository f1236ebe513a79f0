/** The inbox detector: which messages of a listing are new, and what is published of them. */
module Detector {
  import opened Common
  import opened Inbox
  import F = Fragments
  import Sorting
  import Utf8

  const MAX_SEEN: nat := 4096
  const MAX_TEXT: nat := 65536

  /** The digest that identifies an entry; its value is not looked into. */
  type Identity = Entry -> nat

  datatype Key = Single(id: nat) | Multi(storage: Storage, sender: string, reference: Reference)

  datatype Part = Part(storage: Storage, index: nat, fingerprint: nat)

  datatype Notification = Notification(id: nat, device: string, sender: string, receivedAt: string, text: string,
                                       parts: seq<Part>)

  function KeyOf(identity: Identity, e: Entry): Key {
    match e.concat
    case None => Single(identity(e))
    case Some(c) => Multi(e.storage, e.sender, c.reference)
  }

  /** The entries under one key, in listing order. */
  function Select(identity: Identity, entries: seq<Entry>, key: Key): seq<Entry> {
    if entries == [] then []
    else (if KeyOf(identity, entries[0]) == key then [entries[0]] else []) + Select(identity, entries[1..], key)
  }

  function Keys(identity: Identity, entries: seq<Entry>): set<Key> {
    set i | 0 <= i < |entries| :: KeyOf(identity, entries[i])
  }

  function Ids(identity: Identity, entries: seq<Entry>): set<nat> {
    set i | 0 <= i < |entries| :: identity(entries[i])
  }

  /** The messages of a listing when the keys are visited in the order `keys`. */
  function Groups(clock: F.Clock, identity: Identity, entries: seq<Entry>, keys: seq<Key>): seq<seq<Entry>> {
    if keys == [] then []
    else F.Split(clock, Select(identity, entries, keys[0])) + Groups(clock, identity, entries, keys[1..])
  }

  // ----- One message

  function Sequences(group: seq<Entry>): set<nat> {
    set i | 0 <= i < |group| && Sequence(group[i]).Some? :: Sequence(group[i]).value
  }

  function TotalOf(group: seq<Entry>): nat
    requires group != []
  {
    match Total(group[0])
    case Some(n) => n
    case None => 1
  }

  /** A multipart message is complete when parts 1 to `total` are all there, and nothing else. */
  predicate Complete(group: seq<Entry>)
    requires group != []
  {
    var total := TotalOf(group);
    total > 1 ==>
      && total <= 255 && |group| == total && |Sequences(group)| == total
      && forall s :: 1 <= s <= total ==> s in Sequences(group)
  }

  const sequenceOf: Entry -> int := (e: Entry) => match Sequence(e) case Some(n) => n case None => 0

  function InOrder(group: seq<Entry>): seq<Entry> {
    Sorting.Sort(Sorting.ByKey(sequenceOf), group)
  }

  const textOf: Entry -> string := (e: Entry) => e.text

  function Text(group: seq<Entry>): string {
    FlatMap(textOf, InOrder(group))
  }

  predicate Publishable(group: seq<Entry>)
    requires group != []
  {
    SortNotEmpty(group);
    Text(group) != [] && Utf8.Length(Text(group)) <= MAX_TEXT && InOrder(group)[0].sender != []
  }

  lemma SortNotEmpty(group: seq<Entry>)
    ensures |InOrder(group)| == |group|
  {
    Sorting.SortKeeps(Sorting.ByKey(sequenceOf), group);
  }

  /** The parts a receipt will name; an index that does not fit 16 bits is left out. */
  function Parts(identity: Identity, group: seq<Entry>): seq<Part> {
    if group == [] then []
    else
      var index := FirstIndex(group[0]);
      (if index.Some? && index.value < 0x10000
       then [Part(group[0].storage, index.value, identity(group[0]))] else [])
      + Parts(identity, group[1..])
  }

  function Publish(identity: Identity, device: string, group: seq<Entry>): Notification
    requires group != []
  {
    SortNotEmpty(group);
    var sorted := InOrder(group);
    Notification(identity(sorted[0]), device, sorted[0].sender, sorted[0].date, Text(group), Parts(identity, sorted))
  }

  /** `notes` publish the messages `published`, one each. */
  ghost predicate Published(identity: Identity, device: string, notes: seq<Notification>, published: seq<seq<Entry>>) {
    |notes| == |published|
    && forall i :: 0 <= i < |notes| ==> published[i] != [] && notes[i] == Publish(identity, device, published[i])
  }

  // ----- One scan

  datatype State = State(initialized: bool, seen: set<nat>)

  ghost predicate NonEmpty(groups: seq<seq<Entry>>) {
    forall g :: 0 <= g < |groups| ==> groups[g] != []
  }

  /** The identities seen after going through `groups`, and the groups that are published. */
  function Process(identity: Identity, seen: set<nat>, groups: seq<seq<Entry>>): (set<nat>, seq<seq<Entry>>)
    requires NonEmpty(groups)
    decreases groups
  {
    if groups == [] then (seen, [])
    else
      var group := groups[0];
      assert NonEmpty(groups[1..]);
      if !Complete(group) then Process(identity, seen, groups[1..])
      else
        var ids := Ids(identity, group);
        var (after, published) := Process(identity, seen + ids, groups[1..]);
        if seen * ids != {} || !Publishable(group) then (after, published) else (after, [group] + published)
  }

  lemma {:induction false} GroupsNonEmpty(clock: F.Clock, identity: Identity, entries: seq<Entry>, keys: seq<Key>)
    ensures NonEmpty(Groups(clock, identity, entries, keys))
  {
    if keys != [] {
      F.SplitPartitions(clock, Select(identity, entries, keys[0]));
      GroupsNonEmpty(clock, identity, entries, keys[1..]);
    }
  }

  /** A scan of a listing whose keys are visited in the order `keys`; `None` when it is over capacity. */
  function Scanned(clock: F.Clock, identity: Identity, d: State, entries: seq<Entry>, keys: seq<Key>)
    : (State, Option<seq<seq<Entry>>>)
  {
    if |entries| > MAX_SEEN then (d, None)
    else
      var present := Ids(identity, entries);
      if !d.initialized then (State(true, present), Some([]))
      else
        GroupsNonEmpty(clock, identity, entries, keys);
        var (seen, published) := Process(identity, d.seen * present, Groups(clock, identity, entries, keys));
        (State(true, seen), Some(published))
  }

  /** An order in which the keys of a listing can be visited: each once. */
  ghost predicate Visits(identity: Identity, entries: seq<Entry>, keys: seq<Key>) {
    && (forall i, j :: 0 <= i < j < |keys| ==> keys[i] != keys[j])
    && (forall k :: k in keys <==> k in Keys(identity, entries))
  }

  class Detector {
    var initialized: bool
    var seen: set<nat>

    ghost function Model(): State
      reads this
    {
      State(initialized, seen)
    }

    constructor ()
      ensures Model() == State(false, {})
    {
      initialized := false;
      seen := {};
    }

    /** Goes through the groups, remembering every complete one and collecting those to publish. */
    method Collect(identity: Identity, groups: seq<seq<Entry>>) returns (published: seq<seq<Entry>>)
      requires NonEmpty(groups)
      modifies this`seen
      ensures (seen, published) == Process(identity, old(seen), groups)
    {
      hide Complete, Publishable, Ids;
      published := [];
      ghost var (after, all) := Process(identity, seen, groups);
      for i := 0 to |groups|
        invariant NonEmpty(groups[i..])
        invariant Process(identity, seen, groups[i..]).0 == after
        invariant published + Process(identity, seen, groups[i..]).1 == all
      {
        var group := groups[i];
        assert groups[i..][0] == group && groups[i..][1..] == groups[i + 1..];
        if Complete(group) {
          var ids := Ids(identity, group);
          var known := seen * ids != {};
          seen := seen + ids;
          if !known && Publishable(group) {
            published := published + [group];
          }
        }
      }
      assert groups[|groups|..] == [] && published + [] == published;
      assert Process(identity, seen, []) == (seen, []);
    }

    /** The hash map of fragments by key. */
    method GroupByKey(identity: Identity, entries: seq<Entry>) returns (groups: map<Key, seq<Entry>>)
      ensures groups.Keys == Keys(identity, entries)
      ensures forall k :: k in groups ==> groups[k] == Select(identity, entries, k)
    {
      hide Select, Keys, KeyOf;
      groups := map[];
      NothingSelected(identity);
      assert entries[..0] == [];
      for i := 0 to |entries|
        invariant groups.Keys == Keys(identity, entries[..i])
        invariant forall k :: k in groups ==> groups[k] == Select(identity, entries[..i], k)
        invariant forall k :: k !in groups ==> Select(identity, entries[..i], k) == []
      {
        var key := KeyOf(identity, entries[i]);
        assert entries[..i + 1] == entries[..i] + [entries[i]];
        forall k ensures Select(identity, entries[..i + 1], k)
                      == Select(identity, entries[..i], k) + (if k == key then [entries[i]] else [])
        {
          SelectSnoc(identity, entries[..i], entries[i], k);
        }
        KeysSnoc(identity, entries[..i], entries[i]);
        groups := groups[key := (if key in groups then groups[key] else []) + [entries[i]]];
      }
      assert entries[..|entries|] == entries;
    }

    /** Walks the hash map, in whatever order it yields its keys, and splits each group into messages. */
    method Messages(clock: F.Clock, identity: Identity, entries: seq<Entry>)
      returns (messages: seq<seq<Entry>>, ghost keys: seq<Key>)
      ensures Visits(identity, entries, keys)
      ensures messages == Groups(clock, identity, entries, keys)
      ensures exists order: seq<Key> ::
        Visits(identity, entries, order) && messages == Groups(clock, identity, entries, order)
    {
      hide Select, F.Split;
      var groups := GroupByKey(identity, entries);
      keys := [];
      var remaining := groups.Keys;
      messages := [];
      while remaining != {}
        invariant remaining <= groups.Keys
        invariant forall i, j :: 0 <= i < j < |keys| ==> keys[i] != keys[j]
        invariant forall k :: k in keys <==> k in groups.Keys && k !in remaining
        invariant messages == Groups(clock, identity, entries, keys)
        decreases remaining
      {
        var key :| key in remaining;
        assert key !in keys;
        var split := F.SplitFragments(clock, groups[key]);
        GroupsSnoc(clock, identity, entries, keys, key);
        messages := messages + split;
        keys := keys + [key];
        remaining := remaining - {key};
      }
    }

    /** One listing; the result holds for the order in which the hash map was walked. */
    method Scan(clock: F.Clock, identity: Identity, entries: seq<Entry>, device: string)
      returns (r: Option<seq<Notification>>, ghost keys: seq<Key>)
      modifies this
      ensures old(initialized) && r.Some? ==> Visits(identity, entries, keys)
      ensures var (after, published) := Scanned(clock, identity, old(Model()), entries, keys);
        Model() == after
        && (r.None? <==> published.None?)
        && (r.Some? ==> Published(identity, device, r.value, published.value))
    {
      hide Process, Publish, Groups, Visits;
      keys := [];
      if |entries| > MAX_SEEN {
        return None, keys;
      }
      var present := Ids(identity, entries);
      if !initialized {
        seen := present;
        initialized := true;
        return Some([]), keys;
      }
      seen := seen * present;
      var messages;
      messages, keys := Messages(clock, identity, entries);
      GroupsNonEmpty(clock, identity, entries, keys);
      ProcessNonEmpty(identity, seen, messages);
      var published := Collect(identity, messages);
      var notes := [];
      for i := 0 to |published|
        invariant |notes| == i
        invariant forall k :: 0 <= k < i ==> notes[k] == Publish(identity, device, published[k])
      {
        notes := notes + [Publish(identity, device, published[i])];
      }
      r := Some(notes);
    }
  }

  lemma {:induction false} SelectSnoc(identity: Identity, entries: seq<Entry>, e: Entry, key: Key)
    ensures Select(identity, entries + [e], key)
         == Select(identity, entries, key) + (if KeyOf(identity, e) == key then [e] else [])
  {
    hide KeyOf;
    var mine := if KeyOf(identity, e) == key then [e] else [];
    if entries == [] {
      assert entries + [e] == [e];
      assert Select(identity, [e], key) == mine + Select(identity, [], key);
    } else {
      SelectSnoc(identity, entries[1..], e, key);
      assert (entries + [e])[1..] == entries[1..] + [e];
      ConcatAssociates(if KeyOf(identity, entries[0]) == key then [entries[0]] else [],
                       Select(identity, entries[1..], key), mine);
    }
  }

  lemma NothingSelected(identity: Identity)
    ensures Keys(identity, []) == {}
    ensures forall k :: Select(identity, [], k) == []
  {
  }

  lemma KeysSnoc(identity: Identity, entries: seq<Entry>, e: Entry)
    ensures Keys(identity, entries + [e]) == Keys(identity, entries) + {KeyOf(identity, e)}
  {
    var all := entries + [e];
    forall k | k in Keys(identity, entries) ensures k in Keys(identity, all) {
      var i :| 0 <= i < |entries| && KeyOf(identity, entries[i]) == k;
      assert all[i] == entries[i];
    }
    assert all[|entries|] == e;
  }

  lemma {:induction false} GroupsSnoc(clock: F.Clock, identity: Identity, entries: seq<Entry>, keys: seq<Key>, key: Key)
    ensures Groups(clock, identity, entries, keys + [key])
         == Groups(clock, identity, entries, keys) + F.Split(clock, Select(identity, entries, key))
  {
    hide F.Split, Select;
    if keys == [] {
      assert keys + [key] == [key];
      assert Groups(clock, identity, entries, [key])
          == F.Split(clock, Select(identity, entries, key)) + Groups(clock, identity, entries, []);
    } else {
      GroupsSnoc(clock, identity, entries, keys[1..], key);
      assert (keys + [key])[1..] == keys[1..] + [key];
    }
  }

  lemma {:induction false} ProcessNonEmpty(identity: Identity, seen: set<nat>, groups: seq<seq<Entry>>)
    requires NonEmpty(groups)
    ensures NonEmpty(Process(identity, seen, groups).1)
    decreases groups
  {
    hide Complete, Publishable, Ids;
    if groups != [] {
      ProcessNonEmpty(identity, seen, groups[1..]);
      ProcessNonEmpty(identity, seen + Ids(identity, groups[0]), groups[1..]);
    }
  }
}
