/** The SMS list: inbox entries put together into the messages the page shows. */
module SmsList {
  import opened Common
  import opened Inbox
  import F = Fragments
  import Sorting

  type Key = (string, Reference)

  datatype Message = Message(sender: string, date: string, text: string, indices: seq<int>,
                             reference: Option<(Reference, nat)>, sequence: Option<nat>)

  const textOf: Entry -> string := (e: Entry) => e.text
  const indicesOf: Entry -> seq<int> := (e: Entry) => e.indices
  const listed: Message -> seq<int> := (m: Message) => m.indices

  function SequenceOr0(e: Entry): int {
    match Sequence(e) case Some(n) => n case None => 0
  }

  function IndexOr0(e: Entry): int {
    if e.indices == [] then 0 else e.indices[0]
  }

  const partOrder: (Entry, Entry) -> bool := (a: Entry, b: Entry) =>
    SequenceOr0(a) < SequenceOr0(b) || (SequenceOr0(a) == SequenceOr0(b) && IndexOr0(a) <= IndexOr0(b))

  const ascending: (int, int) -> bool := (a: int, b: int) => a <= b

  function ReferenceOf(e: Entry): Option<(Reference, nat)> {
    match e.concat
    case None => None
    case Some(c) => Some((c.reference, c.total))
  }

  /** One message from its parts: the texts by sequence number and index, the indices ascending. */
  function Merge(group: seq<Entry>): Message
    requires group != []
  {
    var first := group[0];
    if |group| == 1 then
      Message(first.sender, first.date, first.text, first.indices, ReferenceOf(first), Sequence(first))
    else
      var sorted := Sorting.Sort(partOrder, group);
      Message(first.sender, first.date, FlatMap(textOf, sorted),
              Sorting.Sort(ascending, FlatMap(indicesOf, sorted)), ReferenceOf(first), None)
  }

  /** Whether a text-mode entry continues the one before it: same sender, five seconds, next index. */
  predicate Adjacent(clock: F.Clock, a: Entry, b: Entry) {
    && !a.pdu && !b.pdu
    && a.sender != "" && a.sender == b.sender
    && ((a.date != "" && a.date == b.date)
        || (clock(a.date).Some? && clock(b.date).Some? && -5 <= clock(a.date).value - clock(b.date).value <= 5))
    && a.indices != [] && b.indices != [] && b.indices[0] == a.indices[|a.indices| - 1] + 1
  }

  /** The entries with one concatenation key, in listing order. */
  function Select(entries: seq<Entry>, key: Key): seq<Entry> {
    if entries == [] then []
    else (if ConcatKey(entries[0]) == Some(key) then [entries[0]] else []) + Select(entries[1..], key)
  }

  function MergeAll(groups: seq<seq<Entry>>): seq<Message> {
    if groups == [] then []
    else (if groups[0] == [] then [] else [Merge(groups[0])]) + MergeAll(groups[1..])
  }

  function Flush(fragments: seq<Entry>): seq<Message> {
    if fragments == [] then [] else [Merge(fragments)]
  }

  /**
   The messages still to come when `rest` of the listing `all` is left, the groups of the keys `done`
   are already out, and `fragments` is the open run of adjacent entries.
   */
  function Regroup(clock: F.Clock, all: seq<Entry>, rest: seq<Entry>, done: set<Key>, fragments: seq<Entry>)
    : seq<Message>
    decreases rest
  {
    if rest == [] then Flush(fragments)
    else
      match ConcatKey(rest[0])
      case Some(key) =>
        if key in done then Regroup(clock, all, rest[1..], done, fragments)
        else
          Flush(fragments) + MergeAll(F.Split(clock, Select(all, key)))
          + Regroup(clock, all, rest[1..], done + {key}, [])
      case None =>
        if fragments != [] && !Adjacent(clock, fragments[|fragments| - 1], rest[0]) then
          Flush(fragments) + Regroup(clock, all, rest[1..], done, [rest[0]])
        else Regroup(clock, all, rest[1..], done, fragments + [rest[0]])
  }

  function Listed(clock: F.Clock, entries: seq<Entry>): seq<Message> {
    Regroup(clock, entries, entries, {}, [])
  }

  method MergeGroups(groups: seq<seq<Entry>>) returns (messages: seq<Message>)
    requires forall g :: 0 <= g < |groups| ==> groups[g] != []
    ensures messages == MergeAll(groups)
  {
    hide Merge;
    messages := [];
    for i := 0 to |groups|
      invariant messages + MergeAll(groups[i..]) == MergeAll(groups)
    {
      assert groups[i..][1..] == groups[i + 1..];
      ConcatAssociates(messages, [Merge(groups[i])], MergeAll(groups[i + 1..]));
      messages := messages + [Merge(groups[i])];
    }
  }

  /** The listing loop; a key stands for its hash map entry until the first of its entries takes it. */
  method List(clock: F.Clock, entries: seq<Entry>) returns (messages: seq<Message>)
    ensures messages == Listed(clock, entries)
  {
    hide Merge, Adjacent, F.Split, MergeAll, Select;
    messages := [];
    var fragments: seq<Entry> := [];
    var done: set<Key> := {};
    for i := 0 to |entries|
      invariant messages + Regroup(clock, entries, entries[i..], done, fragments) == Listed(clock, entries)
    {
      var v := entries[i];
      assert entries[i..][0] == v && entries[i..][1..] == entries[i + 1..];
      ghost var before, at := messages, Regroup(clock, entries, entries[i..], done, fragments);
      ghost var out := [];
      match ConcatKey(v) {
        case Some(key) =>
          if key !in done {
            var split := F.SplitFragments(clock, Select(entries, key));
            F.SplitPartitions(clock, Select(entries, key));
            var merged := MergeGroups(split);
            out := Flush(fragments) + merged;
            if fragments != [] {
              messages := messages + [Merge(fragments)];
              fragments := [];
            }
            messages := messages + merged;
            done := done + {key};
          }
        case None =>
          if fragments != [] && !Adjacent(clock, fragments[|fragments| - 1], v) {
            out := Flush(fragments);
            messages := messages + [Merge(fragments)];
            fragments := [];
          }
          assert [] + [v] == [v];
          fragments := fragments + [v];
      }
      ghost var tail := Regroup(clock, entries, entries[i + 1..], done, fragments);
      assert at == out + tail;
      assert messages == before + out;
      ConcatAssociates(before, out, tail);
    }
    if fragments != [] {
      messages := messages + [Merge(fragments)];
    }
  }
}
