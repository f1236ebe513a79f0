/** What the log says of each command: its times, over every run, and what each call leaves where. */
module AtLogTimes {
  import opened Common
  import opened AtLog

  /** Whole milliseconds from one instant to another, none if it is not later. */
  function Lasted(from: nat, to: nat): nat {
    if to <= from then 0 else (to - from) / 1_000_000
  }

  /** Its wait ends when it last started, or when it finished without having been started; its run is the rest. */
  predicate IsTimed(item: Item) {
    && (item.status.Some? <==> item.finished.Some?)
    && (if item.started.Some? then
          && item.wait == Lasted(item.queued, item.started.value)
          && item.run == (if item.finished.Some? then Some(Lasted(item.started.value, item.finished.value)) else None)
        else
          item.run == None && item.wait == if item.finished.Some? then Lasted(item.queued, item.finished.value) else 0)
  }

  /** What waits or runs is not finished, what is done is. */
  predicate Inv(s: State) {
    && (forall i :: i in s.waiting ==> IsTimed(i) && i.finished.None?)
    && (s.running.Some? ==> IsTimed(s.running.value) && s.running.value.finished.None?)
    && (s.running.Some? ==> s.running.value.started.Some?)
    && (forall i :: i in s.done + s.dropped ==> IsTimed(i) && i.finished.Some?)
  }

  lemma LastedIsMillis(from: nat, to: nat)
    ensures Millis(from, to) == Lasted(from, to)
  {
  }

  lemma EndedIsTimed(item: Item, status: string, at: nat)
    requires IsTimed(item) && item.finished.None?
    ensures IsTimed(Ended(item, status, at)) && Ended(item, status, at).finished == Some(at)
  {
  }

  lemma AppendKeepsInv(s: State, item: Item)
    requires Inv(s) && IsTimed(item) && item.finished.Some?
    ensures Inv(Append(s, item))
  {
    hide IsTimed;
    var t, done := Append(s, item), s.done + [item];
    forall i | i in t.done + t.dropped
      ensures IsTimed(i) && i.finished.Some?
    {
      assert i in done || i in s.dropped;
    }
  }

  lemma StartKeepsInv(s: State, id: nat, at: nat)
    requires Inv(s)
    ensures Inv(Start(s, id, at))
  {
    var k, t := Position(s.waiting, id), Start(s, id, at);
    if k < |s.waiting| {
      assert s.waiting[k] in s.waiting;
      LastedIsMillis(s.waiting[k].queued, at);
      assert IsTimed(t.running.value);
      hide IsTimed;
    }
  }

  lemma FinishKeepsInv(s: State, id: nat, status: string, at: nat)
    requires Inv(s)
    ensures Inv(Finish(s, id, status, at))
  {
    var k := Position(s.waiting, id);
    if s.running.Some? && s.running.value.id == id {
      EndedIsTimed(s.running.value, status, at);
      hide IsTimed, Ended, Append;
      AppendKeepsInv(s.(running := None), Ended(s.running.value, status, at));
    } else if k < |s.waiting| {
      assert s.waiting[k] in s.waiting;
      EndedIsTimed(s.waiting[k], status, at);
      hide IsTimed, Ended, Append;
      AppendKeepsInv(s.(waiting := Without(s.waiting, k)), Ended(s.waiting[k], status, at));
    }
  }

  lemma StepKeepsInv(s: State, op: Op)
    requires Inv(s)
    ensures Inv(Step(s, op))
  {
    match op
    case Queues(command, at) =>
    case Starts(id, at) =>
      hide Inv, Start;
      StartKeepsInv(s, id, at);
    case Finishes(id, status, at) =>
      hide Inv, Finish;
      FinishKeepsInv(s, id, status, at);
    case Snapshots(at) => hide IsTimed;
  }

  lemma {:induction false} RunKeepsInv(s: State, ops: seq<Op>)
    requires Inv(s)
    ensures Inv(Run(s, ops))
    decreases |ops|
  {
    hide Inv, Step;
    if ops != [] {
      StepKeepsInv(s, ops[0]);
      RunKeepsInv(Step(s, ops[0]), ops[1..]);
    }
  }

  /** Over every run: every command's times are those of its stamps, wherever it is. */
  lemma EveryCommandIsTimed(ops: seq<Op>)
    ensures var s := Run(State(0, [], None, [], []), ops);
      && (forall i :: i in s.waiting ==> IsTimed(i) && i.finished.None?)
      && (s.running.Some? ==>
        IsTimed(s.running.value) && s.running.value.finished.None? && s.running.value.started.Some?)
      && (forall i :: i in s.done ==> IsTimed(i) && i.finished.Some? && i.status.Some?)
  {
    hide Run;
    RunKeepsInv(State(0, [], None, [], []), ops);
  }

  // ----- What each call leaves

  /** `rest` is `items` without `item`, the first one with its id. */
  predicate Removed(items: seq<Item>, rest: seq<Item>, item: Item) {
    exists k :: 0 <= k < |items| && RemovedAt(items, rest, item, k)
  }

  predicate RemovedAt(items: seq<Item>, rest: seq<Item>, item: Item, k: nat)
    requires k < |items|
  {
    items[k] == item && rest == items[..k] + items[k + 1..] && forall i :: 0 <= i < k ==> items[i].id != item.id
  }

  /** A command that enters the queue waits last, with an id of its own. */
  lemma QueuedWaitsLast(s: State, command: string, at: nat)
    ensures var t := Queue(s, command, at);
      && |t.waiting| == |s.waiting| + 1 && t.waiting[..|s.waiting|] == s.waiting && t.next == s.next + 1
      && var item := t.waiting[|s.waiting|];
      && item.id == t.next && item.command == command && item.queued == at
      && item.started == None && item.finished == None && item.status == None && item.wait == 0 && item.run == None
      && t.running == s.running && t.done == s.done
  {
  }

  predicate IsUnknown(items: seq<Item>, id: nat) {
    forall i :: i in items ==> i.id != id
  }

  /** A waiting command that starts runs, and what ran before it waits first, as it was. */
  lemma StartedRuns(s: State, id: nat, at: nat) returns (item: Item, rest: seq<Item>)
    requires !IsUnknown(s.waiting, id)
    ensures var t := Start(s, id, at);
      && item.id == id && Removed(s.waiting, rest, item)
      && t.running == Some(item.(started := Some(at), wait := Lasted(item.queued, at)))
      && t.waiting == (if s.running.Some? then [s.running.value] else []) + rest
      && t.next == s.next && t.done == s.done && t.dropped == s.dropped
  {
    var k := Position(s.waiting, id);
    item, rest := s.waiting[k], Without(s.waiting, k);
    LastedIsMillis(item.queued, at);
    assert RemovedAt(s.waiting, rest, item, k);
  }

  /** A command is found where it runs, or else where it waits. */
  predicate Found(s: State, t: State, item: Item) {
    && t.next == s.next
    && (if s.running.Some? && s.running.value.id == item.id then
          s.running.value == item && t.running.None? && t.waiting == s.waiting
        else t.running == s.running && Removed(s.waiting, t.waiting, item))
  }

  /** A command that finishes is the last of the finished ones, of which the newest hundred stay. */
  lemma FinishedIsLast(s: State, id: nat, status: string, at: nat) returns (item: Item)
    requires !IsUnknown(s.waiting, id) || (s.running.Some? && s.running.value.id == id)
    ensures var t := Finish(s, id, status, at);
      && item.id == id && Found(s, t, item)
      && var all := s.done + [Ended(item, status, at)];
      && (|all| <= 100 ==> t.done == all && t.dropped == s.dropped)
      && (|all| > 100 ==> t.done == all[|all| - 100..] && t.dropped == s.dropped + all[..|all| - 100])
      && Ended(item, status, at) == item.(finished := Some(at), status := Some(status),
           wait := if item.started.Some? then item.wait else Lasted(item.queued, at),
           run := if item.started.Some? then Some(Lasted(item.started.value, at)) else item.run)
  {
    var k := Position(s.waiting, id);
    if s.running.Some? && s.running.value.id == id {
      item := s.running.value;
    } else {
      item := s.waiting[k];
      assert RemovedAt(s.waiting, Without(s.waiting, k), item, k);
    }
    LastedIsMillis(item.queued, at);
    if item.started.Some? {
      LastedIsMillis(item.started.value, at);
    }
  }

  /** A call about a command that is nowhere changes nothing. */
  lemma UnknownChangesNothing(s: State, id: nat, status: string, at: nat)
    requires IsUnknown(s.waiting, id)
    ensures Start(s, id, at) == s
    ensures (s.running.Some? ==> s.running.value.id != id) ==> Finish(s, id, status, at) == s
  {
    assert forall i :: 0 <= i < |s.waiting| ==> s.waiting[i] in s.waiting;
  }

  /** The finished commands that finished at most half a minute ago. */
  function OfLately(done: seq<Item>, at: nat): seq<Item> {
    if done == [] then []
    else
      var lately := done[0].finished.Some? && at <= done[0].finished.value + 30_000_000_000;
      (if lately then [done[0]] else []) + OfLately(done[1..], at)
  }

  lemma {:induction false} FreshIsOfLately(done: seq<Item>, at: nat)
    ensures Fresh(done, at) == OfLately(done, at)
  {
    if done != [] {
      FreshIsOfLately(done[1..], at);
    }
  }

  /** Over every run with finish stamps that do not go back, a snapshot shows what finished in the last half minute. */
  lemma SnapshotsShowTheLatest(ops: seq<Op>, at: nat)
    requires Stamped(ops, 0)
    ensures var s := Run(State(0, [], None, [], []), ops);
      Step(s, Snapshots(at)).done == OfLately(s.done, at)
  {
    EverySnapshotIsExact(State(0, [], None, [], []), ops, 0, at);
    FreshIsOfLately(Run(State(0, [], None, [], []), ops).done, at);
  }
}
