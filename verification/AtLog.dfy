/** The AT queue log: what waits for the port, what runs, and what has finished lately. Instants in nanoseconds. */
module AtLog {
  import opened Common

  const MILLISECOND: nat := 1_000_000
  const KEEP: nat := 30_000 * MILLISECOND
  const MAX_DONE: nat := 100

  datatype Item = Item(id: nat, command: string, queued: nat, started: Option<nat>, finished: Option<nat>,
                       wait: nat, run: Option<nat>, status: Option<string>)

  /** `dropped` are the items that are gone; only the proofs read it. */
  datatype State = State(next: nat, waiting: seq<Item>, running: Option<Item>, done: seq<Item>, dropped: seq<Item>)

  function Millis(from: nat, to: nat): nat {
    (if to < from then 0 else to - from) / MILLISECOND
  }

  function Position(items: seq<Item>, id: nat): (k: nat)
    ensures k <= |items| && (k < |items| ==> items[k].id == id)
    ensures forall i :: 0 <= i < k ==> items[i].id != id
  {
    if items == [] || items[0].id == id then 0 else 1 + Position(items[1..], id)
  }

  function Without(items: seq<Item>, k: nat): seq<Item>
    requires k < |items|
  {
    items[..k] + items[k + 1..]
  }

  function Queue(s: State, command: string, at: nat): State {
    var item := Item(s.next + 1, command, at, None, None, 0, None, None);
    s.(next := s.next + 1, waiting := s.waiting + [item])
  }

  /** The command goes to the port; one that was there before did not finish and waits again, first. */
  function Start(s: State, id: nat, at: nat): State {
    var k := Position(s.waiting, id);
    if k == |s.waiting| then s
    else
      var item := s.waiting[k].(wait := Millis(s.waiting[k].queued, at), started := Some(at));
      var rest := Without(s.waiting, k);
      s.(running := Some(item), waiting := if s.running.Some? then [s.running.value] + rest else rest)
  }

  function Ended(item: Item, status: string, at: nat): Item {
    var timed := match item.started
      case Some(t) => item.(run := Some(Millis(t, at)))
      case None => item.(wait := Millis(item.queued, at));
    timed.(finished := Some(at), status := Some(status))
  }

  /** Only the newest hundred are kept. */
  function Append(s: State, item: Item): State {
    var done := s.done + [item];
    if |done| <= MAX_DONE then s.(done := done)
    else s.(done := done[|done| - MAX_DONE..], dropped := s.dropped + done[..|done| - MAX_DONE])
  }

  function Finish(s: State, id: nat, status: string, at: nat): State {
    var k := Position(s.waiting, id);
    if s.running.Some? && s.running.value.id == id then
      Append(s.(running := None), Ended(s.running.value, status, at))
    else if k < |s.waiting| then
      Append(s.(waiting := Without(s.waiting, k)), Ended(s.waiting[k], status, at))
    else s
  }

  predicate Expired(item: Item, at: nat) {
    item.finished.None? || (at >= item.finished.value && at - item.finished.value > KEEP)
  }

  /** How many at the front are expired. */
  function Stale(done: seq<Item>, at: nat): (k: nat)
    ensures k <= |done|
  {
    if done == [] || !Expired(done[0], at) then 0 else 1 + Stale(done[1..], at)
  }

  function Expire(s: State, at: nat): State {
    var k := Stale(s.done, at);
    s.(done := s.done[k..], dropped := s.dropped + s.done[..k])
  }

  class AtLog {
    var next: nat
    var waiting: seq<Item>
    var running: Option<Item>
    var done: seq<Item>
    ghost var dropped: seq<Item>

    ghost function Model(): State
      reads this
    {
      State(next, waiting, running, done, dropped)
    }

    constructor ()
      ensures Model() == State(0, [], None, [], [])
    {
      next, waiting, running, done, dropped := 0, [], None, [], [];
    }

    method Queued(command: string, at: nat) returns (id: nat)
      modifies this
      ensures Model() == Queue(old(Model()), command, at) && id == next
    {
      next := next + 1;
      waiting := waiting + [Item(next, command, at, None, None, 0, None, None)];
      id := next;
    }

    method Started(id: nat, at: nat)
      modifies this
      ensures Model() == Start(old(Model()), id, at)
    {
      var k := Position(waiting, id);
      if k < |waiting| {
        var item := waiting[k].(wait := Millis(waiting[k].queued, at), started := Some(at));
        waiting := waiting[..k] + waiting[k + 1..];
        if running.Some? {
          waiting := [running.value] + waiting;
        }
        running := Some(item);
      }
    }

    method Finished(id: nat, status: string, at: nat)
      modifies this
      ensures Model() == Finish(old(Model()), id, status, at)
    {
      var item: Option<Item> := None;
      var k := Position(waiting, id);
      if running.Some? && running.value.id == id {
        item := running;
        running := None;
      } else if k < |waiting| {
        item := Some(waiting[k]);
        waiting := waiting[..k] + waiting[k + 1..];
      }
      if item.Some? {
        KeepDone(Ended(item.value, status, at));
      }
    }

    /** Adds a finished command, and lets the oldest go. */
    method KeepDone(item: Item)
      modifies this
      ensures Model() == Append(old(Model()), item)
    {
      done := done + [item];
      ghost var all := done;
      while |done| > MAX_DONE
        invariant |done| <= |all|
        invariant |done| == |all| || |done| >= MAX_DONE
        invariant done == all[|all| - |done|..]
        invariant dropped == old(dropped) + all[..|all| - |done|]
        invariant next == old(next) && waiting == old(waiting) && running == old(running)
      {
        dropped := dropped + [done[0]];
        done := done[1..];
      }
    }

    /** The loop at the start of a snapshot. */
    method DropExpired(at: nat)
      modifies this
      ensures Model() == Expire(old(Model()), at)
    {
      ghost var k := 0;
      while done != [] && Expired(done[0], at)
        invariant k <= |old(done)| && done == old(done)[k..]
        invariant k + Stale(done, at) == Stale(old(done), at)
        invariant next == old(next) && waiting == old(waiting) && running == old(running)
        invariant dropped == old(dropped) + old(done)[..k]
        decreases |done|
      {
        dropped := dropped + [done[0]];
        done := done[1..];
        k := k + 1;
      }
    }
  }

  // ----- Every id is in one place

  function Times(items: seq<Item>, id: nat): nat {
    if items == [] then 0 else (if items[0].id == id then 1 else 0) + Times(items[1..], id)
  }

  function Here(item: Option<Item>, id: nat): nat {
    if item.Some? && item.value.id == id then 1 else 0
  }

  /** How often the id is anywhere. */
  function Places(s: State, id: nat): nat {
    Times(s.waiting, id) + Here(s.running, id) + Times(s.done, id) + Times(s.dropped, id)
  }

  predicate Handed(s: State, id: nat) {
    1 <= id <= s.next
  }

  /** Each id that was handed out is in exactly one place, and no other is anywhere. */
  ghost predicate Inv(s: State) {
    && |s.done| <= MAX_DONE
    && forall id: nat {:trigger Places(s, id)} :: Places(s, id) == if Handed(s, id) then 1 else 0
  }

  lemma {:induction false} TimesConcat(a: seq<Item>, b: seq<Item>, id: nat)
    ensures Times(a + b, id) == Times(a, id) + Times(b, id)
  {
    if a == [] {
      assert a + b == b;
    } else {
      assert (a + b)[1..] == a[1..] + b;
      TimesConcat(a[1..], b, id);
    }
  }

  lemma TimesSplit(items: seq<Item>, k: nat, id: nat)
    requires k <= |items|
    ensures Times(items, id) == Times(items[..k], id) + Times(items[k..], id)
  {
    assert items[..k] + items[k..] == items;
    TimesConcat(items[..k], items[k..], id);
  }

  lemma TimesWithout(items: seq<Item>, k: nat, id: nat)
    requires k < |items|
    ensures Times(items, id) == Times(Without(items, k), id) + if items[k].id == id then 1 else 0
  {
    TimesSplit(items, k, id);
    TimesConcat(items[..k], items[k + 1..], id);
  }

  lemma QueuePlaces(s: State, command: string, at: nat, id: nat)
    ensures Places(Queue(s, command, at), id) == Places(s, id) + if id == s.next + 1 then 1 else 0
  {
    TimesConcat(s.waiting, Queue(s, command, at).waiting[|s.waiting|..], id);
  }

  lemma StartPlaces(s: State, started: nat, at: nat, id: nat)
    ensures Places(Start(s, started, at), id) == Places(s, id)
  {
    var k := Position(s.waiting, started);
    if k < |s.waiting| {
      TimesWithout(s.waiting, k, id);
      var rest := Without(s.waiting, k);
      assert s.running.Some? ==> ([s.running.value] + rest)[1..] == rest;
      hide Without;
    }
  }

  lemma AppendPlaces(s: State, item: Item, id: nat)
    ensures Places(Append(s, item), id) == Places(s, id) + if item.id == id then 1 else 0
  {
    var done := s.done + [item];
    TimesConcat(s.done, [item], id);
    if |done| > MAX_DONE {
      var k := |done| - MAX_DONE;
      TimesSplit(done, k, id);
      TimesConcat(s.dropped, done[..k], id);
    }
  }

  lemma FinishPlaces(s: State, finished: nat, status: string, at: nat, id: nat)
    ensures Places(Finish(s, finished, status, at), id) == Places(s, id)
  {
    hide Append, Without;
    var k := Position(s.waiting, finished);
    if s.running.Some? && s.running.value.id == finished {
      AppendPlaces(s.(running := None), Ended(s.running.value, status, at), id);
    } else if k < |s.waiting| {
      TimesWithout(s.waiting, k, id);
      AppendPlaces(s.(waiting := Without(s.waiting, k)), Ended(s.waiting[k], status, at), id);
    }
  }

  lemma ExpirePlaces(s: State, at: nat, id: nat)
    ensures Places(Expire(s, at), id) == Places(s, id)
  {
    var k := Stale(s.done, at);
    TimesSplit(s.done, k, id);
    TimesConcat(s.dropped, s.done[..k], id);
  }

  datatype Op =
    | Queues(command: string, at: nat)
    | Starts(id: nat, at: nat)
    | Finishes(id: nat, status: string, at: nat)
    | Snapshots(at: nat)

  function Step(s: State, op: Op): State {
    match op
    case Queues(command, at) => Queue(s, command, at)
    case Starts(id, at) => Start(s, id, at)
    case Finishes(id, status, at) => Finish(s, id, status, at)
    case Snapshots(at) => Expire(s, at)
  }

  function Run(s: State, ops: seq<Op>): State
    decreases |ops|
  {
    if ops == [] then s else Run(Step(s, ops[0]), ops[1..])
  }

  lemma StepKeepsInv(s: State, op: Op)
    requires Inv(s)
    ensures Inv(Step(s, op))
  {
    var t := Step(s, op);
    forall id: nat
      ensures Places(t, id) == if Handed(t, id) then 1 else 0
    {
      StepPlaces(s, op, id);
    }
    assert |t.done| <= MAX_DONE by {
      hide Places;
    }
  }

  lemma StepPlaces(s: State, op: Op, id: nat)
    ensures var t := Step(s, op);
      && t.next == s.next + (if op.Queues? then 1 else 0)
      && Places(t, id) == Places(s, id) + if op.Queues? && id == t.next then 1 else 0
  {
    hide Places;
    match op
    case Queues(command, at) => QueuePlaces(s, command, at, id);
    case Starts(started, at) => StartPlaces(s, started, at, id);
    case Finishes(finished, status, at) => FinishPlaces(s, finished, status, at, id);
    case Snapshots(at) => ExpirePlaces(s, at, id);
  }

  lemma {:induction false} RunKeepsInv(s: State, ops: seq<Op>)
    requires Inv(s)
    ensures Inv(Run(s, ops))
    decreases |ops|
  {
    hide Inv, Step;
    if ops != [] {
      StepKeepsInv(s, ops[0]);
      RunKeepsInv(Step(s, ops[0]), ops[1..]);
    }
  }

  /** Over every run, each id handed out is waiting, running, finished or dropped, and in one place only. */
  lemma EveryIdIsInOnePlace(ops: seq<Op>, id: nat)
    ensures var s := Run(State(0, [], None, [], []), ops);
      |s.done| <= MAX_DONE && Places(s, id) == if 1 <= id <= s.next then 1 else 0
  {
    RunKeepsInv(State(0, [], None, [], []), ops);
    var s := Run(State(0, [], None, [], []), ops);
    assert Handed(s, id) <==> 1 <= id <= s.next;
  }

  // ----- Expiry

  /** The items that are not expired, wherever they stand. */
  function Fresh(done: seq<Item>, at: nat): seq<Item> {
    if done == [] then []
    else (if Expired(done[0], at) then [] else [done[0]]) + Fresh(done[1..], at)
  }

  /** No expired item stands behind a fresh one. */
  predicate Sorted(done: seq<Item>, at: nat) {
    forall i, j :: 0 <= i < j < |done| && Expired(done[j], at) ==> Expired(done[i], at)
  }

  lemma {:induction false} FreshLength(done: seq<Item>, at: nat)
    ensures |Fresh(done, at)| <= |done|
    ensures |Fresh(done, at)| == |done| <==> forall i :: 0 <= i < |done| ==> !Expired(done[i], at)
    ensures (forall i :: 0 <= i < |done| ==> !Expired(done[i], at)) ==> Fresh(done, at) == done
  {
    hide Expired;
    if done != [] {
      FreshLength(done[1..], at);
      assert [done[0]] + done[1..] == done;
    }
  }

  lemma SortedCons(done: seq<Item>, at: nat)
    requires done != []
    ensures Expired(done[0], at) ==> (Sorted(done, at) <==> Sorted(done[1..], at))
    ensures !Expired(done[0], at) ==> (Sorted(done, at) <==> forall i :: 0 <= i < |done| ==> !Expired(done[i], at))
  {
    hide Expired;
    var rest := done[1..];
    assert forall j :: 0 <= j < |rest| ==> rest[j] == done[j + 1];
    if Sorted(rest, at) && Expired(done[0], at) {
      forall i, j | 0 <= i < j < |done| && Expired(done[j], at)
        ensures Expired(done[i], at)
      {
        assert done[j] == rest[j - 1] && (i > 0 ==> done[i] == rest[i - 1]);
      }
    }
  }

  lemma FreshFront(done: seq<Item>, at: nat)
    requires done != [] && !Expired(done[0], at)
    ensures done[Stale(done, at)..] == Fresh(done, at) <==> Sorted(done, at)
  {
    SortedCons(done, at);
    FreshLength(done, at);
    hide Expired, Sorted, Fresh;
    assert done[0..] == done;
  }

  /** Looking only at the front removes exactly the expired items if and only if none hides behind a fresh one. */
  lemma {:induction false} FrontExpiryIsExact(done: seq<Item>, at: nat)
    ensures done[Stale(done, at)..] == Fresh(done, at) <==> Sorted(done, at)
  {
    if done != [] {
      if Expired(done[0], at) {
        SortedCons(done, at);
        FrontExpiryIsExact(done[1..], at);
        hide Expired, Sorted;
        assert done[Stale(done, at)..] == done[1..][Stale(done[1..], at)..];
      } else {
        FreshFront(done, at);
      }
    }
  }

  /** Finished in the order in which they stand, none after `clock`. */
  predicate InOrder(done: seq<Item>, clock: nat) {
    && (forall i :: 0 <= i < |done| ==> done[i].finished.Some? && done[i].finished.value <= clock)
    && (forall i, j :: 0 <= i < j < |done| ==> done[i].finished.value <= done[j].finished.value)
  }

  /** The stamps with which commands finish do not go back. */
  predicate Stamped(ops: seq<Op>, clock: nat)
    decreases |ops|
  {
    if ops == [] then true
    else if ops[0].Finishes? then ops[0].at >= clock && Stamped(ops[1..], ops[0].at)
    else Stamped(ops[1..], clock)
  }

  lemma OrderedIsSorted(done: seq<Item>, clock: nat, at: nat)
    requires InOrder(done, clock)
    ensures Sorted(done, at)
  {
  }

  lemma AppendInOrder(s: State, item: Item, clock: nat)
    requires InOrder(s.done, clock) && item.finished.Some? && item.finished.value >= clock
    ensures InOrder(Append(s, item).done, item.finished.value)
  {
  }

  lemma StepInOrder(s: State, op: Op, clock: nat)
    requires InOrder(s.done, clock) && (op.Finishes? ==> op.at >= clock)
    ensures InOrder(Step(s, op).done, if op.Finishes? then op.at else clock)
  {
    if op.Finishes? {
      var k := Position(s.waiting, op.id);
      if s.running.Some? && s.running.value.id == op.id {
        AppendInOrder(s.(running := None), Ended(s.running.value, op.status, op.at), clock);
      } else if k < |s.waiting| {
        AppendInOrder(s.(waiting := Without(s.waiting, k)), Ended(s.waiting[k], op.status, op.at), clock);
      }
      hide Append, Without, Ended;
    }
  }

  /** In a run in which finish stamps do not go back, every snapshot removes exactly the expired commands. */
  lemma {:induction false} EverySnapshotIsExact(s: State, ops: seq<Op>, clock: nat, at: nat)
    requires InOrder(s.done, clock) && Stamped(ops, clock)
    ensures var t := Run(s, ops);
      Expire(t, at).done == Fresh(t.done, at)
    decreases |ops|
  {
    hide InOrder, Step, Expired, Sorted;
    if ops == [] {
      OrderedIsSorted(s.done, clock, at);
      FrontExpiryIsExact(s.done, at);
    } else {
      StepInOrder(s, ops[0], clock);
      EverySnapshotIsExact(Step(s, ops[0]), ops[1..], if ops[0].Finishes? then ops[0].at else clock, at);
    }
  }
}
