/**
 Network events and internet outages as the latency probe sees them. Wall times are in milliseconds, which
 the clock may change at any time; instants in nanoseconds of the monotonic clock.
 */
module Events {
  import opened Common

  const CAPACITY: nat := 200
  const REPORT: nat := 10_000
  const MILLISECOND: nat := 1_000_000

  datatype Kind = InternetLost | InternetRestored | Other

  datatype Event = Event(id: nat, time: nat, kind: Kind)

  /** The start of an outage: the first failed probe, or what an earlier process recorded. */
  datatype Since = Since(wall: nat, mono: Option<nat>)

  datatype Outage = Outage(lost: nat, restored: nat)

  function Less(a: nat, b: nat): nat {
    if a < b then 0 else a - b
  }

  function Elapsed(start: nat, mono: nat): nat {
    Less(mono, start) / MILLISECOND
  }

  /** The start as the wall clock reads now. */
  function WallAt(since: Since, wall: nat, mono: nat): nat {
    match since.mono
    case Some(start) => Less(wall, Elapsed(start, mono))
    case None => since.wall
  }

  /** A finished outage with its start, and when it ended. */
  datatype Sent = Sent(outage: Outage, since: Since, mono: nat)

  /** What was said about the connection, in order. */
  datatype Notice = Lost | Restored | Resumed | Reset

  /** `clock` is the last instant seen; it and the two logs only the proofs read. */
  datatype State = State(list: seq<Event>, next: nat, outage: Option<Since>, reported: bool, seen: bool,
                         clock: nat, sent: seq<Sent>, notices: seq<Notice>)

  function Add(s: State, kind: Kind, time: nat): State {
    var kept := if |s.list| == CAPACITY then s.list[1..] else s.list;
    s.(list := kept + [Event(s.next, time, kind)], next := s.next + 1)
  }

  function Succeed(s: State, wall: nat, mono: nat): State {
    var s1 := s.(seen := true, outage := None, clock := mono);
    if s.outage.None? || !s.reported then s1
    else
      var lost := WallAt(s.outage.value, wall, mono);
      Add(s1.(reported := false), InternetRestored, wall)
        .(sent := s.sent + [Sent(Outage(lost, wall), s.outage.value, mono)], notices := s.notices + [Restored])
  }

  function Fail(s: State, wall: nat, mono: nat): State {
    if !s.seen && s.outage.None? then s.(clock := mono)
    else
      var since := if s.outage.Some? then s.outage.value else Since(wall, Some(mono));
      var lost := WallAt(since, wall, mono);
      var s1 := s.(outage := Some(since), clock := mono);
      if !s.reported && Less(wall, lost) >= REPORT then
        Add(s1.(reported := true), InternetLost, lost).(notices := s.notices + [Lost])
      else s1
  }

  function Observe(s: State, ok: bool, wall: nat, mono: nat): State {
    if ok then Succeed(s, wall, mono) else Fail(s, wall, mono)
  }

  function Resume(s: State, since: nat): State {
    s.(outage := Some(Since(since, None)), reported := true, notices := s.notices + [Resumed])
  }

  function ResetProbe(s: State): State {
    s.(outage := None, reported := false, notices := s.notices + [Reset])
  }

  class Events {
    var list: seq<Event>
    var next: nat
    var outage: Option<Since>
    var reported: bool
    var seen: bool
    ghost var clock: nat
    ghost var sent: seq<Sent>
    ghost var notices: seq<Notice>

    ghost function Model(): State
      reads this
    {
      State(list, next, outage, reported, seen, clock, sent, notices)
    }

    constructor ()
      ensures Model() == State([], 1, None, false, false, 0, [], [])
    {
      list, next, outage, reported, seen := [], 1, None, false, false;
      clock, sent, notices := 0, [], [];
    }

    method Push(kind: Kind, time: nat)
      modifies this
      ensures Model() == Add(old(Model()), kind, time)
    {
      if |list| == CAPACITY {
        list := list[1..];
      }
      list := list + [Event(next, time, kind)];
      next := next + 1;
    }

    /** One probe result; an outage that was reported is returned for the subscribers when it ends. */
    method ObserveProbe(ok: bool, wall: nat, mono: nat) returns (ended: Option<Outage>)
      modifies this
      ensures Model() == Observe(old(Model()), ok, wall, mono)
      ensures ended == if |sent| == |old(sent)| then None else Some(sent[|sent| - 1].outage)
    {
      clock := mono;
      ended := None;
      if ok {
        seen := true;
        var since := outage;
        outage := None;
        if since.Some? && reported {
          reported := false;
          var lost := WallAt(since.value, wall, mono);
          Push(InternetRestored, wall);
          ended := Some(Outage(lost, wall));
          sent := sent + [Sent(Outage(lost, wall), since.value, mono)];
          notices := notices + [Restored];
        }
      } else if seen || outage.Some? {
        if outage.None? {
          outage := Some(Since(wall, Some(mono)));
        }
        var lost := WallAt(outage.value, wall, mono);
        if !reported && Less(wall, lost) >= REPORT {
          reported := true;
          Push(InternetLost, lost);
          notices := notices + [Lost];
        }
      }
    }

    method ResumeOutage(since: nat)
      modifies this
      ensures Model() == Resume(old(Model()), since)
    {
      outage := Some(Since(since, None));
      reported := true;
      notices := notices + [Resumed];
    }

    method ResetOutage()
      modifies this
      ensures Model() == ResetProbe(old(Model()))
    {
      outage := None;
      reported := false;
      notices := notices + [Reset];
    }

    method Clear()
      modifies this
      ensures Model() == old(Model()).(list := [])
    {
      list := [];
    }
  }

  // ----- Over whole runs

  datatype Op =
    | Pushes(kind: Kind, time: nat)
    | Observes(ok: bool, wall: nat, mono: nat)
    | Resumes(since: nat)
    | Resets
    | Clears

  /** Probes are in the order of the monotonic clock; an outage is resumed while none is reported. */
  predicate Legal(s: State, op: Op) {
    match op
    case Pushes(kind, _) => kind.Other?
    case Observes(_, _, mono) => s.clock <= mono
    case Resumes(_) => !s.reported
    case Resets => true
    case Clears => true
  }

  function Step(s: State, op: Op): State {
    match op
    case Pushes(kind, time) => Add(s, kind, time)
    case Observes(ok, wall, mono) => Observe(s, ok, wall, mono)
    case Resumes(since) => Resume(s, since)
    case Resets => ResetProbe(s)
    case Clears => s.(list := [])
  }

  predicate LegalRun(s: State, ops: seq<Op>)
    decreases |ops|
  {
    ops == [] || (Legal(s, ops[0]) && LegalRun(Step(s, ops[0]), ops[1..]))
  }

  function Run(s: State, ops: seq<Op>): State
    decreases |ops|
  {
    if ops == [] then s else Run(Step(s, ops[0]), ops[1..])
  }

  /**
   Whether an outage is being told of after these notices: a loss or a resumption starts it only when none
   is, the end ends it only when one is, and a reset starts afresh. None if the notices do not alternate.
   */
  function Telling(notices: seq<Notice>): Option<bool> {
    if notices == [] then Some(false)
    else
      var before :- Telling(notices[..|notices| - 1]);
      match notices[|notices| - 1]
      case Lost => if before then None else Some(true)
      case Resumed => if before then None else Some(true)
      case Restored => if before then Some(false) else None
      case Reset => Some(false)
  }

  /**
   An outage that was not resumed: its length is the monotonic time it lasted if and only if the wall clock
   shows at least that much, and all of the wall time otherwise; and it lasted for at least ten seconds.
   */
  predicate Measured(x: Sent) {
    x.since.mono.Some? ==>
      var elapsed := Elapsed(x.since.mono.value, x.mono);
      && x.outage.lost <= x.outage.restored
      && (x.outage.restored - x.outage.lost == elapsed <==> x.outage.restored >= elapsed)
      && (x.outage.restored < elapsed ==> x.outage.lost == 0)
      && elapsed >= REPORT
  }

  predicate Numbered(list: seq<Event>, next: nat) {
    && |list| <= CAPACITY && |list| < next
    && forall i :: 0 <= i < |list| ==> list[i].id == next - |list| + i
  }

  predicate Inv(s: State) {
    && Numbered(s.list, s.next)
    && (s.reported ==> s.outage.Some?)
    && Telling(s.notices) == Some(s.reported)
    && (s.outage.Some? && s.outage.value.mono.None? ==> s.reported)
    && (s.outage.Some? && s.outage.value.mono.Some? ==>
      && s.seen && s.outage.value.mono.value <= s.clock
      && (s.reported ==> Elapsed(s.outage.value.mono.value, s.clock) >= REPORT))
    && (!s.seen ==> Lost !in s.notices)
    && (forall x :: x in s.sent ==> Measured(x))
  }

  lemma ElapsedGrows(start: nat, a: nat, b: nat)
    requires start <= a <= b
    ensures Elapsed(start, a) <= Elapsed(start, b)
  {
  }

  lemma TellingSnoc(notices: seq<Notice>, n: Notice)
    ensures Telling(notices + [n]) ==
      match Telling(notices)
      case None => None
      case Some(before) =>
        match n
        case Lost => if before then None else Some(true)
        case Resumed => if before then None else Some(true)
        case Restored => if before then Some(false) else None
        case Reset => Some(false)
  {
    assert (notices + [n])[..|notices|] == notices;
  }

  lemma AddKeepsNumbers(s: State, kind: Kind, time: nat)
    requires Numbered(s.list, s.next)
    ensures Numbered(Add(s, kind, time).list, Add(s, kind, time).next)
  {
  }

  lemma SucceedKeepsInv(s: State, wall: nat, mono: nat)
    requires Inv(s) && s.clock <= mono
    ensures Inv(Succeed(s, wall, mono))
  {
    AddKeepsNumbers(s, InternetRestored, wall);
    TellingSnoc(s.notices, Restored);
    if s.outage.Some? && s.outage.value.mono.Some? {
      ElapsedGrows(s.outage.value.mono.value, s.clock, mono);
    }
    hide Telling, Numbered, Elapsed;
  }

  lemma FailKeepsInv(s: State, wall: nat, mono: nat)
    requires Inv(s) && s.clock <= mono
    ensures Inv(Fail(s, wall, mono))
  {
    var since := if s.outage.Some? then s.outage.value else Since(wall, Some(mono));
    AddKeepsNumbers(s, InternetLost, WallAt(since, wall, mono));
    TellingSnoc(s.notices, Lost);
    if s.outage.Some? && s.outage.value.mono.Some? {
      ElapsedGrows(s.outage.value.mono.value, s.clock, mono);
    }
    hide Telling, Numbered, Elapsed, Measured;
  }

  lemma ResumeKeepsInv(s: State, since: nat)
    requires Inv(s) && !s.reported
    ensures Inv(Resume(s, since))
  {
    TellingSnoc(s.notices, Resumed);
    hide Telling, Numbered, Elapsed, Measured;
  }

  lemma ResetKeepsInv(s: State)
    requires Inv(s)
    ensures Inv(ResetProbe(s))
  {
    TellingSnoc(s.notices, Reset);
    hide Telling, Numbered, Elapsed, Measured;
  }

  lemma PushKeepsInv(s: State, kind: Kind, time: nat)
    requires Inv(s)
    ensures Inv(Add(s, kind, time))
  {
    AddKeepsNumbers(s, kind, time);
    hide Telling, Numbered, Elapsed, Measured;
  }

  lemma ClearKeepsInv(s: State)
    requires Inv(s)
    ensures Inv(s.(list := []))
  {
    hide Telling, Elapsed, Measured;
  }

  lemma StepKeepsInv(s: State, op: Op)
    requires Inv(s) && Legal(s, op)
    ensures Inv(Step(s, op))
  {
    hide Inv, Add, Succeed, Fail, Resume, ResetProbe;
    match op
    case Pushes(kind, time) => PushKeepsInv(s, kind, time);
    case Observes(ok, wall, mono) =>
      if ok {
        SucceedKeepsInv(s, wall, mono);
      } else {
        FailKeepsInv(s, wall, mono);
      }
    case Resumes(since) => ResumeKeepsInv(s, since);
    case Resets => ResetKeepsInv(s);
    case Clears => ClearKeepsInv(s);
  }

  lemma {:induction false} RunKeepsInv(s: State, ops: seq<Op>)
    requires Inv(s) && LegalRun(s, ops)
    ensures Inv(Run(s, ops))
    decreases |ops|
  {
    hide Inv, Step, Legal;
    if ops != [] {
      StepKeepsInv(s, ops[0]);
      RunKeepsInv(Step(s, ops[0]), ops[1..]);
    }
  }

  /**
   Over every run, whatever the wall clock does: outages that are sent are measured by the monotonic clock,
   losses and ends alternate, none is told of before a first success, and the list is bounded and numbered.
   */
  lemma OutagesAreMeasured(ops: seq<Op>)
    requires LegalRun(State([], 1, None, false, false, 0, [], []), ops)
    ensures var s := Run(State([], 1, None, false, false, 0, [], []), ops);
      && (forall x :: x in s.sent ==> Measured(x))
      && Telling(s.notices) == Some(s.reported)
      && (!s.seen ==> Lost !in s.notices)
      && Numbered(s.list, s.next)
  {
    RunKeepsInv(State([], 1, None, false, false, 0, [], []), ops);
  }

  // ----- When an outage is told of

  /** A probe that fails after one that succeeded starts an outage; before any success there is none. */
  lemma FirstFailureStarts(s: State, wall: nat, mono: nat)
    requires s.outage.None? && !s.reported
    ensures var t := Observe(s, false, wall, mono);
      && t.outage == (if s.seen then Some(Since(wall, Some(mono))) else None)
      && !t.reported && t.list == s.list && t.notices == s.notices
  {
  }

  /** The whole milliseconds from one instant to another. */
  function Passed(from: nat, to: nat): nat {
    if to < from then 0 else (to - from) / 1_000_000
  }

  /**
   An outage is told of by the first failed probe at least ten seconds after it began, and by the time at which
   the wall clock, as it is now, would have shown its beginning.
   */
  lemma OutageIsTold(s: State, start: nat, wall: nat, mono: nat)
    requires s.outage.Some? && s.outage.value.mono == Some(start) && !s.reported && |s.list| < CAPACITY
    ensures var t, passed := Observe(s, false, wall, mono), Passed(start, mono);
      && t.outage == s.outage
      && (t.reported <==> passed >= 10 * 1000 && wall >= 10 * 1000)
      && t.list == (if t.reported
                    then s.list + [Event(s.next, if wall < passed then 0 else wall - passed, InternetLost)] else s.list)
  {
  }

  /** The end of an outage that was told of is told at the time of the first successful probe. */
  lemma EndIsTold(s: State, wall: nat, mono: nat)
    requires |s.list| < CAPACITY
    ensures var t := Observe(s, true, wall, mono);
      && t.seen && t.outage.None? && (!s.reported || s.outage.Some? ==> !t.reported)
      && (if s.reported && s.outage.Some? then
            && t.list == s.list + [Event(s.next, wall, InternetRestored)] && |t.sent| == |s.sent| + 1
            && t.sent[|s.sent|].outage.restored == wall
            && (s.outage.value.mono.None? ==> t.sent[|s.sent|].outage.lost == s.outage.value.wall)
          else t.list == s.list && t.sent == s.sent)
  {
  }

  /** The list holds the latest two hundred events. */
  lemma OldestEventGoes(s: State, kind: Kind, time: nat)
    requires |s.list| <= 200
    ensures var t := Add(s, kind, time);
      && |t.list| == (if |s.list| == 200 then 200 else |s.list| + 1)
      && t.list[|t.list| - 1] == Event(s.next, time, kind) && t.next == s.next + 1
      && t.list[..|t.list| - 1] == s.list[|s.list| + 1 - |t.list|..]
  {
  }
}
