/**
 The connection watchdog's last resort: restarting the module, at most so many times until the connection has
 been seen working again. The count is kept in a file, because a restart ends the process as well.
 */
module Watchdog {
  import opened Common
  import opened Store

  datatype Step = Reregister | Radio | SimSwitch | Reboot

  datatype Settings = Settings(enabled: bool, reregister: bool, radio: bool, simSwitch: bool, reboot: bool,
                               maxReboots: nat)

  function Only(on: bool, step: Step): seq<Step> {
    if on then [step] else []
  }

  /** The recovery steps the user allowed, in order. */
  function Steps(s: Settings): seq<Step> {
    Only(s.reregister, Reregister) + Only(s.radio, Radio) + Only(s.simSwitch, SimSwitch) + Only(s.reboot, Reboot)
  }

  function Tier(step: Step): nat {
    match step
    case Reregister => 1
    case Radio => 2
    case SimSwitch => 3
    case Reboot => 4
  }

  predicate Rising(steps: seq<Step>) {
    forall i, j :: 0 <= i < j < |steps| ==> Tier(steps[i]) < Tier(steps[j])
  }

  lemma RisingAppend(steps: seq<Step>, on: bool, step: Step)
    requires Rising(steps) && forall x :: x in steps ==> Tier(x) < Tier(step)
    ensures Rising(steps + Only(on, step)) && forall x :: x in steps + Only(on, step) ==> Tier(x) <= Tier(step)
  {
    hide Tier;
    assert forall i :: 0 <= i < |steps| ==> steps[i] in steps;
  }

  /** The steps are exactly the allowed ones, each once, the milder ones first. */
  lemma StepsInOrder(s: Settings)
    ensures var steps := Steps(s);
      && (Reregister in steps <==> s.reregister) && (Radio in steps <==> s.radio)
      && (SimSwitch in steps <==> s.simSwitch) && (Reboot in steps <==> s.reboot)
      && Rising(steps)
  {
    var one := Only(s.reregister, Reregister);
    RisingAppend(one, s.radio, Radio);
    var two := one + Only(s.radio, Radio);
    RisingAppend(two, s.simSwitch, SimSwitch);
    RisingAppend(two + Only(s.simSwitch, SimSwitch), s.reboot, Reboot);
    hide Rising;
  }

  /** The count of restarts and the start of the outage that led to them. */
  datatype Saved = Saved(reboots: nat, since: Option<nat>)

  /**
   `runtime` is what the process knows, `file` what the next one will read. `sent` counts the restarts since
   the connection was last seen working or the watchdog was off, `debt` what lost files have forgotten of
   them; these two only the proofs read.
   */
  datatype State = State(runtime: Saved, file: Saved, sent: nat, debt: nat)

  function Record(s: State, next: Saved, w: Written): State {
    if s.runtime == next then s
    else s.(runtime := next, file := if w.Unwritten? then s.file else next)
  }

  /** The connection works, or the watchdog is switched off: a new series begins. */
  function Settle(s: State, w: Written): State {
    Record(s, Saved(0, None), w).(sent := 0, debt := 0)
  }

  /** The count is stored first; then the command is sent, if the process lives to send it. */
  function Restart(s: State, limit: nat, since: Option<nat>, w: Written, lives: bool): State {
    if s.runtime.reboots >= limit then s
    else
      var s1 := Record(s, Saved(s.runtime.reboots + 1, since), w);
      if lives then s1.(sent := s.sent + 1, debt := s.debt + if w.Unwritten? then 1 else 0) else s1
  }

  /** The next process reads the file; one it cannot read counts as empty. */
  function Boot(s: State, readable: bool): State {
    if readable then s.(runtime := s.file)
    else s.(runtime := Saved(0, None), debt := s.debt + s.file.reboots)
  }

  class Watchdog {
    var runtime: Saved
    ghost var file: Saved
    ghost var sent: nat
    ghost var debt: nat

    ghost function Model(): State
      reads this
    {
      State(runtime, file, sent, debt)
    }

    constructor (loaded: Option<Saved>, ghost before: State)
      requires loaded.Some? ==> loaded.value == before.file
      ensures Model() == Boot(before, loaded.Some?)
    {
      runtime := match loaded
        case Some(saved) => saved
        case None => Saved(0, None);
      file := before.file;
      sent := before.sent;
      debt := before.debt + if loaded.Some? then 0 else before.file.reboots;
    }

    method SetReboots(reboots: nat, since: Option<nat>, w: Written)
      modifies this
      ensures Model() == Record(old(Model()), Saved(reboots, since), w)
    {
      var changed := runtime.reboots != reboots || runtime.since != since;
      runtime := Saved(reboots, since);
      if changed && !w.Unwritten? {
        file := runtime;
      }
    }

    /** What the loop does when it sees the connection, or finds the watchdog switched off. */
    method EndSeries(w: Written)
      modifies this
      ensures Model() == Settle(old(Model()), w)
    {
      SetReboots(0, None, w);
      sent := 0;
      debt := 0;
    }

    /** The restart step; `sends` tells whether the command goes out. */
    method RebootStep(limit: nat, since: Option<nat>, w: Written, lives: bool) returns (sends: bool)
      modifies this
      ensures Model() == Restart(old(Model()), limit, since, w, lives)
      ensures sends == (old(runtime.reboots) < limit && lives)
    {
      var reboots := runtime.reboots;
      if reboots >= limit {
        return false;
      }
      SetReboots(reboots + 1, since, w);
      sends := lives;
      if lives {
        sent := sent + 1;
        debt := debt + if w.Unwritten? then 1 else 0;
      }
    }
  }

  // ----- Over whole runs

  datatype Op =
    | Settles(w: Written)
    | Restarts(since: Option<nat>, w: Written, lives: bool)
    | Boots(readable: bool)

  function Next(s: State, limit: nat, op: Op): State {
    match op
    case Settles(w) => Settle(s, w)
    case Restarts(since, w, lives) => Restart(s, limit, since, w, lives)
    case Boots(readable) => Boot(s, readable)
  }

  function Run(s: State, limit: nat, ops: seq<Op>): State
    decreases |ops|
  {
    if ops == [] then s else Run(Next(s, limit, ops[0]), limit, ops[1..])
  }

  /** The counts, in the process and in the file, miss no more of the restarts than is owed. */
  predicate Inv(s: State, limit: nat) {
    && s.sent <= s.runtime.reboots + s.debt
    && s.sent <= s.file.reboots + s.debt
    && s.sent <= limit + s.debt
  }

  lemma {:induction false} RunKeepsInv(s: State, limit: nat, ops: seq<Op>)
    requires Inv(s, limit)
    ensures Inv(Run(s, limit, ops), limit)
    decreases |ops|
  {
    if ops != [] {
      RunKeepsInv(Next(s, limit, ops[0]), limit, ops[1..]);
    }
  }

  /** Every write of a restart count succeeds, and every file can be read. */
  predicate Reliable(ops: seq<Op>) {
    forall op :: op in ops ==> (op.Restarts? ==> !op.w.Unwritten?) && (op.Boots? ==> op.readable)
  }

  lemma {:induction false} ReliableOwesNothing(s: State, limit: nat, ops: seq<Op>)
    requires Reliable(ops) && s.debt == 0
    ensures Run(s, limit, ops).debt == 0
    decreases |ops|
  {
    if ops != [] {
      assert ops[0] in ops && forall op :: op in ops[1..] ==> op in ops;
      ReliableOwesNothing(Next(s, limit, ops[0]), limit, ops[1..]);
    }
  }

  /**
   Over every run, across restarts of the process and of the module: the restarts sent since the connection
   was last seen working, or the watchdog was off, never exceed the limit by more than the files forgot, and
   not at all when every count is written and every file read.
   */
  lemma RestartsAreLimited(file: Saved, limit: nat, ops: seq<Op>)
    ensures var s := Run(State(file, file, 0, 0), limit, ops);
      s.sent <= limit + s.debt && (Reliable(ops) ==> s.sent <= limit)
  {
    var s := State(file, file, 0, 0);
    RunKeepsInv(s, limit, ops);
    if Reliable(ops) {
      ReliableOwesNothing(s, limit, ops);
    }
  }

  /** One restart, unrecorded: the module comes back, and the count is as before. */
  function Unrecorded(n: nat): seq<Op> {
    if n == 0 then [] else [Restarts(None, Unwritten, true), Boots(true)] + Unrecorded(n - 1)
  }

  /** When the count cannot be written, there is no limit. */
  lemma {:induction false} UnwrittenCountsAreNoLimit(s: State, limit: nat, n: nat)
    requires limit > 0 && s.runtime == s.file && s.file.reboots == 0
    ensures Run(s, limit, Unrecorded(n)).sent == s.sent + n
    decreases n
  {
    if n > 0 {
      var ops := Unrecorded(n);
      assert ops[0] == Restarts(None, Unwritten, true) && ops[1..][0] == Boots(true);
      assert ops[1..][1..] == Unrecorded(n - 1);
      var t := Next(Next(s, limit, ops[0]), limit, Boots(true));
      UnwrittenCountsAreNoLimit(t, limit, n - 1);
    }
  }

  /** A restart below the limit is sent and counted, with the start of the outage, and at the limit nothing is done. */
  lemma RestartIsCounted(s: State, limit: nat, since: Option<nat>, w: Written)
    requires s.runtime == s.file
    ensures var t := Restart(s, limit, since, w, true);
      if s.runtime.reboots < limit then
        && t.sent == s.sent + 1 && t.runtime == Saved(s.runtime.reboots + 1, since)
        && (!w.Unwritten? ==> Boot(t, true).runtime == Saved(s.runtime.reboots + 1, since) && t.debt == s.debt)
        && (w.Unwritten? ==> Boot(t, true).runtime == s.runtime && t.debt == s.debt + 1)
      else t == s
  {
  }

  /** A working connection ends the series for this process, and for the next one if that can be written. */
  lemma SeriesIsOver(s: State, w: Written)
    requires s.runtime == s.file
    ensures var t := Settle(s, w);
      && t.runtime == Saved(0, None) && t.sent == 0
      && (!w.Unwritten? ==> Boot(t, true).runtime == Saved(0, None))
      && Boot(t, false).runtime == Saved(0, None)
  {
  }

  /** What is known already is not written again. */
  lemma UnchangedIsNotWritten(s: State, w: Written)
    requires s.runtime == Saved(0, None)
    ensures Settle(s, w).file == s.file && Settle(s, w).runtime == s.runtime
  {
  }
}
