/**
 What a cell lock goes through with time: it is given up only if the modem did not connect within its window,
 it is locked again after a restart if it was saved, and a lock that cannot be saved is taken back.
 */
module CellLockTime {
  import opened Common
  import opened CellRules
  import opened CellLock
  import opened CellLockRun
  import opened Modem
  import opened Store

  const MINUTE: int := 60 * 1_000_000_000

  /** The instant 15 seconds after a lock, from which on a connection counts. */
  function Settles(locked: int): int {
    locked + MINUTE / 4
  }

  /** The instant three minutes after a lock. */
  function Expires(locked: int): int {
    locked + 3 * MINUTE
  }

  /** The radio waits for a connection to confirm a lock made at `locked`. */
  predicate Awaits(s: State, r: nat, locked: int)
    requires Sized(s) && r < RADIOS
  {
    s.runtime[r].deadline == Some(Expires(locked)) && !s.runtime[r].phase.FallbackError? && s.runtime[r].touched
  }

  /** The radio is confirmed: it waits no more, and nothing else about it changed. */
  predicate Confirms(s: State, t: State, r: nat)
    requires Sized(s) && Sized(t) && r < RADIOS
  {
    && t.runtime[r] == s.runtime[r].(phase := Connected, deadline := None)
    && t.rules[r] == s.rules[r] && t.accepted[r] == s.accepted[r]
  }

  /** A look at one radio that awaits a connection. */
  lemma LookAtOne(s: State, r: nat, connected: bool, look: Look, locked: int)
    requires Sized(s) && r < RADIOS && Awaits(s, r, locked)
    ensures var t := CheckRadio(s, r, connected, look);
      if connected && look.now >= Settles(locked) then
        Confirms(s, t, r) && t.rules == s.rules && t.disk == s.disk
      else if look.later < Expires(locked) then
        t == s.(clock := look.later)
      else
        t.runtime[r].phase.Fallback? || t.runtime[r].phase.FallbackError?
  {
    hide Disabled, Settled;
  }

  /** What one radio goes through in a check of both is what it goes through by itself. */
  lemma CheckOfOne(s: State, connected: bool, looks: seq<Look>, r: nat) returns (before: State)
    requires Sized(s) && Legal(s, Checks(connected, looks)) && r < RADIOS && s.runtime[r].deadline.Some?
    ensures Sized(before) && before.runtime[r] == s.runtime[r] && before.rules[r] == s.rules[r]
    ensures before.accepted[r] == s.accepted[r]
    ensures var t, after := Step(s, Checks(connected, looks)), CheckRadio(before, r, connected, looks[r]);
      t.runtime[r] == after.runtime[r] && t.rules[r] == after.rules[r] && t.accepted[r] == after.accepted[r]
  {
    hide CheckRadio;
    CheckTwo(s, connected, looks);
    var t := CheckRadio(s, 0, connected, looks[0]);
    CheckKeepsOther(s, 0, connected, looks[0]);
    CheckKeepsOther(t, 1, connected, looks[1]);
    before := if r == 0 then s else t;
  }

  /**
   A check while a lock awaits a connection. Connected at least 15 seconds after the lock, it is confirmed:
   its rule and the modem stay as they are. Otherwise it goes on waiting until its three minutes are over.
   */
  lemma CheckConfirms(s: State, connected: bool, looks: seq<Look>, r: nat, locked: int)
    requires Sized(s) && Legal(s, Checks(connected, looks)) && r < RADIOS && Awaits(s, r, locked)
    ensures var t := Step(s, Checks(connected, looks));
      if connected && looks[r].now >= Settles(locked) then Confirms(s, t, r)
      else if looks[r].later < Expires(locked) then
        t.runtime[r] == s.runtime[r] && t.rules[r] == s.rules[r] && t.accepted[r] == s.accepted[r]
      else t.runtime[r].phase.Fallback? || t.runtime[r].phase.FallbackError?
  {
    hide CheckRadio, Step;
    var before := CheckOfOne(s, connected, looks, r);
    LookAtOne(before, r, connected, looks[r], locked);
  }

  // ----- Over a run

  /** The user leaves the radio alone, or fails to change it, and the program is not started again. */
  predicate Undisturbed(s: State, ops: seq<Op>, r: nat)
    requires Sized(s) && LegalRun(s, ops) && r < RADIOS
    decreases |ops|
  {
    if ops == [] then true
    else
      && !ops[0].Restarts?
      && (ops[0].Requests? ==> Step(s, ops[0]).runtime[r] == s.runtime[r])
      && Undisturbed(Step(s, ops[0]), ops[1..], r)
  }

  /** A check that finds the modem connected in the time in which that counts. */
  predicate Connects(op: Op, r: nat, locked: int)
    requires r < RADIOS
  {
    op.Checks? && op.connected && |op.looks| == RADIOS && op.looks[r].now >= Settles(locked)
  }

  /** Step `i` gives the lock up: its time was over, and no check had found a connection that counts. */
  predicate GivesUp(ops: seq<Op>, i: nat, r: nat, locked: int)
    requires r < RADIOS
  {
    && i < |ops| && ops[i].Checks? && |ops[i].looks| == RADIOS && ops[i].looks[r].later >= Expires(locked)
    && forall j :: 0 <= j <= i ==> !Connects(ops[j], r, locked)
  }

  lemma GivesUpLater(op: Op, rest: seq<Op>, i: nat, r: nat, locked: int)
    requires r < RADIOS && !Connects(op, r, locked) && GivesUp(rest, i, r, locked)
    ensures GivesUp([op] + rest, i + 1, r, locked)
  {
    forall j | 0 <= j <= i + 1
      ensures !Connects(([op] + rest)[j], r, locked)
    {
      if j > 0 {
        assert ([op] + rest)[j] == rest[j - 1];
      }
    }
  }

  lemma RestoreLeavesAwaiting(s: State, resends: seq<Resend>, r: nat)
    requires Sized(s) && Legal(s, Restores(resends)) && r < RADIOS && s.runtime[r].touched
    ensures Step(s, Restores(resends)).runtime[r] == s.runtime[r]
  {
    RestoreLeavesTouched(s, resends, r);
  }

  /** A radio that awaits a connection is given up only without one, and otherwise waits on or is confirmed. */
  lemma {:induction false} WaitsOrGivesUp(s: State, ops: seq<Op>, r: nat, locked: int)
    requires Inv(s) && LegalRun(s, ops) && r < RADIOS && Awaits(s, r, locked) && Undisturbed(s, ops, r)
    ensures var t := Outcome(s, ops);
      || t.runtime[r] == s.runtime[r]
      || t.runtime[r] == s.runtime[r].(phase := Connected, deadline := None)
      || exists i :: GivesUp(ops, i, r, locked)
    decreases |ops|
  {
    if ops != [] {
      var op, t := ops[0], Step(s, ops[0]);
      StepKeepsInv(s, op);
      assert ops == [op] + ops[1..];
      match op {
        case Checks(connected, looks) =>
          CheckConfirms(s, connected, looks, r, locked);
          hide Inv, Step, LegalRun, Outcome, Undisturbed, Connects;
          if connected && looks[r].now >= Settles(locked) {
            IdleStays(t, ops[1..], r);
          } else if looks[r].later < Expires(locked) {
            WaitsOn(s, ops, r, locked);
          } else {
            NotConnects(op, r, locked);
            assert GivesUp(ops, 0, r, locked);
          }
        case Restores(resends) =>
          RestoreLeavesAwaiting(s, resends, r);
          WaitsOn(s, ops, r, locked);
        case Requests(_, _) => WaitsOn(s, ops, r, locked);
      }
    }
  }

  lemma NotConnects(op: Op, r: nat, locked: int)
    requires r < RADIOS && op.Checks? && |op.looks| == RADIOS
    requires !(op.connected && op.looks[r].now >= Settles(locked))
    ensures !Connects(op, r, locked)
  {
  }

  lemma WaitsOn(s: State, ops: seq<Op>, r: nat, locked: int)
    requires Inv(s) && ops != [] && LegalRun(s, ops) && r < RADIOS && Awaits(s, r, locked) && Undisturbed(s, ops, r)
    requires Inv(Step(s, ops[0])) && Step(s, ops[0]).runtime[r] == s.runtime[r] && !Connects(ops[0], r, locked)
    ensures var t := Outcome(s, ops);
      || t.runtime[r] == s.runtime[r]
      || t.runtime[r] == s.runtime[r].(phase := Connected, deadline := None)
      || exists i :: GivesUp(ops, i, r, locked)
    decreases |ops|, 0
  {
    hide RadioInv, Step, Legal, Connects;
    WaitsOrGivesUp(Step(s, ops[0]), ops[1..], r, locked);
    assert ops == [ops[0]] + ops[1..];
    if i :| GivesUp(ops[1..], i, r, locked) {
      GivesUpLater(ops[0], ops[1..], i, r, locked);
    }
  }

  /** A radio without a deadline stays as it is while it is left alone. */
  lemma {:induction false} IdleStays(s: State, ops: seq<Op>, r: nat)
    requires Inv(s) && LegalRun(s, ops) && r < RADIOS && Undisturbed(s, ops, r)
    requires s.runtime[r].deadline.None? && s.runtime[r].touched
    ensures Outcome(s, ops).runtime[r] == s.runtime[r]
    decreases |ops|
  {
    if ops != [] {
      var op := ops[0];
      StepKeepsInv(s, op);
      match op {
        case Checks(connected, looks) => CheckLeavesIdle(s, connected, looks, r);
        case Restores(resends) => RestoreLeavesAwaiting(s, resends, r);
        case Requests(_, _) =>
      }
      hide Inv, Step;
      IdleStays(Step(s, op), ops[1..], r);
    }
  }

  lemma CheckLeavesIdle(s: State, connected: bool, looks: seq<Look>, r: nat)
    requires Sized(s) && Legal(s, Checks(connected, looks)) && r < RADIOS && s.runtime[r].deadline.None?
    ensures Step(s, Checks(connected, looks)).runtime[r] == s.runtime[r]
  {
    IdleLook(s, connected, looks[r], r);
    IdleLook(CheckRadio(s, 0, connected, looks[0]), connected, looks[r], r);
    CheckTwo(s, connected, looks);
    CheckKeepsOther(s, 0, connected, looks[0]);
    CheckKeepsOther(CheckRadio(s, 0, connected, looks[0]), 1, connected, looks[1]);
    hide CheckRadio;
  }

  lemma IdleLook(s: State, connected: bool, look: Look, r: nat)
    requires Sized(s) && r < RADIOS
    ensures s.runtime[r].deadline.None? ==> CheckRadio(s, r, connected, look) == s
  {
    hide FallBack;
  }

  // ----- Requests

  /** The numbers can be sent and the band is allowed, and the modem took the command, or has no lock to remove. */
  predicate IsTaken(q: Request, w: World)
    requires q.radio < RADIOS
  {
    && (q.values.Some? ==> ValuesValid(q.radio, q.values.value) && (q.radio == 0 || w.allowed))
    && (w.run.answer.Accepted? || (q.values.None? && w.run.answer.Refused? && w.run.clear))
  }

  /** The modem took the request, and it is saved, as far as there is something to save. */
  predicate Succeeds(s: State, q: Request, w: World)
    requires Sized(s) && q.radio < RADIOS
  {
    && IsTaken(q, w)
    && (Settled(s, s.rules[q.radio := Remembered(q)]) || !w.write.Unwritten?)
  }

  /** A request to lock over restarts, until the modem fails to connect. */
  predicate IsGuarded(q: Request) {
    q.radio < RADIOS && q.values.Some? && q.persistent && q.auto
  }

  lemma RequestAwaits(s: State, q: Request, w: World)
    requires Inv(s) && Legal(s, Requests(q, w)) && IsGuarded(q) && Succeeds(s, q, w)
    ensures Awaits(Step(s, Requests(q, w)), q.radio, w.now)
  {
    hide ValuesValid;
  }

  /**
   Over every run: a lock that is to be given up without a connection is given up only when three minutes have
   passed and no check since 15 seconds after the lock has found the modem connected. As long as nobody else
   changes the radio, it is still awaiting a connection or confirmed otherwise.
   */
  lemma GivenUpOnlyUnconnected(disk: seq<Option<Rule>>, accepted: seq<Option<seq<nat>>>, now: int, readable: bool,
                               before: seq<Op>, q: Request, w: World, after: seq<Op>)
    requires |disk| == |accepted| == RADIOS && IsGuarded(q)
    requires Sized(Boot(disk, accepted, now, readable)) && LegalRun(Boot(disk, accepted, now, readable), before)
    requires var s := Outcome(Boot(disk, accepted, now, readable), before);
      && Legal(s, Requests(q, w)) && Succeeds(s, q, w) && LegalRun(Step(s, Requests(q, w)), after)
      && Undisturbed(Step(s, Requests(q, w)), after, q.radio)
    ensures var s := Step(Outcome(Boot(disk, accepted, now, readable), before), Requests(q, w));
      var phase := Outcome(s, after).runtime[q.radio].phase;
      || phase.Persistent? || phase.Connected?
      || exists i :: 0 <= i < |after| && after[i].Checks? && |after[i].looks| == RADIOS
          && after[i].looks[q.radio].later >= w.now + 3 * MINUTE
          && forall j :: 0 <= j <= i && after[j].Checks? && after[j].connected && |after[j].looks| == RADIOS ==>
              after[j].looks[q.radio].now < w.now + MINUTE / 4
  {
    BootInv(disk, accepted, now, readable);
    RunKeepsInv(Boot(disk, accepted, now, readable), before);
    var s := Outcome(Boot(disk, accepted, now, readable), before);
    RequestAwaits(s, q, w);
    RequestIsPersistent(s, q, w);
    StepKeepsInv(s, Requests(q, w));
    hide Inv, Step, Legal, Succeeds, LegalRun, Undisturbed, Outcome, Boot, Awaits;
    WaitsOrGivesUp(Step(s, Requests(q, w)), after, q.radio, w.now);
    if i :| GivesUp(after, i, q.radio, w.now) {
      forall j | 0 <= j <= i && after[j].Checks? && after[j].connected && |after[j].looks| == RADIOS
        ensures after[j].looks[q.radio].now < w.now + MINUTE / 4
      {
        assert !Connects(after[j], q.radio, w.now);
      }
    }
  }

  lemma BootInv(disk: seq<Option<Rule>>, accepted: seq<Option<seq<nat>>>, now: int, readable: bool)
    requires |disk| == |accepted| == RADIOS && Sized(Boot(disk, accepted, now, readable))
    ensures Inv(Boot(disk, accepted, now, readable))
  {
    hide ValuesValid;
  }

  lemma RequestIsPersistent(s: State, q: Request, w: World)
    requires Inv(s) && Legal(s, Requests(q, w)) && IsGuarded(q) && Succeeds(s, q, w)
    ensures Step(s, Requests(q, w)).runtime[q.radio].phase.Persistent?
  {
    hide ValuesValid;
  }

  /** What a request that succeeds leaves: the radio as asked for, and a rule exactly if it is to outlive restarts. */
  lemma RequestIsCarriedOut(s: State, q: Request, w: World)
    requires Inv(s) && Legal(s, Requests(q, w)) && q.radio < RADIOS && Succeeds(s, q, w)
    ensures var t := Step(s, Requests(q, w));
      && t.accepted[q.radio] == q.values && t.accepted[1 - q.radio] == s.accepted[1 - q.radio]
      && t.stored && t.disk == t.rules && t.rules[1 - q.radio] == s.rules[1 - q.radio]
      && t.rules[q.radio] == (if q.persistent && q.values.Some? then Some(Rule(q.values.value, q.auto, true)) else None)
      && t.runtime[1 - q.radio] == s.runtime[1 - q.radio]
      && (t.runtime[q.radio].deadline.Some? <==> IsGuarded(q))
  {
    hide ValuesValid;
  }

  /**
   A lock that the modem took and that cannot be saved is taken back: the radio has the lock that is to come
   back after a restart, or none, if the modem takes that; what is saved and shown stays as it was.
   */
  lemma UnsavedLockIsTakenBack(s: State, q: Request, w: World)
    requires Inv(s) && Legal(s, Requests(q, w)) && q.radio < RADIOS && IsTaken(q, w) && !Succeeds(s, q, w)
    ensures var t, rule := Step(s, Requests(q, w)), s.rules[q.radio];
      && t.rules == s.rules && t.stored == s.stored && t.disk == s.disk && t.runtime == s.runtime
      && (w.back.Accepted? ==>
        t.accepted[q.radio] == if rule.Some? && rule.value.enabled then Some(rule.value.values) else None)
  {
    hide ValuesValid;
  }

  /** A request that is refused, or that the modem does not take, changes nothing. */
  lemma RefusedRequestChangesNothing(s: State, q: Request, w: World)
    requires Sized(s) && Legal(s, Requests(q, w))
    requires q.radio < RADIOS && !IsTaken(q, w)
    ensures Step(s, Requests(q, w)) == s
  {
    hide ValuesValid;
  }

  // ----- Restarts

  /** What the resend at start does to one radio that nobody has changed. */
  predicate Resent(s: State, t: State, r: nat, resend: Resend)
    requires Sized(s) && Sized(t) && r < RADIOS
  {
    var rule := s.rules[r];
    if rule.Some? && rule.value.enabled then
      && t.runtime[r].phase.Persistent? && t.runtime[r].touched
      && (if rule.value.autoUnlock then Awaits(t, r, resend.now) else t.runtime[r].deadline.None?)
      && t.accepted[r] == (if resend.answer.Accepted? then Some(rule.value.values) else s.accepted[r])
    else t.runtime[r] == s.runtime[r] && t.accepted[r] == s.accepted[r]
  }

  /** The state but for what one radio shows and has. */
  predicate OnlyRadio(s: State, t: State, r: nat)
    requires Sized(s) && Sized(t) && r < RADIOS
  {
    && t.rules == s.rules && t.disk == s.disk && t.stored == s.stored
    && t.runtime[1 - r] == s.runtime[1 - r] && t.accepted[1 - r] == s.accepted[1 - r]
  }

  lemma RestoreOne(s: State, r: nat, resend: Resend)
    requires Inv(s) && r < RADIOS
    ensures var t := RestoreRadio(s, r, resend);
      OnlyRadio(s, t, r) && (!s.runtime[r].touched ==> Resent(s, t, r, resend))
  {
    hide ValuesValid;
  }

  /** At start a radio with an enabled rule is locked again, and others are left alone. */
  lemma RestoreLocksAgain(s: State, resends: seq<Resend>, r: nat)
    requires Inv(s) && Legal(s, Restores(resends)) && r < RADIOS && !s.runtime[r].touched
    ensures var t := Step(s, Restores(resends));
      && t.rules == s.rules && t.disk == s.disk && t.stored == s.stored && Resent(s, t, r, resends[r])
  {
    var u := RestoreRadio(s, 0, resends[0]);
    RestoreOne(s, 0, resends[0]);
    RestoreOnly(s, 0, resends[0]);
    OnlyKeepsInv(s, u, 0);
    RestoreOne(u, 1, resends[1]);
    RestoreTwo(s, resends);
    hide RestoreRadio, RadioInv, ValuesValid;
  }

  /** A lock that was saved comes back after a restart, and one that was not saved does not. */
  lemma SavedLockComesBack(s: State, q: Request, w: World, now: int, resends: seq<Resend>)
    requires Inv(s) && Legal(s, Requests(q, w)) && q.radio < RADIOS && Succeeds(s, q, w)
    requires |resends| == RADIOS && now <= resends[0].now <= resends[1].now && resends[q.radio].answer.Accepted?
    ensures var u := Step(Step(s, Requests(q, w)), Restarts(now, true));
      && Legal(u, Restores(resends))
      && var t := Step(u, Restores(resends));
      && (q.persistent && q.values.Some? ==> t.accepted[q.radio] == q.values && t.runtime[q.radio].phase.Persistent?)
      && (q.persistent && q.values.Some? && q.auto ==> Awaits(t, q.radio, resends[q.radio].now))
      && (!(q.persistent && q.values.Some?) ==> t.runtime[q.radio].phase.Unset?)
  {
    RequestIsCarriedOut(s, q, w);
    var a := Step(s, Requests(q, w));
    StepKeepsInv(s, Requests(q, w));
    RestartIs(a, now);
    StepKeepsInv(a, Restarts(now, true));
    hide Step, ValuesValid, RadioInv;
    RestoreLocksAgain(Step(a, Restarts(now, true)), resends, q.radio);
  }

  /** A restart reads back what was saved, and knows nothing else. */
  lemma RestartIs(s: State, now: int)
    requires Inv(s) && s.stored
    ensures var t := Step(s, Restarts(now, true));
      && t.rules == s.rules && t.disk == s.disk && t.stored && t.accepted == s.accepted && t.clock == now
      && forall r :: 0 <= r < RADIOS ==> t.runtime[r] == Runtime(Unset, None, false)
  {
    hide ValuesValid;
  }
}
