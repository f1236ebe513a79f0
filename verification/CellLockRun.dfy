/** Cell locks over whole runs: requests, the resend at start, checks and restarts in any order. */
module CellLockRun {
  import opened Common
  import opened CellRules
  import opened CellLock
  import opened Modem
  import opened Store

  datatype Op =
    | Requests(request: Request, world: World)
    | Restores(resends: seq<Resend>)
    | Checks(connected: bool, looks: seq<Look>)
    | Restarts(now: int, readable: bool)

  /** Every step holds the lock throughout; the clock does not go back. */
  predicate Legal(s: State, op: Op) {
    match op
    case Requests(q, w) => q.radio < RADIOS && w.now >= s.clock
    case Restores(resends) => |resends| == RADIOS && s.clock <= resends[0].now <= resends[1].now
    case Checks(_, looks) =>
      && |looks| == RADIOS && s.clock <= looks[0].now <= looks[0].later <= looks[1].now <= looks[1].later
    case Restarts(_, _) => true
  }

  function Step(s: State, op: Op): (t: State)
    requires Sized(s) && Legal(s, op)
    ensures Sized(t)
  {
    match op
    case Requests(q, w) => Apply(s, q, w)
    case Restores(resends) => RestoreFrom(s, 0, resends)
    case Checks(connected, looks) => Check(s, connected, looks)
    case Restarts(now, readable) => Restart(s, now, readable)
  }

  /** What holds of one radio at all times. */
  predicate RadioInv(s: State, r: nat)
    requires Sized(s) && r < RADIOS
  {
    && (s.rules[r].Some? ==> ValuesValid(r, s.rules[r].value.values))
    && (s.runtime[r].deadline.Some? ==> s.runtime[r].touched)
    && (s.runtime[r].phase.FallbackError? ==> s.runtime[r].deadline.Some? && s.runtime[r].deadline.value <= s.clock)
    && (s.slipped[r] ==> s.accepted[r].Some?)
    && (s.runtime[r].phase.Fallback? ==>
      && Enabled(s.rules[r]).None? && s.runtime[r].deadline.None?
      && (s.accepted[r].None? <==> !s.slipped[r]))
  }

  predicate Inv(s: State) {
    && Sized(s) && RadioInv(s, 0) && RadioInv(s, 1)
    && (s.stored ==> s.disk == s.rules)
  }

  // ----- Each step

  /** A step of one radio does not touch the other, and time does not go back. */
  predicate Only(s: State, t: State, r: nat)
    requires Sized(s) && r < RADIOS
  {
    && Sized(t) && t.clock >= s.clock
    && t.rules[1 - r] == s.rules[1 - r] && t.runtime[1 - r] == s.runtime[1 - r]
    && t.accepted[1 - r] == s.accepted[1 - r] && t.slipped[1 - r] == s.slipped[1 - r]
    && ((t.stored && t.disk == t.rules) || (t.stored == s.stored && t.disk == s.disk && t.rules == s.rules))
  }

  lemma OnlyKeepsInv(s: State, t: State, r: nat)
    requires Inv(s) && r < RADIOS && Only(s, t, r) && RadioInv(t, r)
    ensures Inv(t)
  {
    hide ValuesValid, Enabled;
    assert RadioInv(t, 1 - r);
  }

  lemma ApplyOnly(s: State, q: Request, w: World)
    requires Inv(s) && q.radio < RADIOS && w.now >= s.clock
    ensures Only(s, Apply(s, q, w), q.radio) && RadioInv(Apply(s, q, w), q.radio)
  {
    hide ValuesValid;
    if Rejected(q, w) || !Done(q.values.None?, w.run) {
    } else if !Settled(s, s.rules[q.radio := Remembered(q)]) && w.write.Unwritten? {
      RollBackOnly(s, q, w.back);
    } else {
    }
  }

  lemma RollBackOnly(s: State, q: Request, answer: Answer)
    requires Inv(s) && q.radio < RADIOS
    ensures var t := RollBack(Acknowledge(s, q.radio, q.values), q.radio, q.values.Some?, answer);
      Only(s, t, q.radio) && RadioInv(t, q.radio)
  {
    hide ValuesValid;
  }

  lemma RestoreOnly(s: State, radio: nat, resend: Resend)
    requires Inv(s) && radio < RADIOS && s.clock <= resend.now
    ensures Only(s, RestoreRadio(s, radio, resend), radio) && RadioInv(RestoreRadio(s, radio, resend), radio)
    ensures RestoreRadio(s, radio, resend).clock <= resend.now && RestoreRadio(s, radio, resend).rules == s.rules
  {
    hide ValuesValid;
  }

  lemma CheckOnly(s: State, radio: nat, connected: bool, look: Look)
    requires Inv(s) && radio < RADIOS && s.clock <= look.now <= look.later
    ensures Only(s, CheckRadio(s, radio, connected, look), radio)
    ensures RadioInv(CheckRadio(s, radio, connected, look), radio)
    ensures CheckRadio(s, radio, connected, look).clock <= look.later
  {
    hide ValuesValid;
    var r := s.runtime[radio];
    var settled := connected && !r.phase.FallbackError? && r.deadline.Some?
      && look.now + GUARD - SETTLE >= r.deadline.value;
    if r.deadline.Some? && !settled && look.later >= r.deadline.value {
      FallBackOnly(s, radio, look);
      hide FallBack, Only, RadioInv;
    } else {
      hide FallBack;
    }
  }

  lemma FallBackOnly(s: State, radio: nat, look: Look)
    requires Inv(s) && radio < RADIOS && s.clock <= look.later
    requires s.runtime[radio].deadline.Some? && look.later >= s.runtime[radio].deadline.value
    ensures var t := FallBack(s, radio, look).(clock := look.later);
      Only(s, t, radio) && RadioInv(t, radio)
  {
    DisabledIs(s.rules, radio);
    hide ValuesValid, Disabled;
    SaveIs(s, Disabled(s.rules, radio), look.write);
    hide Save, Settled;
  }

  lemma DisabledIs(rules: seq<Option<Rule>>, radio: nat)
    requires |rules| == RADIOS && radio < RADIOS
    ensures var next := Disabled(rules, radio);
      && |next| == RADIOS && next[1 - radio] == rules[1 - radio] && Enabled(next[radio]).None?
      && Values(next[radio]) == Values(rules[radio])
  {
  }

  lemma SaveIs(s: State, rules: seq<Option<Rule>>, w: Written)
    requires s.stored ==> s.disk == s.rules
    ensures var t := Save(s, rules, w);
      && t == s.(rules := t.rules, stored := t.stored, disk := t.disk)
      && ((Settled(s, rules) || !w.Unwritten?) ==> t.rules == rules && t.stored && t.disk == rules)
      && ((!Settled(s, rules) && w.Unwritten?) ==> t == s)
  {
  }

  lemma RestoreTwo(s: State, resends: seq<Resend>)
    requires Sized(s) && |resends| == RADIOS
    ensures RestoreFrom(s, 0, resends) == RestoreRadio(RestoreRadio(s, 0, resends[0]), 1, resends[1])
  {
    hide RestoreRadio;
    var t := RestoreRadio(s, 0, resends[0]);
    var u := RestoreRadio(t, 1, resends[1]);
    assert RestoreFrom(u, 2, resends) == u;
    assert RestoreFrom(t, 1, resends) == u;
  }

  lemma CheckTwo(s: State, connected: bool, looks: seq<Look>)
    requires Sized(s) && |looks| == RADIOS
    ensures CheckFrom(s, 0, connected, looks) ==
      CheckRadio(CheckRadio(s, 0, connected, looks[0]), 1, connected, looks[1])
  {
    hide CheckRadio;
    var t := CheckRadio(s, 0, connected, looks[0]);
    var u := CheckRadio(t, 1, connected, looks[1]);
    assert CheckFrom(u, 2, connected, looks) == u;
    assert CheckFrom(t, 1, connected, looks) == u;
  }

  lemma RestoreKeepsInv(s: State, resends: seq<Resend>)
    requires Inv(s) && Legal(s, Restores(resends))
    ensures Inv(RestoreFrom(s, 0, resends))
  {
    assert Sized(s);
    hide Inv, RadioInv, RestoreRadio, Only;
    var t := RestoreRadio(s, 0, resends[0]);
    RestoreOnly(s, 0, resends[0]);
    OnlyKeepsInv(s, t, 0);
    RestoreOnly(t, 1, resends[1]);
    OnlyKeepsInv(t, RestoreRadio(t, 1, resends[1]), 1);
    RestoreTwo(s, resends);
  }

  lemma CheckKeepsInv(s: State, connected: bool, looks: seq<Look>)
    requires Inv(s) && Legal(s, Checks(connected, looks))
    ensures Inv(Check(s, connected, looks))
  {
    assert Sized(s);
    hide Inv, RadioInv, CheckRadio, Only;
    var t := CheckRadio(s, 0, connected, looks[0]);
    CheckOnly(s, 0, connected, looks[0]);
    OnlyKeepsInv(s, t, 0);
    CheckOnly(t, 1, connected, looks[1]);
    OnlyKeepsInv(t, CheckRadio(t, 1, connected, looks[1]), 1);
    CheckTwo(s, connected, looks);
  }

  lemma RestartKeepsInv(s: State, now: int, readable: bool)
    requires Sized(s) && (s.slipped[0] ==> s.accepted[0].Some?) && (s.slipped[1] ==> s.accepted[1].Some?)
    ensures Inv(Restart(s, now, readable))
  {
    hide ValuesValid;
  }

  /** Every step keeps the invariant. */
  lemma StepKeepsInv(s: State, op: Op)
    requires Inv(s) && Legal(s, op)
    ensures Inv(Step(s, op))
  {
    hide Apply, RestoreFrom, Check, ValuesValid, Enabled;
    match op
    case Requests(q, w) =>
      ApplyOnly(s, q, w);
      OnlyKeepsInv(s, Apply(s, q, w), q.radio);
    case Restores(resends) => RestoreKeepsInv(s, resends);
    case Checks(connected, looks) => CheckKeepsInv(s, connected, looks);
    case Restarts(now, readable) => RestartKeepsInv(s, now, readable);
  }

  predicate LegalRun(s: State, ops: seq<Op>)
    requires Sized(s)
    decreases |ops|
  {
    if ops == [] then true
    else Legal(s, ops[0]) && LegalRun(Step(s, ops[0]), ops[1..])
  }

  function Outcome(s: State, ops: seq<Op>): (t: State)
    requires Sized(s) && LegalRun(s, ops)
    ensures Sized(t)
    decreases |ops|
  {
    if ops == [] then s else Outcome(Step(s, ops[0]), ops[1..])
  }

  lemma {:induction false} RunKeepsInv(s: State, ops: seq<Op>)
    requires Inv(s) && LegalRun(s, ops)
    ensures Inv(Outcome(s, ops))
    decreases |ops|
  {
    hide RadioInv, Step;
    if ops != [] {
      StepKeepsInv(s, ops[0]);
      RunKeepsInv(Step(s, ops[0]), ops[1..]);
    }
  }

  /** A process that has just started, with any file and any lock in the modem. */
  function Boot(disk: seq<Option<Rule>>, accepted: seq<Option<seq<nat>>>, now: int, readable: bool): State {
    Restart(State([None, None], false, [], disk, accepted, [false, false], now), now, readable)
  }

  /**
   Over every run: a radio that shows "fallback" has no rule that would lock it again after a restart, and
   the modem's last acknowledged state is unlocked exactly if no lock since then failed to be saved and was
   not taken back.
   */
  lemma FallbackMeansUnlocked(disk: seq<Option<Rule>>, accepted: seq<Option<seq<nat>>>, now: int, readable: bool,
                               ops: seq<Op>, r: nat)
    requires |disk| == |accepted| == RADIOS && r < RADIOS
    requires Sized(Boot(disk, accepted, now, readable)) && LegalRun(Boot(disk, accepted, now, readable), ops)
    ensures var s := Outcome(Boot(disk, accepted, now, readable), ops);
      && Sized(s)
      && (s.runtime[r].phase.Fallback? ==>
        && Enabled(s.rules[r]).None?
        && (s.stored ==> Enabled(s.disk[r]).None?)
        && (s.accepted[r].None? <==> !s.slipped[r]))
  {
    hide ValuesValid;
    var s := Boot(disk, accepted, now, readable);
    assert Inv(s);
    RunKeepsInv(s, ops);
  }

  /** A lock that the modem took, that could not be saved, and whose removal the modem did not acknowledge. */
  predicate Unkept(s: State, op: Op, r: nat)
    requires Sized(s) && r < RADIOS
  {
    && op.Requests? && op.request.radio == r && op.request.values.Some?
    && !Rejected(op.request, op.world) && op.world.run.answer.Accepted? && op.world.write.Unwritten?
    && !Settled(s, s.rules[r := Remembered(op.request)]) && !op.world.back.Accepted?
  }

  /** Some step of the run was such a request. */
  predicate HasUnkept(s: State, ops: seq<Op>, r: nat)
    requires Sized(s) && LegalRun(s, ops) && r < RADIOS
    decreases |ops|
  {
    ops != [] && (Unkept(s, ops[0], r) || HasUnkept(Step(s, ops[0]), ops[1..], r))
  }

  lemma SlipIsUnkept(s: State, op: Op, r: nat)
    requires Inv(s) && Legal(s, op) && r < RADIOS
    ensures Step(s, op).slipped[r] ==> s.slipped[r] || Unkept(s, op, r)
  {
    hide ValuesValid;
    match op
    case Requests(q, w) => RequestSlips(s, q, w, r);
    case Restores(resends) => RestoreTwo(s, resends);
    case Checks(connected, looks) =>
      CheckTwo(s, connected, looks);
      CheckDoesNotSlip(s, 0, connected, looks[0], r);
      CheckDoesNotSlip(CheckRadio(s, 0, connected, looks[0]), 1, connected, looks[1], r);
      hide CheckRadio;
    case Restarts(_, _) =>
  }

  lemma RequestSlips(s: State, q: Request, w: World, r: nat)
    requires Inv(s) && q.radio < RADIOS && r < RADIOS
    ensures Apply(s, q, w).slipped[r] ==> s.slipped[r] || Unkept(s, Requests(q, w), r)
  {
    hide ValuesValid;
  }

  lemma CheckDoesNotSlip(s: State, radio: nat, connected: bool, look: Look, r: nat)
    requires Sized(s) && radio < RADIOS && r < RADIOS
    ensures CheckRadio(s, radio, connected, look).slipped[r] ==> s.slipped[r]
  {
  }

  lemma {:induction false} SlippedHasUnkept(s: State, ops: seq<Op>, r: nat)
    requires Inv(s) && LegalRun(s, ops) && r < RADIOS
    ensures Outcome(s, ops).slipped[r] ==> s.slipped[r] || HasUnkept(s, ops, r)
    decreases |ops|
  {
    hide RadioInv, Step, Unkept;
    if ops != [] {
      StepKeepsInv(s, ops[0]);
      SlipIsUnkept(s, ops[0], r);
      SlippedHasUnkept(Step(s, ops[0]), ops[1..], r);
    }
  }

  /**
   The only way to be locked in "fallback": over every run that ends so, some request locked the radio, could
   not be saved, and was not taken back.
   */
  lemma LockedFallbackHasUnkept(disk: seq<Option<Rule>>, accepted: seq<Option<seq<nat>>>, now: int, readable: bool,
                               ops: seq<Op>, r: nat)
    requires |disk| == |accepted| == RADIOS && r < RADIOS
    requires Sized(Boot(disk, accepted, now, readable)) && LegalRun(Boot(disk, accepted, now, readable), ops)
    requires Outcome(Boot(disk, accepted, now, readable), ops).runtime[r].phase.Fallback?
    requires Outcome(Boot(disk, accepted, now, readable), ops).accepted[r].Some?
    ensures HasUnkept(Boot(disk, accepted, now, readable), ops, r)
  {
    hide ValuesValid, LegalRun, Outcome, HasUnkept;
    var s := Boot(disk, accepted, now, readable);
    assert Inv(s);
    SlippedHasUnkept(s, ops, r);
    RunKeepsInv(s, ops);
  }

  // ----- Single steps

  /** And every such request in "fallback" does leave the radio locked there. */
  lemma FallbackIsLeftLockedExactly(s: State, q: Request, w: World)
    requires Inv(s) && q.radio < RADIOS
    requires s.runtime[q.radio].phase.Fallback? && s.accepted[q.radio].None?
    ensures var t := Apply(s, q, w);
      (t.runtime[q.radio].phase.Fallback? && t.accepted[q.radio].Some?) <==> Unkept(s, Requests(q, w), q.radio)
  {
    hide ValuesValid, Rejected;
  }

  /** A fallback that failed half way stays as it is, deadline included, and a connection does not end it. */
  lemma FailedFallbackStays(s: State, op: Op, r: nat)
    requires Inv(s) && Legal(s, op) && r < RADIOS && s.runtime[r].phase.FallbackError?
    ensures var t := Step(s, op);
      && Sized(t)
      && (t.runtime[r] == s.runtime[r]
        || op.Restarts?
        || (op.Requests? && op.request.radio == r && t.runtime[r] == Begun(op.request, op.world.now)
            && t.accepted[r] == op.request.values)
        || (op.Checks? && t.runtime[r].phase.Fallback? && Enabled(t.rules[r]).None? && t.accepted[r].None?))
  {
    hide ValuesValid;
    match op
    case Requests(q, w) => hide Only;
    case Restores(resends) => RestoreLeavesTouched(s, resends, r);
    case Checks(connected, looks) => CheckGivesUp(s, connected, looks, r);
    case Restarts(_, _) =>
  }

  lemma CheckKeepsOther(s: State, radio: nat, connected: bool, look: Look)
    requires Sized(s) && radio < RADIOS
    ensures var t := CheckRadio(s, radio, connected, look);
      && t.runtime[1 - radio] == s.runtime[1 - radio] && t.accepted[1 - radio] == s.accepted[1 - radio]
      && t.rules[1 - radio] == s.rules[1 - radio]
  {
  }

  lemma DeadlineFires(s: State, r: nat, connected: bool, look: Look)
    requires Sized(s) && r < RADIOS && (!connected || s.runtime[r].phase.FallbackError?)
    requires s.runtime[r].deadline.Some? && s.runtime[r].deadline.value <= look.later
    ensures var t := CheckRadio(s, r, connected, look);
      && (t.runtime[r].phase.Fallback? <==> Disables(s, r, look) && Done(true, look.run))
      && (!t.runtime[r].phase.Fallback? ==> t.runtime[r] == s.runtime[r].(phase := FallbackError))
      && (look.write.Stored? ==> Enabled(t.rules[r]).None?)
      && (Done(true, look.run) ==> t.accepted[r].None?)
  {
  }

  /**
   A lock whose time is up without a connection is given up by the next check, of both radios, or shown as
   failed with its deadline as it was, which the check after that tries again.
   */
  lemma CheckGivesUp(s: State, connected: bool, looks: seq<Look>, r: nat)
    requires Inv(s) && Legal(s, Checks(connected, looks)) && r < RADIOS
    requires s.runtime[r].deadline.Some? && s.runtime[r].deadline.value <= looks[r].later
    requires !connected || s.runtime[r].phase.FallbackError?
    ensures var t := Step(s, Checks(connected, looks));
      && (t.runtime[r].phase.Fallback? ==> t.accepted[r].None? && Enabled(t.rules[r]).None?)
      && (!t.runtime[r].phase.Fallback? ==> t.runtime[r] == s.runtime[r].(phase := FallbackError))
      && (looks[r].write.Stored? && Done(true, looks[r].run) ==> t.runtime[r].phase.Fallback?)
  {
    hide CheckRadio, Enabled, ValuesValid, Disables, Done;
    CheckTwo(s, connected, looks);
    var t := CheckRadio(s, 0, connected, looks[0]);
    CheckKeepsOther(s, 0, connected, looks[0]);
    CheckKeepsOther(t, 1, connected, looks[1]);
    var before := if r == 0 then s else t;
    assert before.runtime[r] == s.runtime[r];
    DeadlineFires(before, r, connected, looks[r]);
    FallbackIsDisabled(before, r, connected, looks[r]);
  }

  lemma FallbackIsDisabled(s: State, r: nat, connected: bool, look: Look)
    requires Sized(s) && r < RADIOS && (!connected || s.runtime[r].phase.FallbackError?)
    requires s.runtime[r].deadline.Some? && s.runtime[r].deadline.value <= look.later
    ensures look.write.Stored? ==> Disables(s, r, look)
    ensures var t := CheckRadio(s, r, connected, look);
      t.runtime[r].phase.Fallback? ==> Enabled(t.rules[r]).None?
  {
  }

  /** The resend at start leaves alone a radio that the user has changed, whatever is saved for it. */
  lemma RestoreLeavesTouched(s: State, resends: seq<Resend>, r: nat)
    requires Sized(s) && |resends| == RADIOS && r < RADIOS && s.runtime[r].touched
    ensures var t := RestoreFrom(s, 0, resends);
      && Sized(t) && t.runtime[r] == s.runtime[r] && t.accepted[r] == s.accepted[r] && t.rules == s.rules
  {
    RestoreTwo(s, resends);
  }

  /** After a fallback, a restart does not lock the radio again. */
  lemma FallbackOutlivesRestart(s: State, r: nat, now: int, readable: bool, resends: seq<Resend>)
    requires Inv(s) && s.stored && r < RADIOS && s.runtime[r].phase.Fallback? && |resends| == RADIOS
    ensures var t := RestoreFrom(Restart(s, now, readable), 0, resends);
      Sized(t) && t.accepted[r] == s.accepted[r] && t.runtime[r].phase.Unset?
  {
    hide ValuesValid;
    RestoreTwo(Restart(s, now, readable), resends);
  }

  /** The failing run: a lock falls back, and then a lock that is not saved stays in the modem. */
  function Unlucky(values: seq<nat>): seq<Op> {
    var fine := Attempt(Accepted, false);
    var late := Look(GUARD, GUARD, Stored, fine);
    [Requests(Request(0, Some(values), true, true), World(true, fine, Stored, Accepted, 0)),
     Checks(false, [late, late]),
     Requests(Request(0, Some(values), true, true), World(true, fine, Unwritten, Lost, GUARD))]
  }

  lemma FallbackCanBeLocked(values: seq<nat>)
    requires ValuesValid(0, values)
    ensures var s := Boot([None, None], [None, None], 0, true);
      && Sized(s) && LegalRun(s, Unlucky(values))
      && Outcome(s, Unlucky(values)).runtime[0].phase.Fallback?
      && Outcome(s, Unlucky(values)).accepted[0] == Some(values)
  {
    hide ValuesValid;
    var ops := Unlucky(values);
    var s0 := Boot([None, None], [None, None], 0, true);
    var rule := Rule(values, true, true);
    var idle := Runtime(Unset, None, false);
    var s1 := State([Some(rule), None], true, [Runtime(Persistent, Some(GUARD), true), idle], [Some(rule), None],
                    [Some(values), None], [false, false], 0);
    assert Legal(s0, ops[0]) && Step(s0, ops[0]) == s1;
    var off := rule.(enabled := false);
    var s2 := State([Some(off), None], true, [Runtime(Fallback, None, true), idle], [Some(off), None],
                    [None, None], [false, false], GUARD);
    CheckTwo(s1, false, ops[1].looks);
    assert Legal(s1, ops[1]) && Step(s1, ops[1]) == s2 by {
      assert Disabled(s1.rules, 0) == s2.rules;
      assert CheckRadio(s1, 0, false, ops[1].looks[0]) == s2;
    }
    var s3 := s2.(accepted := [Some(values), None], slipped := [true, false]);
    assert Legal(s2, ops[2]) && Step(s2, ops[2]) == s3;
    hide Step, Legal;
    assert ops[1..][0] == ops[1] && ops[1..][1..] == ops[2..] && ops[2..][0] == ops[2] && ops[2..][1..] == [];
    assert LegalRun(s3, []) && Outcome(s3, []) == s3;
    assert LegalRun(s2, ops[2..]) && Outcome(s2, ops[2..]) == s3;
    assert LegalRun(s1, ops[1..]) && Outcome(s1, ops[1..]) == s3;
  }
}
