/**
 Cell locks: a lock can be kept over restarts and can fall back to no lock when the modem does not connect
 in time. Instants are in nanoseconds of the monotonic clock.
 */
module CellLock {
  import opened Common
  import opened CellRules
  import opened Modem
  import opened Store

  const SECOND: int := 1_000_000_000
  const GUARD: int := 180 * SECOND
  const SETTLE: int := 15 * SECOND

  datatype Rule = Rule(values: seq<nat>, autoUnlock: bool, enabled: bool)

  datatype Phase = Unset | Unlocked | Temporary | Persistent | Connected | Fallback | FallbackError

  datatype Runtime = Runtime(phase: Phase, deadline: Option<int>, touched: bool)

  /**
   One entry per radio. `disk` is what a restart would read, `accepted` the last lock the modem acknowledged
   (none when unlocked); `slipped` says that an unsaved lock was not taken back; `clock` is the last
   instant read. These four only the proofs read.
   */
  datatype State = State(rules: seq<Option<Rule>>, stored: bool, runtime: seq<Runtime>, disk: seq<Option<Rule>>,
                         accepted: seq<Option<seq<nat>>>, slipped: seq<bool>, clock: int)

  predicate Sized(s: State) {
    |s.rules| == |s.runtime| == |s.disk| == |s.accepted| == |s.slipped| == RADIOS
  }

  /** A command's answer, and whether a query after a refused unlock shows no lock. */
  datatype Attempt = Attempt(answer: Answer, clear: bool)

  predicate Done(unlock: bool, a: Attempt) {
    a.answer.Accepted? || (unlock && a.answer.Refused? && a.clear)
  }

  /** The values to lock to, or none to unlock. */
  datatype Request = Request(radio: nat, values: Option<seq<nat>>, persistent: bool, auto: bool)

  /** What the world does to a request: the carrier's bands, the modem, the file, the modem again. */
  datatype World = World(allowed: bool, run: Attempt, write: Written, back: Answer, now: int)

  predicate Settled(s: State, rules: seq<Option<Rule>>) {
    s.stored && s.rules == rules
  }

  function Save(s: State, rules: seq<Option<Rule>>, w: Written): (t: State)
    ensures Sized(s) && |rules| == RADIOS ==> Sized(t)
  {
    if Settled(s, rules) || w.Unwritten? then s else s.(rules := rules, stored := true, disk := rules)
  }

  function Acknowledge(s: State, radio: nat, values: Option<seq<nat>>): (t: State)
    requires Sized(s) && radio < RADIOS
    ensures Sized(t)
  {
    s.(accepted := s.accepted[radio := values], slipped := s.slipped[radio := false])
  }

  function Enabled(rule: Option<Rule>): Option<Rule> {
    if rule.Some? && rule.value.enabled then rule else None
  }

  function Values(rule: Option<Rule>): Option<seq<nat>> {
    match rule
    case Some(r) => Some(r.values)
    case None => None
  }

  /** The lock could not be saved: the one saved before is sent again, or the unlock. Its answer is not looked at. */
  function RollBack(s: State, radio: nat, locked: bool, answer: Answer): (t: State)
    requires Sized(s) && radio < RADIOS
    ensures Sized(t)
  {
    var back := Values(Enabled(s.rules[radio]));
    if answer.Accepted? && (back.None? || ValuesValid(radio, back.value)) then Acknowledge(s, radio, back)
    else s.(slipped := s.slipped[radio := locked])
  }

  function Run(s: State, radio: nat, r: Runtime): (t: State)
    requires Sized(s) && radio < RADIOS
    ensures Sized(t)
  {
    s.(runtime := s.runtime[radio := r])
  }

  /** The request is refused before anything is sent. */
  predicate Rejected(q: Request, w: World) {
    q.values.Some? && (!ValuesValid(q.radio, q.values.value) || (q.radio == 1 && !w.allowed))
  }

  function Remembered(q: Request): Option<Rule> {
    if q.values.Some? && q.persistent then Some(Rule(q.values.value, q.auto, true)) else None
  }

  function Begun(q: Request, now: int): Runtime {
    Runtime(if q.values.None? then Unlocked else if q.persistent then Persistent else Temporary,
            if q.values.Some? && q.persistent && q.auto then Some(now + GUARD) else None, true)
  }

  function Apply(s: State, q: Request, w: World): (t: State)
    requires Sized(s) && q.radio < RADIOS
    ensures Sized(t)
  {
    if Rejected(q, w) || !Done(q.values.None?, w.run) then s
    else
      var s1 := Acknowledge(s, q.radio, q.values);
      var next := s.rules[q.radio := Remembered(q)];
      if !Settled(s, next) && w.write.Unwritten? then RollBack(s1, q.radio, q.values.Some?, w.back)
      else Run(Save(s1, next, w.write), q.radio, Begun(q, w.now)).(clock := w.now)
  }

  /** The answer to a lock sent again at start, and when it came. */
  datatype Resend = Resend(answer: Answer, now: int)

  /** At start: a saved lock is sent again, unless the user has changed this radio already. */
  function RestoreRadio(s: State, radio: nat, resend: Resend): (t: State)
    requires Sized(s) && radio < RADIOS
    ensures Sized(t)
  {
    var rule := Enabled(s.rules[radio]);
    if s.runtime[radio].touched || rule.None? then s
    else
      var values := rule.value.values;
      var sent := ValuesValid(radio, values) && resend.answer.Accepted?;
      var s1 := if sent then Acknowledge(s, radio, Some(values)) else s;
      var deadline := if rule.value.autoUnlock then Some(resend.now + GUARD) else None;
      Run(s1, radio, Runtime(Persistent, deadline, true)).(clock := resend.now)
  }

  function Disabled(rules: seq<Option<Rule>>, radio: nat): seq<Option<Rule>>
    requires |rules| == RADIOS && radio < RADIOS
  {
    match rules[radio]
    case Some(rule) => rules[radio := Some(rule.(enabled := false))]
    case None => rules
  }

  /** What the world does in one look at one radio: two readings of the clock, the file, the modem. */
  datatype Look = Look(now: int, later: int, write: Written, run: Attempt)

  /** Whether the file is known to hold the rule as disabled; a write that was not synced does not count. */
  predicate Disables(s: State, radio: nat, look: Look)
    requires Sized(s) && radio < RADIOS
  {
    Settled(s, Disabled(s.rules, radio)) || look.write.Stored?
  }

  /** First the lock is kept from coming back after a restart, then it is removed. */
  function FallBack(s: State, radio: nat, look: Look): (t: State)
    requires Sized(s) && radio < RADIOS
    ensures Sized(t)
  {
    var s1 := Save(s, Disabled(s.rules, radio), look.write);
    var unlocked := Done(true, look.run);
    var s2 := if unlocked then Acknowledge(s1, radio, None) else s1;
    var r := s.runtime[radio];
    Run(s2, radio, if Disables(s, radio, look) && unlocked then r.(phase := Fallback, deadline := None)
                   else r.(phase := FallbackError))
  }

  function CheckRadio(s: State, radio: nat, connected: bool, look: Look): (t: State)
    requires Sized(s) && radio < RADIOS
    ensures Sized(t)
  {
    var r := s.runtime[radio];
    match r.deadline
    case None => s
    case Some(d) =>
      if connected && !r.phase.FallbackError? && look.now + GUARD - SETTLE >= d then
        Run(s, radio, r.(deadline := None, phase := Connected)).(clock := look.now)
      else if look.later >= d then FallBack(s, radio, look).(clock := look.later)
      else s.(clock := look.later)
  }

  function RestoreFrom(s: State, radio: nat, resends: seq<Resend>): (t: State)
    requires Sized(s) && radio <= RADIOS == |resends|
    decreases RADIOS - radio
    ensures Sized(t)
  {
    if radio == RADIOS then s else RestoreFrom(RestoreRadio(s, radio, resends[radio]), radio + 1, resends)
  }

  function CheckFrom(s: State, radio: nat, connected: bool, looks: seq<Look>): (t: State)
    requires Sized(s) && radio <= RADIOS == |looks|
    decreases RADIOS - radio
    ensures Sized(t)
  {
    if radio == RADIOS then s else CheckFrom(CheckRadio(s, radio, connected, looks[radio]), radio + 1, connected, looks)
  }

  function Check(s: State, connected: bool, looks: seq<Look>): (t: State)
    requires Sized(s) && |looks| == RADIOS
    ensures Sized(t)
  {
    if s.runtime[0].deadline.None? && s.runtime[1].deadline.None? then s else CheckFrom(s, 0, connected, looks)
  }

  predicate AllValid(rules: seq<Option<Rule>>) {
    |rules| == RADIOS && forall i :: 0 <= i < RADIOS && rules[i].Some? ==> ValuesValid(i, rules[i].value.values)
  }

  /**
   A new process: a file that does not hold valid rules counts as empty, and is rewritten by the next change.
   `readable` is false when it is too large, cannot be read, or does not hold rules at all.
   */
  function Restart(s: State, now: int, readable: bool): (t: State)
    ensures Sized(s) ==> Sized(t)
  {
    var ok := readable && AllValid(s.disk);
    var none := Runtime(Unset, None, false);
    s.(rules := if ok then s.disk else [None, None], stored := ok, runtime := [none, none], clock := now)
  }

  class CellLock {
    var rules: seq<Option<Rule>>
    var stored: bool
    var runtime: seq<Runtime>
    ghost var disk: seq<Option<Rule>>
    ghost var accepted: seq<Option<seq<nat>>>
    ghost var slipped: seq<bool>
    ghost var clock: int

    ghost function Model(): State
      reads this
    {
      State(rules, stored, runtime, disk, accepted, slipped, clock)
    }

    constructor (loaded: Option<seq<Option<Rule>>>, ghost before: State, now: int)
      requires loaded.Some? ==> loaded.value == before.disk
      ensures Model() == Restart(before, now, loaded.Some?)
    {
      var ok := loaded.Some? && AllValid(loaded.value);
      rules := if ok then loaded.value else [None, None];
      stored := ok;
      var none := Runtime(Unset, None, false);
      runtime := [none, none];
      disk := before.disk;
      accepted := before.accepted;
      slipped := before.slipped;
      clock := now;
    }

    method Persist(next: seq<Option<Rule>>, w: Written) returns (outcome: Written)
      requires Sized(Model())
      modifies this
      ensures Model() == Save(old(Model()), next, w)
      ensures outcome == if old(Settled(Model(), next)) then Stored else w
    {
      if stored && rules == next {
        return Stored;
      }
      if !w.Unwritten? {
        rules := next;
        stored := true;
        disk := next;
      }
      outcome := w;
    }

    /** A request of the user, with what the world did. */
    method Request(q: Request, w: World)
      requires Sized(Model()) && q.radio < RADIOS
      modifies this
      ensures Model() == Apply(old(Model()), q, w)
    {
      hide ValuesValid;
      if q.values.Some? && (!ValuesValid(q.radio, q.values.value) || (q.radio == 1 && !w.allowed)) {
        return;
      }
      var previous := rules;
      if !Done(q.values.None?, w.run) {
        return;
      }
      accepted := accepted[q.radio := q.values];
      slipped := slipped[q.radio := false];
      var outcome := Persist(previous[q.radio := Remembered(q)], w.write);
      if outcome.Unwritten? {
        var back := Values(Enabled(previous[q.radio]));
        if w.back.Accepted? && (back.None? || ValuesValid(q.radio, back.value)) {
          accepted := accepted[q.radio := back];
          slipped := slipped[q.radio := false];
        } else {
          slipped := slipped[q.radio := q.values.Some?];
        }
      } else {
        runtime := runtime[q.radio := Begun(q, w.now)];
        clock := w.now;
      }
    }

    /** The loop at start over the radios. */
    method RestoreAll(resends: seq<Resend>)
      requires Sized(Model()) && |resends| == RADIOS
      modifies this
      ensures Model() == RestoreFrom(old(Model()), 0, resends)
    {
      hide ValuesValid;
      for radio := 0 to RADIOS
        invariant Sized(Model())
        invariant RestoreFrom(Model(), radio, resends) == RestoreFrom(old(Model()), 0, resends)
      {
        ghost var before := Model();
        var rule := Enabled(rules[radio]);
        if !runtime[radio].touched && rule.Some? {
          if ValuesValid(radio, rule.value.values) && resends[radio].answer.Accepted? {
            accepted := accepted[radio := Some(rule.value.values)];
            slipped := slipped[radio := false];
          }
          var deadline := if rule.value.autoUnlock then Some(resends[radio].now + GUARD) else None;
          runtime := runtime[radio := Runtime(Persistent, deadline, true)];
          clock := resends[radio].now;
        }
        assert Model() == RestoreRadio(before, radio, resends[radio]);
      }
    }

    /** The loop of the check, which runs every few seconds while a deadline is set. */
    method CheckAll(connected: bool, looks: seq<Look>)
      requires Sized(Model()) && |looks| == RADIOS
      modifies this
      ensures Model() == Check(old(Model()), connected, looks)
    {
      if runtime[0].deadline.None? && runtime[1].deadline.None? {
        return;
      }
      for radio := 0 to RADIOS
        invariant Sized(Model())
        invariant CheckFrom(Model(), radio, connected, looks) == CheckFrom(old(Model()), 0, connected, looks)
      {
        CheckOne(radio, connected, looks[radio]);
      }
    }

    method CheckOne(radio: nat, connected: bool, look: Look)
      requires Sized(Model()) && radio < RADIOS
      modifies this
      ensures Model() == CheckRadio(old(Model()), radio, connected, look) && Sized(Model())
    {
      var r := runtime[radio];
      if r.deadline.None? {
        return;
      }
      if connected && !r.phase.FallbackError? && look.now + GUARD - SETTLE >= r.deadline.value {
        runtime := runtime[radio := r.(deadline := None, phase := Connected)];
        clock := look.now;
        return;
      }
      clock := look.later;
      if look.later >= r.deadline.value {
        var saved := Persist(Disabled(rules, radio), look.write);
        var unlocked := Done(true, look.run);
        if unlocked {
          accepted := accepted[radio := None];
          slipped := slipped[radio := false];
        }
        if saved.Stored? && unlocked {
          runtime := runtime[radio := r.(phase := Fallback, deadline := None)];
        } else {
          runtime := runtime[radio := r.(phase := FallbackError)];
        }
      }
    }
  }
}
