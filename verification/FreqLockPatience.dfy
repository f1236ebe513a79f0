/**
 When a frequency lock is taken back: only after five checks that found no service, and never after one that
 did. A guard is known by the generation that its lock started.
 */
module FreqLockPatience {
  import opened Common
  import opened FreqLock
  import opened FreqLockRun
  import opened Modem
  import opened Store

  /** What the guard of this generation has seen in this stage, in order. */
  function Seen(checks: seq<Check>, generation: nat, stage: Stage): seq<bool> {
    if checks == [] then []
    else
      var rest, last := Seen(checks[..|checks| - 1], generation, stage), checks[|checks| - 1];
      if last.generation == generation && last.stage == stage then rest + [last.serving] else rest
  }

  /** This many checks, of which none found service. */
  function Unserved(n: nat): seq<bool> {
    seq(n, _ => false)
  }

  lemma SeenSnoc(checks: seq<Check>, last: Check, generation: nat, stage: Stage)
    ensures Seen(checks + [last], generation, stage) == Seen(checks, generation, stage)
      + (if last.generation == generation && last.stage == stage then [last.serving] else [])
  {
    assert (checks + [last])[..|checks|] == checks;
  }

  lemma UnservedSnoc(n: nat)
    ensures Unserved(n) + [false] == Unserved(n + 1)
  {
  }

  /** A guard that counts has counted as many unserved checks as it says; one that gave up has counted five. */
  predicate Counts(checks: seq<Check>, t: Task) {
    if !Watches(t) then true
    else
      var first := Seen(checks, t.watch.generation, First);
      var second := Seen(checks, t.watch.generation, Second);
      match t
      case Confirms(w, stage, left, _) =>
        && 1 <= left <= 5
        && (if stage.First? then !w.restored && first == Unserved(5 - left) && second == []
            else w.restored && first == Unserved(5) && second == Unserved(5 - left))
      case RevertWaits(w, stage) =>
        first == Unserved(5) && w.restored == stage.Second? && second == (if stage.First? then [] else Unserved(5))
      case RevertSent(w, stage) =>
        first == Unserved(5) && w.restored == stage.Second? && second == (if stage.First? then [] else Unserved(5))
      case RevertAsked(w, stage) =>
        first == Unserved(5) && w.restored == stage.Second? && second == (if stage.First? then [] else Unserved(5))
      case _ => first == Unserved(5)
  }

  /** Its sender had seen no service in five checks of its lock, and for a second command in five more. */
  predicate Patient(checks: seq<Check>, c: Command) {
    c.sender.Some? ==>
      && c.before <= |checks|
      && Seen(checks[..c.before], c.sender.value.generation, First) == Unserved(5)
      && Seen(checks[..c.before], c.sender.value.generation, Second)
        == (if c.sender.value.restored then Unserved(5) else [])
  }

  predicate PatientEnd(checks: seq<Check>, o: FreqLockRun.Outcome) {
    o.before <= |checks| && Seen(checks[..o.before], o.watch.generation, First) == Unserved(5)
  }

  /** Every lock has its own generation, and no check is of a generation still to come. */
  predicate Apart(s: State) {
    && (forall i :: 0 <= i < |s.checks| ==> s.checks[i].generation <= s.core.generation)
    && (forall i, k :: 0 <= i < k < |s.tasks| && Watches(s.tasks[i]) && Watches(s.tasks[k]) ==>
      s.tasks[i].watch.generation != s.tasks[k].watch.generation)
  }

  predicate Inv(s: State) {
    && FreqLockRun.Live(s) && Apart(s)
    && (forall k :: 0 <= k < |s.tasks| ==> Counts(s.checks, s.tasks[k]))
    && (forall c :: c in s.sent ==> Patient(s.checks, c))
    && (forall o :: o in s.outcomes ==> PatientEnd(s.checks, o))
  }

  // ----- Each step

  /** One task moves on, keeping its guard or its count, and a guard may start. */
  predicate Moves(s: State, t: State, k: nat) {
    && k < |s.tasks| <= |t.tasks| <= |s.tasks| + 1 && t.core.generation >= s.core.generation
    && t.checks == s.checks
    && (forall i :: 0 <= i < |s.tasks| && i != k ==> t.tasks[i] == s.tasks[i])
    && (Watches(t.tasks[k]) ==>
      Watches(s.tasks[k]) && t.tasks[k].watch.generation == s.tasks[k].watch.generation)
    && Counts(s.checks, t.tasks[k])
    && (|t.tasks| > |s.tasks| ==>
      Starts(t.tasks[|s.tasks|], t.core.generation) && t.core.generation > s.core.generation)
  }

  /** A guard that has not seen anything yet. */
  predicate Starts(t: Task, generation: nat) {
    t.Confirms? && t.stage.First? && t.left == 5 && t.watch.generation == generation && !t.watch.restored
  }

  /** The logs grow by at most one patient command and one patient end. */
  predicate Logs(s: State, t: State) {
    && (forall c :: c in t.sent ==> c in s.sent || Patient(s.checks, c))
    && (forall o :: o in t.outcomes ==> o in s.outcomes || PatientEnd(s.checks, o))
  }

  lemma {:induction false} SeenNone(checks: seq<Check>, generation: nat, stage: Stage)
    requires forall i :: 0 <= i < |checks| ==> checks[i].generation != generation
    ensures Seen(checks, generation, stage) == []
  {
    if checks != [] {
      SeenNone(checks[..|checks| - 1], generation, stage);
    }
  }

  lemma MovesKeepsApart(s: State, t: State, k: nat)
    requires Inv(s) && Moves(s, t, k)
    ensures Apart(t)
  {
    assert forall i :: 0 <= i < |s.tasks| ==> TaskInv(s, i);
    hide Counts, TaskInv;
    forall i, j | 0 <= i < j < |t.tasks| && Watches(t.tasks[i]) && Watches(t.tasks[j])
      ensures t.tasks[i].watch.generation != t.tasks[j].watch.generation
    {
      if j == |s.tasks| {
        GenerationIsOld(s, i);
      }
    }
  }

  lemma GenerationIsOld(s: State, i: nat)
    requires i < |s.tasks| && TaskInv(s, i) && Watches(s.tasks[i])
    ensures s.tasks[i].watch.generation <= s.core.generation
  {
  }

  lemma MovesKeepsInv(s: State, t: State, k: nat)
    requires Inv(s) && Moves(s, t, k) && Logs(s, t) && FreqLockRun.Live(t)
    ensures Inv(t)
  {
    MovesKeepsApart(s, t, k);
    hide FreqLockRun.Live;
    if |t.tasks| > |s.tasks| {
      SeenNone(s.checks, t.core.generation, First);
      SeenNone(s.checks, t.core.generation, Second);
      assert Unserved(0) == [];
      assert Counts(t.checks, t.tasks[|s.tasks|]);
    }
    hide Counts, Patient, PatientEnd, Apart;
  }

  lemma AcquireMovesLockWaits(s: State, k: nat)
    requires Inv(s) && Legal(s, Acquires(k)) && s.tasks[k].LockWaits?
    ensures Moves(s, Acquire(s, k), k) && Logs(s, Acquire(s, k))
  {
    assert Counts(s.checks, s.tasks[k]);
    assert s.checks[..|s.checks|] == s.checks;
    hide FreqLockRun.Live, Apart, Seen, Unserved, Settled, Ended, Persist, PatientEnd;
  }

  lemma AcquireMovesUnlockWaits(s: State, k: nat)
    requires Inv(s) && Legal(s, Acquires(k)) && s.tasks[k].UnlockWaits?
    ensures Moves(s, Acquire(s, k), k) && Logs(s, Acquire(s, k))
  {
    assert Counts(s.checks, s.tasks[k]);
    assert s.checks[..|s.checks|] == s.checks;
    hide FreqLockRun.Live, Apart, Seen, Unserved, Settled, Ended, Persist, PatientEnd;
  }

  lemma AcquireMovesRevertWaits(s: State, k: nat)
    requires Inv(s) && Legal(s, Acquires(k)) && s.tasks[k].RevertWaits?
    ensures Moves(s, Acquire(s, k), k) && Logs(s, Acquire(s, k))
  {
    assert Counts(s.checks, s.tasks[k]);
    assert s.checks[..|s.checks|] == s.checks;
    hide Inv, FreqLockRun.Live, Apart, Seen, Unserved, Settled, Ended, Persist;
  }

  lemma FinishGuardLogs(s: State, k: nat, w: Watch, saved: bool)
    requires k < |s.tasks|
    ensures var t := FinishGuard(s, k, w, saved);
      && t.tasks == s.tasks[k := Over] && t.checks == s.checks && t.sent == s.sent
      && t.core.generation == s.core.generation && |t.outcomes| == |s.outcomes| + 1
      && t.outcomes == s.outcomes + [t.outcomes[|s.outcomes|]]
      && t.outcomes[|s.outcomes|].watch == w && t.outcomes[|s.outcomes|].before == |s.checks|
  {
  }

  lemma AcquireMovesSaveWaits(s: State, k: nat)
    requires Inv(s) && Legal(s, Acquires(k)) && s.tasks[k].SaveWaits?
    ensures Moves(s, Acquire(s, k), k) && Logs(s, Acquire(s, k))
  {
    assert Counts(s.checks, s.tasks[k]);
    assert s.checks[..|s.checks|] == s.checks;
    FinishGuardLogs(s, k, s.tasks[k].watch, true);
    hide Inv, FreqLockRun.Live, Apart, Seen, Unserved, Settled, FinishGuard;
  }

  lemma AcquireMoves(s: State, k: nat)
    requires Inv(s) && Legal(s, Acquires(k))
    ensures Moves(s, Acquire(s, k), k) && Logs(s, Acquire(s, k))
  {
    hide Inv, Moves, Logs, Acquire;
    match s.tasks[k]
    case LockWaits(_) => AcquireMovesLockWaits(s, k);
    case UnlockWaits => AcquireMovesUnlockWaits(s, k);
    case RevertWaits(_, _) => AcquireMovesRevertWaits(s, k);
    case SaveWaits(_) => AcquireMovesSaveWaits(s, k);
  }

  lemma AnswerMovesLockSent(s: State, k: nat, answer: Answer, effect: bool)
    requires Inv(s) && Legal(s, Answers(k, answer, effect)) && s.tasks[k].LockSent?
    ensures Moves(s, Answered(s, k, answer, effect), k)
  {
    assert Counts(s.checks, s.tasks[k]);
    assert Unserved(0) == [];
    EffectKeeps(s, Target(s.tasks[k]), answer, effect);
    hide FreqLockRun.Live, Apart, Seen, Unserved, Settled, Ended, Effect;
  }

  lemma AnswerMovesUnlockSent(s: State, k: nat, answer: Answer, effect: bool)
    requires Inv(s) && Legal(s, Answers(k, answer, effect)) && s.tasks[k].UnlockSent?
    ensures Moves(s, Answered(s, k, answer, effect), k)
  {
    assert Counts(s.checks, s.tasks[k]);
    assert Unserved(0) == [];
    EffectKeeps(s, Target(s.tasks[k]), answer, effect);
    hide FreqLockRun.Live, Apart, Seen, Unserved, Settled, Ended, Effect;
  }

  lemma AnswerMovesRevertSent(s: State, k: nat, answer: Answer, effect: bool)
    requires Inv(s) && Legal(s, Answers(k, answer, effect)) && s.tasks[k].RevertSent?
    ensures Moves(s, Answered(s, k, answer, effect), k)
  {
    assert Counts(s.checks, s.tasks[k]);
    assert Unserved(0) == [];
    EffectKeeps(s, Target(s.tasks[k]), answer, effect);
    hide FreqLockRun.Live, Apart, Seen, Unserved, Settled, Ended, Effect;
  }

  lemma AnswerMoves(s: State, k: nat, answer: Answer, effect: bool)
    requires Inv(s) && Legal(s, Answers(k, answer, effect))
    ensures Moves(s, Answered(s, k, answer, effect), k)
  {
    hide Inv, Moves, Logs, Answered;
    match s.tasks[k]
    case LockSent(_) => AnswerMovesLockSent(s, k, answer, effect);
    case UnlockSent => AnswerMovesUnlockSent(s, k, answer, effect);
    case RevertSent(_, _) => AnswerMovesRevertSent(s, k, answer, effect);
  }

  lemma EffectKeeps(s: State, entries: seq<Entry>, answer: Answer, effect: bool)
    ensures var t := Effect(s, entries, answer, effect);
      t == s.(modem := t.modem, accepted := t.accepted, quiet := t.quiet)
  {
  }

  lemma ReportMoves(s: State, k: nat, lock: Option<seq<Entry>>)
    requires Inv(s) && Legal(s, Reports(k, lock))
    ensures Moves(s, Reported(s, k, lock), k)
  {
    assert Counts(s.checks, s.tasks[k]);
    assert Unserved(0) == [];
    assert s.tasks[k].RevertAsked? ==> TaskInv(s, k);
    hide FreqLockRun.Live, Apart, Seen, Unserved, Settled, Ended;
  }

  lemma WriteMovesLockSaves(s: State, k: nat, w: Written)
    requires Inv(s) && Legal(s, Wrote(k, w)) && s.tasks[k].LockSaves?
    ensures Moves(s, WriteEnds(s, k, w), k) && Logs(s, WriteEnds(s, k, w))
  {
    assert Counts(s.checks, s.tasks[k]);
    assert s.checks[..|s.checks|] == s.checks;
    hide FreqLockRun.Live, Apart, Seen, Unserved, Settled, Ended, Persist, Patient, PatientEnd;
  }

  lemma WriteMovesUnlockSaves(s: State, k: nat, w: Written)
    requires Inv(s) && Legal(s, Wrote(k, w)) && s.tasks[k].UnlockSaves?
    ensures Moves(s, WriteEnds(s, k, w), k) && Logs(s, WriteEnds(s, k, w))
  {
    assert Counts(s.checks, s.tasks[k]);
    assert s.checks[..|s.checks|] == s.checks;
    hide FreqLockRun.Live, Apart, Seen, Unserved, Settled, Ended, Persist, Patient, PatientEnd;
  }

  lemma WriteMovesSaves(s: State, k: nat, w: Written)
    requires Inv(s) && Legal(s, Wrote(k, w)) && s.tasks[k].Saves?
    ensures Moves(s, WriteEnds(s, k, w), k) && Logs(s, WriteEnds(s, k, w))
  {
    assert Counts(s.checks, s.tasks[k]);
    assert s.checks[..|s.checks|] == s.checks;
    hide Inv, FreqLockRun.Live, Apart, Seen, Unserved, Settled, Ended, Persist;
  }

  lemma WriteMoves(s: State, k: nat, w: Written)
    requires Inv(s) && Legal(s, Wrote(k, w))
    ensures Moves(s, WriteEnds(s, k, w), k) && Logs(s, WriteEnds(s, k, w))
  {
    hide Inv, Moves, Logs, WriteEnds;
    match s.tasks[k]
    case LockSaves(_, _) => WriteMovesLockSaves(s, k, w);
    case UnlockSaves => WriteMovesUnlockSaves(s, k, w);
    case Saves(_) => WriteMovesSaves(s, k, w);
  }

  lemma LookMoves(s: State, k: nat)
    requires Inv(s) && Legal(s, Looks(k))
    ensures Moves(s, Look(s, k), k)
  {
    assert Counts(s.checks, s.tasks[k]);
    hide FreqLockRun.Live, Apart, Seen, Unserved;
  }

  /** One more unserved check: the guard counts it, or has counted enough. */
  lemma UnservedCounts(checks: seq<Check>, t: Task)
    requires t.Confirms? && Counts(checks, t)
    ensures var more := checks + [Check(t.watch.generation, t.stage, false)];
      && (t.left > 1 ==> Counts(more, t.(left := t.left - 1, asked := false)))
      && (t.left == 1 ==> Counts(more, RevertWaits(t.watch, t.stage)))
  {
    var last := Check(t.watch.generation, t.stage, false);
    SeenSnoc(checks, last, t.watch.generation, First);
    SeenSnoc(checks, last, t.watch.generation, Second);
    UnservedSnoc(5 - t.left);
    assert Unserved(0) == [];
    hide Seen, Unserved;
  }

  /** A check that finds service ends the guard, or the previous lock's confirmation. */
  lemma ServedCounts(checks: seq<Check>, t: Task)
    requires t.Confirms? && t.stage.Second? && Counts(checks, t)
    ensures Counts(checks + [Check(t.watch.generation, t.stage, true)], SaveWaits(t.watch))
  {
    SeenSnoc(checks, Check(t.watch.generation, t.stage, true), t.watch.generation, First);
    hide Seen, Unserved;
  }

  /** A check is counted by its own guard. */
  lemma SeeCounts(s: State, k: nat, serving: bool)
    requires Legal(s, Sees(k, serving)) && Counts(s.checks, s.tasks[k])
    ensures var t := See(s, k, serving); k < |t.tasks| && Counts(t.checks, t.tasks[k])
  {
    var task := s.tasks[k];
    if !serving {
      UnservedCounts(s.checks, task);
      assert task.left >= 1;
    } else if task.stage.Second? {
      ServedCounts(s.checks, task);
    }
    hide Seen, Unserved, Confirmed;
  }

  /** And by no other. */
  lemma OthersCount(checks: seq<Check>, last: Check, t: Task)
    requires Counts(checks, t) && (Watches(t) ==> t.watch.generation != last.generation)
    ensures Counts(checks + [last], t)
  {
    if Watches(t) {
      SeenSnoc(checks, last, t.watch.generation, First);
      SeenSnoc(checks, last, t.watch.generation, Second);
      hide Seen, Unserved;
    }
  }

  lemma SeeKeepsCounts(s: State, k: nat, serving: bool)
    requires Inv(s) && Legal(s, Sees(k, serving))
    ensures var t := See(s, k, serving); forall i :: 0 <= i < |t.tasks| ==> Counts(t.checks, t.tasks[i])
  {
    var t, last := See(s, k, serving), Check(s.tasks[k].watch.generation, s.tasks[k].stage, serving);
    SeeCounts(s, k, serving);
    hide FreqLockRun.Live, Counts, Confirmed;
    forall i | 0 <= i < |t.tasks| && i != k
      ensures Counts(t.checks, t.tasks[i])
    {
      OthersCount(s.checks, last, s.tasks[i]);
    }
  }

  lemma SeeKeepsLogs(s: State, k: nat, serving: bool)
    requires Inv(s) && Legal(s, Sees(k, serving))
    ensures var t := See(s, k, serving);
      && (forall c :: c in t.sent ==> Patient(t.checks, c))
      && (forall o :: o in t.outcomes ==> PatientEnd(t.checks, o))
  {
    hide FreqLockRun.Live, Seen, Counts, Confirmed, Apart;
    var t := See(s, k, serving);
    assert forall n :: 0 <= n <= |s.checks| ==> t.checks[..n] == s.checks[..n];
    assert forall c :: c in t.sent ==> Patient(s.checks, c);
    assert forall o :: o in t.outcomes ==> PatientEnd(s.checks, o);
  }

  lemma SeeKeepsApart(s: State, k: nat, serving: bool)
    requires Legal(s, Sees(k, serving)) && Apart(s) && s.tasks[k].watch.generation <= s.core.generation
    ensures Apart(See(s, k, serving))
  {
    var t := See(s, k, serving);
    assert |t.tasks| == |s.tasks| && forall i :: 0 <= i < |s.tasks| && i != k ==> t.tasks[i] == s.tasks[i];
    assert Watches(t.tasks[k]) ==> t.tasks[k].watch.generation == s.tasks[k].watch.generation;
    assert t.core.generation == s.core.generation;
    var last := Check(s.tasks[k].watch.generation, s.tasks[k].stage, serving);
    assert t.checks == s.checks + [last];
    hide See;
  }

  lemma SeeKeepsInv(s: State, k: nat, serving: bool)
    requires Inv(s) && Legal(s, Sees(k, serving)) && FreqLockRun.Live(See(s, k, serving))
    ensures Inv(See(s, k, serving))
  {
    SeeKeepsCounts(s, k, serving);
    SeeKeepsLogs(s, k, serving);
    assert TaskInv(s, k);
    SeeKeepsApart(s, k, serving);
    hide FreqLockRun.Live, See, Counts, Apart, Patient, PatientEnd;
  }

  lemma StepKeepsInv(s: State, op: Op)
    requires Inv(s) && Legal(s, op)
    ensures Inv(Step(s, op))
  {
    FreqLockRun.StepKeepsLive(s, op);
    var t := Step(s, op);
    match op
    case CallsLock(call) => hide FreqLockRun.Live, Patient, PatientEnd, Seen;
    case CallsUnlock => hide FreqLockRun.Live, Patient, PatientEnd, Seen;
    case Acquires(k) =>
      AcquireMoves(s, k);
      hide Inv, Moves, Logs, Acquire;
      MovesKeepsInv(s, t, k);
    case Answers(k, answer, effect) =>
      AnswerMoves(s, k, answer, effect);
      FreqLockRun.LogsStay(s, op);
      hide Inv, Moves, Answered;
      MovesKeepsInv(s, t, k);
    case Reports(k, lock) =>
      ReportMoves(s, k, lock);
      FreqLockRun.LogsStay(s, op);
      hide Inv, Moves, Reported;
      MovesKeepsInv(s, t, k);
    case Wrote(k, w) =>
      WriteMoves(s, k, w);
      hide Inv, Moves, Logs, WriteEnds;
      MovesKeepsInv(s, t, k);
    case Looks(k) =>
      LookMoves(s, k);
      FreqLockRun.LogsStay(s, op);
      hide Inv, Moves, Look;
      MovesKeepsInv(s, t, k);
    case Sees(k, serving) =>
      hide Inv, See;
      SeeKeepsInv(s, k, serving);
  }

  lemma {:induction false} RunKeepsInv(s: State, ops: seq<Op>)
    requires Inv(s) && LegalRun(s, ops)
    ensures Inv(Run(s, ops))
    decreases |ops|
  {
    hide Inv, Step;
    if ops != [] {
      StepKeepsInv(s, ops[0]);
      RunKeepsInv(Step(s, ops[0]), ops[1..]);
    }
  }

  /**
   Over every interleaving: whatever a guard sends to take its lock back, it had looked five times since the
   lock and found no service, not once more and not once less; and before it removes the previous lock too, it
   had looked five times for that one as well. No guard that ended with a revert had seen service before.
   */
  lemma OnlyUnservedLocksAreTakenBack(file: seq<Entry>, load: Load, modem: seq<Entry>, ops: seq<Op>)
    requires LegalRun(Boot(file, load, modem), ops)
    ensures var s := Run(Boot(file, load, modem), ops);
      && (forall c :: c in s.sent && c.sender.Some? ==>
        && c.before <= |s.checks|
        && Seen(s.checks[..c.before], c.sender.value.generation, First) == [false, false, false, false, false]
        && Seen(s.checks[..c.before], c.sender.value.generation, Second)
          == (if c.sender.value.restored then [false, false, false, false, false] else []))
      && (forall o :: o in s.outcomes ==>
        && o.before <= |s.checks|
        && Seen(s.checks[..o.before], o.watch.generation, First) == [false, false, false, false, false])
  {
    hide LegalRun, Run;
    var s := Run(Boot(file, load, modem), ops);
    RunKeepsInv(Boot(file, load, modem), ops);
    assert Unserved(5) == [false, false, false, false, false];
    hide FreqLockRun.Live, Counts, Apart, Seen, Unserved;
    assert forall c :: c in s.sent ==> Patient(s.checks, c);
    assert forall o :: o in s.outcomes ==> PatientEnd(s.checks, o);
  }

  /**
   A guard whose lock serves, in any of its checks, ends there: it shows that the lock is fine, and leaves the
   modem, what is saved and the file as they were. One whose lock was replaced shows nothing.
   */
  lemma ServiceKeepsLock(s: State, k: nat)
    requires FreqLockRun.Live(s) && Legal(s, Sees(k, true)) && s.tasks[k].stage.First?
    ensures var t := Step(s, Sees(k, true));
      && t.tasks == s.tasks[k := Over] && t.sent == s.sent && t.outcomes == s.outcomes && t.holder == s.holder
      && t.modem == s.modem && t.accepted == s.accepted
      && t.core == s.core.(guard := t.core.guard)
      && (s.tasks[k].watch.generation == s.core.generation ==> t.core.guard.Okay? && t.current.None?)
      && (s.tasks[k].watch.generation != s.core.generation ==> t.core == s.core && t.current == s.current)
  {
    assert TaskInv(s, k);
  }

  /** A previous lock that serves once it is back stays: its guard goes on to save it, and sends nothing more. */
  lemma ServiceKeepsPrevious(s: State, k: nat)
    requires FreqLockRun.Live(s) && Legal(s, Sees(k, true)) && s.tasks[k].stage.Second?
    ensures var t := Step(s, Sees(k, true));
      && t.tasks == s.tasks[k := SaveWaits(s.tasks[k].watch)] && t.core == s.core && t.sent == s.sent
      && t.modem == s.modem && t.holder == s.holder && t.current == s.current && t.outcomes == s.outcomes
  {
  }
}
