/** What a lock or an unlock call has done when it ends, whatever else was going on. */
module FreqLockCalls {
  import opened Common
  import opened FreqLock
  import opened FreqLockRun
  import opened Modem
  import opened Store

  /** A call that only has to save yet was acknowledged, and nobody has sent a command since. */
  predicate Asked(s: State) {
    forall k :: 0 <= k < |s.tasks| ==>
      && (s.tasks[k].UnlockSaves? ==> s.accepted == [])
      && (s.tasks[k].LockSaves? ==> s.accepted == s.tasks[k].call.entries)
  }

  /** Only one task is in the middle of a command or a write. */
  lemma OneHolds(s: State, j: nat, k: nat)
    requires Live(s) && j < |s.tasks| && k < |s.tasks| && Holds(s.tasks[j]) && Holds(s.tasks[k])
    ensures j == k
  {
    assert TaskInv(s, j) && TaskInv(s, k);
  }

  lemma FreeMeansNone(s: State, k: nat)
    requires Live(s) && s.holder.None? && k < |s.tasks|
    ensures !Holds(s.tasks[k])
  {
    assert TaskInv(s, k);
  }

  lemma AcquireKeepsAsked(s: State, k: nat)
    requires Live(s) && Asked(s) && Legal(s, Acquires(k))
    ensures Asked(Acquire(s, k))
  {
    forall j | 0 <= j < |s.tasks|
      ensures !Holds(s.tasks[j])
    {
      FreeMeansNone(s, j);
    }
    hide Live, Settled;
    var t := Acquire(s, k);
    forall j | 0 <= j < |t.tasks|
      ensures !Writing(t.tasks[j]) || j == k
    {
      assert j < |s.tasks| ==> !Holds(s.tasks[j]);
    }
  }

  /** What task `k` saves next was acknowledged, and no other task changes; a guard may start. */
  predicate Own(s: State, t: State, k: nat) {
    && k < |s.tasks| <= |t.tasks|
    && (forall j :: 0 <= j < |s.tasks| && j != k ==> t.tasks[j] == s.tasks[j])
    && (forall j :: |s.tasks| <= j < |t.tasks| ==> t.tasks[j].Confirms?)
    && (t.tasks[k].UnlockSaves? ==> t.accepted == [])
    && (t.tasks[k].LockSaves? ==> t.accepted == t.tasks[k].call.entries)
  }

  lemma AnswerIsOwn(s: State, k: nat, answer: Answer, effect: bool)
    requires Legal(s, Answers(k, answer, effect))
    ensures Own(s, Answered(s, k, answer, effect), k)
  {
    EffectIsOf(s, Target(s.tasks[k]), answer, effect);
    hide Effect, Settled;
  }

  lemma ReportIsOwn(s: State, k: nat, lock: Option<seq<Entry>>)
    requires Legal(s, Reports(k, lock))
    ensures Own(s, Reported(s, k, lock), k)
  {
    hide Settled;
  }

  lemma WriteIsOwn(s: State, k: nat, w: Written)
    requires Legal(s, Wrote(k, w))
    ensures Own(s, WriteEnds(s, k, w), k)
  {
    hide Persist, Ended;
  }

  lemma OwnKeepsAsked(s: State, t: State, k: nat)
    requires Live(s) && Asked(s) && Own(s, t, k) && Holds(s.tasks[k])
    ensures Asked(t)
  {
    forall j | 0 <= j < |s.tasks| && j != k
      ensures !Holds(s.tasks[j])
    {
      if Holds(s.tasks[j]) {
        OneHolds(s, j, k);
      }
    }
  }

  lemma EffectIsOf(s: State, entries: seq<Entry>, answer: Answer, effect: bool)
    ensures var t := Effect(s, entries, answer, effect);
      && t == s.(modem := t.modem, accepted := t.accepted, quiet := t.quiet)
      && t.accepted == (if answer.Accepted? then entries else s.accepted)
  {
  }

  lemma StepKeepsAsked(s: State, op: Op)
    requires Live(s) && Asked(s) && Legal(s, op)
    ensures Asked(Step(s, op))
  {
    match op
    case Acquires(k) =>
      hide Acquire, Asked, Live;
      AcquireKeepsAsked(s, k);
    case Answers(k, answer, effect) =>
      hide Answered, Asked, Live, Own;
      AnswerIsOwn(s, k, answer, effect);
      OwnKeepsAsked(s, Step(s, op), k);
    case Reports(k, lock) =>
      hide Reported, Asked, Live, Own;
      ReportIsOwn(s, k, lock);
      OwnKeepsAsked(s, Step(s, op), k);
    case Wrote(k, w) =>
      hide WriteEnds, Asked, Live, Own;
      WriteIsOwn(s, k, w);
      OwnKeepsAsked(s, Step(s, op), k);
    case Looks(k) => hide Live;
    case Sees(k, serving) => hide Live, Confirmed;
    case CallsLock(call) => hide Live;
    case CallsUnlock => hide Live;
  }

  lemma {:induction false} RunKeepsAsked(s: State, ops: seq<Op>)
    requires Live(s) && Asked(s) && LegalRun(s, ops)
    ensures Live(Run(s, ops)) && Asked(Run(s, ops))
    decreases |ops|
  {
    hide Live, Asked, Step;
    if ops != [] {
      StepKeepsLive(s, ops[0]);
      StepKeepsAsked(s, ops[0]);
      RunKeepsAsked(Step(s, ops[0]), ops[1..]);
    }
  }

  /** The step with which a lock call that the modem accepted ends: nothing to write, or the end of the write. */
  predicate EndsLock(s: State, op: Op) {
    && Legal(s, op)
    && if op.Answers? then
         s.tasks[op.k].LockSent? && op.answer.Accepted? && Settled(s.core, Kept(s.tasks[op.k].call))
       else op.Wrote? && s.tasks[op.k].LockSaves?
  }

  /** What the end of a lock call leaves, with the guard it starts. */
  predicate LockLeaves(s: State, op: Op, t: State)
    requires EndsLock(s, op)
  {
    var call := s.tasks[op.k].call;
    && t.holder.None? && t.accepted == call.entries
    && t.core.generation == s.core.generation + 1
    && t.core.phase == (if call.persistent then Persistent else Temporary)
    && t.core.guard == (if call.guarded then Checking else Idle)
    && (op.Wrote? && op.w.Unwritten? ==>
      t.core.saved == s.core.saved && t.core.disk == s.core.disk && t.core.stored == s.core.stored)
    && (op.Wrote? && !op.w.Unwritten? ==>
      && t.core.disk == t.core.saved == (if call.persistent then call.entries else [])
      && t.core.stored && !t.core.blind)
    && (op.Answers? ==> t.core.saved == s.core.saved == (if call.persistent then call.entries else []))
    && (if call.guarded then
          t.tasks == s.tasks[op.k := Over]
            + [Confirms(Watch(call, s.core.saved, s.core.generation + 1, call.previous, false), First, 5, false)]
        else t.tasks == s.tasks[op.k := Over])
  }

  lemma AnswerLeaves(s: State, op: Op)
    requires EndsLock(s, op) && op.Answers?
    ensures LockLeaves(s, op, Step(s, op))
  {
    EffectIsOf(s, s.tasks[op.k].call.entries, op.answer, op.effect);
    hide Effect;
  }

  lemma WriteLeaves(s: State, op: Op)
    requires EndsLock(s, op) && op.Wrote? && TaskInv(s, op.k) && s.accepted == s.tasks[op.k].call.entries
    ensures LockLeaves(s, op, Step(s, op))
  {
  }

  lemma EndLeaves(s: State, op: Op)
    requires Live(s) && Asked(s) && EndsLock(s, op)
    ensures LockLeaves(s, op, Step(s, op))
  {
    assert TaskInv(s, op.k);
    hide LockLeaves, Step, TaskInv;
    if op.Answers? {
      AnswerLeaves(s, op);
    } else {
      WriteLeaves(s, op);
    }
  }

  /**
   Over every interleaving: when a lock call ends that the modem accepted, its lock is the last one that was
   acknowledged, it has a new generation, and it is saved if it is to be and could be, or nothing is; its guard,
   if it has one, knows what was saved before it and what the modem had.
   */
  lemma LockIsSavedAndGuarded(file: seq<Entry>, load: Load, modem: seq<Entry>, ops: seq<Op>, op: Op)
    requires LegalRun(Boot(file, load, modem), ops) && EndsLock(Run(Boot(file, load, modem), ops), op)
    ensures var s := Run(Boot(file, load, modem), ops); LockLeaves(s, op, Step(s, op))
  {
    RunKeepsAsked(Boot(file, load, modem), ops);
    EndLeaves(Run(Boot(file, load, modem), ops), op);
  }

  /** The step with which an unlock call ends. */
  predicate EndsUnlock(s: State, op: Op) {
    Legal(s, op) && (op.Answers? || op.Reports? || op.Wrote?) && Unlocks(s.tasks[op.k]) && Step(s, op).tasks[op.k].Over?
  }

  /** It was acknowledged, or the modem reported that nothing is locked, and what was to be written is written. */
  predicate Succeeds(op: Op) {
    match op
    case Answers(_, answer, _) => answer.Accepted?
    case Reports(_, lock) => lock == Some([])
    case Wrote(_, w) => !w.Unwritten?
    case _ => false
  }

  predicate UnlockLeaves(s: State, op: Op, t: State) {
    if Succeeds(op) then
      t.core.phase.Unlocked? && t.accepted == [] && t.core.saved == [] && (!t.core.blind ==> t.core.disk == [])
    else t.core == s.core
  }

  lemma EndUnlocks(s: State, op: Op)
    requires Live(s) && Asked(s) && EndsUnlock(s, op)
    ensures UnlockLeaves(s, op, Step(s, op))
  {
    hide TaskInv;
  }

  /**
   Over every interleaving: an unlock call shows "unlocked" if it succeeds, and then nothing is locked, as far as
   the modem said, and nothing is saved any more, in memory or in the file; if it does not, it changes nothing.
   */
  lemma UnlockIsComplete(file: seq<Entry>, load: Load, modem: seq<Entry>, ops: seq<Op>, op: Op)
    requires LegalRun(Boot(file, load, modem), ops) && EndsUnlock(Run(Boot(file, load, modem), ops), op)
    ensures var s := Run(Boot(file, load, modem), ops); UnlockLeaves(s, op, Step(s, op))
  {
    RunKeepsAsked(Boot(file, load, modem), ops);
    EndUnlocks(Run(Boot(file, load, modem), ops), op);
  }

  // ----- Single answers

  /** A lock or unlock that the modem does not take ends its call, with everything but the modem as it was. */
  lemma RefusedCallEnds(s: State, k: nat, answer: Answer, effect: bool)
    requires Legal(s, Answers(k, answer, effect)) && !answer.Accepted?
    requires s.tasks[k].LockSent? || (s.tasks[k].UnlockSent? && answer.Lost?)
    ensures var t := Step(s, Answers(k, answer, effect));
      && t.tasks == s.tasks[k := Over] && t.holder.None? && t.core == s.core && t.sent == s.sent
      && t.current == s.current && t.accepted == s.accepted
      && t.modem == (if !effect then s.modem else if s.tasks[k].UnlockSent? then [] else s.tasks[k].call.entries)
  {
  }

  /** A lock that the modem takes is saved if it is to be, or nothing is, unless that is known to be so already. */
  lemma AcceptedLockIsSaved(s: State, k: nat, effect: bool)
    requires Legal(s, Answers(k, Accepted, effect)) && s.tasks[k].LockSent?
    requires !(s.core.stored && s.core.saved == (if s.tasks[k].call.persistent then s.tasks[k].call.entries else []))
    ensures var t := Step(s, Answers(k, Accepted, effect));
      && t.tasks == s.tasks[k := LockSaves(s.tasks[k].call, s.core.saved)] && t.holder == s.holder && t.core == s.core
      && t.modem == t.accepted == s.tasks[k].call.entries
  {
  }

  /**
   What a guard put back is confirmed in turn, if it is a lock that the modem took. Otherwise the guard goes on to
   save, with what came of it; but a refused unlock is followed by the question what is locked.
   */
  lemma PutBackIsConfirmed(s: State, k: nat, answer: Answer, effect: bool)
    requires Legal(s, Answers(k, answer, effect)) && s.tasks[k].RevertSent?
    ensures var t, task := Step(s, Answers(k, answer, effect)), s.tasks[k];
      var next := task.watch.(restored := answer.Accepted?);
      && t.core == s.core && t.sent == s.sent && t.current == s.current
      && t.tasks == s.tasks[k :=
        if task.watch.back == [] && answer.Refused? then RevertAsked(task.watch, task.stage)
        else if answer.Accepted? && task.watch.back != [] && task.stage.First? then Confirms(next, Second, 5, false)
        else SaveWaits(next)]
      && (t.holder.None? || t.tasks[k].RevertAsked?)
  {
    EffectIsOf(s, Target(s.tasks[k]), answer, effect);
    hide Effect;
  }

  /** A start knows what the file holds if it could be loaded, and nothing otherwise. */
  lemma StartReadsFile(file: seq<Entry>, load: Load, modem: seq<Entry>)
    ensures var c := Boot(file, load, modem).core;
      && c.saved == (match load case Loaded => file case Unusable => [] case Unread => [])
      && (c.stored <==> load != Unusable) && c.disk == file
      && c.phase == Unset && c.guard == Idle
  {
  }

  /** An unlock that is refused is followed by the question what is locked. */
  lemma RefusedUnlockAsks(s: State, k: nat, effect: bool)
    requires Legal(s, Answers(k, Refused, effect)) && s.tasks[k].UnlockSent?
    ensures var t := Step(s, Answers(k, Refused, effect));
      t.tasks == s.tasks[k := UnlockAsked] && t.holder == s.holder && t.core == s.core
  {
    EffectIsOf(s, [], Refused, effect);
    hide Effect;
  }

  /** An unlock that is done is written if and only if the file is not known to hold nothing already. */
  lemma DoneUnlockIsSaved(s: State, op: Op)
    requires Legal(s, op)
    requires (op.Answers? && s.tasks[op.k].UnlockSent? && op.answer.Accepted?)
          || (op.Reports? && s.tasks[op.k].UnlockAsked? && op.lock == Some([]))
    ensures Step(s, op).tasks == s.tasks[op.k := if s.core.stored && s.core.saved == [] then Over else UnlockSaves]
  {
    if op.Answers? {
      EffectIsOf(s, [], op.answer, op.effect);
      hide Effect;
    }
  }

  /** An unlock, before it is sent, replaces a guard at work; what an earlier guard found stays shown. */
  lemma UnlockReplacesGuard(s: State, k: nat)
    requires Legal(s, Acquires(k)) && s.tasks[k].UnlockWaits?
    ensures var t := Step(s, Acquires(k));
      && t.core == s.core.(generation := s.core.generation + 1,
                           guard := if s.core.guard == Checking then Idle else s.core.guard)
      && t.current.None? && t.holder == Some(k)
      && |t.sent| == |s.sent| + 1 && t.sent[|s.sent|].entries == [] && t.sent[|s.sent|].sender.None?
  {
  }

  /** A guard looks before each check whether its lock is still the newest; if it is not, it ends, or saves nothing. */
  lemma ReplacedGuardStops(s: State, k: nat)
    requires Legal(s, Looks(k))
    ensures var t, task := Step(s, Looks(k)), s.tasks[k];
      && t == s.(tasks := t.tasks)
      && t.tasks == s.tasks[k :=
        if task.watch.generation == s.core.generation then task.(asked := true)
        else if task.stage == First then Over else SaveWaits(task.watch)]
  {
  }

  lemma BlindStays(s: State, op: Op)
    requires Legal(s, op)
    ensures Step(s, op).core.blind ==> s.core.blind
  {
    hide Settled, Target;
    if op.Answers? || op.Reports? {
      hide Answered, Reported;
      RepliesStayBlind(s, op);
    } else if op.Wrote? {
      hide WriteEnds;
      WriteStaysBlind(s, op);
    }
  }

  lemma RepliesStayBlind(s: State, op: Op)
    requires Legal(s, op) && (op.Answers? || op.Reports?)
    ensures Step(s, op).core.blind ==> s.core.blind
  {
    hide Settled, Target;
  }

  lemma WriteStaysBlind(s: State, op: Op)
    requires Legal(s, op) && op.Wrote?
    ensures Step(s, op).core.blind ==> s.core.blind && op.w.Unwritten?
  {
  }

  /** Over every run: what the file holds is unknown only if it could not be read at start. */
  lemma {:induction false} UnknownOnlyIfUnread(file: seq<Entry>, load: Load, modem: seq<Entry>, ops: seq<Op>)
    requires LegalRun(Boot(file, load, modem), ops)
    ensures Run(Boot(file, load, modem), ops).core.blind ==> load == Unread
  {
    RunStaysBlind(Boot(file, load, modem), ops);
  }

  lemma {:induction false} RunStaysBlind(s: State, ops: seq<Op>)
    requires LegalRun(s, ops)
    ensures Run(s, ops).core.blind ==> s.core.blind
    decreases |ops|
  {
    hide Step, Legal;
    if ops != [] {
      BlindStays(s, ops[0]);
      RunStaysBlind(Step(s, ops[0]), ops[1..]);
    }
  }
}
