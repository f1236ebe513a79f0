/**
 The frequency lock under concurrency: any number of lock calls, unlock calls and guards, each cut at its
 awaits, share one mutex, a generation number, a modem that may refuse or lose a command, and a file that
 may not be written.
 */
module FreqLockRun {
  import opened Common
  import opened Store
  import opened FreqLock
  import opened Modem

  datatype Call = Call(entries: seq<Entry>, previous: seq<Entry>, persistent: bool, guarded: bool)

  /** A guard: what it puts back, what was saved before its lock, and whether the modem took it back. */
  datatype Watch = Watch(call: Call, before: seq<Entry>, generation: nat, back: seq<Entry>, restored: bool)

  /** A guard first confirms the lock, then, once it has put the previous lock back, that one. */
  datatype Stage = First | Second

  datatype Task =
    | LockWaits(call: Call)
    | LockSent(call: Call)
    | LockSaves(call: Call, before: seq<Entry>)
    | UnlockWaits
    | UnlockSent
    | UnlockAsked
    | UnlockSaves
    | Confirms(watch: Watch, stage: Stage, left: nat, asked: bool)
    | RevertWaits(watch: Watch, stage: Stage)
    | RevertSent(watch: Watch, stage: Stage)
    | RevertAsked(watch: Watch, stage: Stage)
    | SaveWaits(watch: Watch)
    | Saves(watch: Watch)
    | Over

  /** What a guard saw when it looked whether the modem serves on the frequencies. */
  datatype Check = Check(generation: nat, stage: Stage, serving: bool)

  /**
   A lock command, or an unlock when the list is empty, with the generation at that moment and the number of
   checks before it.
   */
  datatype Command = Command(entries: seq<Entry>, sender: Option<Watch>, generation: nat, before: nat)

  /** A guard that went through to its end, with what it left and the number of checks before that. */
  datatype Outcome = Outcome(watch: Watch, core: Core, modem: seq<Entry>, accepted: seq<Entry>, quiet: bool,
                             before: nat)

  /**
   `modem` is the lock the modem has, `accepted` the last one it acknowledged, and `quiet` says that no
   command since took effect without being acknowledged; `current` is the guard of the newest lock, while
   it is at work. These and the logs only the proofs read.
   */
  datatype State = State(core: Core, holder: Option<nat>, tasks: seq<Task>, modem: seq<Entry>,
                         accepted: seq<Entry>, quiet: bool, current: Option<nat>,
                         sent: seq<Command>, outcomes: seq<Outcome>, checks: seq<Check>)

  datatype Op =
    | CallsLock(call: Call)
    | CallsUnlock
    | Acquires(k: nat)
    | Answers(k: nat, answer: Answer, effect: bool)
    | Reports(k: nat, lock: Option<seq<Entry>>)
    | Wrote(k: nat, w: Written)
    | Looks(k: nat)
    | Sees(k: nat, serving: bool)

  predicate Waiting(t: Task) {
    t.LockWaits? || t.UnlockWaits? || t.RevertWaits? || t.SaveWaits?
  }

  predicate Sent(t: Task) {
    t.LockSent? || t.UnlockSent? || t.RevertSent?
  }

  predicate Asked(t: Task) {
    t.UnlockAsked? || t.RevertAsked?
  }

  predicate Writing(t: Task) {
    t.LockSaves? || t.UnlockSaves? || t.Saves?
  }

  predicate Holds(t: Task) {
    Sent(t) || Asked(t) || Writing(t)
  }

  predicate Watches(t: Task) {
    t.Confirms? || t.RevertWaits? || t.RevertSent? || t.RevertAsked? || t.SaveWaits? || t.Saves?
  }

  /** A query, if it is answered, tells what the modem has. A command may take effect without an answer. */
  predicate Legal(s: State, op: Op) {
    match op
    case CallsLock(_) => true
    case CallsUnlock => true
    case Acquires(k) => k < |s.tasks| && Waiting(s.tasks[k]) && s.holder.None?
    case Answers(k, _, _) => k < |s.tasks| && Sent(s.tasks[k])
    case Reports(k, lock) => k < |s.tasks| && Asked(s.tasks[k]) && (lock.Some? ==> lock.value == s.modem)
    case Wrote(k, _) => k < |s.tasks| && Writing(s.tasks[k])
    case Looks(k) => k < |s.tasks| && s.tasks[k].Confirms? && !s.tasks[k].asked
    case Sees(k, _) => k < |s.tasks| && s.tasks[k].Confirms? && s.tasks[k].asked
  }

  // ----- The steps

  function Put(s: State, k: nat, t: Task): State
    requires k < |s.tasks|
  {
    s.(tasks := s.tasks[k := t])
  }

  function Take(s: State, k: nat, t: Task): State
    requires k < |s.tasks|
  {
    s.(tasks := s.tasks[k := t], holder := Some(k))
  }

  function Drop(s: State, k: nat, t: Task): State
    requires k < |s.tasks|
  {
    s.(tasks := s.tasks[k := t], holder := None)
  }

  function Retire(s: State, k: nat): State {
    if s.current == Some(k) then s.(current := None) else s
  }

  function Log(s: State, entries: seq<Entry>, sender: Option<Watch>): State {
    s.(sent := s.sent + [Command(entries, sender, s.core.generation, |s.checks|)])
  }

  function Kept(call: Call): seq<Entry> {
    if call.persistent then call.entries else []
  }

  /** The end of a lock call; with a guard, its task begins. */
  function FinishLock(s: State, k: nat, call: Call, before: seq<Entry>): State
    requires k < |s.tasks|
  {
    var core := Locked(s.core, call.persistent, call.guarded);
    var w := Watch(call, before, core.generation, call.previous, false);
    var t := Drop(s.(core := core), k, Over);
    if call.guarded then t.(tasks := t.tasks + [Confirms(w, First, 5, false)], current := Some(|t.tasks|))
    else t.(current := None)
  }

  function FinishUnlock(s: State, k: nat): State
    requires k < |s.tasks|
  {
    Drop(s.(core := s.core.(phase := Unlocked)), k, Over)
  }

  function SaveUnlock(s: State, k: nat): State
    requires k < |s.tasks|
  {
    if Settled(s.core, []) then FinishUnlock(s, k) else Put(s, k, UnlockSaves)
  }

  /** The modem took the lock back or did not; a previous lock that is back is confirmed in turn. */
  function Restored(s: State, k: nat, w: Watch, stage: Stage, ok: bool): State
    requires k < |s.tasks|
  {
    var next := w.(restored := ok);
    Drop(s, k, if stage.First? && ok && w.back != [] then Confirms(next, Second, 5, false) else SaveWaits(next))
  }

  /** What the failed lock leaves saved. */
  function Afterwards(w: Watch): seq<Entry> {
    if w.back == [] then [] else w.before
  }

  function FinishGuard(s: State, k: nat, w: Watch, saved: bool): State
    requires k < |s.tasks|
  {
    var core := Ended(s.core, w.generation, w.back, w.restored && saved);
    var t := Drop(s.(core := core), k, Over);
    Retire(t.(outcomes := t.outcomes + [Outcome(w, core, s.modem, s.accepted, s.quiet, |s.checks|)]), k)
  }

  function Acquire(s: State, k: nat): State
    requires Legal(s, Acquires(k))
  {
    match s.tasks[k]
    case LockWaits(call) => Log(Take(s, k, LockSent(call)), call.entries, None)
    case UnlockWaits => Log(Take(s.(core := Unlocking(s.core), current := None), k, UnlockSent), [], None)
    case RevertWaits(w, stage) =>
      var next := if stage.Second? then w.(back := []) else w;
      if w.generation != s.core.generation then Put(s, k, Over)
      else Log(Take(s, k, RevertSent(next, stage)), next.back, Some(next))
    case SaveWaits(w) =>
      if w.generation != s.core.generation then Put(s, k, Over)
      else if Settled(s.core, Afterwards(w)) then FinishGuard(s, k, w, true)
      else Take(s, k, Saves(w))
  }

  /** The lock that the command in flight asks for. */
  function Target(t: Task): seq<Entry>
    requires Sent(t)
  {
    match t
    case LockSent(call) => call.entries
    case UnlockSent => []
    case RevertSent(w, _) => w.back
  }

  /** What the answer says and what the command did are not the same unless it was acknowledged. */
  function Effect(s: State, entries: seq<Entry>, answer: Answer, effect: bool): State {
    if answer.Accepted? then s.(modem := entries, accepted := entries, quiet := true)
    else if effect then s.(modem := entries, quiet := s.quiet && s.modem == entries)
    else s
  }

  function Answered(s: State, k: nat, answer: Answer, effect: bool): State
    requires Legal(s, Answers(k, answer, effect))
  {
    var ok := answer.Accepted?;
    var s1 := Effect(s, Target(s.tasks[k]), answer, effect);
    match s.tasks[k]
    case LockSent(call) =>
      if !ok then Drop(s1, k, Over)
      else if Settled(s1.core, Kept(call)) then FinishLock(s1, k, call, s1.core.saved)
      else Put(s1, k, LockSaves(call, s1.core.saved))
    case UnlockSent =>
      if ok then SaveUnlock(s1, k) else if answer.Refused? then Put(s1, k, UnlockAsked) else Drop(s1, k, Over)
    case RevertSent(w, stage) =>
      if w.back == [] && answer.Refused? then Put(s1, k, RevertAsked(w, stage)) else Restored(s1, k, w, stage, ok)
  }

  /** A refused unlock counts as done when the modem then reports that nothing is locked. */
  function Reported(s: State, k: nat, lock: Option<seq<Entry>>): State
    requires Legal(s, Reports(k, lock))
  {
    var ok := lock == Some([]);
    var s1 := if ok then s.(accepted := [], quiet := true) else s;
    match s.tasks[k]
    case UnlockAsked => if ok then SaveUnlock(s1, k) else Drop(s1, k, Over)
    case RevertAsked(w, stage) => Restored(s1, k, w, stage, ok)
  }

  function WriteEnds(s: State, k: nat, w: Written): State
    requires Legal(s, Wrote(k, w))
  {
    match s.tasks[k]
    case LockSaves(call, before) => FinishLock(s.(core := Persist(s.core, Kept(call), w)), k, call, before)
    case UnlockSaves =>
      var t := s.(core := Persist(s.core, [], w));
      if w.Unwritten? then Drop(t, k, Over) else FinishUnlock(t, k)
    case Saves(watch) => FinishGuard(s.(core := Persist(s.core, Afterwards(watch), w)), k, watch, !w.Unwritten?)
  }

  function Look(s: State, k: nat): State
    requires Legal(s, Looks(k))
  {
    var t := s.tasks[k];
    if t.watch.generation == s.core.generation then Put(s, k, t.(asked := true))
    else Put(s, k, if t.stage.First? then Over else SaveWaits(t.watch))
  }

  /** One of up to five checks whether the modem serves on the frequencies. */
  function See(s: State, k: nat, serving: bool): State
    requires Legal(s, Sees(k, serving))
  {
    var t := s.tasks[k];
    var s1 := s.(checks := s.checks + [Check(t.watch.generation, t.stage, serving)]);
    if serving && t.stage.First? then Retire(Put(s1.(core := Confirmed(s1.core, t.watch.generation)), k, Over), k)
    else if serving then Put(s1, k, SaveWaits(t.watch))
    else if t.left > 1 then Put(s1, k, t.(left := t.left - 1, asked := false))
    else Put(s1, k, RevertWaits(t.watch, t.stage))
  }

  function Step(s: State, op: Op): State
    requires Legal(s, op)
  {
    match op
    case CallsLock(call) => s.(tasks := s.tasks + [LockWaits(call)])
    case CallsUnlock => s.(tasks := s.tasks + [UnlockWaits])
    case Acquires(k) => Acquire(s, k)
    case Answers(k, answer, effect) => Answered(s, k, answer, effect)
    case Reports(k, lock) => Reported(s, k, lock)
    case Wrote(k, w) => WriteEnds(s, k, w)
    case Looks(k) => Look(s, k)
    case Sees(k, serving) => See(s, k, serving)
  }

  // ----- What every step keeps

  predicate Unlocks(t: Task) {
    t.UnlockSent? || t.UnlockAsked? || t.UnlockSaves?
  }

  /** An accepted lock that has not started its generation yet. */
  predicate Midway(s: State) {
    s.holder.Some? && s.holder.value < |s.tasks| && s.tasks[s.holder.value].LockSaves?
  }

  /** The guard has put its lock back and has not been replaced since. */
  predicate PutBack(t: Task) {
    && Watches(t) && t.watch.restored
    && (t.SaveWaits? || t.Saves? || ((t.Confirms? || t.RevertWaits?) && t.stage.Second?))
  }

  /**
   The mutex: whoever is in the middle of a command or a write holds it, and nobody else does. A guard is
   current exactly while its generation is, and it holds the mutex only then. While it is current, and no
   newer lock is half way, what it put back is what the modem acknowledged last.
   */
  predicate TaskInv(s: State, k: nat)
    requires k < |s.tasks|
  {
    var t := s.tasks[k];
    && (Holds(t) <==> s.holder == Some(k))
    && (s.current == Some(k) ==> Watches(t))
    && (t.LockSaves? ==> t.before == s.core.saved)
    && (Unlocks(t) ==> s.current.None?)
    && (Watches(t) ==>
      && t.watch.generation <= s.core.generation
      && (t.watch.generation == s.core.generation <==> s.current == Some(k))
      && (Holds(t) ==> s.current == Some(k))
      && (t.watch.back == t.watch.call.previous || t.watch.back == []) && (t.RevertAsked? ==> t.watch.back == [])
      && (PutBack(t) && s.current == Some(k) && !Midway(s) ==> s.accepted == t.watch.back))
  }

  /** "Checking" is shown exactly while the guard of the newest lock is at work. */
  predicate CoreInv(s: State) {
    && (s.core.guard.Checking? <==> s.current.Some?)
    && (s.core.stored && !s.core.blind ==> s.core.disk == s.core.saved)
    && (s.quiet ==> s.modem == s.accepted)
    && (s.current.Some? ==> s.current.value < |s.tasks|)
    && (s.holder.Some? ==> s.holder.value < |s.tasks|)
  }

  /** A command of a guard was sent while that guard's lock was the newest one. */
  predicate Timely(c: Command) {
    c.sender.Some? ==> c.sender.value.generation == c.generation && c.entries == c.sender.value.back
  }

  /**
   A guard that reports "reverted": the modem acknowledged the previous lock or the unlock, and memory and
   file hold the entries from before the lock, or none when the modem was unlocked. The file may hold others
   only if it could not be read at start and has not been written since.
   */
  predicate Clean(o: Outcome) {
    var entries := if o.watch.back == [] then [] else o.watch.before;
    && (o.watch.back == o.watch.call.previous || o.watch.back == [])
    && (o.core.guard.Reverted? ==>
      && o.accepted == o.watch.back && (o.quiet ==> o.modem == o.watch.back)
      && o.core.saved == entries && (!o.core.blind ==> o.core.disk == entries))
  }

  predicate Logged(s: State) {
    (forall c :: c in s.sent ==> Timely(c)) && (forall o :: o in s.outcomes ==> Clean(o))
  }

  predicate Live(s: State) {
    CoreInv(s) && forall k :: 0 <= k < |s.tasks| ==> TaskInv(s, k)
  }

  predicate Inv(s: State) {
    Live(s) && Logged(s)
  }

  lemma EffectIs(s: State, entries: seq<Entry>, answer: Answer, effect: bool)
    requires s.quiet ==> s.modem == s.accepted
    ensures var t := Effect(s, entries, answer, effect);
      && t == s.(modem := t.modem, accepted := t.accepted, quiet := t.quiet)
      && t.accepted == (if answer.Accepted? then entries else s.accepted)
      && (t.quiet ==> t.modem == t.accepted)
  {
  }

  lemma AcquiresLockWaits(s: State, k: nat)
    requires Live(s) && Legal(s, Acquires(k)) && s.tasks[k].LockWaits?
    ensures Live(Acquire(s, k))
  {
    assert TaskInv(s, k);
    var t := Acquire(s, k);
    forall j | 0 <= j < |t.tasks|
      ensures TaskInv(t, j)
    {
      assert j < |s.tasks| ==> TaskInv(s, j);
    }
  }

  lemma AcquiresUnlockWaits(s: State, k: nat)
    requires Live(s) && Legal(s, Acquires(k)) && s.tasks[k].UnlockWaits?
    ensures Live(Acquire(s, k))
  {
    assert TaskInv(s, k);
    var t := Acquire(s, k);
    forall j | 0 <= j < |t.tasks|
      ensures TaskInv(t, j)
    {
      assert j < |s.tasks| ==> TaskInv(s, j);
    }
  }

  /** A guard that gets the mutex sends its command if its generation is current, and ends there otherwise. */
  lemma AcquiresRevertWaits(s: State, k: nat)
    requires Live(s) && Legal(s, Acquires(k)) && s.tasks[k].RevertWaits?
    ensures Live(Acquire(s, k))
    ensures s.tasks[k].watch.generation != s.core.generation ==> Acquire(s, k) == s.(tasks := s.tasks[k := Over])
    ensures s.tasks[k].watch.generation == s.core.generation ==>
      && Acquire(s, k).holder == Some(k) && |Acquire(s, k).sent| == |s.sent| + 1
      && Acquire(s, k).sent[|s.sent|].entries == (if s.tasks[k].stage.Second? then [] else s.tasks[k].watch.back)
  {
    assert TaskInv(s, k);
    var t := Acquire(s, k);
    forall j | 0 <= j < |t.tasks|
      ensures TaskInv(t, j)
    {
      assert j < |s.tasks| ==> TaskInv(s, j);
    }
  }

  /** So does a guard that saves: it has nothing to write, or starts to write, or ends there. */
  lemma AcquiresSaveWaits(s: State, k: nat)
    requires Live(s) && Legal(s, Acquires(k)) && s.tasks[k].SaveWaits?
    ensures Live(Acquire(s, k))
    ensures s.tasks[k].watch.generation != s.core.generation ==> Acquire(s, k) == s.(tasks := s.tasks[k := Over])
    ensures s.tasks[k].watch.generation == s.core.generation ==>
      || Acquire(s, k).holder == Some(k)
      || (s.core.saved == Afterwards(s.tasks[k].watch) && |Acquire(s, k).outcomes| == |s.outcomes| + 1)
  {
    assert TaskInv(s, k);
    var t := Acquire(s, k);
    forall j | 0 <= j < |t.tasks|
      ensures TaskInv(t, j)
    {
      assert j < |s.tasks| ==> TaskInv(s, j);
    }
  }

  lemma AnswersLockSettled(s: State, k: nat, answer: Answer, effect: bool)
    requires Live(s) && Legal(s, Answers(k, answer, effect)) && s.tasks[k].LockSent?
    requires answer.Accepted? && Settled(s.core, Kept(s.tasks[k].call))
    ensures Live(Answered(s, k, answer, effect))
  {
    assert TaskInv(s, k);
    EffectIs(s, Target(s.tasks[k]), answer, effect);
    hide Effect, Settled;
    var t := Answered(s, k, answer, effect);
    forall j | 0 <= j < |t.tasks|
      ensures TaskInv(t, j)
    {
      assert j < |s.tasks| ==> TaskInv(s, j);
    }
  }

  lemma AnswersLockUnsettled(s: State, k: nat, answer: Answer, effect: bool)
    requires Live(s) && Legal(s, Answers(k, answer, effect)) && s.tasks[k].LockSent?
    requires !(answer.Accepted? && Settled(s.core, Kept(s.tasks[k].call)))
    ensures Live(Answered(s, k, answer, effect))
  {
    assert TaskInv(s, k);
    EffectIs(s, Target(s.tasks[k]), answer, effect);
    hide Effect, Settled, FinishLock;
    var t := Answered(s, k, answer, effect);
    forall j | 0 <= j < |t.tasks|
      ensures TaskInv(t, j)
    {
      assert j < |s.tasks| ==> TaskInv(s, j);
    }
  }

  lemma AnswersLockSent(s: State, k: nat, answer: Answer, effect: bool)
    requires Live(s) && Legal(s, Answers(k, answer, effect)) && s.tasks[k].LockSent?
    ensures Live(Answered(s, k, answer, effect))
  {
    hide Live, Answered;
    if answer.Accepted? && Settled(s.core, Kept(s.tasks[k].call)) {
      AnswersLockSettled(s, k, answer, effect);
    } else {
      AnswersLockUnsettled(s, k, answer, effect);
    }
  }

  lemma AnswersUnlockSent(s: State, k: nat, answer: Answer, effect: bool)
    requires Live(s) && Legal(s, Answers(k, answer, effect)) && s.tasks[k].UnlockSent?
    ensures Live(Answered(s, k, answer, effect))
  {
    assert TaskInv(s, k);
    EffectIs(s, Target(s.tasks[k]), answer, effect);
    hide Effect;
    var t := Answered(s, k, answer, effect);
    forall j | 0 <= j < |t.tasks|
      ensures TaskInv(t, j)
    {
      assert j < |s.tasks| ==> TaskInv(s, j);
    }
  }

  lemma AnswersRevertSent(s: State, k: nat, answer: Answer, effect: bool)
    requires Live(s) && Legal(s, Answers(k, answer, effect)) && s.tasks[k].RevertSent?
    ensures Live(Answered(s, k, answer, effect))
  {
    assert TaskInv(s, k);
    EffectIs(s, Target(s.tasks[k]), answer, effect);
    hide Effect;
    var t := Answered(s, k, answer, effect);
    forall j | 0 <= j < |t.tasks|
      ensures TaskInv(t, j)
    {
      assert j < |s.tasks| ==> TaskInv(s, j);
    }
  }

  lemma ReportsUnlockAsked(s: State, k: nat, lock: Option<seq<Entry>>)
    requires Live(s) && Legal(s, Reports(k, lock)) && s.tasks[k].UnlockAsked?
    ensures Live(Reported(s, k, lock))
  {
    assert TaskInv(s, k);
    var t := Reported(s, k, lock);
    forall j | 0 <= j < |t.tasks|
      ensures TaskInv(t, j)
    {
      assert j < |s.tasks| ==> TaskInv(s, j);
    }
  }

  lemma ReportsRevertAsked(s: State, k: nat, lock: Option<seq<Entry>>)
    requires Live(s) && Legal(s, Reports(k, lock)) && s.tasks[k].RevertAsked?
    ensures Live(Reported(s, k, lock))
  {
    assert TaskInv(s, k);
    var t := Reported(s, k, lock);
    forall j | 0 <= j < |t.tasks|
      ensures TaskInv(t, j)
    {
      assert j < |s.tasks| ==> TaskInv(s, j);
    }
  }

  lemma WroteLockSaves(s: State, k: nat, w: Written)
    requires Live(s) && Legal(s, Wrote(k, w)) && s.tasks[k].LockSaves?
    ensures Live(WriteEnds(s, k, w))
  {
    assert TaskInv(s, k);
    var t := WriteEnds(s, k, w);
    forall j | 0 <= j < |t.tasks|
      ensures TaskInv(t, j)
    {
      assert j < |s.tasks| ==> TaskInv(s, j);
    }
  }

  lemma WroteUnlockSaves(s: State, k: nat, w: Written)
    requires Live(s) && Legal(s, Wrote(k, w)) && s.tasks[k].UnlockSaves?
    ensures Live(WriteEnds(s, k, w))
  {
    assert TaskInv(s, k);
    var t := WriteEnds(s, k, w);
    forall j | 0 <= j < |t.tasks|
      ensures TaskInv(t, j)
    {
      assert j < |s.tasks| ==> TaskInv(s, j);
    }
  }

  lemma WroteSaves(s: State, k: nat, w: Written)
    requires Live(s) && Legal(s, Wrote(k, w)) && s.tasks[k].Saves?
    ensures Live(WriteEnds(s, k, w))
  {
    assert TaskInv(s, k);
    var t := WriteEnds(s, k, w);
    forall j | 0 <= j < |t.tasks|
      ensures TaskInv(t, j)
    {
      assert j < |s.tasks| ==> TaskInv(s, j);
    }
  }

  lemma LooksKeepsInv(s: State, k: nat)
    requires Live(s) && Legal(s, Looks(k))
    ensures Live(Look(s, k))
  {
    assert TaskInv(s, k);
    var t := Look(s, k);
    forall j | 0 <= j < |t.tasks|
      ensures TaskInv(t, j)
    {
      assert j < |s.tasks| ==> TaskInv(s, j);
    }
  }

  lemma SeesService(s: State, k: nat, serving: bool)
    requires Live(s) && Legal(s, Sees(k, serving)) && serving && s.tasks[k].stage.First?
    ensures Live(See(s, k, serving))
  {
    assert TaskInv(s, k);
    var t := See(s, k, serving);
    forall j | 0 <= j < |t.tasks|
      ensures TaskInv(t, j)
    {
      assert j < |s.tasks| ==> TaskInv(s, j);
    }
  }

  lemma SeesOther(s: State, k: nat, serving: bool)
    requires Live(s) && Legal(s, Sees(k, serving)) && !(serving && s.tasks[k].stage.First?)
    ensures Live(See(s, k, serving))
  {
    assert TaskInv(s, k);
    hide Confirmed, Retire;
    var t := See(s, k, serving);
    forall j | 0 <= j < |t.tasks|
      ensures TaskInv(t, j)
    {
      assert j < |s.tasks| ==> TaskInv(s, j);
    }
  }

  lemma SeesKeepsInv(s: State, k: nat, serving: bool)
    requires Live(s) && Legal(s, Sees(k, serving))
    ensures Live(See(s, k, serving))
  {
    hide Live, See;
    if serving && s.tasks[k].stage.First? {
      SeesService(s, k, serving);
    } else {
      SeesOther(s, k, serving);
    }
  }

  // ----- Over whole runs

  lemma AcquireKeepsLogged(s: State, k: nat)
    requires Inv(s) && Legal(s, Acquires(k))
    ensures Logged(Acquire(s, k))
  {
    assert TaskInv(s, k);
    if s.tasks[k].SaveWaits? && Settled(s.core, Afterwards(s.tasks[k].watch)) {
      var w := s.tasks[k].watch;
      if w.generation == s.core.generation {
        FinishIsClean(s, k, w, true);
        hide FinishGuard, TaskInv;
      }
    } else {
      hide FinishGuard, Clean;
    }
  }

  lemma WriteKeepsLogged(s: State, k: nat, w: Written)
    requires Inv(s) && Legal(s, Wrote(k, w))
    ensures Logged(WriteEnds(s, k, w))
  {
    assert TaskInv(s, k);
    if s.tasks[k].Saves? {
      var watch := s.tasks[k].watch;
      FinishIsClean(s.(core := Persist(s.core, Afterwards(watch), w)), k, watch, !w.Unwritten?);
      hide FinishGuard, TaskInv;
    } else {
      hide Clean;
    }
  }

  /** A guard that ends while it is current, and has put back what the modem acknowledged, ends cleanly. */
  lemma FinishIsClean(s: State, k: nat, w: Watch, saved: bool)
    requires k < |s.tasks| && Logged(s)
    requires w.generation == s.core.generation && (w.back == w.call.previous || w.back == [])
    requires w.restored ==> s.accepted == w.back && (s.quiet ==> s.modem == s.accepted)
    requires saved ==> s.core.saved == Afterwards(w) && (!s.core.blind ==> s.core.disk == Afterwards(w))
    ensures Logged(FinishGuard(s, k, w, saved))
  {
    var t := FinishGuard(s, k, w, saved);
    assert t.outcomes == s.outcomes + [t.outcomes[|s.outcomes|]];
    assert Clean(t.outcomes[|s.outcomes|]);
    hide Clean;
  }

  /** The log grows only by commands of the newest guard, and by clean outcomes. */
  lemma StepKeepsLogged(s: State, op: Op)
    requires Inv(s) && Legal(s, op)
    ensures Logged(Step(s, op))
  {
    hide Live, Acquire, WriteEnds;
    match op
    case Acquires(k) => AcquireKeepsLogged(s, k);
    case Wrote(k, w) => WriteKeepsLogged(s, k, w);
    case Answers(k, answer, effect) => LogsStay(s, op);
    case Reports(k, lock) => LogsStay(s, op);
    case Looks(k) => LogsStay(s, op);
    case Sees(k, serving) => LogsStay(s, op);
    case CallsLock(call) =>
    case CallsUnlock =>
  }

  lemma LogsStay(s: State, op: Op)
    requires Legal(s, op) && !op.Acquires? && !op.Wrote?
    ensures Step(s, op).sent == s.sent && Step(s, op).outcomes == s.outcomes
  {
  }

  lemma StepKeepsLive(s: State, op: Op)
    requires Live(s) && Legal(s, op)
    ensures Live(Step(s, op))
  {
    match op
    case CallsLock(call) => CallsKeepLive(s, LockWaits(call));
    case CallsUnlock => CallsKeepLive(s, UnlockWaits);
    case Acquires(k) =>
      hide Live, Acquire;
      match s.tasks[k] {
        case LockWaits(_) => AcquiresLockWaits(s, k);
        case UnlockWaits => AcquiresUnlockWaits(s, k);
        case RevertWaits(_, _) => AcquiresRevertWaits(s, k);
        case SaveWaits(_) => AcquiresSaveWaits(s, k);
      }
    case Answers(k, answer, effect) =>
      hide Live, Answered;
      match s.tasks[k] {
        case LockSent(_) => AnswersLockSent(s, k, answer, effect);
        case UnlockSent => AnswersUnlockSent(s, k, answer, effect);
        case RevertSent(_, _) => AnswersRevertSent(s, k, answer, effect);
      }
    case Reports(k, lock) =>
      hide Live, Reported;
      match s.tasks[k] {
        case UnlockAsked => ReportsUnlockAsked(s, k, lock);
        case RevertAsked(_, _) => ReportsRevertAsked(s, k, lock);
      }
    case Wrote(k, w) =>
      hide Live, WriteEnds;
      match s.tasks[k] {
        case LockSaves(_, _) => WroteLockSaves(s, k, w);
        case UnlockSaves => WroteUnlockSaves(s, k, w);
        case Saves(_) => WroteSaves(s, k, w);
      }
    case Looks(k) => LooksKeepsInv(s, k);
    case Sees(k, serving) => SeesKeepsInv(s, k, serving);
  }

  lemma CallsKeepLive(s: State, task: Task)
    requires Live(s) && (task.LockWaits? || task.UnlockWaits?)
    ensures Live(s.(tasks := s.tasks + [task]))
  {
    var t := s.(tasks := s.tasks + [task]);
    forall j | 0 <= j < |t.tasks|
      ensures TaskInv(t, j)
    {
      assert j < |s.tasks| ==> TaskInv(s, j);
    }
  }

  predicate LegalRun(s: State, ops: seq<Op>)
    decreases |ops|
  {
    ops == [] || (Legal(s, ops[0]) && LegalRun(Step(s, ops[0]), ops[1..]))
  }

  function Run(s: State, ops: seq<Op>): State
    requires LegalRun(s, ops)
    decreases |ops|
  {
    if ops == [] then s else Run(Step(s, ops[0]), ops[1..])
  }

  lemma {:induction false} RunKeepsInv(s: State, ops: seq<Op>)
    requires Inv(s) && LegalRun(s, ops)
    ensures Inv(Run(s, ops))
    decreases |ops|
  {
    hide Live, Logged, Step;
    if ops != [] {
      StepKeepsLive(s, ops[0]);
      StepKeepsLogged(s, ops[0]);
      RunKeepsInv(Step(s, ops[0]), ops[1..]);
    }
  }

  /** A process that has just started, with any file and any lock in the modem. */
  function Boot(file: seq<Entry>, load: Load, modem: seq<Entry>): State {
    State(Initial(file, load), None, [], modem, modem, true, None, [], [], [])
  }

  /**
   Over every interleaving: whatever a guard sent, it sent for the newest lock, and whenever a guard ended
   in "reverted", neither memory nor file holds the failed lock any more.
   */
  lemma EveryRevertIsClean(file: seq<Entry>, load: Load, modem: seq<Entry>, ops: seq<Op>)
    requires LegalRun(Boot(file, load, modem), ops)
    ensures var s := Run(Boot(file, load, modem), ops);
      && (forall c :: c in s.sent ==> Timely(c))
      && (forall o :: o in s.outcomes ==> Clean(o))
      && (s.core.guard.Checking? <==> s.current.Some?)
  {
    RunKeepsInv(Boot(file, load, modem), ops);
  }

  predicate StepOf(op: Op, k: nat) {
    match op
    case CallsLock(_) => false
    case CallsUnlock => false
    case Acquires(j) => j == k
    case Answers(j, _, _) => j == k
    case Reports(j, _) => j == k
    case Wrote(j, _) => j == k
    case Looks(j) => j == k
    case Sees(j, _) => j == k
  }

  /** A guard whose lock was replaced sends nothing and changes nothing but its own place (what it sees is logged). */
  lemma StaleGuardIsHarmless(s: State, k: nat, op: Op)
    requires Inv(s) && Legal(s, op) && StepOf(op, k)
    requires k < |s.tasks| && Watches(s.tasks[k]) && s.tasks[k].watch.generation != s.core.generation
    ensures Step(s, op) == s.(tasks := s.tasks[k := Step(s, op).tasks[k]], checks := Step(s, op).checks)
  {
    assert TaskInv(s, k);
  }

  lemma GenerationRises(s: State, op: Op)
    requires Legal(s, op)
    ensures Step(s, op).core.generation >= s.core.generation
  {
    hide Settled;
    if op.Answers? || op.Reports? {
      hide Answered, Reported;
      RepliesRaise(s, op);
    } else if op.Wrote? {
      hide WriteEnds;
      WriteRaises(s, op);
    }
  }

  lemma FinishRaises(s: State, k: nat, call: Call, before: seq<Entry>, w: Watch, saved: bool)
    requires k < |s.tasks|
    ensures FinishLock(s, k, call, before).core.generation == s.core.generation + 1
    ensures FinishGuard(s, k, w, saved).core.generation == s.core.generation
    ensures FinishUnlock(s, k).core.generation == s.core.generation
  {
  }

  lemma WriteRaises(s: State, op: Op)
    requires Legal(s, op) && op.Wrote?
    ensures Step(s, op).core.generation >= s.core.generation
  {
    match s.tasks[op.k]
    case LockSaves(call, before) =>
      var t := s.(core := Persist(s.core, Kept(call), op.w));
      FinishRaises(t, op.k, call, before, Watch(call, before, 0, [], false), true);
      hide FinishLock, Kept;
    case UnlockSaves => hide Settled;
    case Saves(watch) =>
      var t := s.(core := Persist(s.core, Afterwards(watch), op.w));
      FinishRaises(t, op.k, watch.call, [], watch, !op.w.Unwritten?);
      hide FinishGuard, Afterwards;
  }

  lemma RepliesRaise(s: State, op: Op)
    requires Legal(s, op) && (op.Answers? || op.Reports?)
    ensures Step(s, op).core.generation >= s.core.generation
  {
    hide Settled, Target;
  }

  lemma AcquireLogs(s: State, k: nat)
    requires Legal(s, Acquires(k))
    ensures var t := Acquire(s, k);
      || t.sent == s.sent
      || (|t.sent| == |s.sent| + 1 && s.sent <= t.sent && t.sent[|s.sent|].generation >= s.core.generation)
  {
  }

  /** What the log gains in one step, it gains for the generation of that moment. */
  lemma StepLogs(s: State, op: Op)
    requires Legal(s, op)
    ensures var t := Step(s, op);
      s.sent <= t.sent && forall i :: |s.sent| <= i < |t.sent| ==> t.sent[i].generation >= s.core.generation
  {
    hide Ended, Settled, Persist;
    if op.Acquires? {
      AcquireLogs(s, op.k);
    } else if !op.Wrote? {
      LogsStay(s, op);
    }
  }

  /** From the moment a newer lock or unlock exists, no command of the old guard is ever sent again. */
  lemma {:induction false} NothingAfterReplaced(s: State, ops: seq<Op>)
    requires Inv(s) && LegalRun(s, ops)
    ensures var t := Run(s, ops);
      && s.sent <= t.sent && t.core.generation >= s.core.generation
      && (forall i :: |s.sent| <= i < |t.sent| && t.sent[i].sender.Some? ==>
        t.sent[i].sender.value.generation >= s.core.generation)
    decreases |ops|
  {
    hide Live, Step;
    RunKeepsInv(s, ops);
    if ops != [] {
      var u := Step(s, ops[0]);
      StepLogs(s, ops[0]);
      GenerationRises(s, ops[0]);
      StepKeepsLive(s, ops[0]);
      StepKeepsLogged(s, ops[0]);
      NothingAfterReplaced(u, ops[1..]);
      var t := Run(s, ops);
      forall i | |s.sent| <= i < |t.sent| && t.sent[i].sender.Some?
        ensures t.sent[i].sender.value.generation >= s.core.generation
      {
        assert t.sent[i] in t.sent;
        assert i < |u.sent| ==> t.sent[i] == u.sent[i];
      }
    }
  }

  // ----- Where it falls short

  /** A guard that finds no service. */
  function Unserved(k: nat, left: nat): seq<Op> {
    if left == 0 then [] else [Looks(k), Sees(k, false)] + Unserved(k, left - 1)
  }

  /** The guard has given up after the checks it had left. */
  function Gave(s: State, k: nat): State
    requires k < |s.tasks| && s.tasks[k].Confirms?
  {
    var t := s.tasks[k];
    s.(tasks := s.tasks[k := RevertWaits(t.watch, t.stage)],
       checks := s.checks + seq(t.left, _ => Check(t.watch.generation, t.stage, false)))
  }

  lemma {:induction false} UnservedReverts(s: State, k: nat, rest: seq<Op>)
    requires k < |s.tasks| && s.tasks[k].Confirms? && !s.tasks[k].asked && s.tasks[k].left > 0
    requires s.tasks[k].watch.generation == s.core.generation
    requires LegalRun(Gave(s, k), rest)
    ensures var t := Gave(s, k);
      var ops := Unserved(k, s.tasks[k].left) + rest;
      LegalRun(s, ops) && Run(s, ops) == Run(t, rest)
    decreases s.tasks[k].left
  {
    var ops := Unserved(k, s.tasks[k].left) + rest;
    var after := Unserved(k, s.tasks[k].left - 1) + rest;
    assert ops == [Looks(k), Sees(k, false)] + after;
    assert ops[0] == Looks(k) && ops[1..][0] == Sees(k, false) && ops[1..][1..] == after;
    var s1 := Step(s, Looks(k));
    var s2 := Step(s1, Sees(k, false));
    if s.tasks[k].left > 1 {
      assert s2.tasks == s.tasks[k := s.tasks[k].(left := s.tasks[k].left - 1)];
      var waits := RevertWaits(s.tasks[k].watch, s.tasks[k].stage);
      assert s2.tasks[k := waits] == s.tasks[k := waits];
      assert Gave(s2, k).checks == Gave(s, k).checks;
      UnservedReverts(s2, k, rest);
    } else {
      assert after == rest;
      assert s2.tasks == s.tasks[k := RevertWaits(s.tasks[k].watch, s.tasks[k].stage)];
      assert s2.checks == Gave(s, k).checks;
    }
  }

  /** The run of `LostAnswerHidesALock`: the second lock takes effect, but its answer does not arrive. */
  function LostAnswer(first: Call, second: Call): seq<Op> {
    [CallsLock(first), Acquires(0), Answers(0, Accepted, true), CallsLock(second)] + Unserved(1, 5) +
    [Acquires(1), Answers(1, Accepted, true), Acquires(2), Answers(2, Lost, true), Acquires(1)]
  }

  /**
   A lock whose answer is lost starts no generation, even if the modem took it. A guard that was at work
   then ends in "reverted" although the modem is locked.
   */
  lemma LostAnswerHidesALock(a: Entry)
    ensures var call := Call([a], [], false, true);
      var s := Boot([], Loaded, []);
      && LegalRun(s, LostAnswer(call, call))
      && Run(s, LostAnswer(call, call)).core.guard.Reverted?
      && Run(s, LostAnswer(call, call)).modem == [a]
  {
    var call := Call([a], [], false, true);
    var w := Watch(call, [], 1, [], false);
    var s0 := Boot([], Loaded, []);
    var locked := Core([], true, [], false, Temporary, Checking, 1);
    var s1 := State(locked, None, [Over, Confirms(w, First, 5, false), LockWaits(call)], [a], [a], true, Some(1),
                    [Command([a], None, 0, 0)], [], []);
    var end := [Acquires(1), Answers(1, Accepted, true), Acquires(2), Answers(2, Lost, true), Acquires(1)];
    var start := [CallsLock(call), Acquires(0), Answers(0, Accepted, true), CallsLock(call)];
    var middle := Unserved(1, 5) + end;
    LockedStart(call, a);
    var s2 := Gave(s1, 1);
    LockedEnd(s2, call, w, a);
    UnservedReverts(s1, 1, end);
    RunConcat(s0, start, middle);
    assert start + middle == LostAnswer(call, call);
  }

  lemma LockedStart(call: Call, a: Entry)
    requires call == Call([a], [], false, true)
    ensures var ops := [CallsLock(call), Acquires(0), Answers(0, Accepted, true), CallsLock(call)];
      var w := Watch(call, [], 1, [], false);
      && LegalRun(Boot([], Loaded, []), ops)
      && Run(Boot([], Loaded, []), ops) == State(Core([], true, [], false, Temporary, Checking, 1), None,
        [Over, Confirms(w, First, 5, false), LockWaits(call)], [a], [a], true, Some(1),
        [Command([a], None, 0, 0)], [], [])
  {
    var ops := [CallsLock(call), Acquires(0), Answers(0, Accepted, true), CallsLock(call)];
    var s0 := Boot([], Loaded, []);
    var s1 := s0.(tasks := [LockWaits(call)]);
    var s2 := s1.(tasks := [LockSent(call)], holder := Some(0), sent := [Command([a], None, 0, 0)]);
    var core := Core([], true, [], false, Temporary, Checking, 1);
    var w := Watch(call, [], 1, [], false);
    var s3 := State(core, None, [Over, Confirms(w, First, 5, false)], [a], [a], true, Some(1), s2.sent, [], []);
    assert Step(s0, ops[0]) == s1 && Step(s1, ops[1]) == s2 && Step(s2, ops[2]) == s3;
    var s4 := s3.(tasks := s3.tasks + [LockWaits(call)]);
    assert s4.tasks == [Over, Confirms(w, First, 5, false), LockWaits(call)];
    assert Step(s3, ops[3]) == s4;
    assert Legal(s0, ops[0]) && Legal(s1, ops[1]) && Legal(s2, ops[2]) && Legal(s3, ops[3]);
    hide Step, Legal, Boot;
    assert ops[1..][0] == ops[1] && ops[1..][1..] == ops[2..] && ops[2..][0] == ops[2] && ops[2..][1..] == ops[3..];
    assert ops[3..][0] == ops[3] && ops[3..][1..] == [];
    assert LegalRun(s4, []) && Run(s4, []) == s4;
    assert LegalRun(s3, ops[3..]) && Run(s3, ops[3..]) == s4;
    assert LegalRun(s2, ops[2..]) && Run(s2, ops[2..]) == s4;
  }

  lemma GuardSends(s: State, s1: State, call: Call, w: Watch)
    requires w.back == [] && w.generation == s.core.generation && s.holder == None
    requires s.tasks == [Over, RevertWaits(w, First), LockWaits(call)]
    requires s1 == s.(tasks := [Over, RevertSent(w, First), LockWaits(call)], holder := Some(1),
                      sent := s.sent + [Command([], Some(w), s.core.generation, |s.checks|)])
    ensures Legal(s, Acquires(1)) && Step(s, Acquires(1)) == s1
  {
  }

  lemma GuardUnlocks(s1: State, s2: State, call: Call, w: Watch)
    requires w.back == [] && s1.tasks == [Over, RevertSent(w, First), LockWaits(call)]
    requires s2 == s1.(tasks := [Over, SaveWaits(w.(restored := true)), LockWaits(call)], holder := None,
                       modem := [], accepted := [], quiet := true)
    ensures Legal(s1, Answers(1, Accepted, true)) && Step(s1, Answers(1, Accepted, true)) == s2
  {
  }

  lemma LockedEnd(s: State, call: Call, w: Watch, a: Entry)
    requires call == Call([a], [], false, true) && w == Watch(call, [], 1, [], false)
    requires s.core == Core([], true, [], false, Temporary, Checking, 1) && s.holder == None
    requires s.tasks == [Over, RevertWaits(w, First), LockWaits(call)]
    ensures var ops := [Acquires(1), Answers(1, Accepted, true), Acquires(2), Answers(2, Lost, true), Acquires(1)];
      LegalRun(s, ops) && Run(s, ops).core.guard.Reverted? && Run(s, ops).modem == [a]
  {
    var ops := [Acquires(1), Answers(1, Accepted, true), Acquires(2), Answers(2, Lost, true), Acquires(1)];
    var s1 := s.(tasks := [Over, RevertSent(w, First), LockWaits(call)], holder := Some(1),
                 sent := s.sent + [Command([], Some(w), 1, |s.checks|)]);
    var s2 := s1.(tasks := [Over, SaveWaits(w.(restored := true)), LockWaits(call)], holder := None,
                  modem := [], accepted := [], quiet := true);
    GuardSends(s, s1, call, w);
    GuardUnlocks(s1, s2, call, w);
    LostLockEnd(s2, call, w.(restored := true), a);
    hide Step, Legal;
    assert ops[1..][0] == ops[1] && ops[1..][1..] == ops[2..];
    assert ops[2..] == [Acquires(2), Answers(2, Lost, true), Acquires(1)];
  }

  lemma LockIsSent(s: State, s1: State, call: Call, w: Watch)
    requires s.holder == None && s.tasks == [Over, SaveWaits(w), LockWaits(call)]
    requires s1 == s.(tasks := [Over, SaveWaits(w), LockSent(call)], holder := Some(2),
                      sent := s.sent + [Command(call.entries, None, s.core.generation, |s.checks|)])
    ensures Legal(s, Acquires(2)) && Step(s, Acquires(2)) == s1
  {
  }

  lemma LockIsLost(s1: State, s2: State, call: Call, w: Watch)
    requires s1.tasks == [Over, SaveWaits(w), LockSent(call)]
    requires s2 == s1.(tasks := [Over, SaveWaits(w), Over], holder := None, modem := call.entries,
                       quiet := s1.quiet && s1.modem == call.entries)
    ensures Legal(s1, Answers(2, Lost, true)) && Step(s1, Answers(2, Lost, true)) == s2
  {
  }

  lemma LostLockEnd(s: State, call: Call, w: Watch, a: Entry)
    requires call == Call([a], [], false, true) && w == Watch(call, [], 1, [], true)
    requires s.core == Core([], true, [], false, Temporary, Checking, 1) && s.holder == None
    requires s.tasks == [Over, SaveWaits(w), LockWaits(call)]
    ensures var ops := [Acquires(2), Answers(2, Lost, true), Acquires(1)];
      LegalRun(s, ops) && Run(s, ops).core.guard.Reverted? && Run(s, ops).modem == [a]
  {
    var ops := [Acquires(2), Answers(2, Lost, true), Acquires(1)];
    var s1 := s.(tasks := [Over, SaveWaits(w), LockSent(call)], holder := Some(2),
                 sent := s.sent + [Command([a], None, 1, |s.checks|)]);
    var s2 := s1.(tasks := [Over, SaveWaits(w), Over], holder := None, modem := [a],
                  quiet := s1.quiet && s1.modem == [a]);
    LockIsSent(s, s1, call, w);
    LockIsLost(s1, s2, call, w);
    GuardEnds(s2, w);
    var s3 := Step(s2, ops[2]);
    hide Step, Legal;
    assert ops[1..][0] == ops[1] && ops[1..][1..] == ops[2..] && ops[2..][0] == ops[2] && ops[2..][1..] == [];
    assert Run(s3, []) == s3 && LegalRun(s3, []);
  }

  lemma GuardEnds(s: State, w: Watch)
    requires w.generation == 1 && w.restored && w.back == []
    requires s.core == Core([], true, [], false, Temporary, Checking, 1) && s.holder == None
    requires |s.tasks| == 3 && s.tasks[1] == SaveWaits(w)
    ensures Legal(s, Acquires(1))
    ensures var t := Step(s, Acquires(1)); t.core.guard.Reverted? && t.modem == s.modem
  {
  }

  lemma {:induction false} RunConcat(s: State, a: seq<Op>, b: seq<Op>)
    requires LegalRun(s, a) && LegalRun(Run(s, a), b)
    ensures LegalRun(s, a + b) && Run(s, a + b) == Run(Run(s, a), b)
    decreases |a|
  {
    hide Step, Legal;
    if a == [] {
      assert a + b == b;
    } else {
      assert (a + b)[0] == a[0] && (a + b)[1..] == a[1..] + b;
      RunConcat(Step(s, a[0]), a[1..], b);
    }
  }
}
