/**
 Whole runs of the deletion of forwarded messages: scheduling, cancelling, writing, deleting and
 restarting in any order the locks allow.
 */
module CleanupRun {
  import opened Common
  import opened Inbox
  import opened Store
  import opened Cleanup
  import Detector

  datatype Op =
    | Scheduled(receipt: Receipt, at: nat)
    | Cancelled
    | WriteStarts
    | WriteEnds(outcome: Written)
    | RunStarts(now: int, at: nat)
    | ListingRead(entries: Option<seq<Entry>>)
    | NextReceipt(answers: nat -> bool)
    | Restarted(wall: int, at: nat, readable: bool, answers: nat -> bool, done: nat)

  /** No instant the state knows is after this one. */
  predicate NotAfter(s: State, at: nat) {
    s.mono <= at && forall id :: id in s.ages ==> s.ages[id] <= at
  }

  /**
   Cancelling needs the lock that a deletion run holds; writing and deleting are one task, one after the
   other; the monotonic clock of one process does not go back. A restart may come at any moment.
   */
  predicate Legal(s: State, op: Op) {
    match op
    case Scheduled(_, at) => s.mono <= at
    case Cancelled => s.phase.Idle? || s.phase.Flushing?
    case WriteStarts => s.phase.Idle?
    case WriteEnds(_) => s.phase.Flushing?
    case RunStarts(_, at) => s.phase.Idle? && NotAfter(s, at)
    case ListingRead(_) => s.phase.Reading?
    case NextReceipt(_) => s.phase.Deleting?
    case Restarted(_, _, _, _, _) => true
  }

  /** The process ends after `done` of the deletions of the receipt in hand, and a new one starts. */
  function Crash(s: State, identity: Detector.Identity, wall: int, at: nat, readable: bool, answers: nat -> bool,
                 done: nat)
    : State
  {
    if s.phase.Deleting? && s.phase.due != [] then
      var sent := Sweep(identity, s.phase.entries, s.phase.due[0].parts, answers, 0, false).sent;
      Reboot(s.(sent := s.sent + Log(s, sent[..Min(done, |sent|)])), wall, at, readable)
    else Reboot(s, wall, at, readable)
  }

  function Step(s: State, identity: Detector.Identity, op: Op): State
    requires Legal(s, op)
  {
    match op
    case Scheduled(r, at) => Schedule(s, r, at)
    case Cancelled => Cancel(s)
    case WriteStarts => FlushStart(s)
    case WriteEnds(w) => FlushDone(s, w)
    case RunStarts(now, at) => Begin(s, now, at)
    case ListingRead(e) => Listing(s, e)
    case NextReceipt(answers) => DeleteNext(s, identity, answers)
    case Restarted(wall, at, readable, answers, done) => Crash(s, identity, wall, at, readable, answers, done)
  }

  predicate LegalRun(s: State, identity: Detector.Identity, ops: seq<Op>)
    decreases |ops|
  {
    ops == [] || (Legal(s, ops[0]) && LegalRun(Step(s, identity, ops[0]), identity, ops[1..]))
  }

  function Run(s: State, identity: Detector.Identity, ops: seq<Op>): State
    requires LegalRun(s, identity, ops)
    decreases |ops|
  {
    if ops == [] then s else Run(Step(s, identity, ops[0]), identity, ops[1..])
  }

  predicate Distinct(receipts: seq<Receipt>) {
    forall i, j :: 0 <= i < j < |receipts| ==> receipts[i].id != receipts[j].id
  }

  /** Everything a deletion command needs to be allowed. */
  predicate Justified(identity: Detector.Identity, d: Deletion) {
    && d.receipt in d.stored && d.receipt in d.disk
    && d.part in d.receipt.parts
    && d.now - d.receipt.delivered >= 86400
    && d.stamp >= d.since + DAY
    && (forall step :: step in d.steps ==> step + DAY <= d.stamp)
    && Present(identity, d.entries, d.part)
  }

  /** A receipt a deletion run has taken on and not yet settled. */
  predicate Cleared(s: State, r: Receipt, now: int, stamp: nat) {
    && r in s.receipts && r in s.stored && r in s.disk
    && now - r.delivered >= 86400
    && r.id in s.since && stamp >= s.since[r.id] + DAY
    && forall step :: step in s.steps ==> step + DAY <= stamp
  }

  predicate AllCleared(s: State, due: seq<Receipt>, now: int, stamp: nat) {
    Distinct(due) && forall r :: r in due ==> Cleared(s, r, now, stamp)
  }

  predicate Bounded(receipts: seq<Receipt>) {
    && |receipts| <= MAX_RECEIPTS && PartCount(receipts) <= MAX_PARTS
    && forall r :: r in receipts ==> r.parts != []
  }

  /** The receipts in memory: within capacity, one per id, and each with an age. */
  predicate Sound(s: State) {
    Distinct(s.receipts) && Bounded(s.receipts) && s.ages.Keys == Ids(s.receipts)
  }

  /** A generation that was saved is what the receipts, and the file, still are. */
  predicate Saved(s: State) {
    && s.saved <= s.generation && Distinct(s.disk)
    && (s.saved == s.generation ==> s.stored == s.receipts && (s.receipts == [] || s.disk == s.receipts))
  }

  /** No age is older than the receipt's arrival here or than the last wall-clock step. */
  predicate Timed(s: State) {
    && (forall id :: id in s.ages ==> id in s.since && s.since[id] <= s.ages[id])
    && (forall id, step :: id in s.ages && step in s.steps ==> step <= s.ages[id])
    && (forall step :: step in s.steps ==> step <= s.mono)
  }

  predicate Busy(s: State) {
    match s.phase
    case Idle => true
    case Flushing(g, content) =>
      s.saved < g <= s.generation && Distinct(content) && (g == s.generation ==> content == s.receipts)
    case Reading(due, now, stamp) => AllCleared(s, due, now, stamp)
    case Deleting(due, now, stamp, _) => AllCleared(s, due, now, stamp)
  }

  predicate Inv(s: State, identity: Detector.Identity) {
    && Sound(s) && Saved(s) && Timed(s) && Busy(s)
    && forall d :: d in s.sent ==> Justified(identity, d)
  }

  // ----- Small facts

  lemma {:induction false} PartCountConcat(a: seq<Receipt>, b: seq<Receipt>)
    ensures PartCount(a + b) == PartCount(a) + PartCount(b)
  {
    if a == [] {
      assert a + b == b;
    } else {
      assert (a + b)[1..] == a[1..] + b;
      PartCountConcat(a[1..], b);
    }
  }

  /** Taking a receipt out, or replacing it by one with no more parts, keeps the capacity. */
  lemma PartCountWithout(receipts: seq<Receipt>, k: nat)
    requires k < |receipts|
    ensures PartCount(receipts) == PartCount(receipts[..k] + receipts[k + 1..]) + |receipts[k].parts|
  {
    assert receipts == receipts[..k] + (receipts[k..k + 1] + receipts[k + 1..]);
    PartCountConcat(receipts[..k], receipts[k..k + 1] + receipts[k + 1..]);
    PartCountConcat(receipts[k..k + 1], receipts[k + 1..]);
    PartCountConcat(receipts[..k], receipts[k + 1..]);
    assert PartCount(receipts[k..k + 1]) == |receipts[k].parts|;
  }

  lemma {:induction false} SelectIsAged(s: State, receipts: seq<Receipt>, now: int, stamp: nat)
    requires Distinct(receipts)
    ensures var due := Select(s, receipts, now, stamp);
      Distinct(due) && forall r :: r in due <==> r in receipts && Aged(s, r, now, stamp)
  {
    if receipts != [] {
      var due := Select(s, receipts[1..], now, stamp);
      SelectIsAged(s, receipts[1..], now, stamp);
      assert receipts == [receipts[0]] + receipts[1..];
      assert forall r :: r in receipts[1..] ==> r.id != receipts[0].id;
      assert forall i :: 0 <= i < |due| ==> due[i] in due;
    }
  }

  /** The last of `sent` is the first of `remaining`; together they make up `listed`. */
  predicate Split(listed: seq<Part>, sent: seq<Part>, remaining: seq<Part>) {
    && sent != [] && remaining != [] && remaining[0] == sent[|sent| - 1]
    && listed == sent + remaining[1..]
  }

  /**
   Going through the parts of one receipt: with P the parts still listed, in order, the commands are P up
   to the first refusal, and what remains is P from that refusal on. Parts no longer listed are dropped.
   */
  lemma {:induction false} SweepStopsAtRefusal(identity: Detector.Identity, entries: seq<Entry>, parts: seq<Part>,
                                               answers: nat -> bool, from: nat, failed: bool)
    requires from <= |parts|
    ensures var r := Sweep(identity, entries, parts, answers, from, failed);
      var listed := Listed(identity, entries, parts[from..]);
      && (failed ==> r.sent == [] && r.remaining == listed && r.failed)
      && (!failed && !r.failed ==> r.sent == listed && r.remaining == [])
      && (!failed && r.failed ==> Split(listed, r.sent, r.remaining))
    decreases |parts| - from
  {
    hide Present;
    if from < |parts| {
      assert parts[from..][0] == parts[from] && parts[from..][1..] == parts[from + 1..];
      var stays := Present(identity, entries, parts[from]);
      SweepStopsAtRefusal(identity, entries, parts, answers, from + 1, failed || (stays && !answers(from)));
    }
  }

  /** The parts that the listing still holds. */
  function Listed(identity: Detector.Identity, entries: seq<Entry>, parts: seq<Part>): (r: seq<Part>)
    ensures forall p :: p in r <==> p in parts && Present(identity, entries, p)
    ensures |r| <= |parts|
  {
    if parts == [] then []
    else (if Present(identity, entries, parts[0]) then [parts[0]] else []) + Listed(identity, entries, parts[1..])
  }

  /** The commands of a sweep are for parts of the receipt that are listed; what remains is no longer. */
  lemma SweepIsListed(identity: Detector.Identity, entries: seq<Entry>, parts: seq<Part>, answers: nat -> bool)
    ensures var r := Sweep(identity, entries, parts, answers, 0, false);
      (forall p :: p in r.sent ==> p in parts && Present(identity, entries, p)) && |r.remaining| <= |parts|
  {
    SweepStopsAtRefusal(identity, entries, parts, answers, 0, false);
    assert parts[0..] == parts;
    hide Present, Sweep;
    var r := Sweep(identity, entries, parts, answers, 0, false);
    var listed := Listed(identity, entries, parts);
    assert forall p :: p in r.sent ==> p in listed;
  }

  /** Every command logged for listed parts of a cleared receipt is justified. */
  lemma {:induction false} LogIsJustified(s: State, identity: Detector.Identity, parts: seq<Part>)
    requires s.phase.Deleting? && s.phase.due != []
    requires Cleared(s, s.phase.due[0], s.phase.now, s.phase.stamp)
    requires forall p :: p in parts ==> p in s.phase.due[0].parts && Present(identity, s.phase.entries, p)
    ensures forall d :: d in Log(s, parts) ==> Justified(identity, d)
  {
    hide Present;
    if parts != [] {
      assert forall p :: p in parts[1..] ==> p in parts;
      LogIsJustified(s, identity, parts[1..]);
    }
  }

  // ----- Each step

  /** A receipt that arrives does not disturb what the cleanup is doing. */
  lemma ArriveKeepsBusy(s: State, r: Receipt, at: nat)
    requires Busy(s) && Saved(s) && forall q :: q in s.receipts ==> q.id != r.id
    ensures Busy(Arrive(s, r, at))
  {
    var t := Arrive(s, r, at);
    assert forall q, now, stamp :: Cleared(s, q, now, stamp) ==> Cleared(t, q, now, stamp);
  }

  lemma ScheduleKeepsInv(s: State, identity: Detector.Identity, r: Receipt, at: nat)
    requires Inv(s, identity) && s.mono <= at
    ensures Inv(Schedule(s, r, at), identity)
  {
    if Accepts(s.receipts, r) {
      ScheduleKeepsSound(s, r);
      ArriveKeepsBusy(s, r, at);
      hide Justified, Ids, Distinct, Bounded, Busy, Accepts;
      var t := Arrive(s, r, at);
      assert Sound(t) && Saved(t);
      assert Timed(t);
    }
  }

  lemma ScheduleKeepsSound(s: State, r: Receipt)
    requires Sound(s) && Accepts(s.receipts, r)
    ensures var next := s.receipts + [r];
      && Distinct(next) && Bounded(next) && Ids(next) == Ids(s.receipts) + {r.id} && r.id !in Ids(s.receipts)
      && forall q :: q in s.receipts ==> q in next && q.id != r.id
  {
    var next := s.receipts + [r];
    PartCountConcat(s.receipts, [r]);
    assert next[|s.receipts|] == r;
    assert forall i :: 0 <= i < |s.receipts| ==> next[i] == s.receipts[i];
  }

  lemma CancelKeepsInv(s: State, identity: Detector.Identity)
    requires Inv(s, identity) && (s.phase.Idle? || s.phase.Flushing?)
    ensures Inv(Cancel(s), identity)
  {
    hide Justified;
  }

  lemma FlushKeepsInv(s: State, identity: Detector.Identity, w: Written)
    requires Inv(s, identity)
    ensures s.phase.Idle? ==> Inv(FlushStart(s), identity)
    ensures s.phase.Flushing? ==> Inv(FlushDone(s, w), identity)
  {
    hide Justified, PartCount;
  }

  lemma CheckKeepsTimed(s: State, now: int, at: nat)
    requires Timed(s) && NotAfter(s, at)
    ensures var t := Check(s, now, at);
      && Timed(t) && t.ages.Keys == s.ages.Keys && t.mono == at
      && t == s.(ages := t.ages, wall := t.wall, mono := t.mono, warning := t.warning, steps := t.steps)
  {
    hide Diverged;
    var ages := if Diverged(s, now, at) then Restart(s.ages, at) else s.ages;
    assert ages.Keys == s.ages.Keys && forall id :: id in ages ==>
      ages[id] == (if Diverged(s, now, at) then at else s.ages[id]);
    hide Restart;
  }

  lemma CheckKeepsInv(s: State, identity: Detector.Identity, now: int, at: nat)
    requires Inv(s, identity) && s.phase.Idle? && NotAfter(s, at)
    ensures var t := Check(s, now, at);
      Inv(t, identity) && t == t.(receipts := s.receipts, phase := s.phase) && t.mono == at
  {
    CheckKeepsTimed(s, now, at);
    hide Justified, Check, Timed, Distinct, Bounded, Ids;
  }

  lemma DueIsCleared(s: State, now: int, at: nat)
    requires Sound(s) && Saved(s) && Timed(s) && s.saved == s.generation
    ensures AllCleared(s, Select(s, s.receipts, now, at), now, at)
  {
    hide Bounded, Ids;
    SelectIsAged(s, s.receipts, now, at);
    hide Select, Distinct;
    var due := Select(s, s.receipts, now, at);
    forall r | r in due
      ensures Cleared(s, r, now, at)
    {
      assert r in s.receipts && Aged(s, r, now, at);
    }
  }

  lemma BeginKeepsInv(s: State, identity: Detector.Identity, now: int, at: nat)
    requires Inv(s, identity) && s.phase.Idle? && NotAfter(s, at)
    ensures Inv(Begin(s, now, at), identity)
  {
    CheckKeepsInv(s, identity, now, at);
    var t := Check(s, now, at);
    var u := Begin(s, now, at);
    if u != t {
      DueIsCleared(t, now, at);
      hide Justified, Check, Select, Distinct, Bounded, Ids;
      assert forall r :: Cleared(t, r, now, at) ==> Cleared(u, r, now, at);
    }
  }

  /** Settling one receipt: what the run still has to do is not touched. */
  lemma SettleKeepsSound(s: State, r: Receipt, remaining: seq<Part>)
    requires Sound(s) && Saved(s) && Timed(s) && r in s.receipts && |remaining| <= |r.parts|
    ensures var t := Settle(s, r.id, remaining);
      && Sound(t) && Saved(t) && Timed(t) && t.generation == s.generation + 1
      && (forall q :: q in s.receipts && q.id != r.id ==> q in t.receipts)
      && t == s.(receipts := t.receipts, ages := t.ages, generation := t.generation)
  {
    var k := Position(s.receipts, r.id);
    var i :| 0 <= i < |s.receipts| && s.receipts[i] == r;
    assert k == i;
    var t := Settle(s, r.id, remaining);
    PartCountWithout(s.receipts, k);
    if remaining == [] {
      RemovedIds(s.receipts, k);
      assert Timed(t);
    } else {
      PartCountWithout(t.receipts, k);
      assert t.receipts[..k] + t.receipts[k + 1..] == s.receipts[..k] + s.receipts[k + 1..];
      UpdatedIds(s.receipts, k, remaining);
    }
  }

  lemma RemovedIds(receipts: seq<Receipt>, k: nat)
    requires Distinct(receipts) && k < |receipts|
    ensures var rest := receipts[..k] + receipts[k + 1..];
      && Distinct(rest) && Ids(rest) == Ids(receipts) - {receipts[k].id}
      && (forall q :: q in rest <==> q in receipts && q.id != receipts[k].id)
  {
    var rest := receipts[..k] + receipts[k + 1..];
    forall i | 0 <= i < |receipts| && i != k
      ensures receipts[i] in rest
    {
      assert rest[if i < k then i else i - 1] == receipts[i];
    }
    forall i | 0 <= i < |rest|
      ensures rest[i] == receipts[if i < k then i else i + 1]
    {
    }
  }

  lemma UpdatedIds(receipts: seq<Receipt>, k: nat, parts: seq<Part>)
    requires Distinct(receipts) && k < |receipts|
    ensures var next := receipts[k := receipts[k].(parts := parts)];
      && Distinct(next) && Ids(next) == Ids(receipts)
      && (forall q :: q in receipts && q.id != receipts[k].id ==> q in next)
      && (forall q :: q in next ==> q in receipts || q.parts == parts)
  {
    var next := receipts[k := receipts[k].(parts := parts)];
    forall i | 0 <= i < |receipts|
      ensures next[i].id == receipts[i].id && (i != k ==> receipts[i] in next)
    {
      assert i != k ==> next[i] == receipts[i];
    }
  }

  lemma DeleteKeepsInv(s: State, identity: Detector.Identity, answers: nat -> bool)
    requires Inv(s, identity) && s.phase.Deleting?
    ensures Inv(DeleteNext(s, identity, answers), identity)
  {
    hide Sweep, Log, PartCount, Justified, Present, Ids, Bounded, Settle;
    if s.phase.due != [] {
      var due := s.phase.due;
      var r := due[0];
      SweepIsListed(identity, s.phase.entries, r.parts, answers);
      var swept := Sweep(identity, s.phase.entries, r.parts, answers, 0, false);
      LogIsJustified(s, identity, swept.sent);
      var s1 := s.(sent := s.sent + Log(s, swept.sent));
      SettleKeepsSound(s1, r, swept.remaining);
      assert forall q :: q in due[1..] ==> q in due && q.id != r.id;
    }
  }

  lemma RebootKeepsInv(s: State, identity: Detector.Identity, wall: int, at: nat, readable: bool)
    requires Distinct(s.disk) && forall d :: d in s.sent ==> Justified(identity, d)
    ensures Inv(Reboot(s, wall, at, readable), identity)
  {
    hide Justified;
    assert PartCount([]) == 0;
    hide PartCount;
    assert Loadable(s.disk) ==> forall r :: r in s.disk ==> r.parts != [];
  }

  lemma CrashKeepsInv(s: State, identity: Detector.Identity, wall: int, at: nat, readable: bool, answers: nat -> bool,
                      done: nat)
    requires Inv(s, identity)
    ensures Inv(Crash(s, identity, wall, at, readable, answers, done), identity)
  {
    hide Sweep, Log, PartCount, Justified, Present, Reboot, Sound, Timed;
    if s.phase.Deleting? && s.phase.due != [] {
      var r := s.phase.due[0];
      SweepIsListed(identity, s.phase.entries, r.parts, answers);
      var sent := Sweep(identity, s.phase.entries, r.parts, answers, 0, false).sent;
      var some := sent[..Min(done, |sent|)];
      assert forall p :: p in some ==> p in sent;
      LogIsJustified(s, identity, some);
      RebootKeepsInv(s.(sent := s.sent + Log(s, some)), identity, wall, at, readable);
    } else {
      RebootKeepsInv(s, identity, wall, at, readable);
    }
  }

  /** Every step keeps the invariant. */
  lemma StepKeepsInv(s: State, identity: Detector.Identity, op: Op)
    requires Inv(s, identity) && Legal(s, op)
    ensures Inv(Step(s, identity, op), identity)
  {
    hide Schedule, Cancel, FlushStart, FlushDone, Begin, DeleteNext, Crash, Justified;
    match op
    case Scheduled(r, at) => ScheduleKeepsInv(s, identity, r, at);
    case Cancelled => CancelKeepsInv(s, identity);
    case WriteStarts => FlushKeepsInv(s, identity, Unwritten);
    case WriteEnds(w) => FlushKeepsInv(s, identity, w);
    case RunStarts(now, at) => BeginKeepsInv(s, identity, now, at);
    case ListingRead(_) =>
    case NextReceipt(answers) => DeleteKeepsInv(s, identity, answers);
    case Restarted(wall, at, readable, answers, done) => CrashKeepsInv(s, identity, wall, at, readable, answers, done);
  }

  lemma {:induction false} RunKeepsInv(s: State, identity: Detector.Identity, ops: seq<Op>)
    requires Inv(s, identity) && LegalRun(s, identity, ops)
    ensures Inv(Run(s, identity, ops), identity)
    decreases |ops|
  {
    hide Inv, Step;
    if ops != [] {
      StepKeepsInv(s, identity, ops[0]);
      RunKeepsInv(Step(s, identity, ops[0]), identity, ops[1..]);
    }
  }

  /** A process that has just started, with any file that holds one receipt per id. */
  function Boot(disk: seq<Receipt>, wall: int, at: nat, readable: bool): State {
    Reboot(State([], 0, 0, map[], 0, 0, false, Idle, [], disk, map[], [], []), wall, at, readable)
  }

  /**
   Over every run, restarts included: every deletion command was for a listed part of a receipt that the
   last successful write had put on disk, a day after delivery by the wall clock, a day after the receipt
   came to the process by the monotonic one, with no step of the wall clock seen in that day.
   */
  lemma EveryDeletionIsJustified(disk: seq<Receipt>, wall: int, at: nat, readable: bool, identity: Detector.Identity,
                                 ops: seq<Op>)
    requires Distinct(disk) && LegalRun(Boot(disk, wall, at, readable), identity, ops)
    ensures var s := Run(Boot(disk, wall, at, readable), identity, ops);
      && Sound(s) && forall d :: d in s.sent ==> Justified(identity, d)
  {
    hide Justified, Run;
    var s := Boot(disk, wall, at, readable);
    assert forall r :: r in s.receipts ==> r in disk;
    RunKeepsInv(s, identity, ops);
  }
}
