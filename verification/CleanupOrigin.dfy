/** Where the deletion commands come from: nothing is deleted but parts of messages that were scheduled. */
module CleanupOrigin {
  import opened Common
  import opened Inbox
  import opened Cleanup
  import opened CleanupRun
  import Detector

  /** The receipt is one of these, with its parts or with what is left of them. */
  predicate From(origins: seq<Receipt>, r: Receipt) {
    exists o :: o in origins && o.id == r.id && o.delivered == r.delivered && forall p :: p in r.parts ==> p in o.parts
  }

  predicate AllFrom(origins: seq<Receipt>, receipts: seq<Receipt>) {
    forall r :: r in receipts ==> From(origins, r)
  }

  /** Everything in memory, on disk and in the hands of the cleanup has an origin, and so had everything deleted. */
  predicate Known(origins: seq<Receipt>, s: State) {
    && AllFrom(origins, s.receipts) && AllFrom(origins, s.disk)
    && (s.phase.Flushing? ==> AllFrom(origins, s.phase.content))
    && (s.phase.Reading? || s.phase.Deleting? ==> AllFrom(origins, s.phase.due))
    && forall d :: d in s.sent ==> From(origins, d.receipt)
  }

  lemma {:induction false} SelectIsKnown(origins: seq<Receipt>, s: State, receipts: seq<Receipt>, now: int, stamp: nat)
    requires AllFrom(origins, receipts)
    ensures AllFrom(origins, Select(s, receipts, now, stamp))
  {
    hide From, Aged;
    if receipts != [] {
      assert forall r :: r in receipts[1..] ==> r in receipts;
      SelectIsKnown(origins, s, receipts[1..], now, stamp);
    }
  }

  /** What remains of a receipt after a sweep are parts it had. */
  lemma SweepLeavesParts(identity: Detector.Identity, entries: seq<Entry>, parts: seq<Part>, answers: nat -> bool)
    ensures forall p :: p in Sweep(identity, entries, parts, answers, 0, false).remaining ==> p in parts
  {
    SweepStopsAtRefusal(identity, entries, parts, answers, 0, false);
    assert parts[0..] == parts;
    hide Present, Sweep;
    var r := Sweep(identity, entries, parts, answers, 0, false);
    var listed := Listed(identity, entries, parts);
    forall p | p in r.remaining
      ensures p in parts
    {
      assert p in listed;
    }
  }

  lemma {:induction false} LogIsKnown(origins: seq<Receipt>, s: State, parts: seq<Part>)
    requires s.phase.Deleting? && s.phase.due != [] && From(origins, s.phase.due[0])
    ensures forall d :: d in Log(s, parts) ==> From(origins, d.receipt)
  {
    hide From;
    if parts != [] {
      LogIsKnown(origins, s, parts[1..]);
    }
  }

  lemma SettleIsKnown(origins: seq<Receipt>, s: State, r: Receipt, remaining: seq<Part>)
    requires AllFrom(origins, s.receipts) && From(origins, r)
    requires Distinct(s.receipts) && r in s.receipts && forall p :: p in remaining ==> p in r.parts
    ensures AllFrom(origins, Settle(s, r.id, remaining).receipts)
  {
    var k := Position(s.receipts, r.id);
    var i :| 0 <= i < |s.receipts| && s.receipts[i] == r;
    assert k == i;
    var t := Settle(s, r.id, remaining);
    assert From(origins, r.(parts := remaining));
    hide From;
    assert forall q :: q in t.receipts ==> q in s.receipts || q == r.(parts := remaining);
  }

  lemma DeleteIsKnown(origins: seq<Receipt>, s: State, identity: Detector.Identity, answers: nat -> bool)
    requires Known(origins, s) && Inv(s, identity) && s.phase.Deleting?
    ensures Known(origins, DeleteNext(s, identity, answers))
  {
    hide From, Sweep, Log, Justified, Settle;
    if s.phase.due != [] {
      var r := s.phase.due[0];
      assert r in s.phase.due && Cleared(s, r, s.phase.now, s.phase.stamp);
      var swept := Sweep(identity, s.phase.entries, r.parts, answers, 0, false);
      LogIsKnown(origins, s, swept.sent);
      SweepLeavesParts(identity, s.phase.entries, r.parts, answers);
      var s1 := s.(sent := s.sent + Log(s, swept.sent));
      SettleIsKnown(origins, s1, r, swept.remaining);
      SettleChangesReceipts(s1, r.id, swept.remaining);
      assert forall q :: q in s.phase.due[1..] ==> q in s.phase.due;
    }
  }

  lemma SettleChangesReceipts(s: State, id: nat, remaining: seq<Part>)
    ensures var t := Settle(s, id, remaining);
      t == s.(receipts := t.receipts, ages := t.ages, generation := t.generation)
  {
  }

  lemma CrashIsKnown(origins: seq<Receipt>, s: State, identity: Detector.Identity, op: Op)
    requires Known(origins, s) && op.Restarted?
    ensures Known(origins, Crash(s, identity, op.wall, op.at, op.readable, op.answers, op.done))
  {
    hide From, Sweep, Log;
    if s.phase.Deleting? && s.phase.due != [] {
      assert s.phase.due[0] in s.phase.due;
      var sent := Sweep(identity, s.phase.entries, s.phase.due[0].parts, op.answers, 0, false).sent;
      LogIsKnown(origins, s, sent[..Min(op.done, |sent|)]);
    }
  }

  lemma BeginIsKnown(origins: seq<Receipt>, s: State, now: int, at: nat)
    requires Known(origins, s) && s.mono <= at
    ensures Known(origins, Begin(s, now, at))
  {
    var t := Check(s, now, at);
    assert t == s.(ages := t.ages, wall := t.wall, mono := t.mono, warning := t.warning, steps := t.steps);
    SelectIsKnown(origins, t, t.receipts, now, at);
    hide From, Check, Select;
  }

  lemma StepIsKnown(origins: seq<Receipt>, s: State, identity: Detector.Identity, op: Op)
    requires Known(origins, s) && Inv(s, identity) && Legal(s, op)
    requires op.Scheduled? ==> op.receipt in origins
    ensures Known(origins, Step(s, identity, op))
  {
    hide Inv, Begin, DeleteNext, Crash;
    match op
    case Scheduled(r, at) => assert From(origins, r);
    case RunStarts(now, at) => BeginIsKnown(origins, s, now, at);
    case NextReceipt(answers) => DeleteIsKnown(origins, s, identity, answers);
    case Restarted(_, _, _, _, _) => CrashIsKnown(origins, s, identity, op);
    case _ => hide From;
  }

  predicate ScheduledFrom(origins: seq<Receipt>, ops: seq<Op>) {
    forall i :: 0 <= i < |ops| && ops[i].Scheduled? ==> ops[i].receipt in origins
  }

  lemma {:induction false} RunIsKnown(origins: seq<Receipt>, s: State, identity: Detector.Identity, ops: seq<Op>)
    requires Known(origins, s) && Inv(s, identity) && LegalRun(s, identity, ops) && ScheduledFrom(origins, ops)
    ensures Known(origins, Run(s, identity, ops))
    decreases |ops|
  {
    hide Inv, Known, Step, Legal;
    if ops != [] {
      StepIsKnown(origins, s, identity, ops[0]);
      StepKeepsInv(s, identity, ops[0]);
      RunIsKnown(origins, Step(s, identity, ops[0]), identity, ops[1..]);
    }
  }

  /** The deleted part belongs to a receipt of `origins`, with the same id and the same time of delivery. */
  predicate Covered(origins: seq<Receipt>, d: Deletion) {
    exists o :: o in origins && Covers(o, d)
  }

  predicate Covers(o: Receipt, d: Deletion) {
    o.id == d.receipt.id && o.delivered == d.receipt.delivered && d.part in o.parts
  }

  /**
   Over every run, restarts included: every deletion command was for a part of a receipt that was scheduled
   in this run, or was on disk when it began, with the same id and the same time of delivery.
   */
  lemma EveryDeletionWasScheduled(disk: seq<Receipt>, scheduled: seq<Receipt>, wall: int, at: nat,
                                  readable: bool, identity: Detector.Identity, ops: seq<Op>)
    requires Distinct(disk) && LegalRun(Boot(disk, wall, at, readable), identity, ops) && ScheduledFrom(scheduled, ops)
    ensures var s := Run(Boot(disk, wall, at, readable), identity, ops);
      forall d :: d in s.sent ==> Covered(disk + scheduled, d)
  {
    var s := Boot(disk, wall, at, readable);
    var origins := disk + scheduled;
    forall r | r in disk
      ensures From(origins, r)
    {
      assert r in origins;
    }
    RebootKeepsInv(State([], 0, 0, map[], 0, 0, false, Idle, [], disk, map[], [], []), identity, wall, at, readable);
    assert ScheduledFrom(origins, ops) by {
      assert forall r :: r in scheduled ==> r in origins;
    }
    RunIsKnown(origins, s, identity, ops);
    RunKeepsInv(s, identity, ops);
    var t := Run(s, identity, ops);
    hide Run, Boot;
    forall d | d in t.sent
      ensures Covered(origins, d)
    {
      assert From(origins, d.receipt) && Justified(identity, d);
    }
  }
}
