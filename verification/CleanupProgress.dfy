/**
 What the deletion of forwarded messages does take on, and what it leaves: every receipt that is due, no
 other, and of each just what is still to be deleted.
 */
module CleanupProgress {
  import opened Common
  import opened Inbox
  import opened Store
  import opened Cleanup
  import opened CleanupRun
  import Detector

  // ----- Ages

  /** The age of a receipt began when it came here, or with a step of the wall clock seen since. */
  predicate Counted(s: State) {
    forall id :: id in s.ages ==> id in s.since && (s.ages[id] == s.since[id] || s.ages[id] in s.steps)
  }

  lemma StepKeepsCounted(s: State, identity: Detector.Identity, op: Op)
    requires Counted(s) && Legal(s, op)
    ensures Counted(Step(s, identity, op))
  {
    match op
    case RunStarts(now, at) =>
      CheckKeepsCounted(s, now, at);
      hide Select, Check;
    case NextReceipt(answers) => hide Sweep, Log;
    case Restarted(wall, at, readable, answers, done) => hide Sweep, Log, Loadable;
    case Scheduled(r, at) => hide Accepts;
    case _ =>
  }

  lemma CheckKeepsCounted(s: State, now: int, at: nat)
    requires Counted(s) && s.mono <= at
    ensures Counted(Check(s, now, at)) && Check(s, now, at).since == s.since
  {
    hide Diverged;
    var t := Check(s, now, at);
    if Diverged(s, now, at) {
      assert t.steps[|s.steps|] == at;
    }
  }

  lemma {:induction false} RunKeepsCounted(s: State, identity: Detector.Identity, ops: seq<Op>)
    requires Counted(s) && LegalRun(s, identity, ops)
    ensures Counted(Run(s, identity, ops))
    decreases |ops|
  {
    hide Counted, Step;
    if ops != [] {
      StepKeepsCounted(s, identity, ops[0]);
      RunKeepsCounted(Step(s, identity, ops[0]), identity, ops[1..]);
    }
  }

  // ----- What a run takes on

  /** The wall clock cannot be right, or it moved otherwise than time did, by more than two minutes. */
  predicate ClockStepped(s: State, now: int, at: nat)
    requires s.mono <= at
  {
    var passed := (at - s.mono) / 1_000_000_000;
    now < 1577836800 || now - s.wall > passed + 120 || now - s.wall < passed - 120
  }

  /** A day has passed since `from`, by the clock that does not step. */
  predicate DayOld(from: nat, at: nat) {
    at >= from + 24 * 60 * 60 * 1_000_000_000
  }

  /** The receipt was delivered a day ago, came here a day ago, and no step of the clock was seen in that day. */
  predicate IsDue(s: State, steps: seq<nat>, r: Receipt, now: int, at: nat) {
    && now - r.delivered >= 24 * 60 * 60
    && r.id in s.since && DayOld(s.since[r.id], at)
    && forall step :: step in steps ==> DayOld(step, at)
  }

  /** The user is warned of a step of the clock until everything is a day old again and the clock can be right. */
  predicate Warns(s: State, ages: map<nat, nat>, now: int, at: nat)
    requires s.mono <= at
  {
    && (s.warning || ClockStepped(s, now, at))
    && (now < 1577836800 || exists id :: id in ages && !DayOld(ages[id], at))
  }

  /** What a deletion run that starts now has seen and takes on. */
  ghost predicate TakesOn(s: State, t: State, now: int, at: nat)
    requires s.mono <= at
  {
    && t.steps == (if ClockStepped(s, now, at) then s.steps + [at] else s.steps)
    && t.receipts == s.receipts && t.generation == s.generation && t.saved == s.saved
    && t.warning == Warns(s, t.ages, now, at)
    && (if now < 1577836800 || s.saved != s.generation then t.phase.Idle?
        else if forall r :: r in s.receipts ==> !IsDue(s, t.steps, r, now, at) then t.phase.Idle?
        else
          && t.phase.Reading? && t.phase.now == now && t.phase.stamp == at && Distinct(t.phase.due)
          && forall r :: r in t.phase.due <==> r in s.receipts && IsDue(s, t.steps, r, now, at))
  }

  lemma CheckIs(s: State, now: int, at: nat)
    requires s.mono <= at
    ensures var t := Check(s, now, at);
      && t.steps == (if ClockStepped(s, now, at) then s.steps + [at] else s.steps)
      && t.ages == (if ClockStepped(s, now, at) then Restart(s.ages, at) else s.ages)
      && t.receipts == s.receipts && t.generation == s.generation && t.saved == s.saved && t.since == s.since
      && t.phase == s.phase && t.mono == at && t.wall == now && t.warning == Warns(s, t.ages, now, at)
  {
    var passed := (at - s.mono) / SECOND;
    assert Diverged(s, now, at) <==> ClockStepped(s, now, at);
    hide Diverged, ClockStepped;
  }

  /** Being aged means being due. */
  lemma AgedIsDue(s: State, t: State, r: Receipt, now: int, at: nat)
    requires Sound(s) && Timed(s) && Counted(s) && s.mono <= at && NotAfter(s, at) && r in s.receipts
    requires t == Check(s, now, at)
    ensures Aged(t, r, now, at) <==> IsDue(s, t.steps, r, now, at)
  {
    CheckIs(s, now, at);
    assert r.id in s.ages;
    hide Check, ClockStepped, Sound;
    if ClockStepped(s, now, at) {
      assert t.steps[|s.steps|] == at;
      assert !DayOld(at, at);
    } else {
      assert t.ages[r.id] == s.since[r.id] || t.ages[r.id] in t.steps;
      assert DayOld(t.ages[r.id], at) ==> forall step :: step in t.steps ==> DayOld(step, at);
    }
  }

  lemma BeginTakesOn(s: State, identity: Detector.Identity, now: int, at: nat)
    requires Inv(s, identity) && Counted(s) && s.phase.Idle? && NotAfter(s, at)
    ensures TakesOn(s, Begin(s, now, at), now, at)
  {
    CheckIs(s, now, at);
    var t := Check(s, now, at);
    SelectIsAged(t, t.receipts, now, at);
    forall r | r in s.receipts
      ensures Aged(t, r, now, at) <==> IsDue(s, t.steps, r, now, at)
    {
      AgedIsDue(s, t, r, now, at);
    }
    var due := Select(t, t.receipts, now, at);
    assert due != [] ==> due[0] in due;
    hide Check, Select, Aged, IsDue, ClockStepped, Warns, Sound, Timed, Counted, Distinct, Busy;
  }

  /**
   Over every run with restarts: a deletion run that starts with a clock that can be right and nothing left to
   write takes on exactly the receipts that are due, and otherwise none.
   */
  lemma TakesOnWhatIsDue(disk: seq<Receipt>, wall: int, start: nat, readable: bool, identity: Detector.Identity,
                         ops: seq<Op>, now: int, at: nat)
    requires Distinct(disk) && LegalRun(Boot(disk, wall, start, readable), identity, ops)
    requires Legal(Run(Boot(disk, wall, start, readable), identity, ops), RunStarts(now, at))
    ensures var s := Run(Boot(disk, wall, start, readable), identity, ops);
      TakesOn(s, Step(s, identity, RunStarts(now, at)), now, at)
  {
    var s := Boot(disk, wall, start, readable);
    BootInv(disk, wall, start, readable, identity);
    RunKeepsInv(s, identity, ops);
    RunKeepsCounted(s, identity, ops);
    hide Run, Boot, Inv, Counted, TakesOn, LegalRun;
    BeginTakesOn(Run(s, identity, ops), identity, now, at);
  }

  lemma BootInv(disk: seq<Receipt>, wall: int, start: nat, readable: bool, identity: Detector.Identity)
    requires Distinct(disk)
    ensures Inv(Boot(disk, wall, start, readable), identity) && Counted(Boot(disk, wall, start, readable))
  {
    RebootKeepsInv(State([], 0, 0, map[], 0, 0, false, Idle, [], disk, map[], [], []), identity, wall, start, readable);
    hide Inv, Loadable;
  }

  // ----- What a run leaves

  /** The listing holds the message that the part names: at its index, in its storage, with its digest. */
  predicate Holds(identity: Detector.Identity, entries: seq<Entry>, part: Part) {
    exists e :: e in entries && e.indices != [] && e.indices[0] == part.index && e.storage == part.storage
      && identity(e) == part.fingerprint
  }

  lemma HoldsIsPresent(identity: Detector.Identity, entries: seq<Entry>, part: Part)
    ensures Holds(identity, entries, part) <==> Present(identity, entries, part)
  {
    if Holds(identity, entries, part) {
      var e :| e in entries && e.indices != [] && e.indices[0] == part.index && e.storage == part.storage
        && identity(e) == part.fingerprint;
      var i :| 0 <= i < |entries| && entries[i] == e;
      assert FirstIndex(entries[i]) == Some(part.index);
    }
  }

  /** The parts that the listing holds, in order. */
  function Held(identity: Detector.Identity, entries: seq<Entry>, parts: seq<Part>): seq<Part> {
    if parts == [] then []
    else (if Holds(identity, entries, parts[0]) then [parts[0]] else []) + Held(identity, entries, parts[1..])
  }

  lemma {:induction false} HeldIsListed(identity: Detector.Identity, entries: seq<Entry>, parts: seq<Part>)
    ensures Held(identity, entries, parts) == Listed(identity, entries, parts)
  {
    hide Holds, Present;
    if parts != [] {
      HoldsIsPresent(identity, entries, parts[0]);
      HeldIsListed(identity, entries, parts[1..]);
    }
  }

  /**
   Of the parts that the listing holds, the first ones were sent a deletion command: all of them, or up to the
   one whose deletion failed, from which on they remain. What the listing does not hold does not remain.
   */
  predicate Swept(held: seq<Part>, sent: seq<Part>, remaining: seq<Part>) {
    || (sent == held && remaining == [])
    || (sent != [] && remaining != [] && sent[|sent| - 1] == remaining[0] && held == sent + remaining[1..])
  }

  /** The receipts after the one in hand is settled: it is gone if nothing remains of it, and keeps that otherwise. */
  ghost predicate Settled(s: State, t: State, r: Receipt, remaining: seq<Part>) {
    && Distinct(t.receipts) && t.generation == s.generation + 1
    && (forall q: Receipt :: q.id != r.id ==> (q in t.receipts <==> q in s.receipts))
    && (if remaining == [] then r.id !in Ids(t.receipts) && r.id !in t.ages
        else Receipt(r.id, r.delivered, remaining) in t.receipts && r.id in t.ages)
  }

  lemma Where(receipts: seq<Receipt>, r: Receipt) returns (k: nat)
    requires Distinct(receipts) && r in receipts
    ensures k < |receipts| && receipts[k] == r && k == Position(receipts, r.id)
  {
    k := Position(receipts, r.id);
    var i :| 0 <= i < |receipts| && receipts[i] == r;
    assert k == i;
  }

  lemma SettleIs(s: State, r: Receipt, remaining: seq<Part>, k: nat)
    requires k < |s.receipts| && s.receipts[k] == r && k == Position(s.receipts, r.id)
    ensures var t := Settle(s, r.id, remaining);
      && t.generation == s.generation + 1
      && t.receipts == (if remaining == [] then s.receipts[..k] + s.receipts[k + 1..]
                        else s.receipts[k := Receipt(r.id, r.delivered, remaining)])
      && t.ages == (if remaining == [] then s.ages - {r.id} else s.ages)
  {
    hide Position;
  }

  /** The first receipt is gone, and the others stay. */
  lemma SettleRemoves(s: State, t: State, r: Receipt, k: nat)
    requires Distinct(s.receipts) && k < |s.receipts| && s.receipts[k] == r
    requires t.receipts == s.receipts[..k] + s.receipts[k + 1..] && t.ages == s.ages - {r.id}
    requires t.generation == s.generation + 1
    ensures Settled(s, t, r, [])
  {
    RemovedIds(s.receipts, k);
    hide Distinct, Ids;
  }

  /** It stays with what remains of it, and the others stay. */
  lemma SettleUpdates(s: State, t: State, r: Receipt, k: nat, remaining: seq<Part>)
    requires Distinct(s.receipts) && k < |s.receipts| && s.receipts[k] == r && remaining != []
    requires t.receipts == s.receipts[k := Receipt(r.id, r.delivered, remaining)] && t.ages == s.ages && r.id in s.ages
    requires t.generation == s.generation + 1
    ensures Settled(s, t, r, remaining)
  {
    UpdatedIds(s.receipts, k, remaining);
    OthersStay(s.receipts, k, remaining);
    hide Distinct, Ids;
    assert s.receipts[k].(parts := remaining) == Receipt(r.id, r.delivered, remaining);
    assert t.receipts[k] == Receipt(r.id, r.delivered, remaining);
  }

  lemma SettleSettles(s: State, r: Receipt, remaining: seq<Part>)
    requires Sound(s) && r in s.receipts
    ensures Settled(s, Settle(s, r.id, remaining), r, remaining)
  {
    var k := Where(s.receipts, r);
    SettleIs(s, r, remaining, k);
    assert r.id in Ids(s.receipts) && s.ages.Keys == Ids(s.receipts);
    var t := Settle(s, r.id, remaining);
    hide Bounded, Settle, Position, Ids, Distinct, Settled;
    if remaining == [] {
      SettleRemoves(s, t, r, k);
    } else {
      SettleUpdates(s, t, r, k, remaining);
    }
  }

  lemma OthersStay(receipts: seq<Receipt>, k: nat, parts: seq<Part>)
    requires Distinct(receipts) && k < |receipts|
    ensures var next := receipts[k := receipts[k].(parts := parts)];
      forall q: Receipt :: q.id != receipts[k].id ==> (q in next <==> q in receipts)
  {
    var next := receipts[k := receipts[k].(parts := parts)];
    forall q: Receipt | q.id != receipts[k].id && q in next
      ensures q in receipts
    {
      var i :| 0 <= i < |next| && next[i] == q;
      assert i != k && receipts[i] == q;
    }
    forall q: Receipt | q.id != receipts[k].id && q in receipts
      ensures q in next
    {
      var i :| 0 <= i < |receipts| && receipts[i] == q;
      assert i != k && next[i] == q;
    }
  }

  /** The commands that were added to the log, each for its part. */
  predicate Sends(s: State, t: State, sent: seq<Part>) {
    && |t.sent| == |s.sent| + |sent| && s.sent <= t.sent
    && forall i :: 0 <= i < |sent| ==> t.sent[|s.sent| + i].part == sent[i]
  }

  lemma {:induction false} LogSends(s: State, parts: seq<Part>)
    requires s.phase.Deleting? && s.phase.due != []
    ensures |Log(s, parts)| == |parts| && forall i :: 0 <= i < |parts| ==> Log(s, parts)[i].part == parts[i]
  {
    if parts != [] {
      LogSends(s, parts[1..]);
    }
  }

  /** A receipt of a run: the commands that were sent, and what is left of it and of the others. */
  ghost predicate Deletes(s: State, t: State, identity: Detector.Identity)
    requires s.phase.Deleting? && s.phase.due != []
  {
    && t.phase == s.phase.(due := s.phase.due[1..])
    && exists sent, remaining :: DeletesSome(s, t, identity, sent, remaining)
  }

  ghost predicate DeletesSome(s: State, t: State, identity: Detector.Identity, sent: seq<Part>, remaining: seq<Part>)
    requires s.phase.Deleting? && s.phase.due != []
  {
    var r := s.phase.due[0];
    && Swept(Held(identity, s.phase.entries, r.parts), sent, remaining)
    && Sends(s, t, sent) && Settled(s, t, r, remaining)
  }

  lemma SweptIs(identity: Detector.Identity, entries: seq<Entry>, parts: seq<Part>, answers: nat -> bool)
    ensures var r := Sweep(identity, entries, parts, answers, 0, false);
      Swept(Held(identity, entries, parts), r.sent, r.remaining)
  {
    SweepStopsAtRefusal(identity, entries, parts, answers, 0, false);
    assert parts[0..] == parts;
    HeldIsListed(identity, entries, parts);
    hide Sweep, Held, Listed;
  }

  /** Settling is about receipts, ages and the generation only. */
  lemma SettledSame(s: State, t: State, s': State, t': State, r: Receipt, remaining: seq<Part>)
    requires Settled(s, t, r, remaining)
    requires s'.receipts == s.receipts && s'.generation == s.generation
    requires t'.receipts == t.receipts && t'.generation == t.generation && t'.ages == t.ages
    ensures Settled(s', t', r, remaining)
  {
  }

  lemma SettleKeepsLog(s: State, id: nat, remaining: seq<Part>)
    ensures Settle(s, id, remaining).sent == s.sent
  {
  }

  lemma DeleteDeletes(s: State, identity: Detector.Identity, answers: nat -> bool)
    requires Inv(s, identity) && s.phase.Deleting? && s.phase.due != []
    ensures Deletes(s, DeleteNext(s, identity, answers), identity)
  {
    var r := s.phase.due[0];
    var swept := Sweep(identity, s.phase.entries, r.parts, answers, 0, false);
    LogSends(s, swept.sent);
    var s1 := s.(sent := s.sent + Log(s, swept.sent));
    assert r in s.phase.due;
    assert Cleared(s, r, s.phase.now, s.phase.stamp);
    SettleSettles(s1, r, swept.remaining);
    SweptIs(identity, s.phase.entries, r.parts, answers);
    SettleKeepsLog(s1, r.id, swept.remaining);
    hide Sweep, Log, Held, Justified, Sound, Ids, Distinct, Inv, Cleared, Settle, Swept, Settled;
    assert Settled(s1, Settle(s1, r.id, swept.remaining), r, swept.remaining);
    var t := DeleteNext(s, identity, answers);
    SettledSame(s1, Settle(s1, r.id, swept.remaining), s, t, r, swept.remaining);
    assert DeletesSome(s, t, identity, swept.sent, swept.remaining);
  }

  /**
   Over every run with restarts: of the next receipt of a deletion run, exactly the listed parts up to the
   first failed deletion are sent a command; the receipt goes when none remain, and the others stay.
   */
  lemma DeletesWhatIsListed(disk: seq<Receipt>, wall: int, start: nat, readable: bool, identity: Detector.Identity,
                            ops: seq<Op>, answers: nat -> bool)
    requires Distinct(disk) && LegalRun(Boot(disk, wall, start, readable), identity, ops)
    requires var s := Run(Boot(disk, wall, start, readable), identity, ops); s.phase.Deleting? && s.phase.due != []
    ensures var s := Run(Boot(disk, wall, start, readable), identity, ops);
      Deletes(s, Step(s, identity, NextReceipt(answers)), identity)
  {
    var s := Boot(disk, wall, start, readable);
    BootInv(disk, wall, start, readable, identity);
    RunKeepsInv(s, identity, ops);
    hide Run, Boot, Inv, Counted, Deletes, LegalRun, Step;
    NextDeletes(Run(s, identity, ops), identity, answers);
    DeleteDeletes(Run(s, identity, ops), identity, answers);
  }

  lemma NextDeletes(s: State, identity: Detector.Identity, answers: nat -> bool)
    requires s.phase.Deleting?
    ensures Step(s, identity, NextReceipt(answers)) == DeleteNext(s, identity, answers)
  {
    hide DeleteNext;
  }

  // ----- Arriving, writing, starting

  function partsOf(r: Receipt): seq<Part> {
    r.parts
  }

  lemma {:induction false} PartsAreCounted(receipts: seq<Receipt>)
    ensures PartCount(receipts) == |FlatMap(partsOf, receipts)|
  {
    if receipts != [] {
      PartsAreCounted(receipts[1..]);
    }
  }

  /** A receipt is taken in if and only if it names parts, is not there yet, and is within the capacity. */
  lemma TakenInExactly(s: State, r: Receipt, at: nat)
    ensures var t := Schedule(s, r, at);
      if r.parts != [] && r.id !in Ids(s.receipts) && |s.receipts| < 64
         && |FlatMap(partsOf, s.receipts)| + |r.parts| <= 512 then
        t == s.(receipts := s.receipts + [r], ages := s.ages[r.id := at], since := s.since[r.id := at],
                generation := s.generation + 1)
      else t == s
  {
    PartsAreCounted(s.receipts);
  }

  /** A write that takes place without a change meanwhile puts all receipts on disk, and leaves nothing to write. */
  lemma WriteIsComplete(s: State, identity: Detector.Identity, w: Written)
    requires Inv(s, identity) && s.phase.Idle?
    ensures var t := FlushStart(s);
      if s.saved == s.generation then t == s
      else
        && t.phase.Flushing? && t == s.(phase := t.phase)
        && var u := FlushDone(t, w);
        && u.phase.Idle? && u.receipts == s.receipts
        && (w.Stored? ==> u.disk == s.receipts && u.stored == s.receipts && u.saved == u.generation)
        && (w.Unsynced? ==> u.disk == s.receipts && u.saved == s.saved)
        && (w.Unwritten? ==> u == s)
  {
    hide Sound, Timed, Justified;
  }

  /** After all receipts are cancelled none is taken on, and the next write leaves none on disk. */
  lemma CancelIsComplete(s: State, identity: Detector.Identity, now: int, at: nat)
    requires Inv(s, identity) && s.phase.Idle? && NotAfter(s, at)
    ensures var t := Cancel(s);
      && t.receipts == [] && t.ages == map[]
      && t.generation == (if s.receipts == [] then s.generation else s.generation + 1)
      && Begin(t, now, at).phase.Idle?
      && (s.receipts != [] ==>
        FlushDone(FlushStart(t), Stored).disk == [] && FlushDone(FlushStart(t), Stored).stored == [])
  {
    hide Sound, Timed, Justified, Diverged;
    if s.receipts == [] {
      assert s.ages.Keys == {} by {
        SoundKeys(s);
      }
    }
    var t := Cancel(s);
    CheckIs(t, now, at);
    assert Select(Check(t, now, at), [], now, at) == [];
    hide Check, Select;
  }

  lemma SoundKeys(s: State)
    requires Sound(s)
    ensures s.ages.Keys == Ids(s.receipts)
  {
  }

  /** A start reads the file if and only if what it holds is within the limits, and then every age begins anew. */
  lemma StartReadsFile(s: State, wall: int, at: nat, readable: bool)
    ensures var t := Reboot(s, wall, at, readable);
      && t.phase.Idle? && t.generation == t.saved && t.steps == [] && t.disk == s.disk
      && t.receipts == (if readable && |s.disk| <= 64 && |FlatMap(partsOf, s.disk)| <= 512
                           && (forall r :: r in s.disk ==> r.parts != [] && r.delivered > 0) then s.disk else [])
      && t.ages.Keys == Ids(t.receipts) && forall id :: id in t.ages ==> t.ages[id] == at
  {
    PartsAreCounted(s.disk);
  }
}
