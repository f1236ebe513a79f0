/**
 Delayed deletion of forwarded messages: receipts on disk, aged on the monotonic clock and guarded
 against wall-clock steps. Instants are in nanoseconds, wall times in seconds.
 */
module Cleanup {
  import opened Common
  import opened Inbox
  import opened Store
  import Detector

  type Part = Detector.Part
  type Identity = Detector.Identity

  const SECOND: nat := 1_000_000_000
  const DAY: nat := 86400 * SECOND
  const VALID_CLOCK: int := 1577836800
  const MAX_RECEIPTS: nat := 64
  const MAX_PARTS: nat := 512

  datatype Receipt = Receipt(id: nat, delivered: int, parts: seq<Part>)

  /** The cleanup task: at rest, writing a file, or deleting what was due at `stamp`. */
  datatype Phase =
    | Idle
    | Flushing(generation: nat, content: seq<Receipt>)
    | Reading(due: seq<Receipt>, now: int, stamp: nat)
    | Deleting(due: seq<Receipt>, now: int, stamp: nat, entries: seq<Entry>)

  /** A deletion command, with the evidence at the moment it was sent. */
  datatype Deletion = Deletion(part: Part, receipt: Receipt, now: int, stamp: nat, entries: seq<Entry>,
                               stored: seq<Receipt>, disk: seq<Receipt>, since: nat, steps: seq<nat>)

  /**
   `stored` is the content this process last wrote successfully or started from, `disk` what a restart
   would read; `since` says when each receipt came to this process, `steps` when a call saw the wall
   clock diverge, `sent` the deletion commands. These five only the proofs read.
   */
  datatype State = State(
    receipts: seq<Receipt>,
    generation: nat,
    saved: nat,
    ages: map<nat, nat>,
    wall: int,
    mono: nat,
    warning: bool,
    phase: Phase,
    stored: seq<Receipt>,
    disk: seq<Receipt>,
    since: map<nat, nat>,
    steps: seq<nat>,
    sent: seq<Deletion>)

  function PartCount(receipts: seq<Receipt>): nat {
    if receipts == [] then 0 else |receipts[0].parts| + PartCount(receipts[1..])
  }

  /** The position of the receipt with this id, or the length of the list. */
  function Position(receipts: seq<Receipt>, id: nat): (k: nat)
    ensures k <= |receipts|
    ensures k < |receipts| ==> receipts[k].id == id
    ensures forall i :: 0 <= i < k ==> receipts[i].id != id
  {
    if receipts == [] || receipts[0].id == id then 0 else 1 + Position(receipts[1..], id)
  }

  /** There is room for the receipt, it names parts, and none with its id waits already. */
  predicate Accepts(receipts: seq<Receipt>, r: Receipt) {
    && Position(receipts, r.id) == |receipts| < MAX_RECEIPTS
    && PartCount(receipts) + |r.parts| <= MAX_PARTS && r.parts != []
  }

  function Arrive(s: State, r: Receipt, stamp: nat): State {
    s.(receipts := s.receipts + [r], ages := s.ages[r.id := stamp], generation := s.generation + 1,
       since := s.since[r.id := stamp])
  }

  function Schedule(s: State, r: Receipt, stamp: nat): State {
    if Accepts(s.receipts, r) then Arrive(s, r, stamp) else s
  }

  function Cancel(s: State): State {
    if s.receipts == [] then s
    else s.(receipts := [], ages := map[], generation := s.generation + 1)
  }

  /** Snapshot for writing, if anything changed since the last successful write. */
  function FlushStart(s: State): State {
    if s.generation == s.saved then s else s.(phase := Flushing(s.generation, s.receipts))
  }

  function FlushDone(s: State, w: Written): State
    requires s.phase.Flushing?
  {
    match w
    case Stored => s.(saved := s.phase.generation, stored := s.phase.content, disk := s.phase.content, phase := Idle)
    case Unsynced => s.(disk := s.phase.content, phase := Idle)
    case Unwritten => s.(phase := Idle)
  }

  function Abs(n: int): nat {
    if n < 0 then -n else n
  }

  /** The wall clock is unusable, or it moved by more than two minutes against the monotonic one. */
  predicate Diverged(s: State, now: int, stamp: nat)
    requires s.mono <= stamp
  {
    now < VALID_CLOCK || Abs(now - s.wall - (stamp - s.mono) / SECOND) > 120
  }

  predicate Aged(s: State, r: Receipt, now: int, stamp: nat) {
    now - r.delivered >= 86400 && r.id in s.ages && stamp >= s.ages[r.id] + DAY
  }

  function Select(s: State, receipts: seq<Receipt>, now: int, stamp: nat): seq<Receipt> {
    if receipts == [] then []
    else (if Aged(s, receipts[0], now, stamp) then [receipts[0]] else []) + Select(s, receipts[1..], now, stamp)
  }

  lemma SelectFrom(s: State, receipts: seq<Receipt>, i: nat, now: int, stamp: nat)
    requires i < |receipts|
    ensures Select(s, receipts[i..], now, stamp)
      == (if Aged(s, receipts[i], now, stamp) then [receipts[i]] else []) + Select(s, receipts[i + 1..], now, stamp)
  {
    assert receipts[i..][0] == receipts[i] && receipts[i..][1..] == receipts[i + 1..];
  }

  function Restart(ages: map<nat, nat>, stamp: nat): map<nat, nat> {
    map id | id in ages :: stamp
  }

  /** The clock check of a deletion run, with which it begins. */
  function Check(s: State, now: int, stamp: nat): State
    requires s.mono <= stamp
  {
    var s1 := if Diverged(s, now, stamp)
      then s.(ages := Restart(s.ages, stamp), warning := true, steps := s.steps + [stamp]) else s;
    var s2 := s1.(wall := now, mono := stamp);
    if now < VALID_CLOCK then s2
    else if forall id :: id in s2.ages ==> stamp >= s2.ages[id] + DAY then s2.(warning := false)
    else s2
  }

  /** What a deletion run takes on: nothing while a change is not on disk. */
  function Begin(s: State, now: int, stamp: nat): State
    requires s.mono <= stamp
  {
    var s1 := Check(s, now, stamp);
    if now < VALID_CLOCK || s1.saved != s1.generation then s1
    else
      var due := Select(s1, s1.receipts, now, stamp);
      if due == [] then s1 else s1.(phase := Reading(due, now, stamp))
  }

  /** The listing the run reads; without one it ends. */
  function Listing(s: State, entries: Option<seq<Entry>>): State
    requires s.phase.Reading?
  {
    match entries
    case None => s.(phase := Idle)
    case Some(e) => s.(phase := Deleting(s.phase.due, s.phase.now, s.phase.stamp, e))
  }

  /** The listing still holds, at this index and in this storage, the message with this digest. */
  predicate Present(identity: Identity, entries: seq<Entry>, part: Part) {
    exists i :: 0 <= i < |entries| && FirstIndex(entries[i]) == Some(part.index)
      && entries[i].storage == part.storage && identity(entries[i]) == part.fingerprint
  }

  datatype Swept = Swept(remaining: seq<Part>, failed: bool, sent: seq<Part>)

  /** Goes through the parts of a receipt: absent ones are done, present ones deleted until one fails. */
  function Sweep(identity: Identity, entries: seq<Entry>, parts: seq<Part>, answers: nat -> bool, from: nat,
                 failed: bool): Swept
    requires from <= |parts|
    decreases |parts| - from
  {
    if from == |parts| then Swept([], failed, [])
    else if !Present(identity, entries, parts[from]) then Sweep(identity, entries, parts, answers, from + 1, failed)
    else if failed then
      var r := Sweep(identity, entries, parts, answers, from + 1, true);
      r.(remaining := [parts[from]] + r.remaining)
    else
      var r := Sweep(identity, entries, parts, answers, from + 1, !answers(from));
      Swept((if answers(from) then [] else [parts[from]]) + r.remaining, r.failed, [parts[from]] + r.sent)
  }

  function Settle(s: State, id: nat, remaining: seq<Part>): State {
    var k := Position(s.receipts, id);
    if k == |s.receipts| then s
    else if remaining == [] then
      s.(receipts := s.receipts[..k] + s.receipts[k + 1..], ages := s.ages - {id}, generation := s.generation + 1)
    else s.(receipts := s.receipts[k := s.receipts[k].(parts := remaining)], generation := s.generation + 1)
  }

  function Since(s: State, id: nat): nat {
    if id in s.since then s.since[id] else s.mono
  }

  function Log(s: State, parts: seq<Part>): seq<Deletion>
    requires s.phase.Deleting? && s.phase.due != []
  {
    if parts == [] then []
    else
      var r := s.phase.due[0];
      [Deletion(parts[0], r, s.phase.now, s.phase.stamp, s.phase.entries, s.stored, s.disk, Since(s, r.id), s.steps)]
      + Log(s, parts[1..])
  }

  /** The next due receipt: its parts are swept, and what remains is kept for a later run. */
  function DeleteNext(s: State, identity: Identity, answers: nat -> bool): State
    requires s.phase.Deleting?
  {
    if s.phase.due == [] then s.(phase := Idle)
    else
      var r := s.phase.due[0];
      var swept := Sweep(identity, s.phase.entries, r.parts, answers, 0, false);
      var s1 := s.(sent := s.sent + Log(s, swept.sent));
      Settle(s1, r.id, swept.remaining).(phase := s.phase.(due := s.phase.due[1..]))
  }

  predicate Loadable(receipts: seq<Receipt>) {
    && |receipts| <= MAX_RECEIPTS && PartCount(receipts) <= MAX_PARTS
    && forall i :: 0 <= i < |receipts| ==> receipts[i].parts != [] && receipts[i].delivered > 0
  }

  function Ids(receipts: seq<Receipt>): set<nat> {
    set i | 0 <= i < |receipts| :: receipts[i].id
  }

  /**
   A new process: the file is read back, or nothing is; every age starts over. `readable` is false when the
   file is too large, cannot be read, does not hold receipts, or has an id that is too long.
   */
  function Reboot(s: State, wall: int, stamp: nat, readable: bool): State {
    var receipts := if readable && Loadable(s.disk) then s.disk else [];
    State(receipts, 0, 0, map id | id in Ids(receipts) :: stamp, wall, stamp, false, Idle, receipts, s.disk,
          map id | id in Ids(receipts) :: stamp, [], s.sent)
  }

  // ----- The cleanup in memory

  class Cleanup {
    var receipts: seq<Receipt>
    var generation: nat
    var saved: nat
    var ages: map<nat, nat>
    var wall: int
    var mono: nat
    var warning: bool
    var phase: Phase
    ghost var stored: seq<Receipt>
    ghost var disk: seq<Receipt>
    ghost var since: map<nat, nat>
    ghost var steps: seq<nat>
    ghost var sent: seq<Deletion>

    ghost function Model(): State
      reads this
    {
      State(receipts, generation, saved, ages, wall, mono, warning, phase, stored, disk, since, steps, sent)
    }

    /** Starts from what can be read from the file, if anything. */
    constructor (loaded: Option<seq<Receipt>>, wall: int, stamp: nat, ghost before: State)
      requires loaded.Some? ==> loaded.value == before.disk
      ensures Model() == Reboot(before, wall, stamp, loaded.Some?)
    {
      var r := if loaded.Some? && Loadable(loaded.value) then loaded.value else [];
      receipts := r;
      generation := 0;
      saved := 0;
      ages := map id | id in Ids(r) :: stamp;
      this.wall := wall;
      mono := stamp;
      warning := false;
      phase := Idle;
      stored := r;
      disk := before.disk;
      since := map id | id in Ids(r) :: stamp;
      steps := [];
      sent := before.sent;
    }

    method AddReceipt(r: Receipt, stamp: nat)
      modifies this
      ensures Model() == Schedule(old(Model()), r, stamp)
    {
      if Position(receipts, r.id) < |receipts| || |receipts| >= MAX_RECEIPTS
         || PartCount(receipts) + |r.parts| > MAX_PARTS || r.parts == [] {
        return;
      }
      ages := ages[r.id := stamp];
      receipts := receipts + [r];
      generation := generation + 1;
      since := since[r.id := stamp];
    }

    method CancelAll()
      modifies this
      ensures Model() == Cancel(old(Model()))
    {
      if receipts != [] {
        receipts := [];
        ages := map[];
        generation := generation + 1;
      }
    }

    method BeginFlush()
      modifies this
      ensures Model() == FlushStart(old(Model()))
    {
      if generation != saved {
        phase := Flushing(generation, receipts);
      }
    }

    method EndFlush(w: Written)
      requires phase.Flushing?
      modifies this
      ensures Model() == FlushDone(old(Model()), w)
    {
      match w {
        case Stored =>
          saved := phase.generation;
          stored := phase.content;
          disk := phase.content;
        case Unsynced =>
          disk := phase.content;
        case Unwritten =>
      }
      phase := Idle;
    }

    /** A wall clock that is unusable or was stepped makes every age start over. */
    method CheckClock(now: int, stamp: nat)
      requires mono <= stamp
      modifies this
      ensures Model() == Check(old(Model()), now, stamp)
    {
      var elapsed := (stamp - mono) / SECOND;
      if now < VALID_CLOCK || Abs(now - wall - elapsed) > 120 {
        ages := Restart(ages, stamp);
        warning := true;
        steps := steps + [stamp];
      }
      wall := now;
      mono := stamp;
      if now >= VALID_CLOCK && forall id :: id in ages ==> stamp >= ages[id] + DAY {
        warning := false;
      }
    }

    /** The part of a deletion run that holds the lock: the clock check and the choice of what is due. */
    method BeginDeletion(now: int, stamp: nat)
      requires mono <= stamp
      modifies this
      ensures Model() == Begin(old(Model()), now, stamp)
    {
      hide Select, Check;
      CheckClock(now, stamp);
      if now < VALID_CLOCK || saved != generation {
        return;
      }
      var due := SelectDue(now, stamp);
      if due != [] {
        phase := Reading(due, now, stamp);
      }
    }

    /** The filter over the receipts: delivered a day ago by the wall clock, and aged a day by the other. */
    method SelectDue(now: int, stamp: nat) returns (due: seq<Receipt>)
      ensures due == Select(Model(), receipts, now, stamp)
    {
      ghost var s := Model();
      assert Select(s, [], now, stamp) == [];
      hide Select;
      due := [];
      assert receipts[0..] == receipts;
      for i := 0 to |receipts|
        invariant due + Select(s, receipts[i..], now, stamp) == Select(s, receipts, now, stamp)
      {
        var r := receipts[i];
        SelectFrom(s, receipts, i, now, stamp);
        if now - r.delivered >= 86400 && r.id in ages && stamp >= ages[r.id] + DAY {
          due := due + [r];
        }
      }
      assert due + [] == due && receipts[|receipts|..] == [];
    }

    /** One due receipt: the sweep over its parts, then the bookkeeping under the lock. */
    method DeleteReceipt(identity: Identity, answers: nat -> bool)
      requires phase.Deleting?
      modifies this
      ensures Model() == DeleteNext(old(Model()), identity, answers)
    {
      hide Sweep, Log;
      if phase.due == [] {
        phase := Idle;
        return;
      }
      var r := phase.due[0];
      var swept := SweepParts(identity, phase.entries, r.parts, answers);
      sent := sent + Log(Model(), swept.sent);
      var k := Position(receipts, r.id);
      if k < |receipts| {
        if swept.remaining == [] {
          receipts := receipts[..k] + receipts[k + 1..];
          ages := ages - {r.id};
        } else {
          receipts := receipts[k := receipts[k].(parts := swept.remaining)];
        }
        generation := generation + 1;
      }
      phase := Deleting(phase.due[1..], phase.now, phase.stamp, phase.entries);
    }
  }

  /** The loop over the parts of one receipt. */
  method SweepParts(identity: Identity, entries: seq<Entry>, parts: seq<Part>, answers: nat -> bool) returns (r: Swept)
    ensures r == Sweep(identity, entries, parts, answers, 0, false)
  {
    hide Present;
    var remaining, failed, sent := [], false, [];
    ghost var all := Sweep(identity, entries, parts, answers, 0, false);
    for i := 0 to |parts|
      invariant var rest := Sweep(identity, entries, parts, answers, i, failed);
        all == Swept(remaining + rest.remaining, rest.failed, sent + rest.sent)
    {
      if Present(identity, entries, parts[i]) {
        if failed {
          remaining := remaining + [parts[i]];
        } else {
          sent := sent + [parts[i]];
          if !answers(i) {
            failed := true;
            remaining := remaining + [parts[i]];
          }
        }
      }
    }
    assert remaining + [] == remaining && sent + [] == sent;
    r := Swept(remaining, failed, sent);
  }
}
