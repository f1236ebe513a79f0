/** The forwarding queue: how many jobs of a notification it takes, which it drops, and when a job may go. */
module ForwardingQueue {
  import opened Common
  import opened Forwarding
  import opened ForwardingChoice
  import opened Septets
  import opened Store
  import R = ForwardingRun
  import Utf8

  // ----- Room in the queue

  /** The chosen channels from `from` on, in order. */
  function ChosenFrom(settings: Settings, platforms: seq<string>, from: nat): (r: seq<nat>)
    requires from <= |settings.channels|
    decreases |settings.channels| - from
  {
    if from == |settings.channels| then []
    else (if Chosen(settings, platforms, from) then [from] else []) + ChosenFrom(settings, platforms, from + 1)
  }

  lemma {:induction false} ChosenFromIs(settings: Settings, platforms: seq<string>, from: nat)
    requires from <= |settings.channels|
    ensures var r := ChosenFrom(settings, platforms, from);
      && (forall c: nat :: c in r <==> from <= c && Chosen(settings, platforms, c))
      && Ascending(r)
    decreases |settings.channels| - from
  {
    hide Chosen, Ascending;
    if from < |settings.channels| {
      var rest := ChosenFrom(settings, platforms, from + 1);
      ChosenFromIs(settings, platforms, from + 1);
      AscendingCons(from, rest);
      assert [] + rest == rest;
    } else {
      NothingAscends();
      forall c: nat | from <= c
        ensures !Chosen(settings, platforms, c)
      {
        NoSuchChannel(settings, platforms, c);
      }
    }
  }

  predicate Ascending(channels: seq<nat>) {
    forall i, k :: 0 <= i < k < |channels| ==> channels[i] < channels[k]
  }

  lemma NothingAscends()
    ensures Ascending([])
  {
  }

  lemma AscendingCons(c: nat, rest: seq<nat>)
    requires Ascending(rest) && forall x :: x in rest ==> c < x
    ensures Ascending([c] + rest)
  {
    assert forall k :: 0 <= k < |rest| ==> rest[k] in rest;
  }

  lemma NoSuchChannel(settings: Settings, platforms: seq<string>, c: nat)
    requires c >= |settings.channels|
    ensures !Chosen(settings, platforms, c)
  {
  }

  function textOf(job: Job): string {
    job.note.text
  }

  lemma {:induction false} LengthConcat(a: string, b: string)
    ensures Utf8.Length(a + b) == Utf8.Length(a) + Utf8.Length(b)
  {
    if a == [] {
      assert a + b == b;
    } else {
      LengthConcat(a[1..], b);
      assert (a + b)[0] == a[0] && (a + b)[1..] == a[1..] + b;
    }
  }

  /** The bytes of a queue are those of all its texts. */
  lemma {:induction false} BytesAreOfTexts(queue: seq<Job>)
    ensures Bytes(queue) == Utf8.Length(FlatMap(textOf, queue))
  {
    if queue != [] {
      BytesAreOfTexts(queue[1..]);
      LengthConcat(queue[0].note.text, FlatMap(textOf, queue[1..]));
    }
  }

  /** The jobs of a note on the first `n` of these channels. */
  function NewJobs(note: Note, channels: seq<nat>, now: nat): seq<Job> {
    if channels == [] then [] else [Job(note, channels[0], 0, 0, now, now)] + NewJobs(note, channels[1..], now)
  }

  /** Another job of this note fits: at most 64 jobs, with at most 256 KiB of text. */
  predicate HasRoom(queue: seq<Job>, note: Note) {
    |queue| < 64 && Utf8.Length(FlatMap(textOf, queue)) + Utf8.Length(note.text) <= 256 * 1024
  }

  lemma RoomIsNotFull(queue: seq<Job>, note: Note)
    ensures HasRoom(queue, note) <==> !Full(queue, note)
  {
    BytesAreOfTexts(queue);
  }

  lemma {:induction false} FullTakesNone(settings: Settings, queue: seq<Job>, note: Note, platforms: seq<string>,
                                         from: nat, now: nat)
    requires from <= |settings.channels| && Full(queue, note)
    ensures EnqueueFrom(settings, queue, note, platforms, from, now)
      == (queue, 0, ChosenFrom(settings, platforms, from) != [])
    decreases |settings.channels| - from
  {
    hide Full;
    if from < |settings.channels| {
      FullTakesNone(settings, queue, note, platforms, from + 1, now);
    }
  }

  /** The note is queued on the first `m` of the chosen channels, in order, for as long as there was room. */
  predicate Queued(queue: seq<Job>, note: Note, chosen: seq<nat>, now: nat, m: nat) {
    && m <= |chosen|
    && (forall i :: 0 <= i < m ==> HasRoom(queue + NewJobs(note, chosen[..i], now), note))
    && (m < |chosen| ==> !HasRoom(queue + NewJobs(note, chosen[..m], now), note))
  }

  lemma QueuedNone(queue: seq<Job>, note: Note, chosen: seq<nat>, now: nat)
    requires chosen != [] ==> !HasRoom(queue, note)
    ensures Queued(queue, note, chosen, now, 0) && queue + NewJobs(note, chosen[..0], now) == queue
  {
    hide HasRoom;
    assert queue + NewJobs(note, chosen[..0], now) == queue;
  }

  lemma QueuedCons(queue: seq<Job>, note: Note, c: nat, rest: seq<nat>, now: nat, m: nat)
    requires HasRoom(queue, note) && Queued(queue + [Job(note, c, 0, 0, now, now)], note, rest, now, m)
    ensures Queued(queue, note, [c] + rest, now, m + 1)
    ensures queue + NewJobs(note, ([c] + rest)[..m + 1], now)
      == queue + [Job(note, c, 0, 0, now, now)] + NewJobs(note, rest[..m], now)
  {
    hide HasRoom;
    var job, chosen := Job(note, c, 0, 0, now, now), [c] + rest;
    forall i | 0 <= i <= m
      ensures queue + NewJobs(note, chosen[..i + 1], now) == queue + [job] + NewJobs(note, rest[..i], now)
    {
      assert chosen[..i + 1] == [c] + rest[..i] && ([c] + rest[..i])[1..] == rest[..i];
    }
    forall i | 0 <= i < m + 1
      ensures HasRoom(queue + NewJobs(note, chosen[..i], now), note)
    {
      if i == 0 {
        assert queue + NewJobs(note, chosen[..0], now) == queue;
      } else {
        assert HasRoom(queue + [job] + NewJobs(note, rest[..i - 1], now), note);
        assert queue + NewJobs(note, chosen[..(i - 1) + 1], now) == queue + [job] + NewJobs(note, rest[..i - 1], now);
      }
    }
  }

  /**
   A note is queued on the chosen channels, in order and one job each, until the queue has no room; and a
   failure is told exactly if a channel was left out for that.
   */
  lemma {:induction false} EnqueueIsExact(settings: Settings, queue: seq<Job>, note: Note, platforms: seq<string>,
                                          from: nat, now: nat) returns (m: nat)
    requires from <= |settings.channels|
    ensures var chosen := ChosenFrom(settings, platforms, from);
      && Queued(queue, note, chosen, now, m)
      && EnqueueFrom(settings, queue, note, platforms, from, now)
        == (queue + NewJobs(note, chosen[..m], now), m, m < |chosen|)
    decreases |settings.channels| - from
  {
    hide Full, HasRoom, Queued, NewJobs;
    RoomIsNotFull(queue, note);
    if from == |settings.channels| {
      m := 0;
      var none: seq<nat> := [];
      QueuedNone(queue, note, none, now);
      assert none[..0] == [];
    } else if !Uses(settings, platforms, from) {
      m := EnqueueIsExact(settings, queue, note, platforms, from + 1, now);
      assert !Chosen(settings, platforms, from);
      assert ChosenFrom(settings, platforms, from) == ChosenFrom(settings, platforms, from + 1);
    } else if Full(queue, note) {
      m := 0;
      FullTakesNone(settings, queue, note, platforms, from, now);
      QueuedNone(queue, note, ChosenFrom(settings, platforms, from), now);
    } else {
      var job := Job(note, from, 0, 0, now, now);
      var n := EnqueueIsExact(settings, queue + [job], note, platforms, from + 1, now);
      QueuedCons(queue, note, from, ChosenFrom(settings, platforms, from + 1), now, n);
      m := n + 1;
    }
  }

  // ----- When a job may go

  /** The jobs within their retry window of three minutes. */
  function Fresh(queue: seq<Job>, now: nat): seq<Job> {
    if queue == [] then []
    else (if now < queue[0].created + 180000 then [queue[0]] else []) + Fresh(queue[1..], now)
  }

  lemma {:induction false} ExpireIsFresh(s: State, i: nat, now: nat)
    requires i <= |s.queue|
    ensures var t := Expire(s, i, now);
      && t.queue == s.queue[..i] + Fresh(s.queue[i..], now)
      && t.flight == s.flight && t.generation == s.generation && t.cooldown == s.cooldown
    decreases |s.queue| - i
  {
    hide Settle;
    if i < |s.queue| {
      assert s.queue[i..][1..] == s.queue[i + 1..];
      if Expired(s.queue[i], now) {
        var s1 := s.(queue := Without(s.queue, i));
        var u := Settle(s1, s.queue[i].note, false);
        SettleKeeps(s1, s.queue[i].note, false);
        ExpireIsFresh(u, i, now);
        assert u.queue[..i] == s.queue[..i] && u.queue[i..] == s.queue[i + 1..];
      } else {
        ExpireIsFresh(s, i + 1, now);
        assert s.queue[..i + 1] == s.queue[..i] + [s.queue[i]];
      }
    }
  }

  lemma SettleKeeps(s: State, note: Note, success: bool)
    ensures var t := Settle(s, note, success);
      && t.queue == s.queue && t.flight == s.flight && t.generation == s.generation && t.cooldown == s.cooldown
      && t.settings == s.settings && t.stored == s.stored && t.history == s.history
  {
  }

  /** The job's own pause and its channel's are over. */
  predicate MayGo(s: State, job: Job, now: nat) {
    now >= job.next && (job.channel in s.cooldown ==> now >= s.cooldown[job.channel])
  }

  /**
   Taking a job: those past their window are dropped and no others, and the first of the rest that may go
   leaves the queue, with a pause of four seconds for its channel; or none goes because none may.
   */
  lemma TakeIsExact(s: State, now: nat) returns (k: nat)
    requires s.flight.None?
    ensures var t, queue := Take(s, now), Fresh(s.queue, now);
      && k <= |queue| && (forall i :: 0 <= i < k ==> !MayGo(s, queue[i], now))
      && if k == |queue| then t.flight.None? && t.queue == queue && t.cooldown == s.cooldown
         else
           && MayGo(s, queue[k], now) && t.flight == Some(Flight(queue[k], s.generation))
           && t.queue == queue[..k] + queue[k + 1..] && t.cooldown == s.cooldown[queue[k].channel := now + 4000]
  {
    ExpireIsFresh(s, 0, now);
    var s1 := Expire(s, 0, now);
    assert s.queue[0..] == s.queue && s.queue[..0] + Fresh(s.queue, now) == Fresh(s.queue, now);
    assert s1.queue == Fresh(s.queue, now);
    k := TakeFrom(s, s1, now);
  }

  lemma TakeFrom(s: State, s1: State, now: nat) returns (k: nat)
    requires s1 == Expire(s, 0, now) && s1.flight.None?
    requires s1.cooldown == s.cooldown && s1.generation == s.generation
    ensures var t, queue := Take(s, now), s1.queue;
      && k <= |queue| && (forall i :: 0 <= i < k ==> !MayGo(s, queue[i], now))
      && if k == |queue| then t.flight.None? && t.queue == queue && t.cooldown == s.cooldown
         else
           && MayGo(s, queue[k], now) && t.flight == Some(Flight(queue[k], s.generation))
           && t.queue == queue[..k] + queue[k + 1..] && t.cooldown == s.cooldown[queue[k].channel := now + 4000]
  {
    hide Expire;
    k := FirstReady(s1.queue, s1.cooldown, now);
  }

  /** What `Finish` does with a job whose delivery did not end it. */
  lemma NextTurn(s: State, answer: Answer, now: nat)
    requires s.flight.Some? && s.flight.value.generation == s.generation
    requires s.flight.value.job.channel < |s.settings.channels|
    requires var job := s.flight.value.job;
      answer == Refused(true) || (answer.Sent? && job.part + 1 != Count(s.settings, job.channel, job.note.text))
    ensures var t, was := Finish(s, answer, now), s.flight.value.job;
      && t.flight.None? && |t.queue| == |s.queue| + 1 && t.queue[..|s.queue|] == s.queue
      && var job := t.queue[|s.queue|];
      && job.note == was.note && job.channel == was.channel && job.created == was.created
      && (answer.Sent? ==> job.part == was.part + 1 && job.attempts == 0 && job.next == now + 4000)
      && (answer.Refused? ==> job.part == was.part && job.attempts == was.attempts + 1)
      && (answer.Refused? ==> job.next == now + 1000 * Min(60, 5 * Exp2(job.attempts)))
  {
    hide Count, Acknowledge;
    if answer.Refused? {
      BackoffDoubles(s.flight.value.job.attempts + 1);
    }
  }

  /** The pause doubles with each attempt, from five seconds on, up to a minute. */
  lemma {:induction false} BackoffDoubles(attempts: nat)
    ensures Backoff(attempts) == 1000 * Min(60, 5 * Exp2(attempts))
  {
    if attempts >= 4 {
      Exp2AtLeast(attempts);
    }
  }

  lemma {:induction false} Exp2AtLeast(n: nat)
    requires n >= 4
    ensures Exp2(n) >= 16
  {
    if n > 4 {
      Exp2AtLeast(n - 1);
    }
  }

  /** The channel's pause goes on. */
  predicate Pauses(s: State, c: nat, until: nat) {
    c in s.cooldown && s.cooldown[c] >= until
  }

  lemma TakingKeepsPause(s: State, now: nat, c: nat, until: nat)
    requires s.flight.None? && Pauses(s, c, until)
    ensures Pauses(Take(s, now), c, until)
  {
    var k := TakeIsExact(s, now);
    hide Take, Fresh;
  }

  lemma QueueingKeepsPause(s: State, note: Note, lost: nat, restored: nat, text: string, now: nat)
    ensures Publish(s, note, now).cooldown == s.cooldown
    ensures Announce(s, lost, restored, text, now).cooldown == s.cooldown
  {
    hide EnqueueFrom, Wanted;
  }

  lemma FinishKeepsPause(s: State, answer: Answer, now: nat)
    requires s.flight.Some?
    requires s.flight.value.generation == s.generation ==> s.flight.value.job.channel < |s.settings.channels|
    ensures Finish(s, answer, now).cooldown == s.cooldown
  {
    hide Count, Backoff, Acknowledge;
  }

  lemma PauseStays(s: State, op: R.Op, c: nat, until: nat)
    requires R.Inv(s) && R.Legal(s, op) && !op.Saves? && Pauses(s, c, until)
    ensures Pauses(R.Step(s, op), c, until)
  {
    hide Publish, Announce, Take, Finish, R.Inv;
    match op
    case Publishes(note, now) => QueueingKeepsPause(s, note, 0, 0, "", now);
    case Announces(lost, restored, text, now) =>
      QueueingKeepsPause(s, Note(OutageId(lost), text, []), lost, restored, text, now);
    case Takes(now) => TakingKeepsPause(s, now, c, until);
    case Finishes(answer, now) =>
      R.FlightInRange(s);
      FinishKeepsPause(s, answer, now);
  }

  lemma {:induction false} PauseLasts(s: State, ops: seq<R.Op>, t: State, c: nat, until: nat)
    requires R.Inv(s) && R.Reaches(s, ops, t) && Pauses(s, c, until)
    requires forall op :: op in ops ==> !op.Saves?
    ensures Pauses(t, c, until)
    decreases |ops|
  {
    hide R.Inv, R.Step, R.Legal, Pauses;
    if ops != [] {
      R.StepKeepsInv(s, ops[0]);
      PauseStays(s, ops[0], c, until);
      PauseLasts(R.Step(s, ops[0]), ops[1..], t, c, until);
    }
  }

  /**
   From one delivery on a channel to the next: over every run between them, unless the settings change, at
   least four seconds pass.
   */
  lemma DeliveriesArePaced(s: State, now: nat, ops: seq<R.Op>, t: State, later: nat)
    requires R.Inv(s) && s.flight.None? && Take(s, now).flight.Some?
    requires R.Reaches(Take(s, now), ops, t) && forall op :: op in ops ==> !op.Saves?
    requires t.flight.None? && Take(t, later).flight.Some?
    requires Take(t, later).flight.value.job.channel == Take(s, now).flight.value.job.channel
    ensures later >= now + 4000
  {
    hide R.Inv, R.Reaches, Take;
    var k := TakeIsExact(s, now);
    var n := TakeIsExact(t, later);
    R.TakeKeepsInv(s, now);
    PauseLasts(Take(s, now), ops, t, Take(s, now).flight.value.job.channel, now + 4000);
  }

  // ----- Outage notices

  /** With room for it and a channel chosen for it, an outage is told exactly if it is to be and lasted long enough. */
  lemma OutageIsToldExactly(s: State, lost: nat, restored: nat, text: string, now: nat)
    requires HasRoom(s.queue, Note(OutageId(lost), text, []))
    requires exists c :: Chosen(s.settings, s.settings.outagePlatforms, c)
    ensures var t := Announce(s, lost, restored, text, now);
      && (|t.queue| > |s.queue| <==>
        s.settings.outageEnabled && restored >= lost + 1000 * s.settings.outageMinSeconds)
      && (|t.queue| == |s.queue| ==> t == s)
  {
    var note := Note(OutageId(lost), text, []);
    var platforms := s.settings.outagePlatforms;
    var chosen := ChosenFrom(s.settings, platforms, 0);
    var m := EnqueueIsExact(s.settings, s.queue, note, platforms, 0, now);
    ChosenFromIs(s.settings, platforms, 0);
    var c :| Chosen(s.settings, platforms, c);
    assert c in chosen;
    assert s.queue + NewJobs(note, chosen[..0], now) == s.queue;
    NewJobsLength(note, chosen[..m], now);
    assert m > 0;
    AnnounceQueues(s, lost, restored, text, now);
    hide EnqueueFrom, HasRoom, Chosen, Announce, Queued;
  }

  lemma AnnounceQueues(s: State, lost: nat, restored: nat, text: string, now: nat)
    ensures var t := Announce(s, lost, restored, text, now);
      var note := Note(OutageId(lost), text, []);
      if s.settings.outageEnabled && restored >= lost + 1000 * s.settings.outageMinSeconds then
        t == s.(queue := EnqueueFrom(s.settings, s.queue, note, s.settings.outagePlatforms, 0, now).0)
      else t == s
  {
    hide EnqueueFrom;
    if restored >= lost {
      var ms, limit := restored - lost, s.settings.outageMinSeconds;
      assert ms / 1000 < limit <==> ms < 1000 * limit;
    }
  }

  lemma {:induction false} NewJobsLength(note: Note, channels: seq<nat>, now: nat)
    ensures |NewJobs(note, channels, now)| == |channels|
  {
    if channels != [] {
      NewJobsLength(note, channels[1..], now);
    }
  }

  // ----- New settings

  /** The settings differ in what decides where messages go. */
  predicate Redirects(was: Settings, next: Settings) {
    !(was.(deleteAfterDay := next.deleteAfterDay, outageEnabled := next.outageEnabled,
           outagePlatforms := next.outagePlatforms, outageMinSeconds := next.outageMinSeconds) == next)
  }

  /** The messages' jobs, in order, without outage notices. */
  function Messages(queue: seq<Job>): seq<Job> {
    if queue == [] then []
    else
      var rest := Messages(queue[1..]);
      match queue[0].note.id
      case SmsId(_) => [queue[0]] + rest
      case OutageId(_) => rest
  }

  lemma {:induction false} SmsJobsAreMessages(queue: seq<Job>)
    ensures SmsJobs(queue) == Messages(queue)
  {
    if queue != [] {
      SmsJobsAreMessages(queue[1..]);
    }
  }

  /**
   Settings that are written, and are new or were not stored, are taken over and end all pauses. If they
   redirect messages, everything queued and counted goes and what is in flight comes to nothing; if they are
   about outage notices, these go; and otherwise the queue stays.
   */
  lemma NewSettingsTakeEffect(s: State, next: Settings, w: Written)
    ensures var t := Configure(s, next, w);
      if w.Unwritten? || (s.stored && next == s.settings) then t == s
      else
        && t.settings == next && t.stored && t.cooldown == map[] && t.flight == s.flight
        && t.receipts == s.receipts && t.history == s.history
        && if Redirects(s.settings, next) then t.generation == s.generation + 1 && t.queue == [] && t.outcomes == map[]
           else
             && t.generation == s.generation && t.outcomes == s.outcomes
             && t.queue == (if next.outageEnabled == s.settings.outageEnabled
                               && next.outagePlatforms == s.settings.outagePlatforms
                            then s.queue else Messages(s.queue))
  {
    SmsJobsAreMessages(s.queue);
  }

  /** A delivery that began before the queue was reset ends without any effect. */
  lemma OldDeliveryIsDropped(s: State, answer: Answer, now: nat)
    requires s.flight.Some? && s.flight.value.generation != s.generation
    ensures Finish(s, answer, now) == s.(flight := None)
  {
  }
}
