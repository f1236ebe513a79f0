/** Forwarding over whole runs: which messages ever get a deletion receipt. */
module ForwardingRun {
  import opened Common
  import opened Forwarding
  import opened Ledger
  import opened Store
  import Greedy
  import Utf8

  datatype Op =
    | Publishes(note: Note, now: nat)
    | Announces(lost: nat, restored: nat, text: string, now: nat)
    | Takes(now: nat)
    | Finishes(answer: Answer, now: nat)
    | Saves(next: Settings, w: Written)

  /**
   One delivery task: it takes a job only after it has finished the one before. A message is not
   published again while jobs of it are outstanding.
   */
  predicate Legal(s: State, op: Op) {
    match op
    case Publishes(note, _) => note.id.SmsId? && note.id !in s.outcomes
    case Announces(_, _, _, _) => true
    case Takes(_) => s.flight.None?
    case Finishes(_, _) => s.flight.Some?
    case Saves(_, _) => true
  }

  ghost predicate Inv(s: State) {
    && Fits(s.settings, Jobs(s), s.outcomes, s.history)
    && (forall j :: j in Jobs(s) ==> InRange(s.settings, j))
    && (forall id :: id in s.outcomes ==> Positive(WantedOf(s.history, id)))
    && (forall r :: r in s.receipts ==> Earned(r))
    && (s.flight.Some? ==> s.flight.value.generation <= s.generation)
    && |Jobs(s)| <= MAX_JOBS + 1
  }

  /** The chunk a job is to send next exists. */
  predicate InRange(settings: Settings, j: Job) {
    j.channel < |settings.channels| && j.part < Count(settings, j.channel, j.note.text)
  }

  predicate Positive(wanted: map<nat, nat>) {
    forall c :: c in wanted ==> wanted[c] > 0
  }

  function Step(s: State, op: Op): State
    requires Inv(s) && Legal(s, op)
  {
    match op
    case Publishes(note, now) => Publish(s, note, now)
    case Announces(lost, restored, text, now) => Announce(s, lost, restored, text, now)
    case Takes(now) => Take(s, now)
    case Finishes(answer, now) =>
      FlightInRange(s);
      Finish(s, answer, now)
    case Saves(next, w) => Configure(s, next, w)
  }

  lemma FlightInRange(s: State)
    requires Inv(s)
    ensures s.flight.Some? && s.flight.value.generation == s.generation ==> InRange(s.settings, s.flight.value.job)
  {
    if s.flight.Some? && s.flight.value.generation == s.generation {
      assert s.flight.value.job in Jobs(s);
    }
  }

  // ----- Steps

  lemma JobRetries(settings: Settings, j: Job, j': Job, rest: seq<Job>, outcomes: map<Id, Outcome>, h: History)
    requires Fits(settings, [j] + rest, outcomes, h)
    requires j'.note == j.note && j'.channel == j.channel && j'.part == j.part
    ensures Fits(settings, [j'] + rest, outcomes, h)
  {
    hide Tally, Count, AckedAt, WantedOf, Range;
    var before, after := [j] + rest, [j'] + rest;
    assert j in before;
    forall k | k in after ensures JobFits(settings, outcomes, h, k) {
      assert k in before || k == j';
    }
    forall p: Job -> bool | p(j) == p(j') ensures Tally(p, after) == Tally(p, before) {
      TallyCons(p, j, rest);
      TallyCons(p, j', rest);
    }
    forall n, c ensures Tally(ForChannel(SmsId(n), c), after) <= 1 {
      assert Tally(ForChannel(SmsId(n), c), before) <= 1;
    }
    forall id | id in outcomes ensures OutcomeFits(after, outcomes, h, id) {
      assert OutcomeFits(before, outcomes, h, id);
      forall c | c in WantedOf(h, id) && !outcomes[id].failed ensures Served(after, h, id, c) {
        assert Served(before, h, id, c);
      }
    }
  }

  lemma OutageLeaves(settings: Settings, j: Job, rest: seq<Job>, outcomes: map<Id, Outcome>, h: History)
    requires Fits(settings, [j] + rest, outcomes, h) && j.note.id.OutageId?
    ensures Fits(settings, rest, outcomes, h) && j.note.id !in outcomes
  {
    hide Tally, JobFits;
    assert j.note.id in outcomes ==> OutcomeFits([j] + rest, outcomes, h, j.note.id);
    forall id: Id | id.SmsId? ensures Tally(ForId(id), rest) == Tally(ForId(id), [j] + rest) {
      TallyCons(ForId(id), j, rest);
    }
    forall id: Id, c: nat | id.SmsId? ensures Tally(ForChannel(id, c), rest) == Tally(ForChannel(id, c), [j] + rest) {
      TallyCons(ForChannel(id, c), j, rest);
    }
    OutageJobsDoNotCount(settings, [j] + rest, rest, outcomes, h);
  }

  /** What `Settle` does to the books, whatever kind of job is over. */
  lemma SettleFits(s: State, j: Job, rest: seq<Job>, success: bool)
    requires Fits(s.settings, [j] + rest, s.outcomes, s.history)
    requires forall r :: r in s.receipts ==> Earned(r)
    requires forall id :: id in s.outcomes ==> Positive(WantedOf(s.history, id))
    requires success && j.note.id.SmsId? ==> j.channel in WantedOf(s.history, j.note.id)
    requires success && j.note.id.SmsId? ==>
      AckedAt(s.history, j.note.id, j.channel) == Range(WantedOf(s.history, j.note.id)[j.channel])
    ensures var s' := Settle(s, j.note, success);
      && s' == s.(outcomes := s'.outcomes, receipts := s'.receipts)
      && Fits(s.settings, rest, s'.outcomes, s.history)
      && (forall r :: r in s'.receipts ==> Earned(r))
      && (forall id :: id in s'.outcomes ==> Positive(WantedOf(s.history, id)))
  {
    hide Tally, JobFits, AckedAt, WantedOf, Range, Positive, Served;
    if j.note.id.OutageId? {
      OutageLeaves(s.settings, j, rest, s.outcomes, s.history);
    } else {
      JobLeaves(s.settings, j, rest, s.outcomes, s.history, success);
      assert j in [j] + rest;
      assert JobFits(s.settings, s.outcomes, s.history, j);
      SmsHasOutcome(s.settings, s.outcomes, s.history, j);
      var o := s.outcomes[j.note.id];
      assert OutcomeFits([j] + rest, s.outcomes, s.history, j.note.id);
      if o.pending <= 1 && !o.failed && success {
        WantedPositive(s.history, j.note.id);
        LastJobEarns(s.settings, j, rest, s.outcomes, s.history);
      }
    }
  }

  lemma SmsHasOutcome(settings: Settings, outcomes: map<Id, Outcome>, h: History, j: Job)
    requires JobFits(settings, outcomes, h, j) && j.note.id.SmsId?
    ensures j.note.id in outcomes
  {
  }

  lemma WantedPositive(h: History, id: Id)
    requires Positive(WantedOf(h, id))
    ensures forall c :: c in WantedOf(h, id) ==> WantedOf(h, id)[c] > 0
  {
  }

  function Flying(s: State): seq<Job> {
    if s.flight.Some? && s.flight.value.generation == s.generation then [s.flight.value.job] else []
  }

  /** Removing the job at `i` from the queue leaves the others. */
  lemma QueueWithout(queue: seq<Job>, i: nat, flying: seq<Job>)
    requires i < |queue|
    ensures SameJobs(queue + flying, [queue[i]] + (Without(queue, i) + flying))
    ensures |Without(queue, i) + flying| == |queue + flying| - 1
  {
    hide Tally;
    assert queue + flying == queue[..i] + [queue[i]] + (queue[i + 1..] + flying);
    assert Without(queue, i) + flying == queue[..i] + (queue[i + 1..] + flying);
    MovedToFront(queue[..i], queue[i], queue[i + 1..] + flying);
  }

  lemma DropKeepsInv(s: State, i: nat)
    requires Inv(s) && i < |s.queue|
    ensures Inv(Settle(s.(queue := Without(s.queue, i)), s.queue[i].note, false))
  {
    hide Fits, Settle, Positive, Earned, InRange;
    var j := s.queue[i];
    var rest := Without(s.queue, i) + Flying(s);
    QueueWithout(s.queue, i, Flying(s));
    FitsSame(s.settings, Jobs(s), [j] + rest, s.outcomes, s.history);
    var s1 := s.(queue := Without(s.queue, i));
    SettleFits(s1, j, rest, false);
    assert Jobs(Settle(s1, j.note, false)) == rest;
    forall k | k in rest ensures InRange(s.settings, k) {
      assert k in [j] + rest;
      assert k in Jobs(s);
    }
  }

  lemma {:induction false} ExpireKeepsInv(s: State, i: nat, now: nat)
    requires Inv(s) && i <= |s.queue|
    ensures Inv(Expire(s, i, now)) && Expire(s, i, now).flight == s.flight
    decreases |s.queue| - i
  {
    hide Inv, Settle, Without;
    if i < |s.queue| {
      if Expired(s.queue[i], now) {
        DropKeepsInv(s, i);
        WithoutShrinks(s.queue, i);
        SettleKeepsQueue(s.(queue := Without(s.queue, i)), s.queue[i].note, false);
        SettleKeepsFlight(s.(queue := Without(s.queue, i)), s.queue[i].note, false);
        ExpireKeepsInv(Settle(s.(queue := Without(s.queue, i)), s.queue[i].note, false), i, now);
      } else {
        ExpireKeepsInv(s, i + 1, now);
      }
    }
  }

  lemma SettleKeepsFlight(s: State, note: Note, success: bool)
    ensures Settle(s, note, success).flight == s.flight
  {
  }

  lemma TakeKeepsInv(s: State, now: nat)
    requires Inv(s) && s.flight.None?
    ensures Inv(Take(s, now))
  {
    hide Fits, Positive, Earned, InRange, Expire;
    ExpireKeepsInv(s, 0, now);
    var s1 := Expire(s, 0, now);
    var k := FirstReady(s1.queue, s1.cooldown, now);
    if k < |s1.queue| {
      var s2 := Take(s, now);
      var j := s1.queue[k];
      assert Jobs(s1) == s1.queue + [] && Jobs(s2) == Without(s1.queue, k) + [j];
      QueueWithout(s1.queue, k, []);
      assert Without(s1.queue, k) + [] == Without(s1.queue, k);
      MovedToFront(Without(s1.queue, k), j, []);
      assert Without(s1.queue, k) + [j] + [] == Without(s1.queue, k) + [j];
      assert SameJobs(Jobs(s1), Jobs(s2));
      FitsSame(s1.settings, Jobs(s1), Jobs(s2), s1.outcomes, s1.history);
    }
  }

  /** Putting the job that was in flight back at the end of the queue. */
  lemma BackInQueue(s: State, s': State, j: Job)
    requires s'.flight.None? && s'.queue == s.queue + [j]
    requires Fits(s'.settings, [j] + s.queue, s'.outcomes, s'.history)
    ensures Fits(s'.settings, Jobs(s'), s'.outcomes, s'.history)
  {
    hide Fits;
    MovedToFront(s.queue, j, []);
    assert s.queue + [j] + [] == Jobs(s') && [j] + (s.queue + []) == [j] + s.queue;
    SameSymmetric(Jobs(s'), [j] + s.queue);
    FitsSame(s'.settings, [j] + s.queue, Jobs(s'), s'.outcomes, s'.history);
  }

  lemma SameSymmetric(a: seq<Job>, b: seq<Job>)
    requires SameJobs(a, b)
    ensures SameJobs(b, a)
  {
  }

  lemma FlightAtFront(s: State)
    requires Inv(s) && s.flight.Some? && s.flight.value.generation == s.generation
    ensures Fits(s.settings, [s.flight.value.job] + s.queue, s.outcomes, s.history)
    ensures InRange(s.settings, s.flight.value.job)
    ensures forall j :: j in s.queue ==> InRange(s.settings, j)
  {
    hide Fits, InRange, Positive, Earned;
    var j := s.flight.value.job;
    assert j in Jobs(s);
    MovedToFront(s.queue, j, []);
    assert s.queue + [j] + [] == Jobs(s) && [j] + (s.queue + []) == [j] + s.queue;
    FitsSame(s.settings, Jobs(s), [j] + s.queue, s.outcomes, s.history);
    assert forall k :: k in s.queue ==> k in Jobs(s);
  }

  lemma FinishKeepsInv(s: State, answer: Answer, now: nat)
    requires Inv(s) && s.flight.Some?
    ensures s.flight.value.generation == s.generation ==> s.flight.value.job.channel < |s.settings.channels|
    ensures Inv(Finish(s, answer, now))
  {
    FlightInRange(s);
    if s.flight.value.generation != s.generation {
      assert Jobs(Finish(s, answer, now)) == Jobs(s);
    } else {
      FlightAtFront(s);
      var j := s.flight.value.job;
      match answer
      case Sent =>
        if j.part + 1 == Count(s.settings, j.channel, j.note.text) {
          LastChunkKeepsInv(s, now);
        } else {
          ChunkKeepsInv(s, now);
        }
      case Refused(retry) => RefusalKeepsInv(s, retry, now);
    }
  }

  lemma AcknowledgeKeepsWanted(s: State, j: Job)
    requires forall id :: id in s.outcomes ==> Positive(WantedOf(s.history, id))
    ensures forall id :: id in s.outcomes ==> Positive(WantedOf(Acknowledge(s.history, j), id))
  {
    hide Acknowledge, WantedOf, Positive;
    forall id | id in s.outcomes ensures Positive(WantedOf(Acknowledge(s.history, j), id)) {
      AcknowledgeAt(s.history, j, id, 0);
    }
  }

  lemma ChunkKeepsInv(s: State, now: nat)
    requires Inv(s) && s.flight.Some? && s.flight.value.generation == s.generation
    requires InRange(s.settings, s.flight.value.job)
    requires var j := s.flight.value.job; j.part + 1 < Count(s.settings, j.channel, j.note.text)
    ensures Inv(Finish(s, Sent, now))
  {
    hide Fits, Count, Positive, Earned, Acknowledge, WantedOf;
    var j := s.flight.value.job;
    var j' := j.(part := j.part + 1, attempts := 0, next := now + PACE);
    FlightAtFront(s);
    JobAdvances(s.settings, j, j', s.queue, s.outcomes, s.history);
    AcknowledgeKeepsWanted(s, j);
    BackInQueue(s, Finish(s, Sent, now), j');
    assert Jobs(Finish(s, Sent, now)) == s.queue + [j'];
  }

  lemma LastChunkKeepsInv(s: State, now: nat)
    requires Inv(s) && s.flight.Some? && s.flight.value.generation == s.generation
    requires InRange(s.settings, s.flight.value.job)
    requires var j := s.flight.value.job; j.part + 1 == Count(s.settings, j.channel, j.note.text)
    ensures Inv(Finish(s, Sent, now))
  {
    hide Fits, Count, Positive, Earned, Acknowledge, WantedOf, Settle, AckedAt, Range;
    var j := s.flight.value.job;
    var j' := j.(part := j.part + 1);
    var s2 := s.(flight := None, history := Acknowledge(s.history, j));
    FlightAtFront(s);
    JobAdvances(s.settings, j, j', s.queue, s.outcomes, s.history);
    AcknowledgeKeepsWanted(s, j);
    LastChunkAcked(s.settings, s.outcomes, s2.history, j', s.queue);
    SettleFits(s2, j', s.queue, true);
    assert Jobs(Settle(s2, j.note, true)) == s.queue;
  }

  lemma LastChunkAcked(settings: Settings, outcomes: map<Id, Outcome>, h: History, j: Job, rest: seq<Job>)
    requires Fits(settings, [j] + rest, outcomes, h) && j.channel < |settings.channels|
    requires j.part == Count(settings, j.channel, j.note.text)
    ensures j.note.id.SmsId? ==> j.channel in WantedOf(h, j.note.id)
    ensures j.note.id.SmsId? ==> AckedAt(h, j.note.id, j.channel) == Range(WantedOf(h, j.note.id)[j.channel])
  {
    hide Tally, Count, AckedAt, WantedOf, Range;
    assert j in [j] + rest;
    assert JobFits(settings, outcomes, h, j);
  }

  lemma RefusalKeepsInv(s: State, retry: bool, now: nat)
    requires Inv(s) && s.flight.Some? && s.flight.value.generation == s.generation
    requires InRange(s.settings, s.flight.value.job)
    ensures Inv(Finish(s, Refused(retry), now))
  {
    hide Fits, Count, Positive, Earned, Settle, AckedAt, Range;
    var j := s.flight.value.job;
    FlightAtFront(s);
    var s' := Finish(s, Refused(retry), now);
    if retry {
      var j' := j.(attempts := j.attempts + 1, next := now + Backoff(j.attempts + 1));
      JobRetries(s.settings, j, j', s.queue, s.outcomes, s.history);
      BackInQueue(s, s', j');
      assert Jobs(s') == s.queue + [j'];
    } else {
      SettleFits(s.(flight := None), j, s.queue, false);
      assert Jobs(s') == s.queue;
    }
  }

  lemma {:induction false} EnqueueBounded(settings: Settings, queue: seq<Job>, note: Note, platforms: seq<string>,
                                          channel: nat, now: nat)
    requires channel <= |settings.channels|
    ensures var r := EnqueueFrom(settings, queue, note, platforms, channel, now);
      |r.0| <= if |queue| <= MAX_JOBS then MAX_JOBS else |queue|
    decreases |settings.channels| - channel
  {
    hide Uses, Bytes;
    if channel < |settings.channels| {
      EnqueueBounded(settings, queue, note, platforms, channel + 1, now);
      EnqueueBounded(settings, queue + [NewJob(note, channel, now)], note, platforms, channel + 1, now);
    }
  }

  lemma PublishKeepsInv(s: State, note: Note, now: nat)
    requires Inv(s) && note.id.SmsId? && note.id !in s.outcomes
    ensures Inv(Publish(s, note, now))
  {
    hide Fits, Count, Uses, Earned, EnqueueFrom;
    var s' := Publish(s, note, now);
    var r := EnqueueFrom(s.settings, s.queue, note, s.settings.smsPlatforms, 0, now);
    var added := EnqueueAdds(s.settings, s.queue, note, s.settings.smsPlatforms, 0, now);
    EnqueueBounded(s.settings, s.queue, note, s.settings.smsPlatforms, 0, now);
    if added == [] {
      assert s.queue + added == s.queue;
      assert Jobs(s') == Jobs(s);
    } else {
      NoteEnters(s.settings, s.settings.smsPlatforms, Jobs(s), note, added, r.2, s.outcomes, s.history);
      AddedBeforeFlight(s.queue, added, Flying(s));
      assert Jobs(s') == s.queue + added + Flying(s);
      FitsSame(s.settings, Jobs(s) + added, Jobs(s'), s'.outcomes, s'.history);
      forall id | id in s'.outcomes ensures Positive(WantedOf(s'.history, id)) {
        if id != note.id {
          assert WantedOf(s'.history, id) == WantedOf(s.history, id);
        }
      }
      forall j | j in Jobs(s') ensures InRange(s.settings, j) {
        assert j in Jobs(s) || j in added;
      }
    }
  }

  lemma AddedBeforeFlight(queue: seq<Job>, added: seq<Job>, flying: seq<Job>)
    ensures SameJobs(queue + flying + added, queue + added + flying)
  {
    forall p: Job -> bool ensures Tally(p, queue + flying + added) == Tally(p, queue + added + flying) {
      TallyConcat(p, queue + flying, added);
      TallyConcat(p, queue, flying);
      TallyConcat(p, queue + added, flying);
      TallyConcat(p, queue, added);
    }
  }

  /** Queues and jobs that differ only in outage notices have the same books. */
  lemma OutagesAround(s: State, s': State)
    requires Inv(s) && s'.settings.channels == s.settings.channels
    requires s'.outcomes == s.outcomes && s'.history == s.history && s'.receipts == s.receipts
    requires s'.flight == s.flight && s'.generation == s.generation && |Jobs(s')| <= MAX_JOBS + 1
    requires forall j :: j in Jobs(s') ==> j in Jobs(s) || (j.note.id.OutageId? && InRange(s.settings, j))
    requires forall p: Job -> bool :: (forall j: Job :: j.note.id.OutageId? ==> !p(j)) ==>
      Tally(p, Jobs(s')) == Tally(p, Jobs(s))
    ensures Inv(s')
  {
    hide Fits, Tally, Positive, Earned;
    forall id: Id | id.SmsId? ensures Tally(ForId(id), Jobs(s')) == Tally(ForId(id), Jobs(s)) {
      assert forall j: Job :: j.note.id.OutageId? ==> !ForId(id)(j);
    }
    forall id: Id, c: nat | id.SmsId? ensures Tally(ForChannel(id, c), Jobs(s')) == Tally(ForChannel(id, c), Jobs(s)) {
      assert forall j: Job :: j.note.id.OutageId? ==> !ForChannel(id, c)(j);
    }
    OutageJobsDoNotCount(s.settings, Jobs(s), Jobs(s'), s.outcomes, s.history);
    SameChannels(s.settings, s'.settings, Jobs(s'), s.outcomes, s.history);
  }

  lemma SameChannels(a: Settings, b: Settings, jobs: seq<Job>, outcomes: map<Id, Outcome>, h: History)
    requires a.channels == b.channels && Fits(a, jobs, outcomes, h)
    ensures Fits(b, jobs, outcomes, h)
  {
    hide Tally, WantedOf, AckedAt, Range, OutcomeFits, Chunks;
    forall j | j in jobs ensures JobFits(b, outcomes, h, j) {
      assert JobFits(a, outcomes, h, j);
    }
  }

  lemma AnnounceKeepsInv(s: State, lost: nat, restored: nat, text: string, now: nat)
    requires Inv(s)
    ensures Inv(Announce(s, lost, restored, text, now))
  {
    hide Fits, Count, Uses, Earned, EnqueueFrom, Tally, Positive;
    var s' := Announce(s, lost, restored, text, now);
    if s' != s {
      var note := Note(OutageId(lost), text, []);
      var added := EnqueueAdds(s.settings, s.queue, note, s.settings.outagePlatforms, 0, now);
      EnqueueBounded(s.settings, s.queue, note, s.settings.outagePlatforms, 0, now);
      forall p: Job -> bool | forall j: Job :: j.note.id.OutageId? ==> !p(j)
        ensures Tally(p, Jobs(s')) == Tally(p, Jobs(s))
      {
        TallyConcat(p, s.queue + added, Flying(s));
        TallyConcat(p, s.queue, added);
        TallyConcat(p, s.queue, Flying(s));
        TallyNone(p, added);
      }
      OutagesAround(s, s');
    }
  }

  lemma {:induction false} SmsJobsAre(queue: seq<Job>)
    ensures |SmsJobs(queue)| <= |queue|
    ensures forall j :: j in SmsJobs(queue) ==> j in queue
    ensures forall p: Job -> bool :: (forall j: Job :: j.note.id.OutageId? ==> !p(j)) ==>
      Tally(p, SmsJobs(queue)) == Tally(p, queue)
  {
    if queue != [] {
      SmsJobsAre(queue[1..]);
      forall p: Job -> bool | forall j: Job :: j.note.id.OutageId? ==> !p(j)
        ensures Tally(p, SmsJobs(queue)) == Tally(p, queue)
      {
        if queue[0].note.id.SmsId? {
          TallyCons(p, queue[0], SmsJobs(queue[1..]));
        } else {
          assert !p(queue[0]) && SmsJobs(queue) == SmsJobs(queue[1..]);
        }
      }
    }
  }

  lemma ConfigureKeepsInv(s: State, next: Settings, w: Written)
    requires Inv(s)
    ensures Inv(Configure(s, next, w))
  {
    hide Count, Earned, Tally, SmsJobs;
    var s' := Configure(s, next, w);
    if s'.generation != s.generation {
      assert Jobs(s') == [];
      forall n, c ensures Tally(ForChannel(SmsId(n), c), []) == 0 {
        TallyNone(ForChannel(SmsId(n), c), []);
      }
    } else if s' != s {
      hide Fits, Positive;
      SmsJobsAre(s.queue);
      forall p: Job -> bool | forall j: Job :: j.note.id.OutageId? ==> !p(j)
        ensures Tally(p, Jobs(s')) == Tally(p, Jobs(s))
      {
        TallyConcat(p, s'.queue, Flying(s));
        TallyConcat(p, s.queue, Flying(s));
      }
      OutagesAround(s, s');
    }
  }

  lemma StepKeepsInv(s: State, op: Op)
    requires Inv(s) && Legal(s, op)
    ensures Inv(Step(s, op))
  {
    hide Inv, Publish, Announce, Take, Finish, Configure;
    match op
    case Publishes(note, now) => PublishKeepsInv(s, note, now);
    case Announces(lost, restored, text, now) => AnnounceKeepsInv(s, lost, restored, text, now);
    case Takes(now) => TakeKeepsInv(s, now);
    case Finishes(answer, now) => FinishKeepsInv(s, answer, now);
    case Saves(next, w) => ConfigureKeepsInv(s, next, w);
  }

  // ----- Runs

  /** Whether `s` can be reached from `from` by the given steps, each of them legal where it is taken. */
  ghost predicate Reaches(from: State, ops: seq<Op>, s: State)
    decreases ops
  {
    if ops == [] then s == from
    else Inv(from) && Legal(from, ops[0]) && Reaches(Step(from, ops[0]), ops[1..], s)
  }

  function Start(settings: Settings, stored: bool): State {
    State(settings, stored, 0, [], map[], map[], None, [], History(map[], map[], map[]))
  }

  lemma {:induction false} ReachesKeepsInv(from: State, ops: seq<Op>, s: State)
    requires Inv(from) && Reaches(from, ops, s)
    ensures Inv(s)
    decreases ops
  {
    hide Inv, Step, Legal;
    if ops != [] {
      StepKeepsInv(from, ops[0]);
      ReachesKeepsInv(Step(from, ops[0]), ops[1..], s);
    }
  }

  lemma StartInv(settings: Settings, stored: bool)
    ensures Inv(Start(settings, stored))
  {
    forall n, c ensures Tally(ForChannel(SmsId(n), c), []) == 0 {
      TallyNone(ForChannel(SmsId(n), c), []);
    }
  }

  /**
   Over every run, each deletion receipt was earned: every channel the message had to go to when it
   was published acknowledged all chunks of its text, first to last. And a message with outstanding
   jobs has exactly that many pending.
   */
  lemma ReceiptsAreEarned(settings: Settings, stored: bool, ops: seq<Op>, s: State)
    requires Reaches(Start(settings, stored), ops, s)
    ensures forall r :: r in s.receipts ==> Earned(r)
    ensures forall id :: id in s.outcomes ==> s.outcomes[id].pending == Tally(ForId(id), Jobs(s)) > 0
    ensures |Jobs(s)| <= MAX_JOBS + 1
    ensures forall j :: j in Jobs(s) ==> InRange(s.settings, j)
  {
    hide Reaches, Tally, JobFits, Earned, InRange;
    StartInv(settings, stored);
    ReachesKeepsInv(Start(settings, stored), ops, s);
    forall id | id in s.outcomes ensures s.outcomes[id].pending == Tally(ForId(id), Jobs(s)) > 0 {
      assert OutcomeFits(Jobs(s), s.outcomes, s.history, id);
    }
  }

  // ----- Why a message must not be published again while it is outstanding

  /** One step, without the premise on what is published. */
  ghost predicate Follows(a: State, op: Op, b: State) {
    match op
    case Publishes(note, now) => b == Publish(a, note, now)
    case Announces(lost, restored, text, now) => b == Announce(a, lost, restored, text, now)
    case Takes(now) => a.flight.None? && b == Take(a, now)
    case Finishes(answer, now) =>
      && a.flight.Some?
      && (a.flight.value.generation == a.generation ==> a.flight.value.job.channel < |a.settings.channels|)
      && b == Finish(a, answer, now)
    case Saves(next, w) => b == Configure(a, next, w)
  }

  const twoChannels := Settings(true, true, true, [Channel("wecom", true, ""), Channel("feishu", true, "")],
                                ["wecom", "feishu"], false, [], 60)

  lemma OneChunk(c: nat)
    requires c < 2
    ensures Count(twoChannels, c, "a") == 1 && Uses(twoChannels, ["wecom", "feishu"], c)
  {
    assert Greedy.Cut(Utf8.size, [], "a", CHUNK) == Greedy.Cut(Utf8.size, [] + ['a'], [], CHUNK);
  }

  /**
   The premise is needed: a message published a second time while its first jobs are outstanding has
   its account overwritten, and two acknowledgements of one channel then pass for those of both.
   */
  lemma RepublishedIsNotEarned(note: Note) returns (states: seq<State>, ops: seq<Op>)
    requires note.id.SmsId? && note.text == "a"
    ensures |states| == |ops| + 1 && states[0] == Start(twoChannels, true)
    ensures forall i :: 0 <= i < |ops| ==> Follows(states[i], ops[i], states[i + 1])
    ensures exists r :: r in states[|ops|].receipts && !Earned(r)
  {
    hide Publish, Take, Finish, Acknowledge, Earned, AckedAt, Follows;
    var s0, s1, s2, s3, s4 := PublishedTwice(note);
    var s5 := TakeHead(s4, 0);
    var s6 := Finish(s5, Refused(true), 0);
    Refused2(s5);
    var s7 := TakeHead(s6, 4000);
    var s8 := SentLast(s7, 4000);
    ops := [Publishes(note, 0), Publishes(note, 0), Takes(0), Finishes(Sent, 0), Takes(0), Finishes(Refused(true), 0),
            Takes(4000), Finishes(Sent, 4000)];
    states := [s0, s1, s2, s3, s4, s5, s6, s7, s8];
    TookOne(s4, s5, 0);
    RefusedOne(s5, s6);
    TookOne(s6, s7, 4000);
    SentOne(s7, s8, 4000);
    AcknowledgeAt(s4.history, NewJob(note, 0, 0), note.id, 1);
    NotEarned(s8.receipts[0], s8.history);
    assert s8.receipts[0] in s8.receipts;
  }

  /** The message is published twice, and one channel acknowledges it once. */
  lemma PublishedTwice(note: Note) returns (s0: State, s1: State, s2: State, s3: State, s4: State)
    requires note.id.SmsId? && note.text == "a"
    ensures s0 == Start(twoChannels, true) && Follows(s0, Publishes(note, 0), s1) && Follows(s1, Publishes(note, 0), s2)
    ensures Follows(s2, Takes(0), s3) && Follows(s3, Finishes(Sent, 0), s4)
    ensures s4 == State(twoChannels, true, 0, [NewJob(note, 1, 0), NewJob(note, 0, 0), NewJob(note, 1, 0)],
                        map[0 := PACE], map[note.id := Outcome(1, false)], None, [], s4.history)
    ensures WantedOf(s4.history, note.id) == map[0 := 1, 1 := 1] && AckedAt(s4.history, note.id, 1) == []
  {
    hide Publish, Take, Finish, Acknowledge;
    var a, b := NewJob(note, 0, 0), NewJob(note, 1, 0);
    s0 := Start(twoChannels, true);
    s1 := PublishBoth(s0, note);
    s2 := PublishBoth(s1, note);
    assert s2.queue == [a, b, a, b] && s2.outcomes == map[note.id := Outcome(2, false)];
    s3, s4 := FirstAcknowledged(s2, note);
  }

  lemma FirstAcknowledged(s: State, note: Note) returns (s': State, s'': State)
    requires note.id.SmsId? && note.text == "a"
    requires s.settings == twoChannels && s.flight.None? && s.cooldown == map[]
    requires s.queue == [NewJob(note, 0, 0), NewJob(note, 1, 0), NewJob(note, 0, 0), NewJob(note, 1, 0)]
    requires s.outcomes == map[note.id := Outcome(2, false)]
    requires WantedOf(s.history, note.id) == map[0 := 1, 1 := 1] && AckedOf(s.history, note.id) == map[]
    ensures Follows(s, Takes(0), s') && Follows(s', Finishes(Sent, 0), s'')
    ensures s'' == s.(queue := [NewJob(note, 1, 0), NewJob(note, 0, 0), NewJob(note, 1, 0)], cooldown := map[0 := PACE],
                      outcomes := map[note.id := Outcome(1, false)], history := s''.history)
    ensures WantedOf(s''.history, note.id) == map[0 := 1, 1 := 1] && AckedAt(s''.history, note.id, 1) == []
  {
    hide Publish, Take, Finish, Acknowledge;
    var a := NewJob(note, 0, 0);
    assert s.queue[0] == a && s.queue[1..] == [NewJob(note, 1, 0), a, NewJob(note, 1, 0)];
    s' := TakeHead(s, 0);
    OneChunk(0);
    s'' := SentLast(s', 0);
    AcknowledgeAt(s.history, a, note.id, 1);
  }

  lemma TookOne(s: State, s': State, now: nat)
    requires s.flight.None? && s' == Take(s, now)
    ensures Follows(s, Takes(now), s')
  {
    hide Take;
  }

  lemma SentOne(s: State, s': State, now: nat)
    requires s.flight.Some? && s.flight.value.job.channel < |s.settings.channels| && s' == Finish(s, Sent, now)
    ensures Follows(s, Finishes(Sent, now), s')
  {
    hide Finish;
  }

  lemma RefusedOne(s: State, s': State)
    requires s.flight.Some? && s.flight.value.job.channel < |s.settings.channels| && s' == Finish(s, Refused(true), 0)
    ensures Follows(s, Finishes(Refused(true), 0), s')
  {
    hide Finish;
  }

  lemma NotEarned(r: Receipt, h: History)
    requires r.acked == AckedOf(h, r.note.id) && 1 in r.wanted && r.wanted[1] == 1
    requires AckedAt(h, r.note.id, 1) == []
    ensures !Earned(r)
  {
    assert |Range(1)| == 1;
  }

  lemma TakeHead(s: State, now: nat) returns (s': State)
    requires s.queue != [] && forall j :: j in s.queue ==> !Expired(j, now)
    requires Ready(s.queue[0], s.cooldown, now)
    ensures s' == Take(s, now)
    ensures s' == s.(queue := s.queue[1..], cooldown := s.cooldown[s.queue[0].channel := now + PACE],
                     flight := Some(Flight(s.queue[0], s.generation)))
  {
    s' := Take(s, now);
    NoneExpired(s, 0, now);
    assert Without(s.queue, 0) == s.queue[1..];
  }

  lemma SentLast(s: State, now: nat) returns (s': State)
    requires s.settings == twoChannels && s.flight.Some? && s.flight.value.generation == s.generation
    requires s.flight.value.job.channel < 2 && s.flight.value.job.part == 0 && s.flight.value.job.note.text == "a"
    requires s.flight.value.job.note.id in s.outcomes && !s.outcomes[s.flight.value.job.note.id].failed
    requires 1 <= s.outcomes[s.flight.value.job.note.id].pending <= 2
    ensures s' == Finish(s, Sent, now) && s'.queue == s.queue && s'.cooldown == s.cooldown && s'.flight == None
    ensures s'.settings == s.settings && s'.stored == s.stored && s'.generation == s.generation
    ensures s'.history == Acknowledge(s.history, s.flight.value.job)
    ensures var j := s.flight.value.job;
      if s.outcomes[j.note.id].pending == 2 then
        s'.outcomes == s.outcomes[j.note.id := Outcome(1, false)] && s'.receipts == s.receipts
      else
        s'.receipts == s.receipts
          + [ReceiptFor(s'.history, j.note)]
  {
    hide Acknowledge;
    OneChunk(s.flight.value.job.channel);
    s' := Finish(s, Sent, now);
  }

  lemma Refused2(s: State)
    requires s.flight.Some? && s.flight.value.generation == s.generation
    requires s.flight.value.job.channel < |s.settings.channels| && s.flight.value.job.attempts == 0
    ensures var j := s.flight.value.job;
      Finish(s, Refused(true), 0) == s.(flight := None, queue := s.queue + [j.(attempts := 1, next := 10000)])
  {
  }

  lemma WantedBoth()
    ensures Wanted(twoChannels, ["wecom", "feishu"], "a") == map[0 := 1, 1 := 1]
  {
    OneChunk(0);
    OneChunk(1);
    hide Count, Uses;
    var wanted := Wanted(twoChannels, ["wecom", "feishu"], "a");
    assert forall c: nat :: c in wanted <==> c == 0 || c == 1;
    assert wanted[0] == 1 && wanted[1] == 1;
  }

  lemma EnqueueBoth(queue: seq<Job>, note: Note)
    requires note.id.SmsId? && note.text == "a" && |queue| <= 2
    requires forall j :: j in queue ==> j.note.text == "a"
    ensures EnqueueFrom(twoChannels, queue, note, twoChannels.smsPlatforms, 0, 0)
      == (queue + [NewJob(note, 0, 0), NewJob(note, 1, 0)], 2, false)
  {
    OneChunk(0);
    OneChunk(1);
    hide Utf8.Length, Chunks, Count, Bytes, Uses;
    var q1 := queue + [NewJob(note, 0, 0)];
    var q2 := q1 + [NewJob(note, 1, 0)];
    SmallQueue(queue);
    SmallQueue(q1);
    SmallText();
    assert !Full(queue, note) && !Full(q1, note);
    hide Full, NewJob;
    assert q2 == queue + [NewJob(note, 0, 0), NewJob(note, 1, 0)];
    assert EnqueueFrom(twoChannels, q2, note, twoChannels.smsPlatforms, 2, 0) == (q2, 0, false);
    assert EnqueueFrom(twoChannels, q1, note, twoChannels.smsPlatforms, 1, 0) == (q2, 1, false);
  }

  lemma PublishBoth(s: State, note: Note) returns (s': State)
    requires s.settings == twoChannels && note.id.SmsId? && note.text == "a" && |s.queue| <= 2
    requires forall j :: j in s.queue ==> j.note.text == "a"
    ensures s' == Publish(s, note, 0)
    ensures s'.queue == s.queue + [NewJob(note, 0, 0), NewJob(note, 1, 0)]
    ensures s' == s.(queue := s'.queue, outcomes := s.outcomes[note.id := Outcome(2, false)], history := s'.history)
    ensures WantedOf(s'.history, note.id) == map[0 := 1, 1 := 1] && AckedOf(s'.history, note.id) == map[]
  {
    WantedBoth();
    EnqueueBoth(s.queue, note);
    hide EnqueueFrom, Wanted;
    s' := Publish(s, note, 0);
  }

  lemma SmallText()
    ensures Utf8.Length("a") == 1
  {
    assert Utf8.Length("a") == Utf8.Size('a') + Utf8.Length([]);
  }

  lemma {:induction false} SmallQueue(queue: seq<Job>)
    requires forall j :: j in queue ==> j.note.text == "a"
    ensures Bytes(queue) == |queue|
  {
    if queue != [] {
      assert Utf8.Length("a") == Utf8.Size('a') + Utf8.Length([]);
      assert queue[0] in queue;
      SmallQueue(queue[1..]);
    }
  }

  lemma {:induction false} NoneExpired(s: State, i: nat, now: nat)
    requires i <= |s.queue| && forall j :: j in s.queue ==> !Expired(j, now)
    ensures Expire(s, i, now) == s
    decreases |s.queue| - i
  {
    if i < |s.queue| {
      NoneExpired(s, i + 1, now);
    }
  }
}
