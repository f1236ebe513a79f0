/** Which channels notifications and receipts are for: what the forwarding settings promise, over every run. */
module ForwardingChoice {
  import opened Common
  import opened Forwarding
  import opened Ledger
  import opened Store
  import R = ForwardingRun

  // ----- Channels

  /** The channel is switched on and of one of these platforms. */
  predicate Chosen(settings: Settings, platforms: seq<string>, c: nat) {
    c < |settings.channels| && settings.channels[c].enabled && settings.channels[c].platform in platforms
  }

  /** A message is to go to the chosen channels and no other: whole to a SIM, in chunks of 1200 bytes otherwise. */
  ghost predicate GoesToChosen(under: Settings, text: string, wanted: map<nat, nat>) {
    && (forall c: nat :: c in wanted <==> Chosen(under, under.smsPlatforms, c))
    && forall c: nat :: c in wanted && c < |under.channels| ==>
        wanted[c] == if under.channels[c].platform == "sim" then 1 else |Chunks(text, 1200)|
  }

  /** What is known of a message that is outstanding. */
  ghost predicate Known(s: State, note: Note) {
    && note.id in s.history.under
    && s.history.under[note.id].channels == s.settings.channels
    && s.history.under[note.id].smsPlatforms == s.settings.smsPlatforms
    && GoesToChosen(s.history.under[note.id], note.text, WantedOf(s.history, note.id))
  }

  ghost predicate JobIsChosen(s: State, job: Job) {
    && job.channel < |s.settings.channels| && s.settings.channels[job.channel].enabled
    && (job.note.id.SmsId? ==>
      s.settings.channels[job.channel].platform in s.settings.smsPlatforms && Known(s, job.note))
  }

  /** The settings a receipt's message was published under chose exactly the channels that it was wanted on. */
  ghost predicate ReceiptIsChosen(r: Receipt) {
    r.under.Some? && GoesToChosen(r.under.value, r.note.text, r.wanted)
  }

  ghost predicate Inv(s: State) {
    && R.Inv(s)
    && (forall job :: job in Jobs(s) ==> JobIsChosen(s, job))
    && (forall r :: r in s.receipts ==> ReceiptIsChosen(r))
  }

  lemma WantedIsChosen(settings: Settings, text: string)
    ensures GoesToChosen(settings, text, Wanted(settings, settings.smsPlatforms, text))
  {
    hide Chunks;
  }

  /** A job that stands for one there was before, under the same settings. */
  lemma JobStays(s: State, t: State, was: Job, job: Job)
    requires JobIsChosen(s, was) && job.note == was.note && job.channel == was.channel
    requires t.settings.channels == s.settings.channels && t.settings.smsPlatforms == s.settings.smsPlatforms
    requires t.history.under == s.history.under && t.history.wanted == s.history.wanted
    ensures JobIsChosen(t, job)
  {
    hide GoesToChosen;
  }

  lemma AllStay(s: State, t: State)
    requires Inv(s) && R.Inv(t)
    requires forall job :: job in Jobs(t) ==>
      exists was :: was in Jobs(s) && was.note == job.note && was.channel == job.channel
    requires t.settings.channels == s.settings.channels && t.settings.smsPlatforms == s.settings.smsPlatforms
    requires t.history.under == s.history.under && t.history.wanted == s.history.wanted
    requires forall r :: r in t.receipts ==> r in s.receipts || ReceiptIsChosen(r)
    ensures Inv(t)
  {
    hide R.Inv, JobIsChosen, ReceiptIsChosen, Jobs;
    forall job | job in Jobs(t)
      ensures JobIsChosen(t, job)
    {
      var was :| was in Jobs(s) && was.note == job.note && was.channel == job.channel;
      JobStays(s, t, was, job);
    }
  }

  /** A message that is not outstanding opens its account; what is known of the others stays. */
  lemma PublishFacts(s: State, note: Note, now: nat, added: seq<Job>)
    requires Publish(s, note, now).queue == s.queue + added
    requires EnqueueFrom(s.settings, s.queue, note, s.settings.smsPlatforms, 0, now).1 == |added|
    ensures var t := Publish(s, note, now);
      && t.settings == s.settings && t.receipts == s.receipts
      && (forall job :: job in Jobs(t) ==> job in Jobs(s) || job in added)
      && (added != [] ==> Known(t, note))
      && forall other: Note :: other.id != note.id && Known(s, other) ==> Known(t, other)
  {
    WantedIsChosen(s.settings, note.text);
    hide EnqueueFrom, Wanted, GoesToChosen;
  }

  lemma PublishKeepsInv(s: State, note: Note, now: nat)
    requires Inv(s) && note.id.SmsId? && note.id !in s.outcomes
    ensures Inv(Publish(s, note, now))
  {
    R.PublishKeepsInv(s, note, now);
    var t := Publish(s, note, now);
    var added := EnqueueAdds(s.settings, s.queue, note, s.settings.smsPlatforms, 0, now);
    PublishFacts(s, note, now, added);
    OutstandingHasOutcome(s);
    hide Publish, Known, R.Inv, Jobs, ReceiptIsChosen;
    forall job | job in Jobs(t)
      ensures JobIsChosen(t, job)
    {
      if job in Jobs(s) {
        assert JobIsChosen(s, job);
      }
    }
  }

  lemma OutstandingHasOutcome(s: State)
    requires R.Inv(s)
    ensures forall job :: job in Jobs(s) && job.note.id.SmsId? ==> job.note.id in s.outcomes
  {
    hide Tally, OutcomeFits;
    forall job | job in Jobs(s) && job.note.id.SmsId?
      ensures job.note.id in s.outcomes
    {
      assert JobFits(s.settings, s.outcomes, s.history, job);
    }
  }

  lemma AnnounceKeepsInv(s: State, lost: nat, restored: nat, text: string, now: nat)
    requires Inv(s)
    ensures Inv(Announce(s, lost, restored, text, now))
  {
    R.AnnounceKeepsInv(s, lost, restored, text, now);
    var t, note := Announce(s, lost, restored, text, now), Note(OutageId(lost), text, []);
    var added := EnqueueAdds(s.settings, s.queue, note, s.settings.outagePlatforms, 0, now);
    hide EnqueueFrom, GoesToChosen, R.Inv;
    forall job | job in Jobs(t)
      ensures JobIsChosen(t, job)
    {
      if job in Jobs(s) {
        assert JobIsChosen(s, job);
      } else {
        assert job in added;
      }
    }
  }

  lemma {:induction false} ExpireShrinks(s: State, i: nat, now: nat)
    requires i <= |s.queue|
    ensures var t := Expire(s, i, now);
      && t == s.(queue := t.queue, outcomes := t.outcomes) && forall job :: job in t.queue ==> job in s.queue
    decreases |s.queue| - i
  {
    if i < |s.queue| {
      if Expired(s.queue[i], now) {
        var u := Settle(s.(queue := Without(s.queue, i)), s.queue[i].note, false);
        assert u == s.(queue := Without(s.queue, i), outcomes := u.outcomes);
        ExpireShrinks(u, i, now);
      } else {
        ExpireShrinks(s, i + 1, now);
      }
    }
  }

  lemma TakeKeepsInv(s: State, now: nat)
    requires Inv(s) && s.flight.None?
    ensures Inv(Take(s, now))
  {
    R.TakeKeepsInv(s, now);
    ExpireShrinks(s, 0, now);
    hide Expire, R.Inv, JobIsChosen;
    var s1, t := Expire(s, 0, now), Take(s, now);
    assert forall job :: job in Jobs(t) ==> job in s1.queue;
    assert forall job :: job in s1.queue ==> job in Jobs(s);
    AllStay(s, t);
  }

  /** What a finished delivery leaves as it was, and the one receipt it may add. */
  lemma FinishFacts(s: State, answer: Answer, now: nat)
    requires s.flight.Some?
    requires s.flight.value.generation == s.generation ==> s.flight.value.job.channel < |s.settings.channels|
    ensures var t, flying := Finish(s, answer, now), s.flight.value.job;
      && t.settings == s.settings && t.history.under == s.history.under && t.history.wanted == s.history.wanted
      && (t.receipts == s.receipts
        || (s.flight.value.generation == s.generation && flying.note.id in s.outcomes
          && t.receipts == s.receipts + [ReceiptFor(t.history, flying.note)]))
  {
    hide Count, Backoff;
  }

  lemma FinishJobs(s: State, answer: Answer, now: nat, job: Job)
    requires s.flight.Some?
    requires s.flight.value.generation == s.generation ==> s.flight.value.job.channel < |s.settings.channels|
    requires job in Jobs(Finish(s, answer, now))
    ensures exists was :: was in Jobs(s) && was.note == job.note && was.channel == job.channel
  {
    hide Count, Backoff;
    if job in s.queue {
      assert job in Jobs(s);
    } else {
      assert s.flight.value.job in Jobs(s);
    }
  }

  lemma NewReceiptIsChosen(s: State, note: Note, h: History)
    requires Known(s, note) && h.under == s.history.under && h.wanted == s.history.wanted
    ensures ReceiptIsChosen(ReceiptFor(h, note))
  {
    hide GoesToChosen;
  }

  lemma FinishKeepsInv(s: State, answer: Answer, now: nat)
    requires Inv(s) && s.flight.Some?
    ensures s.flight.value.generation == s.generation ==> s.flight.value.job.channel < |s.settings.channels|
    ensures Inv(Finish(s, answer, now))
  {
    R.FlightInRange(s);
    R.FinishKeepsInv(s, answer, now);
    OutcomesAreSms(s);
    FinishFacts(s, answer, now);
    var t, flying := Finish(s, answer, now), s.flight.value.job;
    hide R.Inv, Finish, GoesToChosen, ReceiptIsChosen, Known;
    if s.flight.value.generation == s.generation {
      assert flying in Jobs(s) && JobIsChosen(s, flying);
      if flying.note.id in s.outcomes {
        NewReceiptIsChosen(s, flying.note, t.history);
      }
    }
    hide JobIsChosen, Jobs;
    forall job | job in Jobs(t)
      ensures exists was :: was in Jobs(s) && was.note == job.note && was.channel == job.channel
    {
      FinishJobs(s, answer, now, job);
    }
    AllStay(s, t);
  }

  lemma OutcomesAreSms(s: State)
    requires R.Inv(s)
    ensures forall id :: id in s.outcomes ==> id.SmsId?
  {
    hide Tally, JobFits;
    forall id | id in s.outcomes
      ensures id.SmsId?
    {
      assert OutcomeFits(Jobs(s), s.outcomes, s.history, id);
    }
  }

  lemma {:induction false} SmsJobsAreJobs(queue: seq<Job>)
    ensures forall job :: job in SmsJobs(queue) <==> job in queue && job.note.id.SmsId?
  {
    if queue != [] {
      SmsJobsAreJobs(queue[1..]);
    }
  }

  /** Settings that do not reset the queue leave its channels as they were. */
  lemma ConfigureFacts(s: State, next: Settings, w: Written)
    requires s.flight.Some? ==> s.flight.value.generation <= s.generation
    ensures var t := Configure(s, next, w);
      && t.history == s.history && t.receipts == s.receipts
      && (t.generation != s.generation ==> Jobs(t) == [])
      && (t.generation == s.generation ==>
        && t.settings.channels == s.settings.channels && t.settings.smsPlatforms == s.settings.smsPlatforms
        && forall job :: job in Jobs(t) ==> job in Jobs(s))
  {
    SmsJobsAreJobs(s.queue);
    hide SmsJobs;
  }

  lemma ConfigureKeepsInv(s: State, next: Settings, w: Written)
    requires Inv(s)
    ensures Inv(Configure(s, next, w))
  {
    R.ConfigureKeepsInv(s, next, w);
    FlightIsOld(s);
    ConfigureFacts(s, next, w);
    hide R.Inv, Configure, JobIsChosen, ReceiptIsChosen, Jobs;
    var t := Configure(s, next, w);
    if t.generation == s.generation {
      AllStay(s, t);
    }
  }

  lemma FlightIsOld(s: State)
    requires R.Inv(s)
    ensures s.flight.Some? ==> s.flight.value.generation <= s.generation
  {
  }

  lemma StepKeepsInv(s: State, op: R.Op)
    requires Inv(s) && R.Legal(s, op)
    ensures Inv(R.Step(s, op))
  {
    hide R.Inv, Publish, Announce, Take, Finish, Configure, JobIsChosen, ReceiptIsChosen;
    match op
    case Publishes(note, now) => PublishKeepsInv(s, note, now);
    case Announces(lost, restored, text, now) => AnnounceKeepsInv(s, lost, restored, text, now);
    case Takes(now) => TakeKeepsInv(s, now);
    case Finishes(answer, now) =>
      R.FlightInRange(s);
      FinishKeepsInv(s, answer, now);
    case Saves(next, w) => ConfigureKeepsInv(s, next, w);
  }

  lemma {:induction false} ReachesKeepsInv(from: State, ops: seq<R.Op>, s: State)
    requires Inv(from) && R.Reaches(from, ops, s)
    ensures Inv(s)
    decreases ops
  {
    hide Inv, R.Step, R.Legal;
    if ops != [] {
      StepKeepsInv(from, ops[0]);
      ReachesKeepsInv(R.Step(from, ops[0]), ops[1..], s);
    }
  }

  /**
   Over every run: what is queued or being sent is for a channel that is switched on, and a message for one of
   the platforms that messages go to; and what a receipt's message had to go to, before the receipt was earned,
   is exactly the channels that the settings it was published under chose, each with all its chunks.
   */
  lemma OnlyChosenChannels(settings: Settings, stored: bool, ops: seq<R.Op>, s: State)
    requires R.Reaches(R.Start(settings, stored), ops, s)
    ensures forall job :: job in Jobs(s) ==>
      && job.channel < |s.settings.channels| && s.settings.channels[job.channel].enabled
      && (job.note.id.SmsId? ==> s.settings.channels[job.channel].platform in s.settings.smsPlatforms)
    ensures forall r :: r in s.receipts ==>
      && r.under.Some?
      && (forall c: nat :: c in r.wanted <==>
        && c < |r.under.value.channels| && r.under.value.channels[c].enabled
        && r.under.value.channels[c].platform in r.under.value.smsPlatforms)
      && (forall c: nat :: c in r.wanted && c < |r.under.value.channels| ==>
        r.wanted[c] == if r.under.value.channels[c].platform == "sim" then 1 else |Chunks(r.note.text, 1200)|)
  {
    hide R.Reaches, R.Inv, Chunks;
    R.StartInv(settings, stored);
    assert Jobs(R.Start(settings, stored)) == [];
    ReachesKeepsInv(R.Start(settings, stored), ops, s);
    forall job | job in Jobs(s)
      ensures JobIsChosen(s, job)
    {
    }
    forall r | r in s.receipts
      ensures ReceiptIsChosen(r)
    {
    }
  }

  // ----- Outage notices and their own list

  /** Outage notices are switched on, and so is the job's channel for them. */
  predicate NoticeIsChosen(s: State, job: Job) {
    job.note.id.OutageId? ==>
      && s.settings.outageEnabled && job.channel < |s.settings.channels|
      && s.settings.channels[job.channel].platform in s.settings.outagePlatforms
  }

  predicate NoticesAreChosen(s: State) {
    forall job :: job in Jobs(s) ==> NoticeIsChosen(s, job)
  }

  /** New settings withdraw the channel of an outage notice that is just being sent, and reset nothing else. */
  predicate Strays(s: State, op: R.Op) {
    && op.Saves? && TakesOver(s, op.next, op.w) && !Resets(s.settings, op.next)
    && s.flight.Some? && s.flight.value.generation == s.generation
    && !NoticeIsChosen(s.(settings := op.next), s.flight.value.job)
  }

  lemma ConfigureNotices(s: State, next: Settings, w: Written)
    requires Inv(s) && NoticesAreChosen(s)
    ensures NoticesAreChosen(Configure(s, next, w)) <==> !Strays(s, R.Saves(next, w))
  {
    SmsJobsAreJobs(s.queue);
    FlightIsOld(s);
    hide SmsJobs, R.Inv;
    var t := Configure(s, next, w);
    if Strays(s, R.Saves(next, w)) {
      assert s.flight.value.job in Jobs(t);
    } else {
      forall job | job in Jobs(t)
        ensures NoticeIsChosen(t, job)
      {
        assert job in Jobs(s);
      }
    }
  }

  lemma QueueingKeepsNotices(s: State, t: State, added: seq<Job>)
    requires NoticesAreChosen(s) && t.settings == s.settings && t.flight == s.flight && t.generation == s.generation
    requires t.queue == s.queue + added && forall job :: job in added ==> NoticeIsChosen(s, job)
    ensures NoticesAreChosen(t)
  {
    assert forall job :: job in Jobs(t) ==> job in Jobs(s) || job in added;
  }

  lemma PublishKeepsNotices(s: State, note: Note, now: nat)
    requires NoticesAreChosen(s) && note.id.SmsId?
    ensures NoticesAreChosen(Publish(s, note, now))
  {
    var added := EnqueueAdds(s.settings, s.queue, note, s.settings.smsPlatforms, 0, now);
    hide EnqueueFrom, Wanted;
    QueueingKeepsNotices(s, Publish(s, note, now), added);
  }

  lemma AnnounceKeepsNotices(s: State, lost: nat, restored: nat, text: string, now: nat)
    requires NoticesAreChosen(s)
    ensures NoticesAreChosen(Announce(s, lost, restored, text, now))
  {
    var note := Note(OutageId(lost), text, []);
    var added := EnqueueAdds(s.settings, s.queue, note, s.settings.outagePlatforms, 0, now);
    hide EnqueueFrom;
    var t := Announce(s, lost, restored, text, now);
    if t != s {
      QueueingKeepsNotices(s, t, added);
    }
  }

  lemma TakeKeepsNotices(s: State, now: nat)
    requires NoticesAreChosen(s) && s.flight.None?
    ensures NoticesAreChosen(Take(s, now))
  {
    ExpireShrinks(s, 0, now);
    hide Expire;
    var t := Take(s, now);
    assert forall job :: job in Jobs(t) ==> job in Expire(s, 0, now).queue;
    assert forall job :: job in s.queue ==> job in Jobs(s);
  }

  lemma FinishKeepsNotices(s: State, answer: Answer, now: nat)
    requires NoticesAreChosen(s) && s.flight.Some?
    requires s.flight.value.generation == s.generation ==> s.flight.value.job.channel < |s.settings.channels|
    ensures NoticesAreChosen(Finish(s, answer, now))
  {
    FinishFacts(s, answer, now);
    hide Finish, Jobs;
    var t := Finish(s, answer, now);
    forall job | job in Jobs(t)
      ensures NoticeIsChosen(t, job)
    {
      FinishJobs(s, answer, now, job);
      var was :| was in Jobs(s) && was.note == job.note && was.channel == job.channel;
      assert NoticeIsChosen(s, was);
    }
  }

  /** A step that changes no settings keeps notices on their channels. */
  lemma OthersKeepNotices(s: State, op: R.Op)
    requires Inv(s) && R.Legal(s, op) && NoticesAreChosen(s) && !op.Saves?
    ensures NoticesAreChosen(R.Step(s, op))
  {
    hide Publish, Announce, Take, Finish, R.Inv, NoticesAreChosen;
    match op
    case Publishes(note, now) => PublishKeepsNotices(s, note, now);
    case Announces(lost, restored, text, now) => AnnounceKeepsNotices(s, lost, restored, text, now);
    case Takes(now) => TakeKeepsNotices(s, now);
    case Finishes(answer, now) =>
      R.FlightInRange(s);
      FinishKeepsNotices(s, answer, now);
  }

  /**
   With outage notices on the channels chosen for them, a step leaves them there if and only if it does not
   withdraw the channel of a notice that is being sent.
   */
  lemma NoticesStrayExactly(s: State, op: R.Op)
    requires Inv(s) && R.Legal(s, op) && NoticesAreChosen(s)
    ensures NoticesAreChosen(R.Step(s, op)) <==> !Strays(s, op)
  {
    hide R.Step, R.Inv, NoticesAreChosen;
    match op
    case Saves(next, w) =>
      ConfigureNotices(s, next, w);
      assert R.Step(s, op) == Configure(s, next, w) by {
        SavesConfigures(s, next, w);
      }
    case _ => OthersKeepNotices(s, op);
  }

  lemma SavesConfigures(s: State, next: Settings, w: Written)
    requires R.Inv(s)
    ensures R.Step(s, R.Saves(next, w)) == Configure(s, next, w)
  {
    hide R.Inv, Configure;
  }

  /** Some step of the run strays. */
  ghost predicate HasStray(from: State, ops: seq<R.Op>)
    decreases |ops|
  {
    && ops != [] && R.Inv(from) && R.Legal(from, ops[0])
    && (Strays(from, ops[0]) || HasStray(R.Step(from, ops[0]), ops[1..]))
  }

  lemma {:induction false} RunKeepsNotices(from: State, ops: seq<R.Op>, s: State)
    requires Inv(from) && NoticesAreChosen(from) && R.Reaches(from, ops, s) && !HasStray(from, ops)
    ensures NoticesAreChosen(s)
    decreases |ops|
  {
    hide Inv, NoticesAreChosen, Strays, R.Step, R.Legal, R.Inv;
    if ops != [] {
      InvHolds(from);
      NoticesStrayExactly(from, ops[0]);
      StepKeepsInv(from, ops[0]);
      RunKeepsNotices(R.Step(from, ops[0]), ops[1..], s);
    }
  }

  lemma InvHolds(s: State)
    requires Inv(s)
    ensures R.Inv(s)
  {
    hide R.Inv;
  }

  /**
   Over every run: an outage notice is for a channel that outage notices go to while they are switched on,
   unless some step withdrew the channel of one that was being sent.
   */
  lemma OnlyChosenNotices(settings: Settings, stored: bool, ops: seq<R.Op>, s: State)
    requires R.Reaches(R.Start(settings, stored), ops, s)
    ensures HasStray(R.Start(settings, stored), ops) || forall job :: job in Jobs(s) && job.note.id.OutageId? ==>
      && s.settings.outageEnabled && job.channel < |s.settings.channels|
      && s.settings.channels[job.channel].platform in s.settings.outagePlatforms
  {
    var from := R.Start(settings, stored);
    R.StartInv(settings, stored);
    assert Jobs(from) == [];
    assert NoticesAreChosen(from);
    hide R.Reaches, R.Inv, Jobs, HasStray;
    if !HasStray(from, ops) {
      RunKeepsNotices(from, ops, s);
    }
  }
}
