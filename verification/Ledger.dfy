/**
 The bookkeeping behind deletion receipts: how the outcome of a message relates to the jobs that are
 queued or in flight for it and to the chunks acknowledged so far.
 */
module Ledger {
  import opened Common
  import opened Forwarding

  // ----- Counting jobs

  function Tally(p: Job -> bool, jobs: seq<Job>): nat {
    if jobs == [] then 0 else (if p(jobs[0]) then 1 else 0) + Tally(p, jobs[1..])
  }

  function ForId(id: Id): Job -> bool {
    (j: Job) => j.note.id == id
  }

  function ForChannel(id: Id, c: nat): Job -> bool {
    (j: Job) => j.note.id == id && j.channel == c
  }

  lemma {:induction false} TallyConcat(p: Job -> bool, a: seq<Job>, b: seq<Job>)
    ensures Tally(p, a + b) == Tally(p, a) + Tally(p, b)
  {
    if a == [] {
      assert a + b == b;
    } else {
      TallyConcat(p, a[1..], b);
      assert (a + b)[0] == a[0] && (a + b)[1..] == a[1..] + b;
    }
  }

  lemma TallyCons(p: Job -> bool, j: Job, rest: seq<Job>)
    ensures Tally(p, [j] + rest) == (if p(j) then 1 else 0) + Tally(p, rest)
  {
    assert ([j] + rest)[0] == j && ([j] + rest)[1..] == rest;
  }

  lemma {:induction false} TallyHas(p: Job -> bool, jobs: seq<Job>, j: Job)
    requires j in jobs && p(j)
    ensures Tally(p, jobs) > 0
  {
    if jobs[0] != j {
      TallyHas(p, jobs[1..], j);
    }
  }

  lemma {:induction false} TallyNone(p: Job -> bool, jobs: seq<Job>)
    requires forall j :: j in jobs ==> !p(j)
    ensures Tally(p, jobs) == 0
  {
    if jobs != [] {
      TallyNone(p, jobs[1..]);
    }
  }

  lemma {:induction false} TallyAtMost(p: Job -> bool, q: Job -> bool, jobs: seq<Job>)
    requires forall j :: p(j) ==> q(j)
    ensures Tally(p, jobs) <= Tally(q, jobs)
  {
    if jobs != [] {
      TallyAtMost(p, q, jobs[1..]);
    }
  }

  // ----- The ledger

  function Range(n: nat): seq<nat> {
    seq(n, i => i)
  }

  function AckedAt(h: History, id: Id, c: nat): seq<nat> {
    var acked := AckedOf(h, id);
    if c in acked then acked[c] else []
  }

  /** A job names a channel; an SMS job stands where its acknowledged chunks end. */
  ghost predicate JobFits(settings: Settings, outcomes: map<Id, Outcome>, h: History, j: Job) {
    && j.channel < |settings.channels|
    && j.part <= Count(settings, j.channel, j.note.text)
    && (j.note.id.SmsId? ==>
          && j.note.id in outcomes
          && j.channel in WantedOf(h, j.note.id)
          && WantedOf(h, j.note.id)[j.channel] == Count(settings, j.channel, j.note.text)
          && AckedAt(h, j.note.id, j.channel) == Range(j.part))
  }

  /** A channel of a message is served: its job is still out, or all its chunks are acknowledged in order. */
  ghost predicate Served(jobs: seq<Job>, h: History, id: Id, c: nat) {
    c in WantedOf(h, id)
    && (Tally(ForChannel(id, c), jobs) == 1 || AckedAt(h, id, c) == Range(WantedOf(h, id)[c]))
  }

  ghost predicate OutcomeFits(jobs: seq<Job>, outcomes: map<Id, Outcome>, h: History, id: Id)
    requires id in outcomes
  {
    && id.SmsId?
    && outcomes[id].pending == Tally(ForId(id), jobs) > 0
    && WantedOf(h, id) != map[]
    && (!outcomes[id].failed ==> forall c :: c in WantedOf(h, id) ==> Served(jobs, h, id, c))
  }

  ghost predicate Fits(settings: Settings, jobs: seq<Job>, outcomes: map<Id, Outcome>, h: History) {
    && (forall j :: j in jobs ==> JobFits(settings, outcomes, h, j))
    && (forall n, c :: Tally(ForChannel(SmsId(n), c), jobs) <= 1)
    && (forall id :: id in outcomes ==> OutcomeFits(jobs, outcomes, h, id))
  }

  /** Every channel the message had to go to acknowledged all its chunks, first to last. */
  predicate Earned(r: Receipt) {
    && r.wanted != map[]
    && forall c :: c in r.wanted ==> c in r.acked && r.acked[c] == Range(r.wanted[c])
  }

  /** The jobs that count: the queue, and the one in flight unless its generation is over. */
  function Jobs(s: State): seq<Job> {
    s.queue + if s.flight.Some? && s.flight.value.generation == s.generation then [s.flight.value.job] else []
  }

  // ----- Only the bag of jobs matters

  lemma TallyMoved(p: Job -> bool, a: seq<Job>, j: Job, b: seq<Job>)
    ensures Tally(p, a + [j] + b) == Tally(p, [j] + (a + b))
  {
    TallyConcat(p, a + [j], b);
    TallyConcat(p, a, [j]);
    TallyConcat(p, a, b);
    TallyConcat(p, [j], a + b);
  }

  /** Same members, same counts. */
  ghost predicate SameJobs(a: seq<Job>, b: seq<Job>) {
    && (forall j :: j in a <==> j in b)
    && (forall p: Job -> bool :: Tally(p, a) == Tally(p, b))
  }

  lemma MovedToFront(a: seq<Job>, j: Job, b: seq<Job>)
    ensures SameJobs(a + [j] + b, [j] + (a + b))
  {
    forall p: Job -> bool ensures Tally(p, a + [j] + b) == Tally(p, [j] + (a + b)) {
      TallyMoved(p, a, j, b);
    }
  }

  lemma FitsSame(settings: Settings, a: seq<Job>, b: seq<Job>, outcomes: map<Id, Outcome>, h: History)
    requires SameJobs(a, b) && Fits(settings, a, outcomes, h)
    ensures Fits(settings, b, outcomes, h)
  {
    hide Tally, JobFits, WantedOf, AckedAt;
    forall id | id in outcomes ensures OutcomeFits(b, outcomes, h, id) {
      assert OutcomeFits(a, outcomes, h, id);
      forall c | c in WantedOf(h, id) && !outcomes[id].failed ensures Served(b, h, id, c) {
        assert Served(a, h, id, c);
      }
    }
  }

  // ----- A job leaves or moves on

  /** The outcomes after one job of `id` is over. */
  function Settled(outcomes: map<Id, Outcome>, id: Id, success: bool): map<Id, Outcome> {
    if id !in outcomes then outcomes
    else
      var o := outcomes[id];
      if o.pending <= 1 then outcomes - {id}
      else outcomes[id := Outcome(o.pending - 1, o.failed || !success)]
  }

  lemma OthersFit(settings: Settings, j: Job, rest: seq<Job>, outcomes: map<Id, Outcome>, h: History, success: bool,
                  k: Job)
    requires Fits(settings, [j] + rest, outcomes, h) && j.note.id.SmsId? && k in rest
    ensures JobFits(settings, Settled(outcomes, j.note.id, success), h, k)
  {
    hide Tally, Range, Count;
    assert k in [j] + rest && j in [j] + rest;
    assert JobFits(settings, outcomes, h, k) && JobFits(settings, outcomes, h, j);
    assert OutcomeFits([j] + rest, outcomes, h, j.note.id);
    TallyCons(ForId(j.note.id), j, rest);
    if k.note.id == j.note.id {
      TallyHas(ForId(j.note.id), rest, k);
    }
  }

  lemma ChannelsStaySingle(j: Job, rest: seq<Job>)
    requires forall n, c :: Tally(ForChannel(SmsId(n), c), [j] + rest) <= 1
    ensures forall n, c :: Tally(ForChannel(SmsId(n), c), rest) <= 1
  {
    forall n, c ensures Tally(ForChannel(SmsId(n), c), rest) <= 1 {
      TallyCons(ForChannel(SmsId(n), c), j, rest);
    }
  }

  lemma ServedWithout(j: Job, rest: seq<Job>, h: History, id: Id, c: nat)
    requires Served([j] + rest, h, id, c)
    requires !(j.note.id == id && j.channel == c)
    ensures Served(rest, h, id, c)
  {
    hide Tally;
    TallyCons(ForChannel(id, c), j, rest);
  }

  /** A finished job leaves the books in order, whether it failed or its last chunk was acknowledged. */
  lemma JobLeaves(settings: Settings, j: Job, rest: seq<Job>, outcomes: map<Id, Outcome>, h: History, success: bool)
    requires Fits(settings, [j] + rest, outcomes, h) && j.note.id.SmsId?
    requires success ==> j.channel in WantedOf(h, j.note.id)
    requires success ==> AckedAt(h, j.note.id, j.channel) == Range(WantedOf(h, j.note.id)[j.channel])
    ensures Fits(settings, rest, Settled(outcomes, j.note.id, success), h)
  {
    hide Tally, Range, Count, JobFits;
    var after := Settled(outcomes, j.note.id, success);
    assert j in [j] + rest;
    forall k | k in rest ensures JobFits(settings, after, h, k) {
      OthersFit(settings, j, rest, outcomes, h, success, k);
    }
    ChannelsStaySingle(j, rest);
    forall id | id in after ensures OutcomeFits(rest, after, h, id) {
      assert OutcomeFits([j] + rest, outcomes, h, id);
      TallyCons(ForId(id), j, rest);
      forall c | c in WantedOf(h, id) && !after[id].failed ensures Served(rest, h, id, c) {
        if !(j.note.id == id && j.channel == c) {
          assert Served([j] + rest, h, id, c);
          ServedWithout(j, rest, h, id, c);
        }
      }
    }
  }

  /** The last successful job of a message that never failed proves the receipt. */
  lemma LastJobEarns(settings: Settings, j: Job, rest: seq<Job>, outcomes: map<Id, Outcome>, h: History)
    requires Fits(settings, [j] + rest, outcomes, h) && j.note.id in outcomes
    requires outcomes[j.note.id].pending <= 1 && !outcomes[j.note.id].failed
    requires j.channel in WantedOf(h, j.note.id)
    requires AckedAt(h, j.note.id, j.channel) == Range(WantedOf(h, j.note.id)[j.channel])
    requires forall c :: c in WantedOf(h, j.note.id) ==> WantedOf(h, j.note.id)[c] > 0
    ensures Earned(ReceiptFor(h, j.note))
  {
    hide Tally, JobFits;
    var id := j.note.id;
    assert OutcomeFits([j] + rest, outcomes, h, id);
    TallyCons(ForId(id), j, rest);
    forall c | c in WantedOf(h, id)
      ensures c in AckedOf(h, id) && AckedOf(h, id)[c] == Range(WantedOf(h, id)[c])
    {
      assert Served([j] + rest, h, id, c);
      if c != j.channel {
        ServedWithout(j, rest, h, id, c);
        TallyAtMost(ForChannel(id, c), ForId(id), rest);
      }
      assert AckedAt(h, id, c) == Range(WantedOf(h, id)[c]);
      assert |Range(WantedOf(h, id)[c])| > 0;
    }
  }

  lemma AcknowledgeAt(h: History, j: Job, id: Id, c: nat)
    ensures WantedOf(Acknowledge(h, j), id) == WantedOf(h, id)
    ensures AckedAt(Acknowledge(h, j), id, c)
         == AckedAt(h, id, c) + (if j.note.id == id && j.channel == c then [j.part] else [])
  {
  }

  lemma RangeSnoc(n: nat)
    ensures Range(n) + [n] == Range(n + 1)
  {
  }

  /** No other job of the message is on the same channel. */
  lemma AloneOnChannel(j: Job, rest: seq<Job>)
    requires forall n, c :: Tally(ForChannel(SmsId(n), c), [j] + rest) <= 1
    ensures j.note.id.SmsId? ==> forall k :: k in rest && k.note.id == j.note.id ==> k.channel != j.channel
  {
    if j.note.id.SmsId? {
      var p := ForChannel(j.note.id, j.channel);
      assert j.note.id == SmsId(j.note.id.digest);
      TallyCons(p, j, rest);
      assert Tally(p, rest) == 0;
      forall k | k in rest ensures !p(k) {
        if p(k) {
          TallyHas(p, rest, k);
        }
      }
    }
  }

  /** An acknowledged chunk that is not the last moves the job on. */
  lemma JobAdvances(settings: Settings, j: Job, j': Job, rest: seq<Job>, outcomes: map<Id, Outcome>, h: History)
    requires Fits(settings, [j] + rest, outcomes, h)
    requires j'.note == j.note && j'.channel == j.channel && j'.part == j.part + 1
    requires j.channel < |settings.channels| && j'.part <= Count(settings, j.channel, j.note.text)
    ensures Fits(settings, [j'] + rest, outcomes, Acknowledge(h, j))
  {
    hide Tally, Range, Count, Acknowledge, AckedAt, WantedOf;
    var h' := Acknowledge(h, j);
    var before, after := [j] + rest, [j'] + rest;
    forall k | k in after ensures JobFits(settings, outcomes, h', k) {
      AcknowledgeAt(h, j, k.note.id, k.channel);
      if k == j' {
        assert j in before;
        RangeSnoc(j.part);
      } else {
        assert k in rest && k in before;
        AloneOnChannel(j, rest);
      }
    }
    forall p: Job -> bool | p(j) == p(j') ensures Tally(p, after) == Tally(p, before) {
      TallyCons(p, j, rest);
      TallyCons(p, j', rest);
    }
    forall n, c ensures Tally(ForChannel(SmsId(n), c), after) <= 1 {
      assert Tally(ForChannel(SmsId(n), c), before) <= 1;
    }
    forall id | id in outcomes ensures OutcomeFits(after, outcomes, h', id) {
      assert OutcomeFits(before, outcomes, h, id);
      AcknowledgeAt(h, j, id, 0);
      forall c | c in WantedOf(h', id) && !outcomes[id].failed ensures Served(after, h', id, c) {
        assert Served(before, h, id, c);
        AcknowledgeAt(h, j, id, c);
        if id == j.note.id && c == j.channel {
          TallyCons(ForChannel(id, c), j, rest);
          assert Tally(ForChannel(SmsId(id.digest), c), before) <= 1;
        }
      }
    }
  }

  // ----- New jobs

  /** The jobs a note adds when it is queued from `channel` on. */
  ghost predicate NewJobs(settings: Settings, platforms: seq<string>, note: Note, channel: nat, failed: bool,
                          jobs: seq<Job>) {
    && (forall j :: j in jobs ==> j.note == note && j.part == 0 && channel <= j.channel < |settings.channels|
                                  && Uses(settings, platforms, j.channel))
    && (forall c :: Tally(ForChannel(note.id, c), jobs) <= 1)
    && (!failed ==> forall c :: channel <= c < |settings.channels| && Uses(settings, platforms, c) ==>
                      Tally(ForChannel(note.id, c), jobs) == 1)
  }

  lemma {:induction false} EnqueueAdds(settings: Settings, queue: seq<Job>, note: Note, platforms: seq<string>,
                                       channel: nat, now: nat)
    returns (jobs: seq<Job>)
    requires channel <= |settings.channels|
    ensures var r := EnqueueFrom(settings, queue, note, platforms, channel, now);
      r.0 == queue + jobs && r.1 == |jobs| && NewJobs(settings, platforms, note, channel, r.2, jobs)
    decreases |settings.channels| - channel
  {
    hide Tally, Full, Uses;
    if channel == |settings.channels| {
      jobs := [];
      forall c ensures Tally(ForChannel(note.id, c), jobs) == 0 {
        TallyNone(ForChannel(note.id, c), jobs);
      }
    } else if !Uses(settings, platforms, channel) || Full(queue, note) {
      jobs := EnqueueAdds(settings, queue, note, platforms, channel + 1, now);
    } else {
      var j := NewJob(note, channel, now);
      var rest := EnqueueAdds(settings, queue + [j], note, platforms, channel + 1, now);
      jobs := [j] + rest;
      ConcatAssociates(queue, [j], rest);
      forall c ensures Tally(ForChannel(note.id, c), jobs)
                    == (if c == channel then 1 else Tally(ForChannel(note.id, c), rest))
      {
        TallyCons(ForChannel(note.id, c), j, rest);
        if c == channel {
          TallyNone(ForChannel(note.id, c), rest);
        }
      }
    }
  }

  /** A message whose id is not outstanding opens its account with the jobs just queued. */
  lemma NoteEnters(settings: Settings, platforms: seq<string>, jobs: seq<Job>, note: Note, added: seq<Job>,
                   failed: bool, outcomes: map<Id, Outcome>, h: History)
    requires Fits(settings, jobs, outcomes, h)
    requires NewJobs(settings, platforms, note, 0, failed, added) && added != []
    requires note.id.SmsId? && note.id !in outcomes
    ensures Fits(settings, jobs + added, outcomes[note.id := Outcome(|added|, failed)],
                 Opened(h, settings, platforms, note))
  {
    hide Tally, Count, Uses;
    var id := note.id;
    var outcomes' := outcomes[id := Outcome(|added|, failed)];
    var h' := Opened(h, settings, platforms, note);
    var all := jobs + added;
    assert Range(0) == [];
    forall j | j in jobs ensures j.note.id != id {
      assert JobFits(settings, outcomes, h, j);
    }
    forall j | j in all ensures JobFits(settings, outcomes', h', j) {
      if j in jobs {
        assert JobFits(settings, outcomes, h, j);
      }
    }
    forall n, c ensures Tally(ForChannel(SmsId(n), c), all) <= 1 {
      TallyConcat(ForChannel(SmsId(n), c), jobs, added);
      if SmsId(n) == id {
        TallyNone(ForChannel(id, c), jobs);
      } else {
        TallyNone(ForChannel(SmsId(n), c), added);
      }
    }
    TallyAll(ForId(id), added);
    forall i | i in outcomes' ensures OutcomeFits(all, outcomes', h', i) {
      TallyConcat(ForId(i), jobs, added);
      if i == id {
        TallyNone(ForId(id), jobs);
        assert added[0] in added && added[0].channel in WantedOf(h', id);
        forall c | c in WantedOf(h', id) && !failed ensures Served(all, h', id, c) {
          TallyConcat(ForChannel(id, c), jobs, added);
          TallyNone(ForChannel(id, c), jobs);
        }
      } else {
        TallyNone(ForId(i), added);
        assert OutcomeFits(jobs, outcomes, h, i);
        forall c | c in WantedOf(h', i) && !outcomes'[i].failed ensures Served(all, h', i, c) {
          assert Served(jobs, h, i, c);
          TallyConcat(ForChannel(i, c), jobs, added);
          TallyNone(ForChannel(i, c), added);
        }
      }
    }
  }

  lemma {:induction false} TallyAll(p: Job -> bool, jobs: seq<Job>)
    requires forall j :: j in jobs ==> p(j)
    ensures Tally(p, jobs) == |jobs|
  {
    if jobs != [] {
      TallyAll(p, jobs[1..]);
    }
  }

  /** Jobs that belong to no account, such as outage notices, come and go freely. */
  lemma OutageJobsDoNotCount(settings: Settings, jobs: seq<Job>, jobs': seq<Job>, outcomes: map<Id, Outcome>,
                             h: History)
    requires Fits(settings, jobs, outcomes, h)
    requires forall j :: j in jobs' ==> j in jobs || (j.note.id.OutageId? && JobFits(settings, outcomes, h, j))
    requires forall id: Id :: id.SmsId? ==> Tally(ForId(id), jobs') == Tally(ForId(id), jobs)
    requires forall id: Id, c: nat :: id.SmsId? ==> Tally(ForChannel(id, c), jobs') == Tally(ForChannel(id, c), jobs)
    ensures Fits(settings, jobs', outcomes, h)
  {
    hide Tally, JobFits, WantedOf, AckedAt;
    forall id | id in outcomes ensures OutcomeFits(jobs', outcomes, h, id) {
      assert OutcomeFits(jobs, outcomes, h, id);
      forall c | c in WantedOf(h, id) && !outcomes[id].failed ensures Served(jobs', h, id, c) {
        assert Served(jobs, h, id, c);
      }
    }
  }
}
