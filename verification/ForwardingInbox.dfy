/**
 The detector and the forwarder together: what the forwarder is given to publish comes from listings of the
 inbox, and a change of the settings replaces the detector when it resets the queue.
 */
module ForwardingInbox {
  import opened Common
  import opened Forwarding
  import opened Inbox
  import opened Ledger
  import opened Store
  import D = Detector
  import DetectorRun
  import F = Fragments
  import R = ForwardingRun
  import Sorting

  /**
   `away` are the outstanding messages that a successful listing did not hold since they were published,
   `taken` is when the delivery task last looked for a job; these and `clock` only the proofs read.
   */
  datatype Joint = Joint(detector: D.State, forwarder: State, away: set<Id>, taken: nat, clock: nat)

  datatype Op =
    | Lists(entries: seq<Entry>, keys: seq<D.Key>, device: string, now: nat)
    | Announces(lost: nat, restored: nat, text: string, now: nat)
    | Takes(now: nat)
    | Finishes(answer: Answer, now: nat)
    | Saves(next: Settings, w: Written)

  /** What is handed to the forwarder for a published message. */
  function NoteOf(identity: D.Identity, device: string, group: seq<Entry>): Note
    requires group != []
  {
    var n := D.Publish(identity, device, group);
    Note(SmsId(n.id), n.text, n.parts)
  }

  function NotesOf(identity: D.Identity, device: string, published: seq<seq<Entry>>): (notes: seq<Note>)
    requires D.NonEmpty(published)
    ensures |notes| == |published|
    ensures forall i :: 0 <= i < |notes| ==> published[i] != [] && notes[i] == NoteOf(identity, device, published[i])
  {
    seq(|published|, i requires 0 <= i < |published| && published[i] != [] => NoteOf(identity, device, published[i]))
  }

  /** The outstanding messages that the listing does not hold. */
  function Missing(outcomes: map<Id, Outcome>, present: set<nat>): set<Id> {
    set id | id in outcomes.Keys && id.SmsId? && id.digest !in present
  }

  /** Only messages that are still outstanding are of interest. */
  function Update(j: Joint, f: State, away: set<Id>, now: nat): Joint {
    j.(forwarder := f, away := away * f.outcomes.Keys, clock := now)
  }

  /** The messages that a listing has the forwarder publish. */
  function Published(clock: F.Clock, identity: D.Identity, d: D.State, entries: seq<Entry>, keys: seq<D.Key>)
    : (r: seq<seq<Entry>>)
    ensures D.NonEmpty(r)
  {
    ScannedNonEmpty(clock, identity, d, entries, keys);
    match D.Scanned(clock, identity, d, entries, keys).1
    case Some(published) => published
    case None => []
  }

  lemma ScannedNonEmpty(clock: F.Clock, identity: D.Identity, d: D.State, entries: seq<Entry>, keys: seq<D.Key>)
    ensures var r := D.Scanned(clock, identity, d, entries, keys).1; r.Some? ==> D.NonEmpty(r.value)
  {
    hide D.Process, D.Groups, D.Ids;
    D.GroupsNonEmpty(clock, identity, entries, keys);
    var groups := D.Groups(clock, identity, entries, keys);
    D.ProcessNonEmpty(identity, d.seen * D.Ids(identity, entries), groups);
  }

  function List(clock: F.Clock, identity: D.Identity, j: Joint, entries: seq<Entry>, keys: seq<D.Key>, device: string,
                now: nat): Joint
  {
    if |entries| > D.MAX_SEEN then j.(clock := now)
    else
      var after := D.Scanned(clock, identity, j.detector, entries, keys).0;
      var notes := NotesOf(identity, device, Published(clock, identity, j.detector, entries, keys));
      var away := j.away + Missing(j.forwarder.outcomes, D.Ids(identity, entries));
      Update(j, PublishEach(j.forwarder, notes, now), away, now).(detector := after)
  }

  /** New settings, and a new detector if they reset what is queued. */
  function Save(j: Joint, next: Settings, w: Written): Joint {
    var t := Update(j, Configure(j.forwarder, next, w), j.away, j.clock);
    var reset := TakesOver(j.forwarder, next, w) && Resets(j.forwarder.settings, next);
    if reset then t.(detector := D.State(false, {})) else t
  }

  /** A message that was missing from a listing while it was outstanding is back. */
  predicate Returns(identity: D.Identity, j: Joint, entries: seq<Entry>) {
    exists i :: 0 <= i < |entries| && SmsId(identity(entries[i])) in j.away
  }

  /** One delivery task, and a clock that does not go back. */
  predicate Legal(j: Joint, op: Op) {
    match op
    case Lists(_, _, _, now) => j.clock <= now
    case Announces(_, _, _, now) => j.clock <= now
    case Takes(now) => j.clock <= now && j.forwarder.flight.None?
    case Finishes(_, now) => j.clock <= now && j.forwarder.flight.Some?
    case Saves(_, _) => true
  }

  function Step(clock: F.Clock, identity: D.Identity, j: Joint, op: Op): Joint
    requires R.Inv(j.forwarder) && Legal(j, op)
  {
    match op
    case Lists(entries, keys, device, now) => List(clock, identity, j, entries, keys, device, now)
    case Announces(lost, restored, text, now) =>
      Update(j, Announce(j.forwarder, lost, restored, text, now), j.away, now)
    case Takes(now) => Update(j, Take(j.forwarder, now), j.away, now).(taken := now)
    case Finishes(answer, now) =>
      R.FlightInRange(j.forwarder);
      Update(j, Finish(j.forwarder, answer, now), j.away, now)
    case Saves(next, w) => Save(j, next, w)
  }

  // ----- What every step keeps

  /** Every outstanding message is remembered by the detector, or was missing from a listing. */
  predicate Watched(j: Joint) {
    && j.away <= j.forwarder.outcomes.Keys
    && (forall id :: id in j.forwarder.outcomes ==> id.SmsId? && (id.digest in j.detector.seen || id in j.away))
    && (!j.detector.initialized ==> j.forwarder.outcomes == map[])
  }

  /** When the delivery task last looked, no job it left was older than the retry window. */
  ghost predicate Young(j: Joint) {
    j.taken <= j.clock && forall job :: job in Jobs(j.forwarder) ==> j.taken < job.created + RETRY_WINDOW
  }

  /** The message has a job that was within the retry window when the delivery task last looked. */
  predicate Recent(j: Joint, id: Id) {
    exists job :: job in Jobs(j.forwarder) && job.note.id == id && j.taken < job.created + RETRY_WINDOW
  }

  ghost predicate Inv(j: Joint) {
    R.Inv(j.forwarder) && Watched(j) && Young(j)
  }

  // ----- What a listing publishes

  lemma {:induction false} TimesHas(identity: D.Identity, id: nat, published: seq<seq<Entry>>, g: nat)
    requires g < |published| && id in D.Ids(identity, published[g])
    ensures DetectorRun.Times(identity, id, published) >= 1
  {
    hide D.Ids;
    if g > 0 {
      TimesHas(identity, id, published[1..], g - 1);
    }
  }

  lemma {:induction false} TimesTwice(identity: D.Identity, id: nat, published: seq<seq<Entry>>, g: nat, h: nat)
    requires g < h < |published| && id in D.Ids(identity, published[g]) && id in D.Ids(identity, published[h])
    ensures DetectorRun.Times(identity, id, published) >= 2
  {
    hide D.Ids;
    if g > 0 {
      TimesTwice(identity, id, published[1..], g - 1, h - 1);
    } else {
      TimesHas(identity, id, published[1..], h - 1);
    }
  }

  /** A message is known by the identity of one of its fragments. */
  lemma NoteIsFragment(identity: D.Identity, device: string, group: seq<Entry>)
    requires group != []
    ensures NoteOf(identity, device, group).id.digest in D.Ids(identity, group)
  {
    D.SortNotEmpty(group);
    var first := D.InOrder(group)[0];
    Sorting.SortKeeps(Sorting.ByKey(D.sequenceOf), group);
    Sorting.SameElements(D.InOrder(group), group);
    assert first in D.InOrder(group);
    var i :| 0 <= i < |group| && group[i] == first;
  }

  lemma ScanFacts(clock: F.Clock, identity: D.Identity, d: D.State, entries: seq<Entry>, keys: seq<D.Key>, id: nat)
    requires |entries| <= D.MAX_SEEN
    ensures var after := D.Scanned(clock, identity, d, entries, keys).0;
      var times := DetectorRun.Times(identity, id, Published(clock, identity, d, entries, keys));
      && times <= 1 && after.initialized
      && (id in d.seen && id in D.Ids(identity, entries) ==> times == 0 && id in after.seen)
      && (times > 0 ==> d.initialized && id in after.seen && id in D.Ids(identity, entries))
      && (!d.initialized ==> Published(clock, identity, d, entries, keys) == [])
  {
    hide D.Process, D.Groups, D.Ids;
    var present := D.Ids(identity, entries);
    if d.initialized {
      D.GroupsNonEmpty(clock, identity, entries, keys);
      var groups := D.Groups(clock, identity, entries, keys);
      DetectorRun.ProcessPublishesOnce(identity, d.seen * present, groups, id);
      forall g | 0 <= g < |groups| ensures D.Ids(identity, groups[g]) <= present {
        DetectorRun.GroupsArePresent(clock, identity, entries, keys, g);
      }
      DetectorRun.ProcessRemembersGroups(identity, d.seen * present, groups, present);
    }
  }

  /** The notes of one listing are of different messages, each of them listed and newly remembered. */
  lemma NotesAreNew(clock: F.Clock, identity: D.Identity, d: D.State, entries: seq<Entry>, keys: seq<D.Key>,
                    device: string, g: nat)
    requires |entries| <= D.MAX_SEEN && g < |Published(clock, identity, d, entries, keys)|
    ensures var notes := NotesOf(identity, device, Published(clock, identity, d, entries, keys));
      var id := notes[g].id;
      && id.SmsId? && id.digest in D.Ids(identity, entries)
      && id.digest !in d.seen && id.digest in D.Scanned(clock, identity, d, entries, keys).0.seen
      && forall h :: 0 <= h < |notes| && h != g ==> notes[h].id != id
  {
    hide D.Scanned, Published;
    var published := Published(clock, identity, d, entries, keys);
    var notes := NotesOf(identity, device, published);
    var id := notes[g].id.digest;
    NoteIsFragment(identity, device, published[g]);
    ScanFacts(clock, identity, d, entries, keys, id);
    TimesHas(identity, id, published, g);
    forall h | 0 <= h < |notes| && h != g
      ensures notes[h].id != notes[g].id
    {
      NoteIsFragment(identity, device, published[h]);
      if notes[h].id == notes[g].id {
        TimesTwice(identity, id, published, if h < g then h else g, if h < g then g else h);
      }
    }
  }

  lemma {:induction false} PublishEachKeys(s: State, notes: seq<Note>, now: nat)
    ensures s.outcomes.Keys <= PublishEach(s, notes, now).outcomes.Keys
    ensures forall id :: id in PublishEach(s, notes, now).outcomes ==>
      id in s.outcomes || exists i :: 0 <= i < |notes| && notes[i].id == id
    decreases |notes|
  {
    hide EnqueueFrom, Wanted;
    if notes != [] {
      PublishEachKeys(Publish(s, notes[0], now), notes[1..], now);
      forall id | id in PublishEach(s, notes, now).outcomes && id !in s.outcomes
        ensures exists i :: 0 <= i < |notes| && notes[i].id == id
      {
        if id == notes[0].id {
        } else {
          var i :| 0 <= i < |notes[1..]| && notes[1..][i].id == id;
          assert notes[i + 1].id == id;
        }
      }
    }
  }

  /** A message that is published is outstanding just then if and only if it was missing and is back. */
  lemma OutstandingExactlyIfAway(clock: F.Clock, identity: D.Identity, j: Joint, entries: seq<Entry>, keys: seq<D.Key>,
                                 device: string, g: nat, now: nat)
    requires Watched(j) && |entries| <= D.MAX_SEEN
    requires g < |Published(clock, identity, j.detector, entries, keys)|
    ensures var notes := NotesOf(identity, device, Published(clock, identity, j.detector, entries, keys));
      && (notes[g].id in PublishEach(j.forwarder, notes[..g], now).outcomes <==> notes[g].id in j.away)
      && (notes[g].id in j.away ==> Returns(identity, j, entries))
  {
    hide Published;
    var notes := NotesOf(identity, device, Published(clock, identity, j.detector, entries, keys));
    NotesAreNew(clock, identity, j.detector, entries, keys, device, g);
    PublishEachKeys(j.forwarder, notes[..g], now);
  }

  // ----- Each step

  lemma {:induction false} PublishEachKeepsInv(s: State, notes: seq<Note>, now: nat)
    requires R.Inv(s)
    requires forall i :: 0 <= i < |notes| ==> notes[i].id.SmsId? && notes[i].id !in s.outcomes
    requires forall i, k :: 0 <= i < k < |notes| ==> notes[i].id != notes[k].id
    ensures R.Inv(PublishEach(s, notes, now))
    decreases |notes|
  {
    hide R.Inv, EnqueueFrom, Wanted;
    if notes != [] {
      R.PublishKeepsInv(s, notes[0], now);
      PublishEachKeepsInv(Publish(s, notes[0], now), notes[1..], now);
    }
  }

  lemma {:induction false} EnqueueCreates(settings: Settings, queue: seq<Job>, note: Note, platforms: seq<string>,
                                          channel: nat, now: nat)
    requires channel <= |settings.channels|
    ensures forall job :: job in EnqueueFrom(settings, queue, note, platforms, channel, now).0 ==>
      job in queue || job.created == now
    decreases |settings.channels| - channel
  {
    hide Uses, Full;
    if channel < |settings.channels| {
      EnqueueCreates(settings, queue, note, platforms, channel + 1, now);
      EnqueueCreates(settings, queue + [NewJob(note, channel, now)], note, platforms, channel + 1, now);
    }
  }

  lemma {:induction false} PublishEachCreates(s: State, notes: seq<Note>, now: nat)
    ensures var t := PublishEach(s, notes, now);
      && t.flight == s.flight && t.generation == s.generation && t.settings == s.settings
      && forall job :: job in t.queue ==> job in s.queue || job.created == now
    decreases |notes|
  {
    hide EnqueueFrom, Wanted;
    if notes != [] {
      EnqueueCreates(s.settings, s.queue, notes[0], s.settings.smsPlatforms, 0, now);
      PublishEachCreates(Publish(s, notes[0], now), notes[1..], now);
    }
  }

  lemma ListKeepsWatched(clock: F.Clock, identity: D.Identity, j: Joint, entries: seq<Entry>, keys: seq<D.Key>,
                         device: string, now: nat)
    requires Watched(j) && |entries| <= D.MAX_SEEN
    ensures Watched(List(clock, identity, j, entries, keys, device, now))
  {
    hide D.Scanned, Published, D.Ids, PublishEach;
    var t := List(clock, identity, j, entries, keys, device, now);
    var notes := NotesOf(identity, device, Published(clock, identity, j.detector, entries, keys));
    PublishEachKeys(j.forwarder, notes, now);
    ScanFacts(clock, identity, j.detector, entries, keys, 0);
    forall id | id in t.forwarder.outcomes
      ensures id.SmsId? && (id.digest in t.detector.seen || id in t.away)
    {
      if id in j.forwarder.outcomes {
        ScanFacts(clock, identity, j.detector, entries, keys, id.digest);
      } else {
        var i :| 0 <= i < |notes| && notes[i].id == id;
        NotesAreNew(clock, identity, j.detector, entries, keys, device, i);
      }
    }
  }

  lemma ListKeepsInv(clock: F.Clock, identity: D.Identity, j: Joint, entries: seq<Entry>, keys: seq<D.Key>,
                     device: string, now: nat)
    requires Inv(j) && j.clock <= now && !Returns(identity, j, entries)
    ensures Inv(List(clock, identity, j, entries, keys, device, now))
  {
    hide R.Inv, D.Scanned, Published, PublishEach;
    if |entries| <= D.MAX_SEEN {
      var notes := NotesOf(identity, device, Published(clock, identity, j.detector, entries, keys));
      forall i | 0 <= i < |notes|
        ensures notes[i].id.SmsId? && notes[i].id !in j.forwarder.outcomes
        ensures forall k :: 0 <= k < |notes| && k != i ==> notes[k].id != notes[i].id
      {
        NotesAreNew(clock, identity, j.detector, entries, keys, device, i);
        OutstandingExactlyIfAway(clock, identity, j, entries, keys, device, i, now);
        PublishEachKeys(j.forwarder, notes[..i], now);
      }
      PublishEachKeepsInv(j.forwarder, notes, now);
      PublishEachCreates(j.forwarder, notes, now);
      ListKeepsWatched(clock, identity, j, entries, keys, device, now);
      hide Watched, Missing;
    }
  }

  lemma {:induction false} ExpireDrops(s: State, i: nat, now: nat)
    requires i <= |s.queue| && forall k :: 0 <= k < i ==> !Expired(s.queue[k], now)
    ensures var t := Expire(s, i, now);
      && (forall job :: job in t.queue ==> !Expired(job, now))
      && t.outcomes.Keys <= s.outcomes.Keys && t.flight == s.flight && t.generation == s.generation
    decreases |s.queue| - i
  {
    hide Expired;
    if i < |s.queue| {
      if Expired(s.queue[i], now) {
        ExpireDrops(Settle(s.(queue := Without(s.queue, i)), s.queue[i].note, false), i, now);
      } else {
        ExpireDrops(s, i + 1, now);
      }
    }
  }

  lemma TakeFacts(s: State, now: nat)
    requires s.flight.None?
    ensures var t := Take(s, now);
      t.outcomes.Keys <= s.outcomes.Keys && forall job :: job in Jobs(t) ==> now < job.created + RETRY_WINDOW
  {
    ExpireDrops(s, 0, now);
    hide Expire;
    var s1, t := Expire(s, 0, now), Take(s, now);
    assert forall job :: job in Jobs(t) ==> job in s1.queue;
  }

  lemma FinishFacts(s: State, answer: Answer, now: nat)
    requires s.flight.Some?
    requires s.flight.value.generation == s.generation ==> s.flight.value.job.channel < |s.settings.channels|
    ensures var t := Finish(s, answer, now);
      && t.outcomes.Keys <= s.outcomes.Keys
      && forall job :: job in Jobs(t) ==> exists was :: was in Jobs(s) && was.created == job.created
  {
    hide Count, Acknowledge, Backoff;
    var t := Finish(s, answer, now);
    forall job | job in Jobs(t)
      ensures exists was :: was in Jobs(s) && was.created == job.created
    {
      if job in s.queue {
        assert job in Jobs(s);
      } else {
        assert s.flight.value.job in Jobs(s) && s.flight.value.job.created == job.created;
      }
    }
  }

  lemma {:induction false} SmsJobsAreJobs(queue: seq<Job>)
    ensures forall job :: job in SmsJobs(queue) ==> job in queue
  {
    if queue != [] {
      SmsJobsAreJobs(queue[1..]);
    }
  }

  lemma SaveKeepsInv(j: Joint, next: Settings, w: Written)
    requires Inv(j)
    ensures Inv(Save(j, next, w))
  {
    R.ConfigureKeepsInv(j.forwarder, next, w);
    SmsJobsAreJobs(j.forwarder.queue);
    hide R.Inv, SmsJobs, Resets;
  }

  /** Every step keeps the invariant, as long as no message returns while it is outstanding. */
  lemma StepKeepsInv(clock: F.Clock, identity: D.Identity, j: Joint, op: Op)
    requires Inv(j) && Legal(j, op) && (op.Lists? ==> !Returns(identity, j, op.entries))
    ensures Inv(Step(clock, identity, j, op))
  {
    hide R.Inv;
    match op
    case Lists(entries, keys, device, now) => ListKeepsInv(clock, identity, j, entries, keys, device, now);
    case Announces(lost, restored, text, now) =>
      R.AnnounceKeepsInv(j.forwarder, lost, restored, text, now);
      EnqueueCreates(j.forwarder.settings, j.forwarder.queue, Note(OutageId(lost), text, []),
                     j.forwarder.settings.outagePlatforms, 0, now);
      hide EnqueueFrom;
    case Takes(now) =>
      R.TakeKeepsInv(j.forwarder, now);
      TakeFacts(j.forwarder, now);
      hide Take;
    case Finishes(answer, now) =>
      R.FlightInRange(j.forwarder);
      FinishFacts(j.forwarder, answer, now);
      R.FinishKeepsInv(j.forwarder, answer, now);
      hide Finish, Jobs;
    case Saves(next, w) => SaveKeepsInv(j, next, w);
  }

  // ----- Runs

  /** Whether `t` can be reached by these steps, none of which lists an outstanding message that was missing. */
  ghost predicate Reaches(clock: F.Clock, identity: D.Identity, j: Joint, ops: seq<Op>, t: Joint)
    decreases |ops|
  {
    if ops == [] then t == j
    else
      && R.Inv(j.forwarder) && Legal(j, ops[0]) && (ops[0].Lists? ==> !Returns(identity, j, ops[0].entries))
      && Reaches(clock, identity, Step(clock, identity, j, ops[0]), ops[1..], t)
  }

  lemma {:induction false} ReachesKeepsInv(clock: F.Clock, identity: D.Identity, j: Joint, ops: seq<Op>, t: Joint)
    requires Inv(j) && Reaches(clock, identity, j, ops, t)
    ensures Inv(t)
    decreases |ops|
  {
    hide Inv, Step, Legal, Returns;
    if ops != [] {
      StepKeepsInv(clock, identity, j, ops[0]);
      ReachesKeepsInv(clock, identity, Step(clock, identity, j, ops[0]), ops[1..], t);
    }
  }

  function Start(settings: Settings, stored: bool, now: nat): Joint {
    Joint(D.State(false, {}), R.Start(settings, stored), {}, now, now)
  }

  /**
   Over every run of listings, deliveries and changes of settings in which no message returns to the inbox
   while it is outstanding, every deletion receipt was earned. And whatever is outstanding at the end has a
   job that was within the retry window when the delivery task last looked.
   */
  lemma ScannedReceiptsAreEarned(clock: F.Clock, identity: D.Identity, settings: Settings, stored: bool, now: nat,
                                 ops: seq<Op>, t: Joint)
    requires Reaches(clock, identity, Start(settings, stored, now), ops, t)
    ensures forall r :: r in t.forwarder.receipts ==> Earned(r)
    ensures forall id :: id in t.forwarder.outcomes ==> Recent(t, id)
  {
    R.StartInv(settings, stored);
    ReachesKeepsInv(clock, identity, Start(settings, stored, now), ops, t);
    hide Reaches;
    forall id | id in t.forwarder.outcomes
      ensures Recent(t, id)
    {
      OutstandingHasJob(t, id);
    }
  }

  lemma OutstandingHasJob(j: Joint, id: Id)
    requires Inv(j) && id in j.forwarder.outcomes
    ensures Recent(j, id)
  {
    assert OutcomeFits(Jobs(j.forwarder), j.forwarder.outcomes, j.forwarder.history, id);
    if forall job :: job in Jobs(j.forwarder) ==> job.note.id != id {
      TallyNone(ForId(id), Jobs(j.forwarder));
    }
  }

  /**
   What it takes to go wrong: a listing publishes a message that is outstanding only if the message was
   missing from an earlier listing while it was outstanding, is back, and still has a job that was within the
   retry window when the delivery task last looked.
   */
  lemma RepublishingNeedsReturn(clock: F.Clock, identity: D.Identity, settings: Settings, stored: bool, start: nat,
                                ops: seq<Op>, j: Joint, entries: seq<Entry>, keys: seq<D.Key>, device: string, g: nat,
                                now: nat)
    requires Reaches(clock, identity, Start(settings, stored, start), ops, j) && |entries| <= D.MAX_SEEN
    requires g < |Published(clock, identity, j.detector, entries, keys)|
    requires var notes := NotesOf(identity, device, Published(clock, identity, j.detector, entries, keys));
      notes[g].id in PublishEach(j.forwarder, notes[..g], now).outcomes
    ensures var id := NotesOf(identity, device, Published(clock, identity, j.detector, entries, keys))[g].id;
      id in j.away && Returns(identity, j, entries) && Recent(j, id)
  {
    R.StartInv(settings, stored);
    ReachesKeepsInv(clock, identity, Start(settings, stored, start), ops, j);
    hide Reaches, Published, PublishEach, Returns, R.Inv;
    OutstandingExactlyIfAway(clock, identity, j, entries, keys, device, g, now);
    var id := NotesOf(identity, device, Published(clock, identity, j.detector, entries, keys))[g].id;
    OutstandingHasJob(j, id);
  }

  // ----- It can happen

  lemma SortOne<T>(le: (T, T) -> bool, x: T)
    ensures Sorting.Sort(le, [x]) == [x]
  {
    assert [x][1..] == [];
    assert Sorting.Sort(le, []) == [];
  }

  lemma ProcessOne(identity: D.Identity, group: seq<Entry>)
    requires group != [] && D.Complete(group) && D.Publishable(group)
    ensures D.Process(identity, {}, [group]) == (D.Ids(identity, group), [group])
  {
    hide D.Complete, D.Publishable, D.Ids;
    var ids := D.Ids(identity, group);
    var none: set<nat> := {};
    var groups := [group];
    assert none * ids == {} && none + ids == ids && groups[0] == group && groups[1..] == [];
    assert D.NonEmpty(groups[1..]);
    var rest := D.Process(identity, none + ids, groups[1..]);
    assert rest == (ids, []) && [group] + rest.1 == [group];
    assert D.Process(identity, none, groups) == (rest.0, [group] + rest.1);
  }

  /** An inbox that holds one short message publishes it. */
  lemma SingleIsPublished(clock: F.Clock, identity: D.Identity, e: Entry)
    requires e.concat.None? && e.text == "a" && e.sender != []
    ensures var id := identity(e);
      D.Scanned(clock, identity, D.State(true, {}), [e], [D.Single(id)]) == (D.State(true, {id}), Some([[e]]))
  {
    var key, group := D.Single(identity(e)), [e];
    assert D.Select(identity, group, key) == [e] + D.Select(identity, [], key);
    SortOne(F.precedes, e);
    SortOne(Sorting.ByKey(D.sequenceOf), e);
    assert group[1..] == [] && F.Place(clock, [], e) == [group] && F.PlaceAll(clock, [group], []) == [group];
    assert F.Split(clock, group) == [group];
    assert D.Groups(clock, identity, group, [key]) == [group] + D.Groups(clock, identity, group, []);
    assert D.InOrder(group) == group;
    assert D.Text(group) == "a" + FlatMap(D.textOf, []);
    R.SmallText();
    assert D.Complete(group) && D.Publishable(group);
    assert D.Ids(identity, group) == {identity(e)};
    hide D.Complete, D.Publishable, D.Ids, D.Groups;
    ProcessOne(identity, group);
    assert {} * {identity(e)} == {};
  }

  lemma NothingIsPublished(clock: F.Clock, identity: D.Identity, d: D.State)
    requires d.initialized
    ensures D.Scanned(clock, identity, d, [], []) == (D.State(true, {}), Some([]))
  {
    assert D.Ids(identity, []) == {} && d.seen * {} == {};
  }

  /**
   The run: the message is published, is missing from one listing, and is back in the next, where it would be
   published again while its first jobs are outstanding.
   */
  lemma MessageCanReturn(clock: F.Clock, identity: D.Identity, e: Entry) returns (ops: seq<Op>, j: Joint)
    requires e.concat.None? && e.text == "a" && e.sender != []
    ensures Reaches(clock, identity, Start(R.twoChannels, true, 0), ops, j)
    ensures Published(clock, identity, j.detector, [e], [D.Single(identity(e))]) == [[e]]
    ensures NoteOf(identity, "", [e]).id in j.forwarder.outcomes && Returns(identity, j, [e])
  {
    hide D.Scanned, R.Inv, Publish, Reaches;
    var keys := [D.Single(identity(e))];
    ops := [Lists([], [], "", 0), Lists([e], keys, "", 0), Lists([], [], "", 0)];
    var j0 := Start(R.twoChannels, true, 0);
    var j1 := FirstListing(clock, identity, j0);
    var j2 := SecondListing(clock, identity, j1, e);
    j := ThirdListing(clock, identity, j2, e);
    R.StartInv(R.twoChannels, true);
    StartsInv();
    ThreeSteps(clock, identity, j0, ops, j1, j2, j);
    SingleIsPublished(clock, identity, e);
  }

  lemma StartsInv()
    ensures Inv(Start(R.twoChannels, true, 0))
  {
    R.StartInv(R.twoChannels, true);
    hide R.Inv;
  }

  lemma FirstListing(clock: F.Clock, identity: D.Identity, j: Joint) returns (t: Joint)
    requires j == Start(R.twoChannels, true, 0)
    ensures t == List(clock, identity, j, [], [], "", 0) && !Returns(identity, j, [])
    ensures t == j.(detector := D.State(true, {}))
  {
    t := List(clock, identity, j, [], [], "", 0);
    assert D.Ids(identity, []) == {};
    assert t.away == {};
  }

  lemma SecondListing(clock: F.Clock, identity: D.Identity, j: Joint, e: Entry) returns (t: Joint)
    requires j == Start(R.twoChannels, true, 0).(detector := D.State(true, {}))
    requires e.concat.None? && e.text == "a" && e.sender != []
    ensures t == List(clock, identity, j, [e], [D.Single(identity(e))], "", 0) && !Returns(identity, j, [e])
    ensures t.detector == D.State(true, {identity(e)}) && t.away == {} && t.clock == 0
    ensures NoteOf(identity, "", [e]).id == SmsId(identity(e)) && t.forwarder.outcomes.Keys == {SmsId(identity(e))}
  {
    hide D.Scanned, Publish;
    var keys := [D.Single(identity(e))];
    SingleIsPublished(clock, identity, e);
    SortOne(Sorting.ByKey(D.sequenceOf), e);
    assert D.InOrder([e]) == [e];
    var note := NoteOf(identity, "", [e]);
    assert note.text == "a" by {
      assert D.Text([e]) == "a" + FlatMap(D.textOf, []);
    }
    var notes := NotesOf(identity, "", [[e]]);
    assert notes == [note];
    var f := R.PublishBoth(j.forwarder, note);
    assert PublishEach(j.forwarder, notes, 0) == f;
    assert f.outcomes == map[note.id := Outcome(2, false)];
    t := List(clock, identity, j, [e], keys, "", 0);
    assert Missing(j.forwarder.outcomes, D.Ids(identity, [e])) == {};
  }

  lemma ThirdListing(clock: F.Clock, identity: D.Identity, j: Joint, e: Entry) returns (t: Joint)
    requires j.detector.initialized && j.forwarder.outcomes.Keys == {SmsId(identity(e))} && j.away == {}
    ensures t == List(clock, identity, j, [], [], "", 0) && !Returns(identity, j, [])
    ensures t.detector == D.State(true, {}) && t.forwarder == j.forwarder && Returns(identity, t, [e])
  {
    hide D.Scanned;
    NothingIsPublished(clock, identity, j.detector);
    t := List(clock, identity, j, [], [], "", 0);
    assert D.Ids(identity, []) == {};
    assert SmsId(identity(e)) in Missing(j.forwarder.outcomes, {});
    assert identity([e][0]) == identity(e);
  }

  lemma ThreeSteps(clock: F.Clock, identity: D.Identity, j0: Joint, ops: seq<Op>, j1: Joint, j2: Joint, j3: Joint)
    requires |ops| == 3 && forall i :: 0 <= i < 3 ==> ops[i].Lists? && ops[i].now == 0
    requires Inv(j0) && j0.clock == 0 && !Returns(identity, j0, ops[0].entries)
    requires j1 == List(clock, identity, j0, ops[0].entries, ops[0].keys, ops[0].device, 0)
    requires j1.clock == 0 && !Returns(identity, j1, ops[1].entries)
    requires j2 == List(clock, identity, j1, ops[1].entries, ops[1].keys, ops[1].device, 0)
    requires j2.clock == 0 && !Returns(identity, j2, ops[2].entries)
    requires j3 == List(clock, identity, j2, ops[2].entries, ops[2].keys, ops[2].device, 0)
    ensures Reaches(clock, identity, j0, ops, j3)
  {
    hide List, R.Inv, Returns, Watched, Young;
    StepKeepsInv(clock, identity, j0, ops[0]);
    StepKeepsInv(clock, identity, j1, ops[1]);
    assert ops[1..][0] == ops[1] && ops[1..][1..] == ops[2..] && ops[2..][0] == ops[2] && ops[2..][1..] == [];
    assert Reaches(clock, identity, j3, [], j3);
    assert Reaches(clock, identity, j2, ops[2..], j3);
    assert Reaches(clock, identity, j1, ops[1..], j3);
  }
}
