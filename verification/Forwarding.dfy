/**
 The forwarding queue: notifications fan out to channels as jobs, jobs are delivered chunk by chunk
 with retries, and an outcome per message counts its jobs until a deletion receipt may be written.
 Instants are in milliseconds.
 */
module Forwarding {
  import opened Common
  import opened Store
  import Detector
  import Greedy
  import Utf8

  const RETRY_WINDOW: nat := 180000
  const MAX_JOBS: nat := 64
  const MAX_QUEUED_BYTES: nat := 256 * 1024
  const CHUNK: nat := 1200
  const PACE: nat := 4000

  datatype Channel = Channel(platform: string, enabled: bool, credentials: string)

  datatype Settings = Settings(
    smsEnabled: bool,
    deleteAfterDay: bool,
    enabled: bool,
    channels: seq<Channel>,
    smsPlatforms: seq<string>,
    outageEnabled: bool,
    outagePlatforms: seq<string>,
    outageMinSeconds: nat)

  /** Message identities and outage starts never clash. */
  datatype Id = SmsId(digest: nat) | OutageId(lost: nat)

  datatype Note = Note(id: Id, text: string, parts: seq<Detector.Part>)

  datatype Job = Job(note: Note, channel: nat, part: nat, attempts: nat, created: nat, next: nat)

  datatype Outcome = Outcome(pending: nat, failed: bool)

  /**
   A receipt handed to the cleanup, with what was known when it was: the settings the message was published
   under, for each channel it had to go to the number of chunks, and the chunks acknowledged.
   */
  datatype Receipt = Receipt(note: Note, under: Option<Settings>, wanted: map<nat, nat>, acked: map<nat, seq<nat>>)

  /** The work in progress outside the lock, with the generation it was taken under. */
  datatype Flight = Flight(job: Job, generation: nat)

  /** What delivery attempts have come to; only the proofs read it. */
  datatype History = History(under: map<Id, Settings>, wanted: map<Id, map<nat, nat>>,
                             acked: map<Id, map<nat, seq<nat>>>)

  datatype State = State(
    settings: Settings,
    stored: bool,
    generation: nat,
    queue: seq<Job>,
    cooldown: map<nat, nat>,
    outcomes: map<Id, Outcome>,
    flight: Option<Flight>,
    receipts: seq<Receipt>,
    history: History)

  // ----- Chunks

  /** The chunks of a text: greedy pieces of at most `max` bytes; an empty text is one empty piece. */
  function Chunks(text: string, max: nat): (r: seq<string>)
    ensures |r| >= 1
  {
    var cut := Greedy.Cut(Utf8.size, [], text, max);
    if cut == [] then [[]] else cut
  }

  lemma {:induction false} LengthIsWeight(s: string)
    ensures Utf8.Length(s) == Greedy.Weight(Utf8.size, s)
  {
    if s != [] {
      LengthIsWeight(s[1..]);
    }
  }

  /** Chunks lose nothing, fit the limit, and are as few as any split within it. */
  lemma ChunksAreTight(text: string, max: nat, rival: seq<string>)
    requires max >= 4
    requires Flatten(rival) == text && rival != []
    requires forall k :: 0 <= k < |rival| ==> Utf8.Length(rival[k]) <= max
    ensures Flatten(Chunks(text, max)) == text
    ensures forall k :: 0 <= k < |Chunks(text, max)| ==> Utf8.Length(Chunks(text, max)[k]) <= max
    ensures |Chunks(text, max)| <= |rival|
  {
    Greedy.CutKeepsItems(Utf8.size, [], text, max);
    assert [] + text == text;
    assert forall k :: 0 <= k < |text| ==> Utf8.size(text[k]) <= 4;
    Greedy.CutFits(Utf8.size, [], text, max);
    forall k | 0 <= k < |Chunks(text, max)| ensures Utf8.Length(Chunks(text, max)[k]) <= max {
      LengthIsWeight(Chunks(text, max)[k]);
    }
    forall k | 0 <= k < |rival| ensures Greedy.Weight(Utf8.size, rival[k]) <= max {
      LengthIsWeight(rival[k]);
    }
    Greedy.CutIsMinimal(Utf8.size, text, max, rival);
    if text == [] {
      assert Chunks(text, max) == [[]];
      assert Flatten<char>([[]]) == [] + Flatten<char>([]);
    }
  }

  /** The chunking loop over character offsets. */
  method Chunk(text: string, max: nat) returns (parts: seq<string>)
    ensures parts == Chunks(text, max)
  {
    hide Greedy.Weight, Utf8.Size;
    parts := [];
    var start := 0;
    var size := 0;
    ghost var open: string := [];
    ghost var all := Greedy.Cut(Utf8.size, [], text, max);
    NoWeight();
    for i := 0 to |text|
      invariant start <= i && (i > 0 ==> start < i)
      invariant open == text[start..i] && size == Greedy.Weight(Utf8.size, open)
      invariant parts + Greedy.Cut(Utf8.size, open, text[i..], max) == all
    {
      var c := text[i];
      ghost var rest := text[i + 1..];
      assert text[i..] == [c] + rest;
      WeightSnoc(open, c);
      WeightSnoc([], c);
      if size + Utf8.Size(c) > max {
        ghost var tail := Greedy.Cut(Utf8.size, [c], rest, max);
        assert (parts + [open]) + tail == all by {
          assert parts + ([open] + tail) == all;
        }
        parts := parts + [text[start..i]];
        start := i;
        size := 0;
        open := [];
      }
      size := size + Utf8.Size(c);
      assert [] + [c] == [c];
      open := open + [c];
    }
    assert text[|text|..] == [] && open == text[start..];
    parts := parts + [text[start..]];
  }

  lemma NoWeight()
    ensures Greedy.Weight(Utf8.size, []) == 0
  {
  }

  lemma WeightSnoc(s: string, c: char)
    ensures Greedy.Weight(Utf8.size, s + [c]) == Greedy.Weight(Utf8.size, s) + Utf8.Size(c)
  {
    Greedy.WeightConcat(Utf8.size, s, [c]);
    assert Greedy.Weight(Utf8.size, [c]) == Utf8.Size(c) + Greedy.Weight(Utf8.size, []);
  }

  // ----- Transitions

  /** How many chunks a note has on a channel; a forwarding SIM takes it whole. */
  function Count(settings: Settings, channel: nat, text: string): (n: nat)
    requires channel < |settings.channels|
    ensures n >= 1
  {
    if settings.channels[channel].platform == "sim" then 1 else |Chunks(text, CHUNK)|
  }

  predicate Uses(settings: Settings, platforms: seq<string>, channel: nat)
    requires channel < |settings.channels|
  {
    settings.channels[channel].enabled && settings.channels[channel].platform in platforms
  }

  function Bytes(queue: seq<Job>): nat {
    if queue == [] then 0 else Utf8.Length(queue[0].note.text) + Bytes(queue[1..])
  }

  predicate Full(queue: seq<Job>, note: Note) {
    |queue| >= MAX_JOBS || Bytes(queue) + Utf8.Length(note.text) > MAX_QUEUED_BYTES
  }

  function NewJob(note: Note, channel: nat, now: nat): Job {
    Job(note, channel, 0, 0, now, now)
  }

  /** Queues the note on the channels from `channel` on: the new queue, the jobs added, whether one was refused. */
  function EnqueueFrom(settings: Settings, queue: seq<Job>, note: Note, platforms: seq<string>, channel: nat, now: nat)
    : (seq<Job>, nat, bool)
    requires channel <= |settings.channels|
    decreases |settings.channels| - channel
  {
    if channel == |settings.channels| then (queue, 0, false)
    else if !Uses(settings, platforms, channel) then EnqueueFrom(settings, queue, note, platforms, channel + 1, now)
    else if Full(queue, note) then
      var r := EnqueueFrom(settings, queue, note, platforms, channel + 1, now);
      (r.0, r.1, true)
    else
      var r := EnqueueFrom(settings, queue + [NewJob(note, channel, now)], note, platforms, channel + 1, now);
      (r.0, r.1 + 1, r.2)
  }

  /** The channels a message has to go to, each with its number of chunks. */
  function Wanted(settings: Settings, platforms: seq<string>, text: string): map<nat, nat> {
    map c | 0 <= c < |settings.channels| && Uses(settings, platforms, c) :: Count(settings, c, text)
  }

  /** The history with a new account for the note. */
  function Opened(h: History, settings: Settings, platforms: seq<string>, note: Note): History {
    History(h.under[note.id := settings], h.wanted[note.id := Wanted(settings, platforms, note.text)],
            h.acked[note.id := map[]])
  }

  function Publish(s: State, note: Note, now: nat): State {
    var r := EnqueueFrom(s.settings, s.queue, note, s.settings.smsPlatforms, 0, now);
    if r.1 == 0 then s.(queue := r.0)
    else
      s.(queue := r.0, outcomes := s.outcomes[note.id := Outcome(r.1, r.2)],
         history := Opened(s.history, s.settings, s.settings.smsPlatforms, note))
  }

  function PublishEach(s: State, notes: seq<Note>, now: nat): State
    decreases notes
  {
    if notes == [] then s else PublishEach(Publish(s, notes[0], now), notes[1..], now)
  }

  function Announce(s: State, lost: nat, restored: nat, text: string, now: nat): State {
    if !s.settings.outageEnabled || restored < lost || (restored - lost) / 1000 < s.settings.outageMinSeconds then s
    else
      var note := Note(OutageId(lost), text, []);
      s.(queue := EnqueueFrom(s.settings, s.queue, note, s.settings.outagePlatforms, 0, now).0)
  }

  function AckedOf(h: History, id: Id): map<nat, seq<nat>> {
    if id in h.acked then h.acked[id] else map[]
  }

  function WantedOf(h: History, id: Id): map<nat, nat> {
    if id in h.wanted then h.wanted[id] else map[]
  }

  function ReceiptFor(h: History, note: Note): Receipt {
    Receipt(note, if note.id in h.under then Some(h.under[note.id]) else None, WantedOf(h, note.id),
            AckedOf(h, note.id))
  }

  /** One job of the note is over; the last one settles the message. */
  function Settle(s: State, note: Note, success: bool): State {
    if note.id !in s.outcomes then s
    else
      var o := s.outcomes[note.id];
      var pending := if o.pending == 0 then 0 else o.pending - 1;
      var failed := o.failed || !success;
      if pending > 0 then s.(outcomes := s.outcomes[note.id := Outcome(pending, failed)])
      else
        s.(outcomes := s.outcomes - {note.id},
           receipts := if failed || !s.settings.deleteAfterDay then s.receipts
                       else s.receipts + [ReceiptFor(s.history, note)])
  }

  function Without(queue: seq<Job>, i: nat): seq<Job>
    requires i < |queue|
  {
    queue[..i] + queue[i + 1..]
  }

  predicate Expired(job: Job, now: nat) {
    now >= job.created + RETRY_WINDOW
  }

  /** Drops the jobs from position `i` on whose retry window is over; each counts as a failure. */
  function Expire(s: State, i: nat, now: nat): State
    requires i <= |s.queue|
    decreases |s.queue| - i
  {
    if i == |s.queue| then s
    else if Expired(s.queue[i], now) then
      Expire(Settle(s.(queue := Without(s.queue, i)), s.queue[i].note, false), i, now)
    else Expire(s, i + 1, now)
  }

  predicate Ready(job: Job, cooldown: map<nat, nat>, now: nat) {
    job.next <= now && (job.channel !in cooldown || cooldown[job.channel] <= now)
  }

  /** The position of the first job that may go now, or the length of the queue. */
  function FirstReady(queue: seq<Job>, cooldown: map<nat, nat>, now: nat): (k: nat)
    ensures k <= |queue|
    ensures forall i :: 0 <= i < k ==> !Ready(queue[i], cooldown, now)
    ensures k < |queue| ==> Ready(queue[k], cooldown, now)
  {
    if queue == [] || Ready(queue[0], cooldown, now) then 0
    else 1 + FirstReady(queue[1..], cooldown, now)
  }

  /** Picks the next job; only called while none is in flight. */
  function Take(s: State, now: nat): State {
    var s1 := Expire(s, 0, now);
    var k := FirstReady(s1.queue, s1.cooldown, now);
    if k == |s1.queue| then s1
    else
      var job := s1.queue[k];
      s1.(queue := Without(s1.queue, k), cooldown := s1.cooldown[job.channel := now + PACE],
          flight := Some(Flight(job, s1.generation)))
  }

  datatype Answer = Sent | Refused(retry: bool)

  function Backoff(attempts: nat): nat {
    match Min(attempts, 4)
    case 0 => 5000
    case 1 => 10000
    case 2 => 20000
    case 3 => 40000
    case _ => 60000
  }

  function Acknowledge(h: History, job: Job): History {
    var acked := AckedOf(h, job.note.id);
    var before := if job.channel in acked then acked[job.channel] else [];
    h.(acked := h.acked[job.note.id := acked[job.channel := before + [job.part]]])
  }

  /** The job in flight comes back; under another generation it is dropped. */
  function Finish(s: State, answer: Answer, now: nat): State
    requires s.flight.Some?
    requires s.flight.value.generation == s.generation ==> s.flight.value.job.channel < |s.settings.channels|
  {
    var job := s.flight.value.job;
    var s1 := s.(flight := None);
    if s.flight.value.generation != s.generation then s1
    else
      match answer
      case Sent =>
        var s2 := s1.(history := Acknowledge(s1.history, job));
        if job.part + 1 == Count(s.settings, job.channel, job.note.text) then Settle(s2, job.note, true)
        else s2.(queue := s2.queue + [job.(part := job.part + 1, attempts := 0, next := now + PACE)])
      case Refused(retry) =>
        if retry then
          s1.(queue := s1.queue + [job.(attempts := job.attempts + 1, next := now + Backoff(job.attempts + 1))])
        else Settle(s1, job.note, false)
  }

  function SmsJobs(queue: seq<Job>): seq<Job> {
    if queue == [] then []
    else (if queue[0].note.id.SmsId? then [queue[0]] else []) + SmsJobs(queue[1..])
  }

  /** New settings are taken over if there is something to write and the write takes place. */
  predicate TakesOver(s: State, next: Settings, w: Written) {
    !(s.stored && s.settings == next) && !w.Unwritten?
  }

  /** A change that starts everything afresh: what is queued, what is counted, and what the detector remembers. */
  predicate Resets(was: Settings, next: Settings) {
    || was.enabled != next.enabled || was.smsEnabled != next.smsEnabled
    || was.channels != next.channels || was.smsPlatforms != next.smsPlatforms
  }

  function Configure(s: State, next: Settings, w: Written): State {
    if !TakesOver(s, next, w) then s
    else
      var was := s.settings;
      var outages := was.outageEnabled != next.outageEnabled || was.outagePlatforms != next.outagePlatforms;
      var s1 := s.(settings := next, stored := true, cooldown := map[]);
      if Resets(s.settings, next) then s1.(generation := s.generation + 1, queue := [], outcomes := map[])
      else if outages then s1.(queue := SmsJobs(s.queue))
      else s1
  }

  // ----- The forwarder in memory

  class Forwarder {
    var settings: Settings
    var stored: bool
    var generation: nat
    var queue: seq<Job>
    var cooldown: map<nat, nat>
    var outcomes: map<Id, Outcome>
    var flight: Option<Flight>
    ghost var receipts: seq<Receipt>
    ghost var history: History

    ghost function Model(): State
      reads this
    {
      State(settings, stored, generation, queue, cooldown, outcomes, flight, receipts, history)
    }

    /** `stored` is false when there is a settings file and it is not usable. */
    constructor (settings: Settings, stored: bool)
      ensures Model() == State(settings, stored, 0, [], map[], map[], None, [], History(map[], map[], map[]))
    {
      this.settings := settings;
      this.stored := stored;
      generation := 0;
      queue := [];
      cooldown := map[];
      outcomes := map[];
      flight := None;
      receipts := [];
      history := History(map[], map[], map[]);
    }

    method Enqueue(note: Note, platforms: seq<string>, now: nat) returns (pending: nat, failed: bool)
      modifies this`queue
      ensures (queue, pending, failed) == EnqueueFrom(settings, old(queue), note, platforms, 0, now)
    {
      hide Full, Uses;
      pending := 0;
      failed := false;
      ghost var all := EnqueueFrom(settings, queue, note, platforms, 0, now);
      var channel := 0;
      while channel < |settings.channels|
        invariant channel <= |settings.channels|
        invariant var r := EnqueueFrom(settings, queue, note, platforms, channel, now);
          all == (r.0, pending + r.1, failed || r.2)
      {
        if Uses(settings, platforms, channel) {
          if Full(queue, note) {
            failed := true;
          } else {
            queue := queue + [NewJob(note, channel, now)];
            pending := pending + 1;
          }
        }
        channel := channel + 1;
      }
    }

    method PublishAll(notes: seq<Note>, now: nat)
      modifies this
      ensures Model() == PublishEach(old(Model()), notes, now)
    {
      hide EnqueueFrom, Wanted;
      for i := 0 to |notes|
        invariant PublishEach(Model(), notes[i..], now) == PublishEach(old(Model()), notes, now)
      {
        assert notes[i..][0] == notes[i] && notes[i..][1..] == notes[i + 1..];
        ghost var before := Model();
        var pending, failed := Enqueue(notes[i], settings.smsPlatforms, now);
        if pending > 0 {
          outcomes := outcomes[notes[i].id := Outcome(pending, failed)];
          history := Opened(history, settings, settings.smsPlatforms, notes[i]);
        }
        assert Model() == Publish(before, notes[i], now);
      }
    }

    method NotifyOutage(lost: nat, restored: nat, text: string, now: nat)
      modifies this
      ensures Model() == Announce(old(Model()), lost, restored, text, now)
    {
      hide EnqueueFrom;
      if !settings.outageEnabled || restored < lost || (restored - lost) / 1000 < settings.outageMinSeconds {
        return;
      }
      var _, _ := Enqueue(Note(OutageId(lost), text, []), settings.outagePlatforms, now);
    }

    method Completed(note: Note, success: bool)
      modifies this
      ensures Model() == Settle(old(Model()), note, success)
    {
      if note.id in outcomes {
        var o := outcomes[note.id];
        var pending := if o.pending == 0 then 0 else o.pending - 1;
        var failed := o.failed || !success;
        outcomes := outcomes[note.id := Outcome(pending, failed)];
        if pending == 0 {
          if !failed && settings.deleteAfterDay {
            receipts := receipts + [ReceiptFor(history, note)];
          }
          outcomes := outcomes - {note.id};
          assert outcomes == old(outcomes) - {note.id};
        }
      }
    }

    /** Drops what expired, then takes the first job that may go. */
    method TakeNext(now: nat)
      modifies this
      ensures Model() == Take(old(Model()), now)
    {
      hide Settle, Without, FirstReady;
      var i := 0;
      while i < |queue|
        invariant i <= |queue|
        invariant Expire(Model(), i, now) == Expire(old(Model()), 0, now)
        decreases |queue| - i
      {
        if now >= queue[i].created + RETRY_WINDOW {
          var job := queue[i];
          ghost var before := Model();
          WithoutShrinks(queue, i);
          queue := Without(queue, i);
          assert Model() == before.(queue := Without(before.queue, i));
          Completed(job.note, false);
          SettleKeepsQueue(before.(queue := Without(before.queue, i)), job.note, false);
        } else {
          i := i + 1;
        }
      }
      var k := FirstReady(queue, cooldown, now);
      if k < |queue| {
        var job := queue[k];
        queue := Without(queue, k);
        cooldown := cooldown[job.channel := now + PACE];
        flight := Some(Flight(job, generation));
      }
    }

    method Deliver(answer: Answer, now: nat)
      requires flight.Some?
      requires flight.value.generation == generation ==> flight.value.job.channel < |settings.channels|
      modifies this
      ensures Model() == Finish(old(Model()), answer, now)
    {
      hide Settle, Acknowledge, Backoff, Chunks;
      var job := flight.value.job;
      var current := flight.value.generation == generation;
      flight := None;
      if !current {
        return;
      }
      match answer {
        case Sent =>
          var count := 1;
          if settings.channels[job.channel].platform != "sim" {
            var parts := Chunk(job.note.text, CHUNK);
            count := |parts|;
          }
          history := Acknowledge(history, job);
          if job.part + 1 == count {
            Completed(job.note, true);
          } else {
            queue := queue + [job.(part := job.part + 1, attempts := 0, next := now + PACE)];
          }
        case Refused(retry) =>
          if retry {
            queue := queue + [job.(attempts := job.attempts + 1, next := now + Backoff(job.attempts + 1))];
          } else {
            Completed(job.note, false);
          }
      }
    }

    /** Tells whether the detector is to be replaced by a new one, and whether the receipts are to be cancelled. */
    method Save(next: Settings, w: Written) returns (reset: bool, cancel: bool)
      modifies this
      ensures Model() == Configure(old(Model()), next, w)
      ensures reset == (old(TakesOver(Model(), next, w)) && Resets(old(settings), next))
      ensures cancel == (old(TakesOver(Model(), next, w)) && !next.deleteAfterDay)
    {
      reset, cancel := false, false;
      if (stored && settings == next) || w.Unwritten? {
        return;
      }
      reset := settings.enabled != next.enabled || settings.smsEnabled != next.smsEnabled
        || settings.channels != next.channels || settings.smsPlatforms != next.smsPlatforms;
      var outages := settings.outageEnabled != next.outageEnabled || settings.outagePlatforms != next.outagePlatforms;
      settings := next;
      if reset {
        generation := generation + 1;
        queue := [];
        outcomes := map[];
      } else if outages {
        queue := SmsJobs(queue);
      }
      cancel := !next.deleteAfterDay;
      cooldown := map[];
      stored := true;
    }
  }

  lemma WithoutShrinks(queue: seq<Job>, i: nat)
    requires i < |queue|
    ensures |Without(queue, i)| == |queue| - 1
  {
  }

  lemma SettleKeepsQueue(s: State, note: Note, success: bool)
    ensures Settle(s, note, success).queue == s.queue
  {
  }
}
