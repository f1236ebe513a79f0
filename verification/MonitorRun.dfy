/**
 The delta protocol over whole runs: whatever happens between two polls, the page ends up with
 exactly the points a full response would have given it at that moment.
 */
module MonitorRun {
  import opened Common
  import opened Ring
  import opened Timeline
  import opened Telemetry

  /**
   The server, the page, and what the proof remembers: the server's rings and the time of the page's
   last response, and what was recorded since.
   */
  datatype World = World(server: History, view: View, seen: History, seenTime: nat,
                         pings: seq<Ping>, signals: seq<Signal>, traffics: seq<Traffic>)

  datatype Op =
    | Probe(ping: Ping)
    | Sample(signal: Signal)
    | Count(traffic: Traffic)
    | Retarget
    | Restart(stream: nat)
    | Poll(time: nat)
    | Reload(time: nat)

  function Start(stream: nat): World {
    var h := History(stream, 0, [], [], []);
    World(h, BLANK, h, 0, [], [], [])
  }

  function Respond(w: World, cursor: Option<Cursor>, time: nat): World {
    World(w.server, MergeSnapshot(w.view, SnapshotSince(w.server, cursor, time)), w.server, time, [], [], [])
  }

  function Step(w: World, op: Op): World {
    match op
    case Probe(p) => w.(server := w.server.(ping := Keep(w.server.ping + [p], PINGS)), pings := w.pings + [p])
    case Sample(s) =>
      w.(server := w.server.(signal := Keep(w.server.signal + [s], SAMPLES)), signals := w.signals + [s])
    case Count(t) =>
      w.(server := w.server.(traffic := Keep(w.server.traffic + [t], SAMPLES)), traffics := w.traffics + [t])
    case Retarget => w.(server := w.server.(generation := w.server.generation + 1, ping := []))
    case Restart(stream) => w.(server := History(stream, 0, [], [], []))
    case Poll(time) => Respond(w, w.view.cursor, time)
    case Reload(time) => Respond(w, None, time)
  }

  function Run(w: World, ops: seq<Op>): World
    decreases ops
  {
    if ops == [] then w else Run(Step(w, ops[0]), ops[1..])
  }

  predicate After<T>(at: T -> nat, s: seq<T>, x: T) {
    s == [] || at(s[|s| - 1]) < at(x)
  }

  /**
   The premises: samples of a series carry rising times, the server's clock does not run backwards
   between responses, and a restarted process draws a stream name the page does not hold.
   */
  predicate Legal(w: World, op: Op) {
    match op
    case Probe(p) => After(pingTime, w.server.ping, p)
    case Sample(s) => After(signalTime, w.server.signal, s)
    case Count(t) => After(trafficTime, w.server.traffic, t)
    case Retarget => true
    case Restart(stream) => stream != w.seen.stream && stream != w.server.stream
    case Poll(time) => time >= w.seenTime
    case Reload(time) => time >= w.seenTime
  }

  predicate LegalRun(w: World, ops: seq<Op>)
    decreases ops
  {
    ops == [] || (Legal(w, ops[0]) && LegalRun(Step(w, ops[0]), ops[1..]))
  }

  // ----- The invariant

  /** A ring is what the page last saw of it plus what came since. */
  ghost predicate Grown<T>(at: T -> nat, seen: seq<T>, more: seq<T>, now: seq<T>, n: nat) {
    |seen| <= n && Rising(at, seen + more) && now == Keep(seen + more, n)
  }

  ghost predicate Same(w: World) {
    w.seen.stream == w.server.stream && w.seen.generation == w.server.generation
  }

  ghost predicate Sized(h: History) {
    |h.ping| <= PINGS && |h.signal| <= SAMPLES && |h.traffic| <= SAMPLES
    && Rising(pingTime, h.ping) && Rising(signalTime, h.signal) && Rising(trafficTime, h.traffic)
  }

  ghost predicate Inv(w: World) {
    && Sized(w.server)
    && (w.seen.stream == w.server.stream ==> w.seen.generation <= w.server.generation)
    && (Same(w) ==>
          && Grown(pingTime, w.seen.ping, w.pings, w.server.ping, PINGS)
          && Grown(signalTime, w.seen.signal, w.signals, w.server.signal, SAMPLES)
          && Grown(trafficTime, w.seen.traffic, w.traffics, w.server.traffic, SAMPLES))
    && (w.view.cursor.Some? ==> w.view == FullView(w.seen, w.seenTime))
    && (w.view.cursor.None? ==> w.view == BLANK)
  }

  lemma RisingSnoc<T>(at: T -> nat, s: seq<T>, x: T)
    requires Rising(at, s) && After(at, s, x)
    ensures Rising(at, s + [x])
  {
    forall i, j | 0 <= i < j < |s| + 1 ensures at((s + [x])[i]) < at((s + [x])[j]) {
      if j == |s| && i < |s| - 1 {
        assert at(s[i]) < at(s[|s| - 1]);
      }
    }
  }

  lemma RisingKeep<T>(at: T -> nat, s: seq<T>, n: nat)
    requires Rising(at, s)
    ensures Rising(at, Keep(s, n)) && |Keep(s, n)| <= n
  {
    if |s| > n {
      RisingSlice(at, s, |s| - n, |s|);
    }
  }

  lemma LastIsKept<T>(all: seq<T>, n: nat)
    requires 0 < n
    ensures all != [] ==> Keep(all, n) != [] && Keep(all, n)[|Keep(all, n)| - 1] == all[|all| - 1]
    ensures all == [] ==> Keep(all, n) == []
  {
  }

  lemma GrownBy<T>(at: T -> nat, seen: seq<T>, more: seq<T>, now: seq<T>, n: nat, x: T)
    requires 0 < n && Grown(at, seen, more, now, n) && After(at, now, x)
    ensures Grown(at, seen, more + [x], Keep(now + [x], n), n)
  {
    var all := seen + more;
    LastIsKept(all, n);
    RisingSnoc(at, all, x);
    hide Rising;
    KeepKeep(all, [x], n);
    assert all + [x] == seen + (more + [x]);
  }

  lemma AddedIsSized<T>(at: T -> nat, now: seq<T>, n: nat, x: T)
    requires Rising(at, now) && After(at, now, x)
    ensures Rising(at, Keep(now + [x], n)) && |Keep(now + [x], n)| <= n
  {
    RisingSnoc(at, now, x);
    RisingKeep(at, now + [x], n);
  }

  lemma GrownByNothing<T>(at: T -> nat, now: seq<T>, n: nat)
    requires |now| <= n && Rising(at, now)
    ensures Grown(at, now, [], now, n)
  {
    assert now + [] == now;
  }

  // ----- One poll

  lemma LaterZero<T>(at: T -> nat, s: seq<T>, cutoff: nat)
    requires Rising(at, s)
    ensures Later(at, Later(at, s, cutoff), 0) == Later(at, s, cutoff)
  {
    hide Later;
    LaterIsSuffix(at, s, cutoff);
    RisingSlice(at, s, Early(at, s, cutoff), |s|);
    EarlyIs(at, Later(at, s, cutoff), 0, 0);
  }

  lemma VisibleZero(h: History, cutoff: nat)
    requires Rising(pingTime, h.ping)
    ensures Later(pointTime, Visible(h, cutoff), 0) == Visible(h, cutoff)
  {
    hide Later, Strip, Shown;
    var window := Later(pingTime, h.ping, cutoff);
    LaterIsSuffix(pingTime, h.ping, cutoff);
    RisingSlice(pingTime, h.ping, Early(pingTime, h.ping, cutoff), |h.ping|);
    WindowTimes(window);
    EarlyIs(pingTime, window, 0, 0);
    ShownTimes(window, Strip(Shown(window)), 0);
  }

  lemma WindowTimes(window: seq<Ping>)
    ensures forall i :: 0 <= i < |window| ==> Strip(Shown(window))[i].time == window[i].time
  {
    forall i | 0 <= i < |window| ensures Strip(Shown(window))[i].time == window[i].time {
      StrippedTime(window, i);
    }
  }

  /** A full response is the visible part of the rings. */
  lemma FullIs(h: History, time: nat)
    requires Sized(h)
    ensures FullView(h, time) == View(Some(Ends(h)), h.generation, Visible(h, Cutoff(time)),
                                      Later(signalTime, h.signal, Cutoff(time)),
                                      Later(trafficTime, h.traffic, Cutoff(time)),
                                      TallyAll(NOTHING, Visible(h, Cutoff(time))),
                                      CountAll(Bytes(0, 0), h.traffic, Cutoff(time)))
  {
    hide Later, Visible;
    VisibleZero(h, Cutoff(time));
    LaterZero(signalTime, h.signal, Cutoff(time));
    LaterZero(trafficTime, h.traffic, Cutoff(time));
  }

  /** The page subtracts without saturating; on positive times that is the same cut. */
  lemma SameCut<T>(at: T -> nat, s: seq<T>, time: nat)
    requires Rising(at, s) && forall i :: 0 <= i < |s| ==> at(s[i]) > 0
    ensures Later(at, s, time - WINDOW_MS) == Later(at, s, Cutoff(time))
  {
    hide Later;
    LaterIsSuffix(at, s, Cutoff(time));
    var k := Early(at, s, Cutoff(time));
    assert k > 0 ==> at(s[k - 1]) <= Cutoff(time) && at(s[k - 1]) > 0;
    EarlyIs(at, s, time - WINDOW_MS, k);
  }

  lemma PositiveTimes<T>(at: T -> nat, client: seq<T>, c0: nat, kept: seq<T>, window: seq<T>, c1: nat, now: seq<T>,
                         end: nat)
    requires Rising(at, kept) && Rising(at, now)
    requires client == Later(at, kept, c0) && window == Later(at, now, c1)
    ensures Rising(at, window)
    ensures forall i :: 0 <= i < |client + Later(at, window, end)| ==> at((client + Later(at, window, end))[i]) > 0
  {
    hide Later;
    LaterIsSuffix(at, kept, c0);
    LaterIsSuffix(at, now, c1);
    RisingSlice(at, now, Early(at, now, c1), |now|);
    LaterIsSuffix(at, window, end);
  }

  /** The raw lists: what the page held plus the delta, cut as the page cuts, is the new window. */
  lemma RawDelta<T>(at: T -> nat, kept: seq<T>, more: seq<T>, now: seq<T>, n: nat, t0: nat, t1: nat)
    requires 0 < n && Grown(at, kept, more, now, n) && t0 <= t1
    ensures var window := Later(at, now, Cutoff(t1));
      var client := Later(at, kept, Cutoff(t0));
      var delta := Later(at, window, End(at, kept));
      && Rising(at, window) && Rising(at, client + delta)
      && Keep(Later(at, client + delta, t1 - WINDOW_MS), n) == window
  {
    hide Later, Keep;
    DeltaIsEnough(at, kept, more, n, Cutoff(t0), Cutoff(t1));
    var window := Later(at, now, Cutoff(t1));
    var client := Later(at, kept, Cutoff(t0));
    RisingKeep(at, kept + more, n);
    assert kept == (kept + more)[0..|kept|];
    RisingSlice(at, kept + more, 0, |kept|);
    PositiveTimes(at, client, Cutoff(t0), kept, window, Cutoff(t1), now, End(at, kept));
    SameCut(at, client + Later(at, window, End(at, kept)), t1);
  }

  lemma SeriesDelta<T>(at: T -> nat, kept: seq<T>, more: seq<T>, now: seq<T>, n: nat, t0: nat, t1: nat)
    requires 0 < n && Grown(at, kept, more, now, n) && t0 <= t1
    ensures var window := Later(at, now, Cutoff(t1));
      Merged(at, Later(at, kept, Cutoff(t0)), Later(at, window, End(at, kept)), t1 - WINDOW_MS, n) == window
  {
    hide Later, Merged;
    RawDelta(at, kept, more, now, n, t0, t1);
    MergedRising(at, Later(at, kept, Cutoff(t0)), Later(at, Later(at, now, Cutoff(t1)), End(at, kept)),
                 t1 - WINDOW_MS, n);
  }

  /** One poll of a page that is up to date with its cursor brings it up to date with the server. */
  lemma PollIsExact(w: World, time: nat)
    requires Inv(w) && time >= w.seenTime
    ensures Respond(w, w.view.cursor, time).view == FullView(w.server, time)
  {
    FullIs(w.server, time);
    if w.view.cursor.Some? && Usable(w.server, w.view.cursor.value) {
      UsableMeansSame(w);
      FullIs(w.seen, w.seenTime);
      DeltaPoll(w, time);
    }
  }

  lemma UsableMeansSame(w: World)
    requires Inv(w) && w.view.cursor.Some? && Usable(w.server, w.view.cursor.value)
    ensures Same(w) && w.view.cursor == Some(Ends(w.seen)) && w.view.generation == w.seen.generation && Sized(w.seen)
  {
    hide Later, Visible;
    SeenSized(w);
  }

  lemma SeenSized(w: World)
    requires Inv(w) && Same(w)
    ensures Sized(w.seen)
  {
    assert w.seen.ping == (w.seen.ping + w.pings)[0..|w.seen.ping|];
    RisingSlice(pingTime, w.seen.ping + w.pings, 0, |w.seen.ping|);
    assert w.seen.signal == (w.seen.signal + w.signals)[0..|w.seen.signal|];
    RisingSlice(signalTime, w.seen.signal + w.signals, 0, |w.seen.signal|);
    assert w.seen.traffic == (w.seen.traffic + w.traffics)[0..|w.seen.traffic|];
    RisingSlice(trafficTime, w.seen.traffic + w.traffics, 0, |w.seen.traffic|);
  }

  lemma DeltaPoll(w: World, time: nat)
    requires Inv(w) && time >= w.seenTime && Same(w)
    requires Usable(w.server, Ends(w.seen))
    requires w.view == View(Some(Ends(w.seen)), w.seen.generation, Visible(w.seen, Cutoff(w.seenTime)),
                            Later(signalTime, w.seen.signal, Cutoff(w.seenTime)),
                            Later(trafficTime, w.seen.traffic, Cutoff(w.seenTime)),
                            TallyAll(NOTHING, Visible(w.seen, Cutoff(w.seenTime))),
                            CountAll(Bytes(0, 0), w.seen.traffic, Cutoff(w.seenTime)))
    ensures Respond(w, w.view.cursor, time).view
         == View(Some(Ends(w.server)), w.server.generation, Visible(w.server, Cutoff(time)),
                 Later(signalTime, w.server.signal, Cutoff(time)),
                 Later(trafficTime, w.server.traffic, Cutoff(time)),
                 TallyAll(NOTHING, Visible(w.server, Cutoff(time))),
                 CountAll(Bytes(0, 0), w.server.traffic, Cutoff(time)))
  {
    hide Later, Merged, Keep, Strip, Shown, End;
    SeriesDelta(signalTime, w.seen.signal, w.signals, w.server.signal, SAMPLES, w.seenTime, time);
    SeriesDelta(trafficTime, w.seen.traffic, w.traffics, w.server.traffic, SAMPLES, w.seenTime, time);
    RawDelta(pingTime, w.seen.ping, w.pings, w.server.ping, PINGS, w.seenTime, time);
    PingDelta(Later(pingTime, w.seen.ping, Cutoff(w.seenTime)), Later(pingTime, w.server.ping, Cutoff(time)),
              End(pingTime, w.seen.ping), time - WINDOW_MS, PINGS);
  }

  // ----- Runs

  lemma StepKeepsInv(w: World, op: Op)
    requires Inv(w) && Legal(w, op)
    ensures Inv(Step(w, op))
  {
    hide Keep, FullView, SnapshotSince, MergeSnapshot;
    match op
    case Probe(p) =>
      AddedIsSized(pingTime, w.server.ping, PINGS, p);
      if Same(w) {
        GrownBy(pingTime, w.seen.ping, w.pings, w.server.ping, PINGS, p);
      }
    case Sample(s) =>
      AddedIsSized(signalTime, w.server.signal, SAMPLES, s);
      if Same(w) {
        GrownBy(signalTime, w.seen.signal, w.signals, w.server.signal, SAMPLES, s);
      }
    case Count(t) =>
      AddedIsSized(trafficTime, w.server.traffic, SAMPLES, t);
      if Same(w) {
        GrownBy(trafficTime, w.seen.traffic, w.traffics, w.server.traffic, SAMPLES, t);
      }
    case Retarget =>
    case Restart(stream) =>
    case Poll(time) =>
      PollIsExact(w, time);
      ResponseKeepsInv(w, w.view.cursor, time);
    case Reload(time) =>
      ReloadIsExact(w, time);
      ResponseKeepsInv(w, None, time);
  }

  lemma ReloadIsExact(w: World, time: nat)
    ensures Respond(w, None, time).view == FullView(w.server, time)
  {
    hide Later, Visible;
  }

  lemma ResponseKeepsInv(w: World, cursor: Option<Cursor>, time: nat)
    requires Inv(w) && Respond(w, cursor, time).view == FullView(w.server, time)
    ensures Inv(Respond(w, cursor, time))
  {
    hide Later, Visible, Keep, TallyAll;
    GrownByNothing(pingTime, w.server.ping, PINGS);
    GrownByNothing(signalTime, w.server.signal, SAMPLES);
    GrownByNothing(trafficTime, w.server.traffic, SAMPLES);
  }

  lemma {:induction false} RunKeepsInv(w: World, ops: seq<Op>)
    requires Inv(w) && LegalRun(w, ops)
    ensures Inv(Run(w, ops))
    decreases ops
  {
    if ops != [] {
      StepKeepsInv(w, ops[0]);
      RunKeepsInv(Step(w, ops[0]), ops[1..]);
    }
  }

  /**
   The refinement: after every legal run of probes, samples, target changes, restarts and polls, the
   next poll leaves the page with the points, jitter included, that a full response would hold.
   */
  lemma EveryPollIsExact(stream: nat, ops: seq<Op>, time: nat)
    requires LegalRun(Start(stream), ops) && time >= Run(Start(stream), ops).seenTime
    ensures Step(Run(Start(stream), ops), Poll(time)).view == FullView(Run(Start(stream), ops).server, time)
  {
    hide *;
    StartInv(stream);
    RunKeepsInv(Start(stream), ops);
    PollIsExact(Run(Start(stream), ops), time);
    PollStep(Run(Start(stream), ops), time);
  }

  lemma PollStep(w: World, time: nat)
    ensures Step(w, Poll(time)) == Respond(w, w.view.cursor, time)
  {
    hide SnapshotSince, MergeSnapshot;
  }

  lemma StartInv(stream: nat)
    ensures Inv(Start(stream))
  {
  }
}
