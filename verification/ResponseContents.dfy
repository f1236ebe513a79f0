/**
 What a response of the monitor says of the samples: which are in it, what each point shows, and what the
 statistics and totals are totals of.
 */
module ResponseContents {
  import opened Common
  import opened Ring
  import opened Timeline
  import opened Telemetry
  import opened Monitor
  import MonitorRun

  // ----- Jitter

  function Distance(a: nat, b: nat): nat {
    if a < b then b - a else a - b
  }

  /** Two probes that both came back, the second after the first and in time. */
  predicate Follows(a: Ping, b: Ping, maxGap: nat) {
    a.rtt != 65535 && b.rtt != 65535 && a.time < b.time <= a.time + maxGap
  }

  /** The ring after these probes were recorded, each with the longest gap allowed before it. */
  function Recorded(samples: seq<(Ping, nat)>): (r: seq<Ping>)
    ensures |r| == Min(|samples|, 300)
  {
    if samples == [] then []
    else
      var before := Recorded(samples[..|samples| - 1]);
      var (sample, maxGap) := samples[|samples| - 1];
      var last := if before == [] then None else Some(before[|before| - 1]);
      Keep(before + [sample.(jitter := AdjacentJitter(last, sample, maxGap))], PINGS)
  }

  /** A recorded probe is the sample, with its jitter against the probe before it, or with none. */
  predicate Jittered(p: Ping, sample: Ping, before: Option<Ping>, maxGap: nat) {
    p == sample.(jitter := if before.Some? && Follows(before.value, sample, maxGap)
                           then Distance(before.value.rtt, sample.rtt) else 65535)
  }

  lemma LastIsJittered(samples: seq<(Ping, nat)>)
    requires samples != []
    ensures var before, r := Recorded(samples[..|samples| - 1]), Recorded(samples);
      var (sample, maxGap) := samples[|samples| - 1];
      && Jittered(r[|r| - 1], sample, if before == [] then None else Some(before[|before| - 1]), maxGap)
  {
  }

  /**
   The ring holds the last 300 probes, and the jitter of each but the oldest of a full ring is its distance to
   the one before it in the ring, if both came back and none was missed in between.
   */
  lemma {:induction false} JitterIsOfNeighbours(samples: seq<(Ping, nat)>)
    ensures var r := Recorded(samples);
      var gone := |samples| - |r|;
      && (forall i :: 0 < i < |r| ==> Jittered(r[i], samples[gone + i].0, Some(r[i - 1]), samples[gone + i].1))
      && (gone == 0 && r != [] ==> Jittered(r[0], samples[0].0, None, samples[0].1))
      && (r != [] ==> r[0].(jitter := 0) == samples[gone].0.(jitter := 0))
  {
    if samples != [] {
      var n := |samples| - 1;
      JitterIsOfNeighbours(samples[..n]);
      var before, r := Recorded(samples[..n]), Recorded(samples);
      var gone, kept := |samples| - |r|, |r| - 1;
      forall i | 0 <= i < kept
        ensures r[i] == before[|before| - kept + i] && samples[..n][gone + i] == samples[gone + i]
      {
      }
      LastIsJittered(samples);
      hide Recorded, Jittered;
    }
  }

  // ----- Points

  /** What the page gets to see of a probe. */
  predicate Displays(point: Point, p: Ping, first: bool) {
    && point.time == p.time
    && point.rtt == (if p.rtt == 65535 then None else Some(p.rtt))
    && point.jitter == (if first || p.jitter == 65535 then None else Some(p.jitter))
    && (point.sent <==> p.status == 0 || p.status == 1)
    && point.status == Min(p.status, 3)
  }

  /** The sample is of the last five minutes. */
  predicate Recent(at: nat, time: nat) {
    at > 0 && at + 5 * 60 * 1000 > time
  }

  /** `part` is the end of `all` from the first recent sample on. */
  ghost predicate IsRecentPart<T>(at: T -> nat, all: seq<T>, part: seq<T>, time: nat) {
    && |part| <= |all| && part == all[|all| - |part|..]
    && forall i :: 0 <= i < |all| ==> (i >= |all| - |part| <==> Recent(at(all[i]), time))
  }

  lemma LaterIsRecent<T>(at: T -> nat, all: seq<T>, time: nat)
    requires Rising(at, all)
    ensures IsRecentPart(at, all, Later(at, all, Cutoff(time)), time)
  {
    LaterIsSuffix(at, all, Cutoff(time));
  }

  lemma FullResponseIs(h: History, time: nat)
    requires MonitorRun.Sized(h)
    ensures var s := SnapshotSince(h, None, time);
      && !s.delta && s.serverTime == time && s.generation == h.generation
      && s.ping == Strip(Shown(Later(pingTime, h.ping, Cutoff(time))))
      && s.signal == Later(signalTime, h.signal, Cutoff(time))
      && s.traffic == Later(trafficTime, h.traffic, Cutoff(time))
  {
    MonitorRun.VisibleZero(h, Cutoff(time));
    MonitorRun.LaterZero(signalTime, h.signal, Cutoff(time));
    MonitorRun.LaterZero(trafficTime, h.traffic, Cutoff(time));
    hide Later, TallyAll, CountAll, Cutoff;
  }

  /**
   A full response shows every probe of the last five minutes, in order, and nothing else; and the samples
   of that time.
   */
  lemma FullResponseShowsWindow(h: History, time: nat)
    requires MonitorRun.Sized(h)
    ensures var s := SnapshotSince(h, None, time);
      && !s.delta && s.serverTime == time && s.generation == h.generation
      && |s.ping| <= |h.ping|
      && var probes := h.ping[|h.ping| - |s.ping|..];
      && IsRecentPart(pingTime, h.ping, probes, time)
      && (forall i :: 0 <= i < |s.ping| ==> Displays(s.ping[i], probes[i], i == 0))
      && IsRecentPart(signalTime, h.signal, s.signal, time) && IsRecentPart(trafficTime, h.traffic, s.traffic, time)
  {
    FullResponseIs(h, time);
    LaterIsRecent(pingTime, h.ping, time);
    LaterIsRecent(signalTime, h.signal, time);
    LaterIsRecent(trafficTime, h.traffic, time);
    var window := Later(pingTime, h.ping, Cutoff(time));
    var s := SnapshotSince(h, None, time);
    assert window == h.ping[|h.ping| - |window|..];
    hide *;
    forall i | 0 <= i < |s.ping|
      ensures Displays(s.ping[i], window[i], i == 0)
    {
      PointDisplays(window, i);
    }
  }

  lemma PointDisplays(window: seq<Ping>, i: nat)
    requires i < |window|
    ensures Displays(Strip(Shown(window))[i], window[i], i == 0)
  {
    StripShownAt(window, i);
    hide Strip, Shown;
  }

  /** The newest time of a series, or 0. */
  function Newest<T>(at: T -> nat, s: seq<T>): nat {
    if s == [] then 0 else at(s[|s| - 1])
  }

  /** `part` is the end of `full` from the first sample after `after` on. */
  ghost predicate IsFreshPart<T>(at: T -> nat, full: seq<T>, part: seq<T>, after: nat) {
    && |part| <= |full| && part == full[|full| - |part|..]
    && forall i :: 0 <= i < |full| ==> (i >= |full| - |part| <==> at(full[i]) > after)
  }

  lemma LaterIsFresh<T>(at: T -> nat, full: seq<T>, after: nat)
    requires Rising(at, full)
    ensures IsFreshPart(at, full, Later(at, full, after), after)
  {
    LaterIsSuffix(at, full, after);
  }

  /** The cursor is ahead of one of the series. */
  predicate Ahead(c: Cursor, ends: Cursor) {
    c.ping > ends.ping || c.signal > ends.signal || c.traffic > ends.traffic
  }

  /**
   A response is a difference exactly if the cursor is of this process and target and not ahead of any series;
   then it holds what the full response holds beyond the cursor, and its cursor is the newest of each series.
   */
  lemma DifferenceIsFresh(h: History, c: Cursor, time: nat)
    requires MonitorRun.Sized(h)
    ensures var s, full := SnapshotSince(h, Some(c), time), SnapshotSince(h, None, time);
      && s.cursor == Cursor(h.stream, h.generation, Newest(pingTime, h.ping), Newest(signalTime, h.signal),
                            Newest(trafficTime, h.traffic))
      && s.delta == (c.stream == h.stream && c.generation == h.generation && !Ahead(c, s.cursor))
      && (s.delta ==>
        && IsFreshPart(pointTime, full.ping, s.ping, c.ping)
        && IsFreshPart(signalTime, full.signal, s.signal, c.signal)
        && IsFreshPart(trafficTime, full.traffic, s.traffic, c.traffic))
      && (!s.delta ==> s == full.(cursor := s.cursor))
  {
    var cutoff := Cutoff(time);
    FullResponseIs(h, time);
    DifferenceIs(h, c, time);
    VisibleRises(h, cutoff);
    LaterRises(signalTime, h.signal, cutoff);
    LaterRises(trafficTime, h.traffic, cutoff);
    LaterIsFresh(pointTime, Visible(h, cutoff), c.ping);
    LaterIsFresh(signalTime, Later(signalTime, h.signal, cutoff), c.signal);
    LaterIsFresh(trafficTime, Later(trafficTime, h.traffic, cutoff), c.traffic);
    hide Later, Cutoff, SnapshotSince, Strip, Shown, IsFreshPart;
  }

  lemma DifferenceIs(h: History, c: Cursor, time: nat)
    ensures var s, full, cutoff := SnapshotSince(h, Some(c), time), SnapshotSince(h, None, time), Cutoff(time);
      && s.cursor == Cursor(h.stream, h.generation, Newest(pingTime, h.ping), Newest(signalTime, h.signal),
                            Newest(trafficTime, h.traffic))
      && s.delta == (c.stream == h.stream && c.generation == h.generation && !Ahead(c, s.cursor))
      && (s.delta ==>
        && s.ping == Later(pointTime, Visible(h, cutoff), c.ping)
        && s.signal == Later(signalTime, Later(signalTime, h.signal, cutoff), c.signal)
        && s.traffic == Later(trafficTime, Later(trafficTime, h.traffic, cutoff), c.traffic))
      && (!s.delta ==> s == full.(cursor := s.cursor))
  {
    hide Later, TallyAll, CountAll, Cutoff, Visible;
  }

  lemma LaterRises<T>(at: T -> nat, s: seq<T>, bound: nat)
    requires Rising(at, s)
    ensures Rising(at, Later(at, s, bound))
  {
    LaterIsSuffix(at, s, bound);
  }

  lemma VisibleRises(h: History, cutoff: nat)
    requires Rising(pingTime, h.ping)
    ensures Rising(pointTime, Visible(h, cutoff))
  {
    hide Later, Strip, Shown;
    var window := Later(pingTime, h.ping, cutoff);
    LaterRises(pingTime, h.ping, cutoff);
    MonitorRun.WindowTimes(window);
    ShownTimes(window, Strip(Shown(window)), 0);
  }

  // ----- Statistics

  /** The values that are known. */
  function Known(values: seq<Option<nat>>): seq<nat> {
    if values == [] then [] else (if values[0].Some? then [values[0].value] else []) + Known(values[1..])
  }

  function Sum(values: seq<nat>): nat {
    if values == [] then 0 else values[0] + Sum(values[1..])
  }

  function Rtts(points: seq<Point>): (r: seq<Option<nat>>)
    ensures |r| == |points|
  {
    seq(|points|, i requires 0 <= i < |points| => points[i].rtt)
  }

  function Jitters(points: seq<Point>): (r: seq<Option<nat>>)
    ensures |r| == |points|
  {
    seq(|points|, i requires 0 <= i < |points| => points[i].jitter)
  }

  /** How many probes were sent. */
  function SentCount(points: seq<Point>): nat {
    if points == [] then 0 else (if points[0].sent then 1 else 0) + SentCount(points[1..])
  }

  /** The least and the greatest of some values, given those of the values before. */
  predicate Bounds(values: seq<nat>, s: Stats, t: Stats) {
    && (t.minimum.None? <==> s.minimum.None? && values == [])
    && (t.minimum.Some? ==>
      && (t.minimum == s.minimum || t.minimum.value in values)
      && (s.minimum.Some? ==> t.minimum.value <= s.minimum.value)
      && forall v :: v in values ==> t.minimum.value <= v)
    && (t.maximum == s.maximum || t.maximum in values) && t.maximum >= s.maximum
    && forall v :: v in values ==> v <= t.maximum
  }

  predicate Totals(points: seq<Point>, s: Stats, t: Stats) {
    var rtts, jitters := Known(Rtts(points)), Known(Jitters(points));
    && t.sent == s.sent + SentCount(points) && t.sent + t.errors == s.sent + s.errors + |points|
    && t.received == s.received + |rtts| && t.sum == s.sum + Sum(rtts) && Bounds(rtts, s, t)
    && t.jitter == s.jitter + Sum(jitters) && t.jitters == s.jitters + |jitters|
  }

  lemma {:induction false} TallyTotals(points: seq<Point>, s: Stats)
    ensures Totals(points, s, TallyAll(s, points))
    decreases points
  {
    if points != [] {
      var u := Tally(s, points[0]);
      TallyTotals(points[1..], u);
      assert Rtts(points)[1..] == Rtts(points[1..]) && Jitters(points)[1..] == Jitters(points[1..]);
      TotalsCons(points, s, u, TallyAll(u, points[1..]));
    }
  }

  lemma TotalsCons(points: seq<Point>, s: Stats, u: Stats, t: Stats)
    requires points != [] && u == Tally(s, points[0]) && Totals(points[1..], u, t)
    requires Rtts(points)[1..] == Rtts(points[1..]) && Jitters(points)[1..] == Jitters(points[1..])
    ensures Totals(points, s, t)
  {
    KnownFirst(Rtts(points));
    KnownFirst(Jitters(points));
    var rtts, rest := Known(Rtts(points)), Known(Rtts(points[1..]));
    assert Sum(rtts) == (if points[0].rtt.Some? then points[0].rtt.value else 0) + Sum(rest);
    BoundsCons(rtts, rest, s, u, t, points[0].rtt);
    hide Known, Bounds;
  }

  lemma KnownFirst(values: seq<Option<nat>>)
    requires values != []
    ensures Known(values) == (if values[0].Some? then [values[0].value] else []) + Known(values[1..])
    ensures |Known(values)| == (if values[0].Some? then 1 else 0) + |Known(values[1..])|
    ensures Sum(Known(values)) == (if values[0].Some? then values[0].value else 0) + Sum(Known(values[1..]))
  {
    var rest := Known(values[1..]);
    assert Known(values) == (if values[0].Some? then [values[0].value] else []) + rest;
    hide Known, Sum;
    if values[0].Some? {
      SumCons(values[0].value, rest);
    } else {
      assert [] + rest == rest;
    }
  }

  lemma SumCons(first: nat, rest: seq<nat>)
    ensures Sum([first] + rest) == first + Sum(rest)
  {
    assert ([first] + rest)[1..] == rest;
  }

  lemma BoundsCons(values: seq<nat>, rest: seq<nat>, s: Stats, u: Stats, t: Stats, rtt: Option<nat>)
    requires values == (if rtt.Some? then [rtt.value] else []) + rest && Bounds(rest, u, t)
    requires match rtt
      case None => u.minimum == s.minimum && u.maximum == s.maximum
      case Some(v) =>
        && u.minimum == Some(if s.minimum.Some? && s.minimum.value < v then s.minimum.value else v)
        && u.maximum == (if s.maximum < v then v else s.maximum)
    ensures Bounds(values, s, t)
  {
  }

  /**
   The statistics of a response are those of the probes of the whole window: how many were sent and came back,
   and sum, least and greatest of the latencies, and the sum of the jitters that are known.
   */
  lemma StatisticsAreOfWindow(h: History, cursor: Option<Cursor>, time: nat)
    requires MonitorRun.Sized(h)
    ensures var s, points := SnapshotSince(h, cursor, time).stats, SnapshotSince(h, None, time).ping;
      var rtts, jitters := Known(Rtts(points)), Known(Jitters(points));
      && s.sent == SentCount(points) && s.errors == |points| - s.sent
      && s.received == |rtts| && s.sum == Sum(rtts)
      && (if rtts == [] then s.minimum == None && s.maximum == 0
          else
            && s.minimum.Some? && s.minimum.value in rtts && s.maximum in rtts
            && forall v :: v in rtts ==> s.minimum.value <= v <= s.maximum)
      && s.jitter == Sum(jitters) && s.jitters == |jitters|
  {
    MonitorRun.VisibleZero(h, Cutoff(time));
    var points := Visible(h, Cutoff(time));
    TallyTotals(points, NOTHING);
    hide Later, TallyAll, CountAll, Visible, Known, Sum, SentCount, Tally;
    var rtts, s := Known(Rtts(points)), TallyAll(NOTHING, points);
    assert rtts != [] ==> rtts[0] in rtts && rtts[0] <= s.maximum;
  }

  // ----- Traffic

  /** The bytes of these points that were counted from an instant within the last five minutes on. */
  function Within(points: seq<Traffic>, time: nat, bytes: Traffic -> nat): nat {
    if points == [] then 0
    else
      var p := points[0];
      (if p.elapsed > 0 && p.time > p.elapsed && Recent(p.time - p.elapsed, time) then bytes(p) else 0)
      + Within(points[1..], time, bytes)
  }

  const receivedOf: Traffic -> nat := (p: Traffic) => p.received
  const sentOf: Traffic -> nat := (p: Traffic) => p.sent

  lemma {:induction false} CountTotals(points: seq<Traffic>, b: Bytes, time: nat)
    ensures var c := CountAll(b, points, Cutoff(time));
      && c.received == b.received + Within(points, time, receivedOf) && c.sent == b.sent + Within(points, time, sentOf)
    decreases points
  {
    if points != [] {
      CountTotals(points[1..], Count(b, points[0], Cutoff(time)), time);
    }
  }

  /** The byte totals of a response are of the points that began in the last five minutes. */
  lemma BytesAreOfWindow(h: History, cursor: Option<Cursor>, time: nat)
    ensures var b := SnapshotSince(h, cursor, time).bytes;
      b.received == Within(h.traffic, time, receivedOf) && b.sent == Within(h.traffic, time, sentOf)
  {
    CountTotals(h.traffic, Bytes(0, 0), time);
    hide Later, TallyAll, CountAll, Visible, Cutoff;
  }

  /** The milliseconds from one reading to the next, rounded down, are within bounds. */
  predicate InTime(from: nat, to: nat, maxGap: nat) {
    from + 1_000_000 <= to < from + (maxGap + 1) * 1_000_000
  }

  /**
   Two readings that follow each other: the second is credited with what the counters rose by, and the time
   that took, if both are known, neither fell, and the gap is neither too short nor too long. Otherwise it is
   credited with nothing; and a reading that is not newer is not taken at all.
   */
  lemma CreditIsOfTwoReadings(s: Sampler, a: Reading, b: Reading, maxGap: nat, nextGap: nat)
    requires s.last.None? || a.stamp > s.last.value
    ensures var t := Sampled(s, a, maxGap).0;
      var (u, point) := Sampled(t, b, nextGap);
      if b.stamp <= a.stamp then point.None? && u == t
      else
        && point.Some? && point.value.time == b.time && u.last == Some(b.stamp)
        && if a.counters.Some? && b.counters.Some? && InTime(a.stamp, b.stamp, nextGap)
              && b.counters.value.0 >= a.counters.value.0 && b.counters.value.1 >= a.counters.value.1 then
             && a.counters.value.0 + point.value.received == b.counters.value.0
             && a.counters.value.1 + point.value.sent == b.counters.value.1
             && point.value.elapsed == (b.stamp - a.stamp) / 1_000_000 % 0x1_0000_0000
           else point.value.received == 0 && point.value.sent == 0 && point.value.elapsed == 0
  {
    MillisInTime(a.stamp, b.stamp, nextGap);
    hide Millis, InTime;
    assert b.stamp > a.stamp ==> Millis(a.stamp, b.stamp) == (b.stamp - a.stamp) / 1_000_000 by {
      MillisIs(a.stamp, b.stamp);
    }
  }

  lemma MillisIs(from: nat, to: nat)
    ensures to > from ==> Millis(from, to) == (to - from) / 1_000_000
  {
  }

  lemma MillisInTime(from: nat, to: nat, maxGap: nat)
    ensures 1 <= Millis(from, to) <= maxGap <==> InTime(from, to, maxGap)
  {
    if to >= from {
      var ms := Millis(from, to);
      assert ms * 1_000_000 <= to - from < (ms + 1) * 1_000_000;
      if ms <= maxGap {
        assert (ms + 1) * 1_000_000 <= (maxGap + 1) * 1_000_000;
      } else {
        assert (maxGap + 1) * 1_000_000 <= ms * 1_000_000;
      }
    }
  }

  /** The first reading of all is credited with nothing. */
  lemma FirstReadingHasNoCredit(r: Reading, maxGap: nat)
    ensures Sampled(Sampler(None, None), r, maxGap).1 == Some(Traffic(r.time, 0, 0, 0))
  {
  }

  // ----- Series

  /** The server keeps 300 probes and 150 samples of each kind, the newest ones. */
  lemma SeriesAreBounded(w: MonitorRun.World, p: Ping, s: Signal, t: Traffic)
    ensures MonitorRun.Step(w, MonitorRun.Probe(p)).server.ping == Keep(w.server.ping + [p], 300)
    ensures MonitorRun.Step(w, MonitorRun.Sample(s)).server.signal == Keep(w.server.signal + [s], 150)
    ensures MonitorRun.Step(w, MonitorRun.Count(t)).server.traffic == Keep(w.server.traffic + [t], 150)
  {
  }
}
