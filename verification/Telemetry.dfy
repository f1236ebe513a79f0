/**
 The telemetry monitor: what a sample records, what a full and an incremental response contain,
 and what the page makes of them.
 */
module Telemetry {
  import opened Common
  import opened Ring
  import opened Timeline

  const NONE: nat := 0xFFFF
  const WINDOW_MS: nat := 300000
  const PINGS: nat := 300
  const SAMPLES: nat := 150

  /** One latency probe; `rtt` and `jitter` in tenths of a millisecond, `NONE` when unknown. */
  datatype Ping = Ping(time: nat, rtt: nat, jitter: nat, status: nat)

  datatype Signal = Signal(time: nat, values: seq<int>)

  datatype Traffic = Traffic(time: nat, received: nat, sent: nat, elapsed: nat)

  /** A probe as the page receives it. */
  datatype Point = Point(time: nat, rtt: Option<nat>, jitter: Option<nat>, sent: bool, status: nat)

  const pingTime: Ping -> nat := (p: Ping) => p.time
  const signalTime: Signal -> nat := (p: Signal) => p.time
  const trafficTime: Traffic -> nat := (p: Traffic) => p.time
  const pointTime: Point -> nat := (p: Point) => p.time

  function Metric(v: nat): Option<nat> {
    if v == NONE then None else Some(v)
  }

  /** Jitter between two probes that follow each other without a missed one in between. */
  function AdjacentJitter(previous: Option<Ping>, sample: Ping, maxGap: nat): nat {
    match previous
    case Some(prev) =>
      if prev.rtt != NONE && sample.rtt != NONE && sample.time > prev.time && sample.time - prev.time <= maxGap then
        if sample.rtt >= prev.rtt then sample.rtt - prev.rtt else prev.rtt - sample.rtt
      else NONE
    case None => NONE
  }

  function Show(p: Ping): Point {
    Point(p.time, Metric(p.rtt), Metric(p.jitter), p.status <= 1, if p.status <= 2 then p.status else 3)
  }

  function Shown(pings: seq<Ping>): (r: seq<Point>)
    ensures |r| == |pings|
  {
    seq(|pings|, i requires 0 <= i < |pings| => Show(pings[i]))
  }

  /** The first visible point has no neighbour inside the window. */
  function Strip(points: seq<Point>): (r: seq<Point>)
    ensures |r| == |points|
  {
    if points == [] then [] else [points[0].(jitter := None)] + points[1..]
  }

  // ----- Responses

  datatype Cursor = Cursor(stream: nat, generation: nat, ping: nat, signal: nat, traffic: nat)

  datatype History = History(stream: nat, generation: nat, ping: seq<Ping>, signal: seq<Signal>, traffic: seq<Traffic>)

  /** Statistics over the visible probes, in tenths. */
  datatype Stats = Stats(sent: nat, received: nat, errors: nat, sum: nat, minimum: Option<nat>, maximum: nat,
                         jitter: nat, jitters: nat)

  datatype Snapshot = Snapshot(delta: bool, cursor: Cursor, generation: nat, serverTime: nat,
                               ping: seq<Point>, signal: seq<Signal>, traffic: seq<Traffic>, stats: Stats, bytes: Bytes)

  function Tally(s: Stats, p: Point): Stats {
    var s1 := if p.sent then s.(sent := s.sent + 1) else s.(errors := s.errors + 1);
    var s2 := match p.rtt
      case None => s1
      case Some(rtt) =>
        s1.(received := s1.received + 1, sum := s1.sum + rtt,
            minimum := Some(if s1.minimum.Some? && s1.minimum.value < rtt then s1.minimum.value else rtt),
            maximum := if s1.maximum < rtt then rtt else s1.maximum);
    match p.jitter
    case None => s2
    case Some(jitter) => s2.(jitter := s2.jitter + jitter, jitters := s2.jitters + 1)
  }

  function TallyAll(s: Stats, points: seq<Point>): Stats
    decreases points
  {
    if points == [] then s else TallyAll(Tally(s, points[0]), points[1..])
  }

  /** The bytes credited inside the window, by points that began there. */
  datatype Bytes = Bytes(received: nat, sent: nat)

  function CountAll(b: Bytes, points: seq<Traffic>, cutoff: nat): Bytes
    decreases points
  {
    if points == [] then b else CountAll(Count(b, points[0], cutoff), points[1..], cutoff)
  }

  function Count(b: Bytes, p: Traffic, cutoff: nat): Bytes {
    if p.elapsed > 0 && p.time > p.elapsed && p.time - p.elapsed > cutoff then
      Bytes(b.received + p.received, b.sent + p.sent)
    else b
  }

  const NOTHING := Stats(0, 0, 0, 0, None, 0, 0, 0)

  function Ends(h: History): Cursor {
    Cursor(h.stream, h.generation, End(pingTime, h.ping), End(signalTime, h.signal), End(trafficTime, h.traffic))
  }

  /** A cursor of this process and this probe target that is not ahead of the rings. */
  predicate Usable(h: History, c: Cursor) {
    var ends := Ends(h);
    c.stream == h.stream && c.generation == h.generation
    && c.ping <= ends.ping && c.signal <= ends.signal && c.traffic <= ends.traffic
  }

  function Cutoff(time: nat): nat {
    if time < WINDOW_MS then 0 else time - WINDOW_MS
  }

  /** The probes inside the window as the page sees them. */
  function Visible(h: History, cutoff: nat): seq<Point> {
    Strip(Shown(Later(pingTime, h.ping, cutoff)))
  }

  function SnapshotSince(h: History, cursor: Option<Cursor>, time: nat): Snapshot {
    var cutoff := Cutoff(time);
    var delta := cursor.Some? && Usable(h, cursor.value);
    var after := if delta then cursor.value else Cursor(0, 0, 0, 0, 0);
    var visible := Visible(h, cutoff);
    Snapshot(delta, Ends(h), h.generation, time,
             Later(pointTime, visible, after.ping),
             Later(signalTime, Later(signalTime, h.signal, cutoff), after.signal),
             Later(trafficTime, Later(trafficTime, h.traffic, cutoff), after.traffic),
             TallyAll(NOTHING, visible), CountAll(Bytes(0, 0), h.traffic, cutoff))
  }

  // ----- The page

  datatype View = View(cursor: Option<Cursor>, generation: nat, ping: seq<Point>, signal: seq<Signal>,
                       traffic: seq<Traffic>, stats: Stats, bytes: Bytes)

  const BLANK: View := View(None, 0, [], [], [], NOTHING, Bytes(0, 0))

  function MergeSnapshot(previous: View, data: Snapshot): View {
    if !data.delta || previous.cursor.None? || previous.cursor.value.stream != data.cursor.stream
       || previous.generation != data.generation then
      View(Some(data.cursor), data.generation, data.ping, data.signal, data.traffic, data.stats, data.bytes)
    else
      var cutoff := data.serverTime - WINDOW_MS;
      View(Some(data.cursor), data.generation,
           Strip(Merged(pointTime, previous.ping, data.ping, cutoff, PINGS)),
           Merged(signalTime, previous.signal, data.signal, cutoff, SAMPLES),
           Merged(trafficTime, previous.traffic, data.traffic, cutoff, SAMPLES), data.stats, data.bytes)
  }

  /** The view a response without a cursor gives. */
  function FullView(h: History, time: nat): View {
    MergeSnapshot(BLANK, SnapshotSince(h, None, time))
  }

  // ----- Points and probes

  lemma ShownTimes(pings: seq<Ping>, points: seq<Point>, bound: int)
    requires Rising(pingTime, pings) && |points| == |pings|
    requires forall i :: 0 <= i < |pings| ==> points[i].time == pings[i].time
    ensures Rising(pointTime, points)
    ensures Later(pointTime, points, bound) == points[Early(pingTime, pings, bound)..]
  {
    hide Later;
    forall i, j | 0 <= i < j < |points| ensures pointTime(points[i]) < pointTime(points[j]) {
      assert pingTime(pings[i]) < pingTime(pings[j]);
    }
    LaterIsSuffix(pingTime, pings, bound);
    var k := Early(pingTime, pings, bound);
    assert k > 0 ==> pingTime(pings[k - 1]) <= bound;
    assert k < |pings| ==> pingTime(pings[k]) > bound;
    EarlyIs(pointTime, points, bound, k);
  }

  function Blind(p: Point): Point {
    p.(jitter := None)
  }

  lemma StripShownAt(pings: seq<Ping>, i: nat)
    requires i < |pings|
    ensures Strip(Shown(pings))[i] == if i == 0 then Blind(Show(pings[0])) else Show(pings[i])
  {
  }

  /** The page's points stand for the raw probes, except for the jitter of the first of each list. */
  lemma SeamPoints(client: seq<Ping>, window: seq<Ping>, d: nat)
    requires d <= |window|
    ensures var raw := client + window[d..];
      var points := Strip(Shown(client)) + Strip(Shown(window))[d..];
      && |points| == |raw|
      && (forall i :: 0 <= i < |raw| ==> Blind(points[i]) == Blind(Show(raw[i])))
      && (forall i :: 0 < i < |raw| && (i != |client| || d > 0) ==> points[i] == Show(raw[i]))
  {
    hide Strip, Shown;
    var raw := client + window[d..];
    var points := Strip(Shown(client)) + Strip(Shown(window))[d..];
    forall i | 0 <= i < |raw|
      ensures Blind(points[i]) == Blind(Show(raw[i]))
      ensures i > 0 && (i != |client| || d > 0) ==> points[i] == Show(raw[i])
    {
      if i < |client| {
        StripShownAt(client, i);
      } else {
        StripShownAt(window, d + i - |client|);
      }
    }
  }

  lemma StripSuffix(points: seq<Point>, o: nat, window: seq<Ping>)
    requires o + |window| == |points|
    requires forall k :: 0 < k < |window| ==> points[o + k] == Show(window[k])
    requires window != [] ==> Blind(points[o]) == Blind(Show(window[0]))
    ensures Strip(points[o..]) == Strip(Shown(window))
  {
    forall k | 0 <= k < |window| ensures Strip(points[o..])[k] == Strip(Shown(window))[k] {
      assert points[o..][k] == points[o + k];
    }
  }

  /**
   The page's ping list after a delta is the server's full list: the raw lists agree by
   `DeltaIsEnough`, and a point stripped of its jitter earlier is the first one again, or gone.
   */
  lemma PingDelta(client: seq<Ping>, window: seq<Ping>, end: nat, cutoff: int, n: nat)
    requires Rising(pingTime, window)
    requires var delta := Later(pingTime, window, end);
      && Rising(pingTime, client + delta)
      && Keep(Later(pingTime, client + delta, cutoff), n) == window
    ensures Strip(Merged(pointTime, Strip(Shown(client)), Later(pointTime, Strip(Shown(window)), end), cutoff, n))
         == Strip(Shown(window))
  {
    hide Later, Merged, Strip, Shown, Rising, Keep, Show, Blind;
    var d := Early(pingTime, window, end);
    LaterIsSuffix(pingTime, window, end);
    var raw := client + window[d..];
    var points := Strip(Shown(client)) + Strip(Shown(window))[d..];
    SeamPoints(client, window, d);
    forall i | 0 <= i < |window| ensures Strip(Shown(window))[i].time == window[i].time {
      StrippedTime(window, i);
    }
    ShownTimes(window, Strip(Shown(window)), end);
    forall i | 0 <= i < |raw| ensures points[i].time == raw[i].time {
      BlindTime(points[i], raw[i]);
    }
    ShownTimes(raw, points, cutoff);
    LaterIsSuffix(pingTime, raw, cutoff);
    MergedRising(pointTime, Strip(Shown(client)), Strip(Shown(window))[d..], cutoff, n);
    var o := KeptPoints(raw, points, Early(pingTime, raw, cutoff), n, window);
    StripSuffix(points, o, window);
  }

  lemma StrippedTime(window: seq<Ping>, i: nat)
    requires i < |window|
    ensures Strip(Shown(window))[i].time == window[i].time
  {
    StripShownAt(window, i);
    hide Strip, Shown;
  }

  lemma BlindTime(point: Point, p: Ping)
    requires Blind(point) == Blind(Show(p))
    ensures point.time == p.time
  {
  }

  /** Cutting two lists of the same length in the same way leaves the same part of each. */
  lemma KeptPoints(raw: seq<Ping>, points: seq<Point>, cut: nat, n: nat, window: seq<Ping>) returns (o: nat)
    requires |points| == |raw| && cut <= |raw| && Keep(raw[cut..], n) == window
    ensures o + |window| == |raw| && Keep(points[cut..], n) == points[o..]
    ensures forall k :: 0 <= k < |window| ==> raw[o + k] == window[k]
  {
    o := |raw| - |window|;
    assert window == raw[o..];
  }
}
