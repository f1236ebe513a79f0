/** The monitor in memory: rings updated in place, the response loop, and the traffic sampler. */
module Monitor {
  import opened Common
  import opened Ring
  import opened Timeline
  import opened Store
  import opened Telemetry

  class Monitor {
    const stream: nat
    const ping: Buffer<Ping>
    const signal: Buffer<Signal>
    const traffic: Buffer<Traffic>
    var target: string
    var generation: nat

    ghost function Repr(): set<object>
      reads this, ping, signal, traffic
    {
      {this, ping, signal, traffic, ping.values, signal.values, traffic.values}
    }

    ghost predicate Valid()
      reads this, ping, signal, traffic
    {
      && ping.Valid() && ping.values.Length == PINGS
      && signal.Valid() && signal.values.Length == SAMPLES
      && traffic.Valid() && traffic.values.Length == SAMPLES
    }

    ghost function Model(): History
      requires Valid()
      reads this, ping, signal, traffic, ping.values, signal.values, traffic.values
    {
      History(stream, generation, ping.Contents(), signal.Contents(), traffic.Contents())
    }

    constructor (stream: nat, target: string)
      ensures Valid() && fresh(Repr())
      ensures Model() == History(stream, 0, [], [], [])
    {
      this.stream := stream;
      this.target := target;
      ping := new Buffer<Ping>(PINGS, Ping(0, NONE, NONE, 3));
      signal := new Buffer<Signal>(SAMPLES, Signal(0, []));
      traffic := new Buffer<Traffic>(SAMPLES, Traffic(0, 0, 0, 0));
      generation := 0;
    }

    /** Records a finished probe, unless the target changed while it ran. */
    method RecordPing(sample: Ping, taken: nat, maxGap: nat) returns (recorded: bool)
      requires Valid()
      modifies ping, ping.values
      ensures Valid() && unchanged(this) && (ping.values == old(ping.values))
      ensures recorded == (taken == generation)
      ensures var kept := old(Model());
        var last := if kept.ping == [] then None else Some(kept.ping[|kept.ping| - 1]);
        ping.Contents() == if taken != generation then kept.ping
                           else Keep(kept.ping + [sample.(jitter := AdjacentJitter(last, sample, maxGap))], PINGS)
    {
      recorded := taken == generation;
      if recorded {
        var last := ping.Last();
        ping.Add(sample.(jitter := AdjacentJitter(last, sample, maxGap)));
      }
    }

    /**
     A new probe target, once it is written, starts a new generation with an empty ping ring. `changed` tells
     whether the outage in progress is to be forgotten as well.
     */
    method SetTarget(target: string, w: Written) returns (changed: bool)
      requires Valid()
      modifies this, ping
      ensures Valid() && ping.values == old(ping.values)
      ensures changed == (target != old(this.target) && !w.Unwritten?)
      ensures Model() == if changed then old(Model()).(generation := old(generation) + 1, ping := []) else old(Model())
      ensures this.target == if changed then target else old(this.target)
    {
      changed := this.target != target && !w.Unwritten?;
      if changed {
        this.target := target;
        generation := generation + 1;
        ping.Clear();
      }
    }

    /** The response loop: one pass over the ping ring builds the points and the statistics. */
    method Points(cutoff: nat, after: nat) returns (points: seq<Point>, stats: Stats)
      requires Valid()
      ensures points == Later(pointTime, Visible(Model(), cutoff), after)
      ensures stats == TallyAll(NOTHING, Visible(Model(), cutoff))
    {
      hide Later, Tally;
      var all := ping.Iter();
      var window := Later(pingTime, all, cutoff);
      ghost var visible := Strip(Shown(window));
      points := [];
      stats := NOTHING;
      var first := true;
      for i := 0 to |window|
        invariant first == (i == 0)
        invariant points + Later(pointTime, visible[i..], after) == Later(pointTime, visible, after)
        invariant TallyAll(stats, visible[i..]) == TallyAll(NOTHING, visible)
      {
        var p := Show(window[i]);
        if first {
          p := p.(jitter := None);
        }
        first := false;
        StripShownAt(window, i);
        TallyStep(stats, visible, i);
        LaterStep(visible, i, after);
        stats := Tally(stats, p);
        if p.time > after {
          points := points + [p];
        }
      }
      NoneLater(visible[|window|..], after);
    }

    /** The newest time in each ring. */
    method Newest() returns (c: Cursor)
      requires Valid()
      ensures c == Ends(Model())
    {
      hide Held;
      var lastPing := ping.Last();
      var lastSignal := signal.Last();
      var lastTraffic := traffic.Last();
      c := Cursor(stream, generation,
        if lastPing.Some? then lastPing.value.time else 0,
        if lastSignal.Some? then lastSignal.value.time else 0,
        if lastTraffic.Some? then lastTraffic.value.time else 0);
    }

    method SnapshotSince(cursor: Option<Cursor>, time: nat) returns (s: Snapshot)
      requires Valid()
      ensures s == Telemetry.SnapshotSince(Model(), cursor, time)
    {
      hide Later, TallyAll, Visible, Held, Ends, CountAll;
      var cutoff := if time < WINDOW_MS then 0 else time - WINDOW_MS;
      var ends := Newest();
      CursorNames(Model());
      var after := Cursor(0, 0, 0, 0, 0);
      var delta := false;
      match cursor {
        case None =>
        case Some(c) =>
          if c.stream == stream && c.generation == generation
             && c.ping <= ends.ping && c.signal <= ends.signal && c.traffic <= ends.traffic {
            delta := true;
            after := c;
          }
      }
      var points, stats := Points(cutoff, after.ping);
      var signals := signal.Iter();
      var traffics := traffic.Iter();
      var bytes := Sum(traffics, cutoff);
      s := Snapshot(delta, ends, generation, time, points,
                    Later(signalTime, Later(signalTime, signals, cutoff), after.signal),
                    Later(trafficTime, Later(trafficTime, traffics, cutoff), after.traffic),
                    stats, bytes);
    }
  }

  /** The loop over the traffic points that sums up the window. */
  method Sum(points: seq<Traffic>, cutoff: nat) returns (b: Bytes)
    ensures b == CountAll(Bytes(0, 0), points, cutoff)
  {
    b := Bytes(0, 0);
    for i := 0 to |points|
      invariant CountAll(b, points[i..], cutoff) == CountAll(Bytes(0, 0), points, cutoff)
    {
      assert points[i..][0] == points[i] && points[i..][1..] == points[i + 1..];
      var p := points[i];
      if p.elapsed > 0 && (if p.time < p.elapsed then 0 else p.time - p.elapsed) > cutoff {
        b := Bytes(b.received + p.received, b.sent + p.sent);
      }
    }
  }

  lemma CursorNames(h: History)
    ensures Ends(h).stream == h.stream && Ends(h).generation == h.generation
  {
  }

  lemma TallyStep(stats: Stats, visible: seq<Point>, i: nat)
    requires i < |visible|
    ensures TallyAll(stats, visible[i..]) == TallyAll(Tally(stats, visible[i]), visible[i + 1..])
  {
    hide Tally;
    assert visible[i..][1..] == visible[i + 1..];
  }

  lemma LaterStep(visible: seq<Point>, i: nat, after: int)
    requires i < |visible|
    ensures Later(pointTime, visible[i..], after)
         == (if visible[i].time > after then [visible[i]] else []) + Later(pointTime, visible[i + 1..], after)
  {
    assert visible[i..][1..] == visible[i + 1..];
  }

  lemma NoneLater(rest: seq<Point>, after: int)
    requires rest == []
    ensures Later(pointTime, rest, after) == []
  {
  }

  // ----- Traffic

  /** A reading of the counters: the instant the modem answered, in nanoseconds, and the counters if known. */
  datatype Reading = Reading(stamp: nat, time: nat, counters: Option<(nat, nat)>)

  datatype Sampler = Sampler(last: Option<nat>, previous: Option<(nat, nat, nat)>)

  function Millis(from: nat, to: nat): nat {
    if to < from then 0 else (to - from) / 1000000
  }

  /** What one accepted reading credits since the previous one. */
  function Credit(previous: Option<(nat, nat, nat)>, r: Reading, maxGap: nat): Traffic {
    match (previous, r.counters)
    case (Some((since, rx, tx)), Some((rx', tx'))) =>
      var elapsed := Millis(since, r.stamp);
      if 1 <= elapsed <= maxGap && rx' >= rx && tx' >= tx then
        Traffic(r.time, rx' - rx, tx' - tx, elapsed % 0x1_0000_0000)
      else Traffic(r.time, 0, 0, 0)
    case _ => Traffic(r.time, 0, 0, 0)
  }

  function Sampled(s: Sampler, r: Reading, maxGap: nat): (Sampler, Option<Traffic>) {
    if s.last.Some? && r.stamp <= s.last.value then (s, None)
    else
      var previous := match r.counters
        case None => None
        case Some((rx, tx)) => Some((r.stamp, rx, tx));
      (Sampler(Some(r.stamp), previous), Some(Credit(s.previous, r, maxGap)))
  }

  class TrafficSampler {
    var last: Option<nat>
    var previous: Option<(nat, nat, nat)>

    ghost function Model(): Sampler
      reads this
    {
      Sampler(last, previous)
    }

    constructor ()
      ensures Model() == Sampler(None, None)
    {
      last := None;
      previous := None;
    }

    /** A missing stamp or one that is not newer than the last leaves everything as it is. */
    method Sample(stamp: Option<nat>, time: nat, counters: Option<(nat, nat)>, maxGap: nat)
      returns (point: Option<Traffic>)
      modifies this
      ensures stamp.None? ==> point == None && Model() == old(Model())
      ensures stamp.Some? ==> (Model(), point) == Sampled(old(Model()), Reading(stamp.value, time, counters), maxGap)
    {
      if stamp.None? || (last.Some? && stamp.value <= last.value) {
        return None;
      }
      last := stamp;
      var result := Traffic(time, 0, 0, 0);
      var taken := previous;
      previous := None;
      if counters.Some? {
        var (rx, tx) := counters.value;
        if taken.Some? {
          var (since, oldRx, oldTx) := taken.value;
          var elapsed := Millis(since, stamp.value);
          if 1 <= elapsed <= maxGap && rx >= oldRx && tx >= oldTx {
            result := Traffic(time, rx - oldRx, tx - oldTx, elapsed % 0x1_0000_0000);
          }
        }
        previous := Some((stamp.value, rx, tx));
      }
      point := Some(result);
    }
  }

  /** The points credited over a run of readings. */
  function Credited(s: Sampler, readings: seq<Reading>, maxGap: nat): seq<Traffic>
    decreases readings
  {
    if readings == [] then []
    else
      var (s', point) := Sampled(s, readings[0], maxGap);
      (if point.Some? then [point.value] else []) + Credited(s', readings[1..], maxGap)
  }

  function Received(points: seq<Traffic>): nat {
    if points == [] then 0 else points[0].received + Received(points[1..])
  }

  function SentBytes(points: seq<Traffic>): nat {
    if points == [] then 0 else points[0].sent + SentBytes(points[1..])
  }

  /** A stretch without a missing counter, a reset or a gap, following on from `(stamp, rx, tx)`. */
  predicate Stretch(stamp: nat, rx: nat, tx: nat, readings: seq<Reading>, maxGap: nat)
    decreases readings
  {
    readings == [] ||
    match readings[0].counters
    case None => false
    case Some((rx', tx')) =>
      && stamp < readings[0].stamp && 1 <= Millis(stamp, readings[0].stamp) <= maxGap
      && rx <= rx' && tx <= tx'
      && Stretch(readings[0].stamp, rx', tx', readings[1..], maxGap)
  }

  /** Over such a stretch every reading is credited, and the credits telescope to the counter difference. */
  lemma {:induction false} CreditsTelescope(stamp: nat, rx: nat, tx: nat, readings: seq<Reading>, maxGap: nat)
    requires Stretch(stamp, rx, tx, readings, maxGap)
    ensures var points := Credited(Sampler(Some(stamp), Some((stamp, rx, tx))), readings, maxGap);
      && |points| == |readings|
      && (readings != [] ==> readings[|readings| - 1].counters.Some?)
      && (readings != [] ==> rx + Received(points) == readings[|readings| - 1].counters.value.0
                             && tx + SentBytes(points) == readings[|readings| - 1].counters.value.1)
      && (readings == [] ==> Received(points) == 0 && SentBytes(points) == 0)
    decreases readings
  {
    if readings != [] {
      var (rx', tx') := readings[0].counters.value;
      CreditsTelescope(readings[0].stamp, rx', tx', readings[1..], maxGap);
      var s := Sampler(Some(stamp), Some((stamp, rx, tx)));
      var (s', point) := Sampled(s, readings[0], maxGap);
      assert s' == Sampler(Some(readings[0].stamp), Some((readings[0].stamp, rx', tx')));
      assert Credited(s, readings, maxGap) == [point.value] + Credited(s', readings[1..], maxGap);
      assert Credited(s, readings, maxGap)[1..] == Credited(s', readings[1..], maxGap);
    }
  }

  /** The stamps of the readings that were accepted. */
  function Accepted(s: Sampler, readings: seq<Reading>): seq<nat>
    decreases readings
  {
    if readings == [] then []
    else
      (if s.last.Some? && readings[0].stamp <= s.last.value then [] else [readings[0].stamp])
      + Accepted(Sampled(s, readings[0], 0).0, readings[1..])
  }

  /** Accepted stamps rise strictly, and all of them follow the last one accepted before. */
  lemma {:induction false} AcceptedRise(s: Sampler, readings: seq<Reading>)
    ensures Rising((n: nat) => n, Accepted(s, readings))
    ensures s.last.Some? ==> forall i :: 0 <= i < |Accepted(s, readings)| ==> Accepted(s, readings)[i] > s.last.value
    decreases readings
  {
    if readings != [] {
      AcceptedRise(Sampled(s, readings[0], 0).0, readings[1..]);
    }
  }
}
