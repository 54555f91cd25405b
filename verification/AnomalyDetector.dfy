/** The detector as the objects it is made of (backend/src/anomaly/detector.py). */
module AnomalyDetector {
  import opened Basics
  import opened AnomalyModel
  import opened AnomalyIsolation

  const TRACKED_PARAMS: seq<string> :=
    ["battery_voltage_v", "temperature_obcs_c", "temperature_eps_c", "solar_power_w", "rssi_dbm"]

  /** The readings of a packet: its first n tracked parameters, as far as it has them. */
  function PacketReadings(satelliteId: string, params: map<string, real>, clock: seq<Time>, n: nat): seq<Reading>
    requires n <= |TRACKED_PARAMS| == |clock|
  {
    if n == 0 then [] else
    var name := TRACKED_PARAMS[n - 1];
    PacketReadings(satelliteId, params, clock, n - 1)
    + if name in params then [Reading((satelliteId, name), params[name], clock[n - 1])] else []
  }

  /** One parameter, if the packet has it. */
  function Param(satelliteId: string, params: map<string, real>, name: string, now: Time): seq<Reading> {
    if name in params then [Reading((satelliteId, name), params[name], now)] else []
  }

  lemma PacketStep(satelliteId: string, params: map<string, real>, clock: seq<Time>, n: nat)
    requires n < |TRACKED_PARAMS| == |clock|
    ensures PacketReadings(satelliteId, params, clock, n + 1) ==
            PacketReadings(satelliteId, params, clock, n) + Param(satelliteId, params, TRACKED_PARAMS[n], clock[n])
  {
  }

  /** A packet amounts to these five, in this order. */
  lemma PacketIs(satelliteId: string, params: map<string, real>, clock: seq<Time>)
    requires |clock| == 5
    ensures PacketReadings(satelliteId, params, clock, 5) ==
            Param(satelliteId, params, "battery_voltage_v", clock[0])
            + Param(satelliteId, params, "temperature_obcs_c", clock[1])
            + Param(satelliteId, params, "temperature_eps_c", clock[2])
            + Param(satelliteId, params, "solar_power_w", clock[3])
            + Param(satelliteId, params, "rssi_dbm", clock[4])
  {
    assert PacketReadings(satelliteId, params, clock, 0) == [];
    hide PacketReadings;
    PacketStep(satelliteId, params, clock, 0);
    PacketStep(satelliteId, params, clock, 1);
    PacketStep(satelliteId, params, clock, 2);
    PacketStep(satelliteId, params, clock, 3);
    PacketStep(satelliteId, params, clock, 4);
  }

  class ParameterStats {
    var window: seq<real>

    constructor ()
      ensures window == []
    {
      window := [];
    }

    /** The mean of the window and the deviation from it, in two passes. */
    method Spread(sqrt: real -> real) returns (mean: real, std: real)
      requires window != []
      ensures mean == Mean(window) && std == Deviation(sqrt, window)
    {
      var total, squares := 0.0, 0.0;
      for i := 0 to |window|
        invariant total == Sum(window[..i])
      {
        assert window[..i + 1][..i] == window[..i];
        total := total + window[i];
      }
      assert window[..|window|] == window;
      mean := total / (|window| as real);
      for i := 0 to |window|
        invariant squares == SquaredDeviations(window[..i], mean)
      {
        assert window[..i + 1][..i] == window[..i];
        squares := squares + (window[i] - mean) * (window[i] - mean);
      }
      std := sqrt(squares / (|window| as real));
    }

    /** push: scores the value against the window before it, and slides the window. */
    method Push(sqrt: real -> real, value: real) returns (z: Option<real>)
      modifies this
      ensures z == Score(sqrt, old(window), value)
      ensures window == Appended(old(window), value)
    {
      z := None;
      if |window| >= 2 {
        var mean, std := Spread(sqrt);
        var minStd := 0.001;
        if mean != 0.0 {
          minStd := Max(0.001, 0.01 * Abs(mean));
        }
        var score := Abs(value - mean) / Max(std, minStd);
        if std < minStd * 0.5 && score > CRITICAL_THRESHOLD - 0.01 {
          score := CRITICAL_THRESHOLD - 0.01;
        }
        z := Some(score);
      }
      window := window + [value];
      if |window| > WINDOW_SIZE {
        window := window[|window| - WINDOW_SIZE..];
      }
    }
  }

  /** Pop the oldest keys while there are more than the cap. */
  method EvictOldest(keys: seq<Key>) returns (kept: seq<Key>)
    ensures kept == LastN(keys, MAX_TRACKED_KEYS)
  {
    kept := keys;
    while |kept| > MAX_TRACKED_KEYS
      invariant |kept| <= |keys| && kept == keys[|keys| - |kept|..]
      invariant |kept| >= MAX_TRACKED_KEYS || kept == keys
    {
      kept := kept[1..];
    }
  }

  /** Feeding a reading, part by part. */
  lemma FeedParts(c: Config, d: Detector, r: Reading)
    ensures var k, f := View(d, r.key), AnomalyModel.Feed(c, d, r);
            && k.alarm == Alarm(Get(d.active, r.key), Get(d.lastEmit, r.key))
            && f.order == Tracked(d.order, r.key)
            && f.windows == Narrowed(d.windows[r.key := Appended(k.window, r.value)], f.order)
            && (!Judged(c, k.window, r.value) ==> f.active == d.active && f.lastEmit == d.lastEmit)
            && (Judged(c, k.window, r.value) ==>
                  var b := Decide(k.alarm, Score(c.sqrt, k.window, r.value).value, r.now, c.cooldown);
                  f.active == Put(d.active, r.key, b.active) && f.lastEmit == Put(d.lastEmit, r.key, b.last))
            && (!Judged(c, k.window, r.value) ==> KeyEmits(c, k, r) == [])
            && (Judged(c, k.window, r.value) ==>
                  var z := Score(c.sqrt, k.window, r.value).value;
                  KeyEmits(c, k, r) == if BandOf(z).Some? && Emits(k.alarm, BandOf(z).value, r.now, c.cooldown)
                                       then [Event(r.key, r.value, z, BandOf(z).value)] else [])
  {
    assert Put(d.active, r.key, Get(d.active, r.key)) == d.active;
    assert Put(d.lastEmit, r.key, Get(d.lastEmit, r.key)) == d.lastEmit;
  }

  lemma NarrowedIs(windows: map<Key, seq<real>>, order: seq<Key>, kept: map<Key, seq<real>>)
    requires forall k :: k in kept <==> k in windows && k in order
    requires forall k :: k in kept ==> kept[k] == windows[k]
    ensures kept == Narrowed(windows, order)
  {
  }

  lemma FedOneMore(c: Config, rs: seq<Reading>, r: Reading)
    ensures After(c, rs + [r]) == AnomalyModel.Feed(c, After(c, rs), r)
    ensures Emitted(c, rs + [r]) == Emitted(c, rs) + KeyEmits(c, View(After(c, rs), r.key), r)
  {
    assert (rs + [r])[..|rs + [r]| - 1] == rs;
  }

  class AnomalyDetector {
    const config: Config
    var order: seq<Key>
    var stats: map<Key, ParameterStats>
    var active: map<Key, Band>
    var lastEmit: map<Key, (Band, Time)>
    /** Every reading fed so far. */
    ghost var fed: seq<Reading>

    ghost function Windows(): map<Key, seq<real>>
      reads `stats, stats.Values
    {
      map k | k in stats :: stats[k].window
    }

    /** The abstract detector these objects stand for. */
    ghost function State(): Detector
      reads `order, `stats, `active, `lastEmit, stats.Values
    {
      Detector(order, Windows(), active, lastEmit)
    }

    /** Every tracked key has statistics of its own. */
    ghost predicate Separate()
      reads `order, `stats
    {
      && (forall j, k :: j in stats && k in stats && j != k ==> stats[j] != stats[k])
      && stats.Keys == set k | k in order
    }

    ghost predicate Valid()
      reads this, stats.Values
    {
      Separate() && State() == After(config, fed)
    }

    constructor (config: Config)
      ensures Valid() && this.config == config && fed == []
    {
      this.config := config;
      order, stats, active, lastEmit, fed := [], map[], map[], map[], [];
    }

    /** Find or create the statistics of a key, and evict beyond the cap. */
    method Track(key: Key) returns (s: ParameterStats)
      requires Separate() && |order| <= MAX_TRACKED_KEYS
      modifies this`order, this`stats
      ensures order == Tracked(old(order), key)
      ensures Separate() && key in stats && stats[key] == s
      ensures forall k :: k in stats <==> k in order && (k == key || k in old(stats))
      ensures forall k :: k in stats && k != key ==> stats[k] == old(stats)[k] && stats[k] != s
      ensures if key in old(stats) then s == old(stats)[key] else fresh(s) && s.window == []
    {
      order := Without(order, key) + [key];
      if key in stats {
        s := stats[key];
        return;
      }
      s := new ParameterStats();
      stats := stats[key := s];
      order := EvictOldest(order);
      assert order[|order| - 1] == key;
      stats := map k | k in stats && k in order :: stats[k];
    }

    /** Hysteresis and cooldown for one scored value. */
    method Raise(key: Key, value: real, z: real, now: Time) returns (events: seq<Event>)
      modifies this`active, this`lastEmit
      ensures var a := Alarm(Get(old(active), key), Get(old(lastEmit), key));
              var b := Decide(a, z, now, config.cooldown);
              && active == Put(old(active), key, b.active)
              && lastEmit == Put(old(lastEmit), key, b.last)
              && events == if BandOf(z).Some? && Emits(a, BandOf(z).value, now, config.cooldown)
                           then [Event(key, value, z, BandOf(z).value)] else []
    {
      events := [];
      if z < RECOVERY_THRESHOLD {
        active := active - {key};
        return;
      }
      var band: Band;
      if z >= CRITICAL_THRESHOLD {
        band := Critical;
      } else if z >= WARNING_THRESHOLD {
        band := Warning;
      } else {
        return;
      }
      var activeRank := Rank(Get(active, key));
      var last := Get(lastEmit, key);
      var inCooldown := last.Some? && last.value.0 == band && now - last.value.1 < config.cooldown;
      var shouldEmit := false;
      if Rank(Some(band)) > activeRank {
        if !inCooldown {
          shouldEmit := true;
        }
        active := active[key := band];
      } else if Rank(Some(band)) == activeRank {
        if !inCooldown {
          shouldEmit := true;
        }
      }
      if shouldEmit {
        events := [Event(key, value, z, band)];
        lastEmit := lastEmit[key := (band, now)];
      }
    }

    /** Score a value against its key's window and add it to the window. */
    method Measure(key: Key, value: real) returns (z: Option<real>, length: nat)
      requires Separate() && |order| <= MAX_TRACKED_KEYS
      modifies this`order, this`stats, stats.Values
      ensures Separate() && fresh(stats.Values - old(stats.Values))
      ensures order == Tracked(old(order), key) && key in order
      ensures var before := old(View(State(), key).window);
              var after := Appended(before, value);
              && z == Score(config.sqrt, before, value) && length == |after|
              && Windows() == Narrowed(old(Windows())[key := after], order)
    {
      assert key in stats <==> key in order;
      hide Score, Appended, Tracked, Separate, Narrowed;
      ghost var was := Windows();
      var s := Track(key);
      assert s.window == if key in was then was[key] else [];
      z := s.Push(config.sqrt, value);
      length := |s.window|;
      NarrowedIs(was[key := s.window], order, Windows());
    }

    /** Score one value, then judge it. */
    method Judge(key: Key, value: real, now: Time) returns (events: seq<Event>)
      requires Separate() && |order| <= MAX_TRACKED_KEYS
      modifies this`order, this`stats, this`active, this`lastEmit, stats.Values
      ensures Separate() && fresh(stats.Values - old(stats.Values))
      ensures State() == AnomalyModel.Feed(config, old(State()), Reading(key, value, now))
      ensures events == KeyEmits(config, old(View(State(), key)), Reading(key, value, now))
    {
      hide Score, Appended, Decide, Tracked, AnomalyModel.Feed, KeyEmits, Emits, View, Get, Put, KeyNext, BandOf, Narrowed;
      FeedParts(config, State(), Reading(key, value, now));
      var z, length := Measure(key, value);
      events := [];
      if z.Some? && length >= BASELINE {
        events := Raise(key, value, z.value, now);
      }
    }

    /** One parameter of a packet. */
    method FeedParameter(key: Key, value: real, now: Time) returns (events: seq<Event>)
      requires Valid()
      modifies this, stats.Values
      ensures Valid() && fresh(stats.Values - old(stats.Values))
      ensures fed == old(fed) + [Reading(key, value, now)]
      ensures Emitted(config, fed) == Emitted(config, old(fed)) + events
    {
      hide AnomalyModel.Feed, AnomalyModel.After, Emitted, KeyEmits, View, Windows, Recent, LastN, Tracked;
      ghost var d := State();
      assert d == AnomalyModel.After(config, fed) && d.order == order;
      assert |order| <= MAX_TRACKED_KEYS by { MostRecentAreTracked(config, fed); }
      FedOneMore(config, fed, Reading(key, value, now));
      events := Judge(key, value, now);
      fed := fed + [Reading(key, value, now)];
      assert State() == AnomalyModel.Feed(config, d, Reading(key, value, now));
    }

    /** feed: the tracked parameters of one packet, in their fixed order, and
        nothing else. */
    method Feed(satelliteId: string, params: map<string, real>, clock: seq<Time>) returns (events: seq<Event>)
      requires Valid() && |clock| == |TRACKED_PARAMS|
      modifies this, stats.Values
      ensures Valid() && fed == old(fed) + PacketReadings(satelliteId, params, clock, |TRACKED_PARAMS|)
      ensures Emitted(config, fed) == Emitted(config, old(fed)) + events
    {
      hide Emitted, AnomalyModel.After;
      events := [];
      for i := 0 to |TRACKED_PARAMS|
        invariant Valid() && fed == old(fed) + PacketReadings(satelliteId, params, clock, i)
        invariant fresh(stats.Values - old(stats.Values))
        invariant Emitted(config, fed) == Emitted(config, old(fed)) + events
      {
        if TRACKED_PARAMS[i] in params {
          var more := FeedParameter((satelliteId, TRACKED_PARAMS[i]), params[TRACKED_PARAMS[i]], clock[i]);
          events := events + more;
        }
      }
    }
  }
}
