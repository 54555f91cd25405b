/** The statistical anomaly detector as a function of the readings fed to it
    (backend/src/anomaly/detector.py).  Reals stand for floats, and the square
    root is an arbitrary function. */
module AnomalyModel {
  import opened Basics

  const WINDOW_SIZE: nat := 60
  const BASELINE: nat := 10
  const WARNING_THRESHOLD: real := 2.0
  const CRITICAL_THRESHOLD: real := 3.0
  const RECOVERY_THRESHOLD: real := 1.6
  const MAX_TRACKED_KEYS: nat := 1000

  type Key = (string, string)

  datatype Band = Warning | Critical

  datatype Reading = Reading(key: Key, value: real, now: Time)

  datatype Event = Event(key: Key, value: real, z: real, band: Band)

  datatype Config = Config(sqrt: real -> real, cooldown: Time)

  // ---------------------------------------------------------------------
  // The score of a value against the window before it
  // ---------------------------------------------------------------------

  function Sum(xs: seq<real>): real {
    if xs == [] then 0.0 else Sum(xs[..|xs| - 1]) + xs[|xs| - 1]
  }

  function SquaredDeviations(xs: seq<real>, mean: real): real {
    if xs == [] then 0.0 else
    var d := xs[|xs| - 1] - mean;
    SquaredDeviations(xs[..|xs| - 1], mean) + d * d
  }

  function Abs(x: real): real {
    if x < 0.0 then -x else x
  }

  function Max(x: real, y: real): real {
    if x < y then y else x
  }

  function Mean(window: seq<real>): real
    requires window != []
  {
    Sum(window) / (|window| as real)
  }

  function Deviation(sqrt: real -> real, window: seq<real>): real
    requires window != []
  {
    sqrt(SquaredDeviations(window, Mean(window)) / (|window| as real))
  }

  /** The least deviation trusted: 1% of the nominal value, at least 0.001. */
  function Floor(window: seq<real>): (f: real)
    requires window != []
    ensures f > 0.0
  {
    if Mean(window) == 0.0 then 0.001 else Max(0.001, 0.01 * Abs(Mean(window)))
  }

  /** The score; None without two earlier values. */
  function Score(sqrt: real -> real, window: seq<real>, value: real): Option<real> {
    if |window| < 2 then None else
    var std := Deviation(sqrt, window);
    var z := Abs(value - Mean(window)) / Max(std, Floor(window));
    Some(if std < Floor(window) * 0.5 && z > CRITICAL_THRESHOLD - 0.01 then CRITICAL_THRESHOLD - 0.01 else z)
  }

  /** A baseline without noise never makes a value critical. */
  lemma QuietBaselineIsNeverCritical(sqrt: real -> real, window: seq<real>, value: real)
    requires |window| >= 2 && Deviation(sqrt, window) < Floor(window) * 0.5
    ensures Score(sqrt, window, value).value < CRITICAL_THRESHOLD
  {
  }

  lemma MeanIs(window: seq<real>, mean: real)
    requires window != [] && mean * (|window| as real) == Sum(window)
    ensures Mean(window) == mean
  {
  }

  lemma QuotientTimes(a: real, b: real)
    requires b > 0.0
    ensures (a / b) * b == a
  {
  }

  /** The score in terms of the mean m, the deviation s and the least deviation f
      trusted: how often the larger of s and f fits into the distance from the
      mean, but never critical when s is less than half of f. */
  lemma {:induction false} ScoreExactly(sqrt: real -> real, window: seq<real>, value: real, m: real)
    requires |window| >= 2 && m * (|window| as real) == Sum(window)
    ensures var s := sqrt(SquaredDeviations(window, m) / (|window| as real));
            var f := if m > 0.1 then m / 100.0 else if m < -0.1 then -m / 100.0 else 0.001;
            var distance := if value < m then m - value else value - m;
            && Score(sqrt, window, value).Some?
            && var z := Score(sqrt, window, value).value;
               && (s >= f ==> z * s == distance)
               && (f / 2.0 <= s <= f ==> z * f == distance)
               && (s < f / 2.0 ==> z == if distance / f > 2.99 then 2.99 else distance / f)
  {
    MeanIs(window, m);
    QuotientTimes(Abs(value - m), Max(Deviation(sqrt, window), Floor(window)));
  }

  /** deque(maxlen=WINDOW_SIZE).append */
  function Appended(window: seq<real>, value: real): seq<real> {
    var w := window + [value];
    if |w| > WINDOW_SIZE then w[|w| - WINDOW_SIZE..] else w
  }

  // ---------------------------------------------------------------------
  // Hysteresis and cooldown
  // ---------------------------------------------------------------------

  datatype Alarm = Alarm(active: Option<Band>, last: Option<(Band, Time)>)

  const QUIET: Alarm := Alarm(None, None)

  function Rank(band: Option<Band>): nat {
    match band case None => 0 case Some(Warning) => 1 case Some(Critical) => 2
  }

  function BandOf(z: real): Option<Band> {
    if z >= CRITICAL_THRESHOLD then Some(Critical) else if z >= WARNING_THRESHOLD then Some(Warning) else None
  }

  predicate InCooldown(a: Alarm, band: Band, now: Time, cooldown: Time) {
    a.last.Some? && a.last.value.0 == band && now - a.last.value.1 < cooldown
  }

  /** Does a score in this band emit an event? */
  predicate Emits(a: Alarm, band: Band, now: Time, cooldown: Time) {
    Rank(Some(band)) >= Rank(a.active) && !InCooldown(a, band, now, cooldown)
  }

  /** The alarm after a score. */
  function Decide(a: Alarm, z: real, now: Time, cooldown: Time): Alarm {
    if z < RECOVERY_THRESHOLD then a.(active := None)
    else match BandOf(z)
         case None => a
         case Some(band) =>
           Alarm(if Rank(Some(band)) > Rank(a.active) then Some(band) else a.active,
                 if Emits(a, band, now, cooldown) then Some((band, now)) else a.last)
  }

  // ---------------------------------------------------------------------
  // One key, and the whole detector
  // ---------------------------------------------------------------------

  datatype KeyState = KeyState(window: seq<real>, alarm: Alarm)

  const UNSEEN: KeyState := KeyState([], QUIET)

  /** Is the value judged at all, that is, is there a score and a baseline? */
  predicate Judged(c: Config, window: seq<real>, value: real) {
    Score(c.sqrt, window, value).Some? && |Appended(window, value)| >= BASELINE
  }

  function KeyNext(c: Config, k: KeyState, r: Reading): KeyState {
    KeyState(Appended(k.window, r.value),
             if Judged(c, k.window, r.value)
             then Decide(k.alarm, Score(c.sqrt, k.window, r.value).value, r.now, c.cooldown)
             else k.alarm)
  }

  function KeyEmits(c: Config, k: KeyState, r: Reading): seq<Event> {
    if !Judged(c, k.window, r.value) then [] else
    var z := Score(c.sqrt, k.window, r.value).value;
    if BandOf(z).Some? && Emits(k.alarm, BandOf(z).value, r.now, c.cooldown)
    then [Event(r.key, r.value, z, BandOf(z).value)] else []
  }

  /** `order` and `windows` are the LRU dictionary of statistics, least recently
      fed first; `active` and `lastEmit` are plain dictionaries. */
  datatype Detector = Detector(
    order: seq<Key>,
    windows: map<Key, seq<real>>,
    active: map<Key, Band>,
    lastEmit: map<Key, (Band, Time)>)

  const EMPTY: Detector := Detector([], map[], map[], map[])

  function Without(order: seq<Key>, key: Key): (o: seq<Key>)
    ensures forall k :: k in o <==> k in order && k != key
    ensures |o| <= |order|
    ensures key in order ==> |o| < |order|
  {
    if order == [] then [] else
    assert order == order[..|order| - 1] + [order[|order| - 1]];
    Without(order[..|order| - 1], key) + if order[|order| - 1] == key then [] else [order[|order| - 1]]
  }

  /** The last n, or all if there are fewer. */
  function LastN<T>(xs: seq<T>, n: nat): seq<T> {
    if |xs| > n then xs[|xs| - n..] else xs
  }

  function Get<K, V>(m: map<K, V>, k: K): Option<V> {
    if k in m then Some(m[k]) else None
  }

  function Put<K, V>(m: map<K, V>, k: K, v: Option<V>): map<K, V> {
    if v.Some? then m[k := v.value] else m - {k}
  }

  /** The key's statistics (fresh ones if it is not tracked) and its alarm. */
  function View(d: Detector, key: Key): KeyState {
    KeyState(if key in d.order && key in d.windows then d.windows[key] else [],
             Alarm(Get(d.active, key), Get(d.lastEmit, key)))
  }

  function Tracked(order: seq<Key>, key: Key): seq<Key> {
    LastN(Without(order, key) + [key], MAX_TRACKED_KEYS)
  }

  /** The statistics of the keys still tracked. */
  function Narrowed(windows: map<Key, seq<real>>, order: seq<Key>): map<Key, seq<real>> {
    map x | x in windows && x in order :: windows[x]
  }

  /** Feed one reading. */
  function Feed(c: Config, d: Detector, r: Reading): Detector {
    var k := KeyNext(c, View(d, r.key), r);
    var order := Tracked(d.order, r.key);
    Detector(order, Narrowed(d.windows[r.key := k.window], order),
             Put(d.active, r.key, k.alarm.active), Put(d.lastEmit, r.key, k.alarm.last))
  }

  function After(c: Config, rs: seq<Reading>): Detector {
    if rs == [] then EMPTY else Feed(c, After(c, rs[..|rs| - 1]), rs[|rs| - 1])
  }

  /** Everything emitted, in order. */
  function Emitted(c: Config, rs: seq<Reading>): seq<Event> {
    if rs == [] then [] else
    var d, r := After(c, rs[..|rs| - 1]), rs[|rs| - 1];
    Emitted(c, rs[..|rs| - 1]) + KeyEmits(c, View(d, r.key), r)
  }
}
