/** Readings on which the detector repeats a severity within the cooldown
    (backend/src/anomaly/detector.py), for the true square root. */
module AnomalyRecurrence {
  import opened Basics
  import opened AnomalyModel
  import opened AnomalyIsolation

  /** The square root, and not just any function. */
  ghost predicate SquareRoot(sqrt: real -> real) {
    forall x: real :: x >= 0.0 ==> sqrt(x) >= 0.0 && sqrt(x) * sqrt(x) == x
  }

  function SumOfSquares(xs: seq<real>): real {
    if xs == [] then 0.0 else SumOfSquares(xs[..|xs| - 1]) + xs[|xs| - 1] * xs[|xs| - 1]
  }

  function FromMoments(n: real, s: real, q: real, m: real): real {
    q - 2.0 * m * s + n * m * m
  }

  lemma OneDeviation(n: real, s: real, q: real, m: real, x: real)
    ensures FromMoments(n, s, q, m) + (x - m) * (x - m) == FromMoments(n + 1.0, s + x, q + x * x, m)
  {
    assert (x - m) * (x - m) == x * x - 2.0 * m * x + m * m;
    assert 2.0 * m * (s + x) == 2.0 * m * s + 2.0 * m * x;
    assert (n + 1.0) * m * m == n * m * m + m * m;
  }

  lemma LastOne(xs: seq<real>, m: real)
    requires xs != []
    ensures var n, x := |xs| - 1, xs[|xs| - 1];
            && SquaredDeviations(xs, m) == SquaredDeviations(xs[..n], m) + (x - m) * (x - m)
            && Sum(xs) == Sum(xs[..n]) + x && SumOfSquares(xs) == SumOfSquares(xs[..n]) + x * x
            && |xs| as real == n as real + 1.0
  {
  }

  lemma {:induction false} DeviationsFromMoments(xs: seq<real>, m: real)
    ensures SquaredDeviations(xs, m) == FromMoments(|xs| as real, Sum(xs), SumOfSquares(xs), m)
    decreases |xs|
  {
    if xs != [] {
      hide *;
      var n := |xs| - 1;
      LastOne(xs, m);
      DeviationsFromMoments(xs[..n], m);
      OneDeviation(n as real, Sum(xs[..n]), SumOfSquares(xs[..n]), m, xs[n]);
    }
  }

  /** Length, sum and sum of squares. */
  predicate Moments(xs: seq<real>, n: nat, s: real, q: real) {
    |xs| == n && Sum(xs) == s && SumOfSquares(xs) == q
  }

  lemma MomentsGrow(xs: seq<real>, n: nat, s: real, q: real, x: real)
    requires Moments(xs, n, s, q)
    ensures Moments(xs + [x], n + 1, s + x, q + x * x)
  {
    assert (xs + [x])[..n] == xs;
  }

  lemma Positive(x: real, y: real)
    requires x > 0.0 && y > 0.0
    ensures x * y > 0.0
  {
  }

  lemma Larger(a: real, b: real)
    requires 0.0 <= a < b
    ensures a * a < b * b
  {
    Positive(b - a, b + a);
    assert b * b - a * a == (b - a) * (b + a);
  }

  lemma SquaresOrder(a: real, b: real)
    requires a >= 0.0 && b >= 0.0
    ensures a <= b <==> a * a <= b * b
  {
    if a <= b {
      assert a * a <= a * b && a * b <= b * b;
    } else {
      Larger(b, a);
    }
  }

  /** The deviation, from the moments. */
  lemma DeviationIs(sqrt: real -> real, xs: seq<real>, n: nat, s: real, q: real, mean: real, variance: real)
    requires SquareRoot(sqrt) && n >= 2 && Moments(xs, n, s, q)
    requires mean * (n as real) == s && (variance + mean * mean) * (n as real) == q && variance >= 0.25
    ensures Mean(xs) == mean && Deviation(sqrt, xs) >= 0.5 && Deviation(sqrt, xs) * Deviation(sqrt, xs) == variance
  {
    DeviationsFromMoments(xs, mean);
    assert 2.0 * mean * s == 2.0 * mean * mean * (n as real);
    assert SquaredDeviations(xs, mean) == variance * (n as real);
    assert SquaredDeviations(xs, mean) / (n as real) == variance;
    SquaresOrder(0.5, sqrt(variance));
  }

  /** The band of a score, from the squares. */
  lemma {:induction false} ScoreLies(sqrt: real -> real, xs: seq<real>, n: nat, s: real, q: real, mean: real, variance: real, value: real,
                  lo: real, hi: real)
    requires SquareRoot(sqrt) && n >= 2 && Moments(xs, n, s, q)
    requires mean * (n as real) == s && (variance + mean * mean) * (n as real) == q && variance >= 0.25
    requires -1.0 <= mean <= 1.0 && lo >= 0.0 && hi > 0.0
    requires lo * lo * variance <= (value - mean) * (value - mean) < hi * hi * variance
    ensures Score(sqrt, xs, value).Some? && lo <= Score(sqrt, xs, value).value < hi
  {
    hide SquareRoot, Moments;
    DeviationIs(sqrt, xs, n, s, q, mean, variance);
    LengthOf(xs, n, s, q);
    var std, d := Deviation(sqrt, xs), Abs(value - mean);
    ScoreIsQuotient(sqrt, xs, value);
    assert d * d == (value - mean) * (value - mean);
    hide *;
    QuotientLies(d, std, variance, lo, hi);
  }

  lemma ScoreIsQuotient(sqrt: real -> real, xs: seq<real>, value: real)
    requires |xs| >= 2 && -1.0 <= Mean(xs) <= 1.0 && Deviation(sqrt, xs) >= 0.5
    ensures Score(sqrt, xs, value) == Some(Abs(value - Mean(xs)) / Deviation(sqrt, xs)) && Abs(value - Mean(xs)) >= 0.0
  {
    hide Mean, Deviation;
    assert Floor(xs) <= 0.01;
  }

  lemma QuotientLies(d: real, std: real, variance: real, lo: real, hi: real)
    requires d >= 0.0 && std > 0.0 && std * std == variance && lo >= 0.0 && hi > 0.0
    requires lo * lo * variance <= d * d < hi * hi * variance
    ensures lo <= d / std < hi
  {
    assert (lo * std) * (lo * std) == lo * lo * variance;
    assert (hi * std) * (hi * std) == hi * hi * variance;
    SquaresOrder(lo * std, d);
    SquaresOrder(hi * std, d);
    Quotient(d, std, lo, hi);
  }

  lemma Quotient(d: real, std: real, lo: real, hi: real)
    requires std > 0.0 && lo * std <= d < hi * std
    ensures lo <= d / std < hi
  {
  }

  /** Readings of one key, and what they lead to: the window and the alarm of the
      key, and the severities emitted. */
  datatype Trace = Trace(rs: seq<Reading>, window: seq<real>, alarm: Alarm, bands: seq<Band>)

  ghost predicate Reached(c: Config, key: Key, tr: Trace) {
    && (forall r :: r in tr.rs ==> r.key == key) && (forall i :: 0 <= i < |tr.rs| ==> tr.rs[i].now == i * SECOND)
    && KeyAfter(c, tr.rs, key) == KeyState(tr.window, tr.alarm) && Bands(Emitted(c, tr.rs)) == tr.bands
  }

  function Bands(es: seq<Event>): seq<Band> {
    if es == [] then [] else Bands(es[..|es| - 1]) + [es[|es| - 1].band]
  }

  lemma {:induction false} FeedOwn(c: Config, rs: seq<Reading>, r: Reading)
    requires forall q :: q in rs ==> q.key == r.key
    ensures KeyAfter(c, rs + [r], r.key) == KeyNext(c, KeyAfter(c, rs, r.key), r)
    ensures Emitted(c, rs + [r]) == Emitted(c, rs) + KeyEmits(c, KeyAfter(c, rs, r.key), r)
  {
    assert (rs + [r])[..|rs|] == rs;
    RecentOfOneKey(rs, r.key);
    AtFeedWithinCap(c, rs, r.key);
    ViewIsOwn(c, rs, r.key);
    hide KeyNext, KeyEmits, Feed;
  }

  /** One more value, a second later. */
  lemma {:induction false} FeedNext(c: Config, key: Key, tr: Trace, value: real) returns (next: Trace)
    requires Reached(c, key, tr)
    ensures var k, r := KeyState(tr.window, tr.alarm), Reading(key, value, |tr.rs| * SECOND);
            var l := KeyNext(c, k, r);
            next == Trace(tr.rs + [r], l.window, l.alarm, tr.bands + Bands(KeyEmits(c, k, r))) && Reached(c, key, next)
  {
    hide KeyAfter, Emitted, KeyNext, KeyEmits, Bands;
    var k, r := KeyState(tr.window, tr.alarm), Reading(key, value, |tr.rs| * SECOND);
    FeedOwn(c, tr.rs, r);
    AtMostOne(c, k, r);
    BandsAdd(Emitted(c, tr.rs), KeyEmits(c, k, r));
    var l := KeyNext(c, k, r);
    next := Trace(tr.rs + [r], l.window, l.alarm, tr.bands + Bands(KeyEmits(c, k, r)));
  }

  lemma BandsAdd(es: seq<Event>, e: seq<Event>)
    requires |e| <= 1
    ensures Bands(es + e) == Bands(es) + Bands(e)
  {
    if e == [] {
      assert es + e == es;
    } else {
      assert (es + e)[..|es|] == es && e[..0] == [];
    }
  }

  lemma AtMostOne(c: Config, k: KeyState, r: Reading)
    ensures |KeyEmits(c, k, r)| <= 1
  {
  }

  lemma NotJudged(c: Config, k: KeyState, r: Reading)
    requires |k.window| < 9
    ensures KeyNext(c, k, r) == KeyState(k.window + [r.value], k.alarm) && KeyEmits(c, k, r) == []
  {
    hide Score;
  }

  /** Without a baseline nothing is judged. */
  lemma {:induction false} FeedBaseline(c: Config, key: Key, tr: Trace, n: nat, s: real, q: real, value: real) returns (next: Trace)
    requires Reached(c, key, tr) && Moments(tr.window, n, s, q) && n < 9
    ensures Reached(c, key, next) && Moments(next.window, n + 1, s + value, q + value * value)
    ensures |next.rs| == |tr.rs| + 1 && next.alarm == tr.alarm && next.bands == tr.bands
  {
    LengthOf(tr.window, n, s, q);
    NotJudged(c, KeyState(tr.window, tr.alarm), Reading(key, value, |tr.rs| * SECOND));
    assert tr.bands + Bands([]) == tr.bands;
    hide Reached, Moments, KeyNext, KeyEmits;
    next := FeedNext(c, key, tr, value);
    MomentsGrow(tr.window, n, s, q, value);
  }

  lemma LengthOf(window: seq<real>, n: nat, s: real, q: real)
    requires Moments(window, n, s, q)
    ensures |window| == n
  {
  }

  /** With one, the squares decide what happens. */
  lemma {:induction false} FeedScored(c: Config, key: Key, tr: Trace, n: nat, s: real, q: real, value: real,
                   mean: real, variance: real, lo: real, hi: real) returns (next: Trace, z: real)
    requires Reached(c, key, tr) && Moments(tr.window, n, s, q) && 9 <= n < WINDOW_SIZE && SquareRoot(c.sqrt)
    requires mean * (n as real) == s && (variance + mean * mean) * (n as real) == q && variance >= 0.25
    requires -1.0 <= mean <= 1.0 && lo >= 0.0 && hi > 0.0
    requires lo * lo * variance <= (value - mean) * (value - mean) < hi * hi * variance
    ensures lo <= z < hi && |next.rs| == |tr.rs| + 1
    ensures Reached(c, key, next) && Moments(next.window, n + 1, s + value, q + value * value)
    ensures next.alarm == Decide(tr.alarm, z, |tr.rs| * SECOND, c.cooldown)
    ensures next.bands == tr.bands + if BandOf(z).Some? && Emits(tr.alarm, BandOf(z).value, |tr.rs| * SECOND, c.cooldown)
                                     then [BandOf(z).value] else []
  {
    var k, r := KeyState(tr.window, tr.alarm), Reading(key, value, |tr.rs| * SECOND);
    ScoreLies(c.sqrt, tr.window, n, s, q, mean, variance, value, lo, hi);
    z := Score(c.sqrt, tr.window, value).value;
    LengthOf(tr.window, n, s, q);
    JudgedNext(c, k, r, z);
    hide Reached, Score, Moments, Decide, Emits, BandOf, SquareRoot, KeyNext, KeyEmits;
    next := FeedNext(c, key, tr, value);
    MomentsGrow(tr.window, n, s, q, value);
    OneBand(c, k, r);
  }

  lemma JudgedNext(c: Config, k: KeyState, r: Reading, z: real)
    requires 9 <= |k.window| < WINDOW_SIZE && Score(c.sqrt, k.window, r.value) == Some(z)
    ensures KeyNext(c, k, r) == KeyState(k.window + [r.value], Decide(k.alarm, z, r.now, c.cooldown))
    ensures var emits := BandOf(z).Some? && Emits(k.alarm, BandOf(z).value, r.now, c.cooldown);
            if emits then KeyEmits(c, k, r) == [Event(r.key, r.value, z, BandOf(z).value)] else KeyEmits(c, k, r) == []
  {
    hide Score, Decide, Emits, BandOf;
  }

  lemma OneBand(c: Config, k: KeyState, r: Reading)
    ensures KeyEmits(c, k, r) == [] ==> Bands(KeyEmits(c, k, r)) == []
    ensures KeyEmits(c, k, r) != [] ==> Bands(KeyEmits(c, k, r)) == [KeyEmits(c, k, r)[0].band]
  {
    AtMostOne(c, k, r);
    var es := KeyEmits(c, k, r);
    if es != [] { assert es[..|es| - 1] == []; }
  }

  lemma NothingFed(c: Config, key: Key)
    ensures Reached(c, key, Trace([], [], QUIET, [])) && Moments([], 0, 0.0, 0.0)
  {
  }

  /** Nine calm values. */
  lemma {:induction false} Baseline(c: Config, key: Key) returns (tr: Trace)
    ensures |tr.rs| == 9 && Reached(c, key, tr) && Moments(tr.window, 9, 0.0, 8.0)
    ensures tr.alarm == QUIET && tr.bands == []
  {
    NothingFed(c, key);
    hide *;
    tr := Trace([], [], QUIET, []);
    var q := 0.0;
    for i := 0 to 4
      invariant q == (2 * i) as real && |tr.rs| == 2 * i && tr.alarm == QUIET && tr.bands == []
      invariant Reached(c, key, tr) && Moments(tr.window, 2 * i, 0.0, q)
    {
      tr := FeedBaseline(c, key, tr, 2 * i, 0.0, q, 1.0);
      tr := FeedBaseline(c, key, tr, 2 * i + 1, 1.0, q + 1.0, -1.0);
      q := q + 2.0;
    }
    tr := FeedBaseline(c, key, tr, 8, 0.0, 8.0, 0.0);
  }

  /** The same severity can nevertheless recur within the cooldown: after nine calm
      values, 2.5 is a warning, 4.25 critical, 0 a recovery and 4.5 a warning
      again, all of it in 13 seconds. */
  lemma {:induction false} SeveritiesCanRecur(c: Config, key: Key) returns (rs: seq<Reading>)
    requires SquareRoot(c.sqrt) && c.cooldown > 13 * SECOND
    ensures |rs| == 13 && forall i :: 0 <= i < |rs| ==> rs[i].key == key && rs[i].now == i * SECOND
    ensures Bands(Emitted(c, rs)) == [Warning, Critical, Warning]
  {
    var tr := Baseline(c, key);
    var z: real;
    hide Reached, Moments, SquareRoot;
    tr, z := FeedScored(c, key, tr, 9, 0.0, 8.0, 2.5, 0.0, 8.0 / 9.0, 2.0, 3.0);
    assert tr.alarm == Alarm(Some(Warning), Some((Warning, 9 * SECOND))) && tr.bands == [Warning];
    tr, z := FeedScored(c, key, tr, 10, 2.5, 14.25, 4.25, 0.25, 1.3625, 3.0, 100.0);
    assert tr.alarm == Alarm(Some(Critical), Some((Critical, 10 * SECOND))) && tr.bands == [Warning, Critical];
    var m := 6.75 / 11.0;
    tr, z := FeedScored(c, key, tr, 11, 6.75, 32.3125, 0.0, m, 32.3125 / 11.0 - m * m, 0.0, 1.6);
    assert tr.alarm == Alarm(None, Some((Critical, 10 * SECOND))) && tr.bands == [Warning, Critical];
    tr, z := FeedScored(c, key, tr, 12, 6.75, 32.3125, 4.5, 0.5625, 32.3125 / 12.0 - 0.31640625, 2.0, 3.0);
    assert tr.bands == [Warning, Critical, Warning];
    ReachedKeys(c, key, tr);
    rs := tr.rs;
  }

  lemma {:induction false} ReachedKeys(c: Config, key: Key, tr: Trace)
    requires Reached(c, key, tr)
    ensures Bands(Emitted(c, tr.rs)) == tr.bands
    ensures forall i :: 0 <= i < |tr.rs| ==> tr.rs[i].key == key && tr.rs[i].now == i * SECOND
  {
  }
}
