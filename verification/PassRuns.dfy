/** What a pass is: a maximal run of samples at which a station sees the satellite. */
module PassRuns {
  import opened Basics

  datatype Station = Station(id: int, minElevation: real)

  /** Elevation and azimuth of the satellite from a station, at a time: arbitrary. */
  datatype Sky = Sky(elevation: (Station, Time) -> real, azimuth: (Station, Time) -> real)

  /** The sampling of one prediction: every `step` from `start` up to `end`. */
  datatype Sweep = Sweep(start: Time, end: Time, step: Time) {
    ghost predicate Valid() {
      step > 0
    }

    function At(k: int): Time {
      start + k * step
    }

    function Count(): nat
      requires Valid()
      ensures forall k: nat :: k < Count() <==> At(k) <= end
    {
      if end < start then 0 else
      var n := (end - start) / step;
      SamplesFit(n);
      n + 1
    }

    lemma {:induction false} SamplesFit(n: nat)
      requires Valid() && start <= end && n == (end - start) / step
      ensures forall k: nat :: k < n + 1 <==> At(k) <= end
    {
      forall k: nat ensures k <= n <==> k * step <= end - start {
        if k <= n {
          assert k * step <= n * step;
        } else {
          assert k * step >= (n + 1) * step;
        }
      }
    }
  }

  datatype PassWindow = PassWindow(station: Station, aos: Time, los: Time, maxElevation: real, azimuthAtAos: real)

  predicate Sees(sky: Sky, st: Station, sw: Sweep, k: int) {
    sky.elevation(st, sw.At(k)) >= st.minElevation
  }

  /** Samples i to j - 1 see the satellite, and neither neighbour does. */
  ghost predicate MaximalRun(sky: Sky, st: Station, sw: Sweep, i: int, j: int)
    requires sw.Valid()
  {
    && 0 <= i < j <= sw.Count()
    && (forall k :: i <= k < j ==> Sees(sky, st, sw, k))
    && (i == 0 || !Sees(sky, st, sw, i - 1))
    && (j == sw.Count() || !Sees(sky, st, sw, j))
  }

  /** The highest elevation over samples i to j - 1. */
  function Peak(sky: Sky, st: Station, sw: Sweep, i: int, j: int): real
    requires i < j
    decreases j - i
  {
    var last := sky.elevation(st, sw.At(j - 1));
    if j - 1 == i then last else
    var before := Peak(sky, st, sw, i, j - 1);
    if last > before then last else before
  }

  lemma PeakIsMaximum(sky: Sky, st: Station, sw: Sweep, i: int, j: int)
    requires i < j
    ensures forall k :: i <= k < j ==> sky.elevation(st, sw.At(k)) <= Peak(sky, st, sw, i, j)
    ensures exists k :: i <= k < j && sky.elevation(st, sw.At(k)) == Peak(sky, st, sw, i, j)
    decreases j - i
  {
    if j - 1 > i {
      PeakIsMaximum(sky, st, sw, i, j - 1);
      var k :| i <= k < j - 1 && sky.elevation(st, sw.At(k)) == Peak(sky, st, sw, i, j - 1);
      assert i <= k < j;
    }
    assert sky.elevation(st, sw.At(j - 1)) <= Peak(sky, st, sw, i, j);
  }

  /** The pass that a run of samples i to j - 1 is reported as. */
  function PassOf(sky: Sky, st: Station, sw: Sweep, i: int, j: int): PassWindow
    requires sw.Valid() && i < j
  {
    PassWindow(st, sw.At(i), if j < sw.Count() then sw.At(j) else sw.end,
               Peak(sky, st, sw, i, j), sky.azimuth(st, sw.At(i)))
  }

  // ---------------------------------------------------------------------
  // The runs in the order a sweep finds them
  // ---------------------------------------------------------------------

  /** Where the run that is open before sample k began. */
  function OpenFrom(sky: Sky, st: Station, sw: Sweep, k: nat): (i: Option<nat>)
    ensures i.Some? ==> i.value < k
  {
    if k == 0 || !Sees(sky, st, sw, k - 1) then None
    else if OpenFrom(sky, st, sw, k - 1).Some? then OpenFrom(sky, st, sw, k - 1)
    else Some(k - 1)
  }

  /** The passes that ended before sample k, in order. */
  function Closed(sky: Sky, st: Station, sw: Sweep, k: nat): seq<PassWindow>
    requires sw.Valid() && k <= sw.Count()
  {
    if k == 0 then [] else
    var open := OpenFrom(sky, st, sw, k - 1);
    Closed(sky, st, sw, k - 1)
    + if open.Some? && !Sees(sky, st, sw, k - 1) then [PassOf(sky, st, sw, open.value, k - 1)] else []
  }

  /** The pass still open when the horizon ends. */
  function StillOpen(sky: Sky, st: Station, sw: Sweep): seq<PassWindow>
    requires sw.Valid()
  {
    var open := OpenFrom(sky, st, sw, sw.Count());
    if open.Some? then [PassOf(sky, st, sw, open.value, sw.Count())] else []
  }

  /** All passes of one station. */
  function Solo(sky: Sky, st: Station, sw: Sweep): seq<PassWindow>
    requires sw.Valid()
  {
    Closed(sky, st, sw, sw.Count()) + StillOpen(sky, st, sw)
  }

  lemma OpenRunIsSeen(sky: Sky, st: Station, sw: Sweep, k: nat)
    ensures var open := OpenFrom(sky, st, sw, k);
            && (open.None? <==> k == 0 || !Sees(sky, st, sw, k - 1))
            && (open.Some? ==>
                  && (forall m :: open.value <= m < k ==> Sees(sky, st, sw, m))
                  && (open.value == 0 || !Sees(sky, st, sw, open.value - 1)))
  {
    if k > 0 { OpenRunIsSeen(sky, st, sw, k - 1); }
  }

  /** A maximal run that ends at or before k either starts the open run or is closed. */
  lemma ClosedAreRuns(sky: Sky, st: Station, sw: Sweep, k: nat)
    requires sw.Valid() && k <= sw.Count()
    ensures forall p :: p in Closed(sky, st, sw, k) ==>
              exists i, j :: MaximalRun(sky, st, sw, i, j) && j < k && p == PassOf(sky, st, sw, i, j)
  {
    if k > 0 {
      ClosedAreRuns(sky, st, sw, k - 1);
      OpenRunIsSeen(sky, st, sw, k - 1);
      var open := OpenFrom(sky, st, sw, k - 1);
      if open.Some? && !Sees(sky, st, sw, k - 1) {
        assert MaximalRun(sky, st, sw, open.value, k - 1);
      }
    }
  }

  lemma RunStartsOpen(sky: Sky, st: Station, sw: Sweep, i: int, j: int)
    requires sw.Valid() && MaximalRun(sky, st, sw, i, j)
    ensures OpenFrom(sky, st, sw, j) == Some(i)
  {
    OpenRunIsSeen(sky, st, sw, j);
    var o := OpenFrom(sky, st, sw, j).value;
    assert Sees(sky, st, sw, o);
    assert o < i ==> Sees(sky, st, sw, i - 1);
    assert i < o ==> Sees(sky, st, sw, o - 1);
  }

  lemma {:induction false} RunsAreClosed(sky: Sky, st: Station, sw: Sweep, i: int, j: int, k: nat)
    requires sw.Valid() && MaximalRun(sky, st, sw, i, j) && j < k <= sw.Count()
    ensures PassOf(sky, st, sw, i, j) in Closed(sky, st, sw, k)
    decreases k
  {
    if k - 1 == j {
      RunStartsOpen(sky, st, sw, i, j);
    } else {
      RunsAreClosed(sky, st, sw, i, j, k - 1);
    }
  }

  /** The reported passes are exactly the maximal runs. */
  lemma SoloIsExact(sky: Sky, st: Station, sw: Sweep, p: PassWindow)
    requires sw.Valid()
    ensures p in Solo(sky, st, sw) <==>
            exists i, j :: MaximalRun(sky, st, sw, i, j) && p == PassOf(sky, st, sw, i, j)
  {
    var n := sw.Count();
    ClosedAreRuns(sky, st, sw, n);
    OpenRunIsSeen(sky, st, sw, n);
    var open := OpenFrom(sky, st, sw, n);
    if open.Some? { assert MaximalRun(sky, st, sw, open.value, n); }
    if i, j :| MaximalRun(sky, st, sw, i, j) && p == PassOf(sky, st, sw, i, j) {
      if j < n { RunsAreClosed(sky, st, sw, i, j, n); } else { RunStartsOpen(sky, st, sw, i, j); }
    }
  }

  /** One after the other, with a gap between. */
  ghost predicate Disjoint(ps: seq<PassWindow>) {
    && (forall a :: 0 <= a < |ps| ==> ps[a].aos <= ps[a].los)
    && (forall a, b :: 0 <= a < b < |ps| ==> ps[a].los < ps[b].aos)
  }

  lemma LaterSample(sw: Sweep, i: int, j: int)
    requires sw.Valid() && i < j
    ensures sw.At(i) < sw.At(j)
  {
    assert (j - i) * sw.step > 0;
  }

  lemma DisjointAppend(ps: seq<PassWindow>, p: PassWindow)
    requires Disjoint(ps) && p.aos <= p.los && forall q :: q in ps ==> q.los < p.aos
    ensures Disjoint(ps + [p])
  {
  }

  /** Closed passes end before this time: the open run, or the next sample. */
  function Frontier(sky: Sky, st: Station, sw: Sweep, k: nat): Time {
    var open := OpenFrom(sky, st, sw, k);
    sw.At(if open.Some? then open.value else k)
  }

  lemma FrontierMoves(sky: Sky, st: Station, sw: Sweep, k: nat)
    requires sw.Valid() && k > 0
    ensures Frontier(sky, st, sw, k - 1) <= Frontier(sky, st, sw, k)
    ensures Frontier(sky, st, sw, k - 1) <= sw.At(k - 1)
    ensures !Sees(sky, st, sw, k - 1) ==> sw.At(k - 1) < Frontier(sky, st, sw, k)
  {
    LaterSample(sw, k - 1, k);
    var open := OpenFrom(sky, st, sw, k - 1);
    if open.Some? { LaterSample(sw, open.value, k - 1); }
  }

  lemma {:induction false} ClosedAreDisjoint(sky: Sky, st: Station, sw: Sweep, k: nat)
    requires sw.Valid() && k <= sw.Count()
    ensures Disjoint(Closed(sky, st, sw, k))
    ensures forall p :: p in Closed(sky, st, sw, k) ==> p.los < Frontier(sky, st, sw, k)
  {
    if k > 0 {
      ClosedAreDisjoint(sky, st, sw, k - 1);
      FrontierMoves(sky, st, sw, k);
      var open := OpenFrom(sky, st, sw, k - 1);
      if open.Some? && !Sees(sky, st, sw, k - 1) {
        DisjointAppend(Closed(sky, st, sw, k - 1), PassOf(sky, st, sw, open.value, k - 1));
      }
    }
  }

  /** The passes of one station are disjoint and in order; only a pass that
      begins on the very last instant of the horizon is empty. */
  lemma {:induction false} SoloIsDisjoint(sky: Sky, st: Station, sw: Sweep)
    requires sw.Valid()
    ensures Disjoint(Solo(sky, st, sw))
    ensures forall p :: p in Solo(sky, st, sw) && p.aos == p.los ==> p.los == sw.end
  {
    var n := sw.Count();
    ClosedAreDisjoint(sky, st, sw, n);
    var open := OpenFrom(sky, st, sw, n);
    if open.Some? {
      assert sw.At(open.value) <= sw.end;
      DisjointAppend(Closed(sky, st, sw, n), PassOf(sky, st, sw, open.value, n));
    }
    forall p | p in Solo(sky, st, sw) && p.aos == p.los ensures p.los == sw.end {
      SoloIsExact(sky, st, sw, p);
      var i, j :| MaximalRun(sky, st, sw, i, j) && p == PassOf(sky, st, sw, i, j);
      LaterSample(sw, i, j);
    }
  }
}
