/** Pass prediction over many stations in one sweep (backend/src/orbit/passes.py). */
module PassPrediction {
  import opened Basics
  import opened PassRuns

  // ---------------------------------------------------------------------
  // Collecting and sorting
  // ---------------------------------------------------------------------

  /** The passes of several stations taken together. */
  function Together(lists: seq<seq<PassWindow>>): multiset<PassWindow> {
    if lists == [] then multiset{} else Together(lists[..|lists| - 1]) + multiset(lists[|lists| - 1])
  }

  lemma TogetherExtends(lists: seq<seq<PassWindow>>, i: nat, p: PassWindow)
    requires i < |lists|
    ensures Together(lists[i := lists[i] + [p]]) == Together(lists) + multiset{p}
  {
    var more := lists[i := lists[i] + [p]];
    var n := |lists| - 1;
    if i == n {
      assert more[..n] == lists[..n];
    } else {
      TogetherExtends(lists[..n], i, p);
      assert more[..n] == lists[..n][i := lists[..n][i] + [p]];
    }
  }

  ghost predicate SortedByAos(ps: seq<PassWindow>) {
    forall a, b :: 0 <= a < b < |ps| ==> ps[a].aos <= ps[b].aos
  }

  /** A stable insertion, as list.sort(key=aos) would place it. */
  function InsertByAos(ps: seq<PassWindow>, p: PassWindow): seq<PassWindow> {
    if ps == [] || ps[|ps| - 1].aos <= p.aos then ps + [p]
    else InsertByAos(ps[..|ps| - 1], p) + [ps[|ps| - 1]]
  }

  function SortByAos(ps: seq<PassWindow>): seq<PassWindow> {
    if ps == [] then [] else InsertByAos(SortByAos(ps[..|ps| - 1]), ps[|ps| - 1])
  }

  lemma InsertKeepsContents(ps: seq<PassWindow>, p: PassWindow)
    ensures multiset(InsertByAos(ps, p)) == multiset(ps) + multiset{p}
  {
    if ps != [] {
      var n := |ps| - 1;
      assert ps == ps[..n] + [ps[n]];
      if ps[n].aos > p.aos {
        InsertKeepsContents(ps[..n], p);
      }
    }
  }

  lemma SortedAppend(ps: seq<PassWindow>, p: PassWindow)
    requires SortedByAos(ps) && forall q :: q in multiset(ps) ==> q.aos <= p.aos
    ensures SortedByAos(ps + [p])
  {
    forall a | 0 <= a < |ps| ensures ps[a].aos <= p.aos {
      assert ps[a] in multiset(ps);
    }
  }

  lemma InsertKeepsOrder(ps: seq<PassWindow>, p: PassWindow)
    requires SortedByAos(ps)
    ensures SortedByAos(InsertByAos(ps, p))
  {
    if ps != [] && ps[|ps| - 1].aos > p.aos {
      var n := |ps| - 1;
      InsertKeepsOrder(ps[..n], p);
      InsertKeepsContents(ps[..n], p);
      forall q | q in multiset(InsertByAos(ps[..n], p)) ensures q.aos <= ps[n].aos {
        assert q in ps[..n] || q == p;
      }
      SortedAppend(InsertByAos(ps[..n], p), ps[n]);
    } else {
      forall q | q in multiset(ps) ensures q.aos <= p.aos {
        assert q in ps;
      }
      SortedAppend(ps, p);
    }
  }

  lemma SortIsCorrect(ps: seq<PassWindow>)
    ensures SortedByAos(SortByAos(ps))
    ensures multiset(SortByAos(ps)) == multiset(ps)
  {
    if ps != [] {
      var n := |ps| - 1;
      assert ps == ps[..n] + [ps[n]];
      SortIsCorrect(ps[..n]);
      InsertKeepsOrder(SortByAos(ps[..n]), ps[n]);
      InsertKeepsContents(SortByAos(ps[..n]), ps[n]);
    }
  }

  // ---------------------------------------------------------------------
  // The sweep
  // ---------------------------------------------------------------------

  /** Per-station state while sweeping through time. */
  class Track {
    const station: Station
    var aos: Option<Time>
    var maxElevation: real
    var azimuthAtAos: real

    constructor (station: Station)
      ensures this.station == station && aos == None
    {
      this.station := station;
      aos, maxElevation, azimuthAtAos := None, 0.0, 0.0;
    }

    /** The track after k samples. */
    ghost predicate Reached(sky: Sky, sw: Sweep, k: nat)
      reads this
    {
      var open := OpenFrom(sky, station, sw, k);
      && (aos.Some? <==> open.Some?)
      && (open.Some? ==>
            && aos.value == sw.At(open.value)
            && maxElevation == Peak(sky, station, sw, open.value, k)
            && azimuthAtAos == sky.azimuth(station, aos.value))
    }

    /** _close */
    method Close(los: Time) returns (p: PassWindow)
      requires aos.Some?
      modifies this
      ensures p == PassWindow(station, old(aos).value, los, old(maxElevation), old(azimuthAtAos))
      ensures aos == None
    {
      p := PassWindow(station, aos.value, los, maxElevation, azimuthAtAos);
      aos := None;
      maxElevation := 0.0;
    }

    /** One sample: open, extend or close the current pass. */
    method Observe(sky: Sky, sw: Sweep, ghost k: nat, t: Time) returns (ended: seq<PassWindow>)
      requires sw.Valid() && k < sw.Count() && t == sw.At(k) && Reached(sky, sw, k)
      modifies this
      ensures Reached(sky, sw, k + 1)
      ensures Closed(sky, station, sw, k + 1) == Closed(sky, station, sw, k) + ended
      ensures |ended| <= 1
    {
      ended := [];
      var el := sky.elevation(station, t);
      if el >= station.minElevation {
        if aos.None? {
          aos := Some(t);
          azimuthAtAos := sky.azimuth(station, t);
          maxElevation := el;
        } else {
          maxElevation := if el > maxElevation then el else maxElevation;
        }
      } else if aos.Some? {
        var p := Close(t);
        ended := [p];
      }
    }

    /** The pass still open at the horizon end, if any. */
    method Finish(sky: Sky, sw: Sweep) returns (last: seq<PassWindow>)
      requires sw.Valid() && Reached(sky, sw, sw.Count())
      modifies this
      ensures last == StillOpen(sky, station, sw)
    {
      last := [];
      if aos.Some? {
        var p := Close(sw.end);
        last := [p];
      }
    }
  }

  /** The passes each station had closed after `ks` samples. */
  ghost function ClosedLists(sky: Sky, stations: seq<Station>, sw: Sweep, done: nat, k: nat): seq<seq<PassWindow>>
    requires sw.Valid() && done <= |stations| && k < sw.Count()
  {
    seq(|stations|, i requires 0 <= i < |stations| => Closed(sky, stations[i], sw, if i < done then k + 1 else k))
  }

  ghost function SoloLists(sky: Sky, stations: seq<Station>, sw: Sweep, done: nat): seq<seq<PassWindow>>
    requires sw.Valid() && done <= |stations|
  {
    seq(|stations|, i requires 0 <= i < |stations| =>
      if i < done then Solo(sky, stations[i], sw) else Closed(sky, stations[i], sw, sw.Count()))
  }

  /** Everything one sweep should report. */
  ghost function AllPasses(sky: Sky, stations: seq<Station>, sw: Sweep): multiset<PassWindow>
    requires sw.Valid()
  {
    Together(SoloLists(sky, stations, sw, |stations|))
  }

  lemma {:induction false} ListsAfterObserving(sky: Sky, stations: seq<Station>, sw: Sweep, i: nat, k: nat, ended: seq<PassWindow>)
    requires sw.Valid() && i < |stations| && k < sw.Count() && |ended| <= 1
    requires Closed(sky, stations[i], sw, k + 1) == Closed(sky, stations[i], sw, k) + ended
    ensures Together(ClosedLists(sky, stations, sw, i + 1, k))
            == Together(ClosedLists(sky, stations, sw, i, k)) + multiset(ended)
  {
    hide Together, Closed;
    var before, after := ClosedLists(sky, stations, sw, i, k), ClosedLists(sky, stations, sw, i + 1, k);
    if ended == [] {
      assert Closed(sky, stations[i], sw, k) + ended == Closed(sky, stations[i], sw, k);
      assert before == after;
    } else {
      assert ended == [ended[0]];
      TogetherExtends(before, i, ended[0]);
      assert after == before[i := before[i] + ended];
    }
  }

  lemma ListsAfterClosing(sky: Sky, stations: seq<Station>, sw: Sweep, i: nat)
    requires sw.Valid() && i < |stations|
    ensures Together(SoloLists(sky, stations, sw, i + 1))
            == Together(SoloLists(sky, stations, sw, i)) + multiset(StillOpen(sky, stations[i], sw))
  {
    hide Together, Closed;
    var before, after := SoloLists(sky, stations, sw, i), SoloLists(sky, stations, sw, i + 1);
    var last := StillOpen(sky, stations[i], sw);
    if last == [] {
      assert Closed(sky, stations[i], sw, sw.Count()) + last == Closed(sky, stations[i], sw, sw.Count());
      assert before == after;
    } else {
      TogetherExtends(before, i, last[0]);
      assert after == before[i := before[i] + [last[0]]];
    }
  }

  /** Moving to the next sample, or past the last one. */
  lemma ListsAtNextSample(sky: Sky, stations: seq<Station>, sw: Sweep, k: nat)
    requires sw.Valid() && k < sw.Count()
    ensures ClosedLists(sky, stations, sw, |stations|, k)
            == if k + 1 < sw.Count() then ClosedLists(sky, stations, sw, 0, k + 1) else SoloLists(sky, stations, sw, 0)
  {
  }

  ghost predicate TracksValid(tracks: seq<Track>, stations: seq<Station>) {
    && |tracks| == |stations|
    && (forall i :: 0 <= i < |tracks| ==> tracks[i].station == stations[i])
    && (forall i, j :: 0 <= i < j < |tracks| ==> tracks[i] != tracks[j])
  }

  method MakeTracks(stations: seq<Station>) returns (tracks: seq<Track>)
    ensures TracksValid(tracks, stations) && forall i :: 0 <= i < |tracks| ==> fresh(tracks[i]) && tracks[i].aos == None
  {
    tracks := [];
    for i := 0 to |stations|
      invariant TracksValid(tracks, stations[..i])
      invariant forall j :: 0 <= j < i ==> fresh(tracks[j]) && tracks[j].aos == None
    {
      var track := new Track(stations[i]);
      tracks := tracks + [track];
    }
    assert stations[..|stations|] == stations;
  }

  /** The passes ended so far, with the first `done` stations one sample ahead. */
  ghost predicate Collected(sky: Sky, stations: seq<Station>, sw: Sweep, done: nat, k: nat, passes: seq<PassWindow>)
    requires sw.Valid() && done <= |stations| && k < sw.Count()
  {
    multiset(passes) == Together(ClosedLists(sky, stations, sw, done, k))
  }

  lemma {:induction false} CollectMore(sky: Sky, stations: seq<Station>, sw: Sweep, i: nat, k: nat, passes: seq<PassWindow>, ended: seq<PassWindow>)
    requires sw.Valid() && i < |stations| && k < sw.Count() && |ended| <= 1
    requires Closed(sky, stations[i], sw, k + 1) == Closed(sky, stations[i], sw, k) + ended
    requires Collected(sky, stations, sw, i, k, passes)
    ensures Collected(sky, stations, sw, i + 1, k, passes + ended)
  {
    ListsAfterObserving(sky, stations, sw, i, k, ended);
  }

  /** One time step over all stations. */
  method ObserveAll(sky: Sky, ghost stations: seq<Station>, sw: Sweep, tracks: seq<Track>, ghost k: nat, t: Time,
                    passes: seq<PassWindow>) returns (more: seq<PassWindow>)
    requires sw.Valid() && k < sw.Count() && t == sw.At(k) && TracksValid(tracks, stations)
    requires forall i :: 0 <= i < |tracks| ==> tracks[i].Reached(sky, sw, k)
    requires Collected(sky, stations, sw, 0, k, passes)
    modifies tracks
    ensures forall i :: 0 <= i < |tracks| ==> tracks[i].Reached(sky, sw, k + 1)
    ensures Collected(sky, stations, sw, |stations|, k, more)
  {
    hide Collected, OpenFrom, Peak;
    more := passes;
    for i := 0 to |tracks|
      invariant forall j :: 0 <= j < i ==> tracks[j].Reached(sky, sw, k + 1)
      invariant forall j :: i <= j < |tracks| ==> tracks[j].Reached(sky, sw, k)
      invariant Collected(sky, stations, sw, i, k, more)
    {
      var ended := tracks[i].Observe(sky, sw, k, t);
      CollectMore(sky, stations, sw, i, k, more, ended);
      more := more + ended;
    }
  }

  /** Close the passes still open at the horizon end. */
  method CloseAll(sky: Sky, ghost stations: seq<Station>, sw: Sweep, tracks: seq<Track>, passes: seq<PassWindow>)
      returns (all: seq<PassWindow>)
    requires sw.Valid() && TracksValid(tracks, stations)
    requires forall i :: 0 <= i < |tracks| ==> tracks[i].Reached(sky, sw, sw.Count())
    requires multiset(passes) == Together(SoloLists(sky, stations, sw, 0))
    modifies tracks
    ensures multiset(all) == AllPasses(sky, stations, sw)
  {
    hide Together, SoloLists, Peak;
    all := passes;
    for i := 0 to |tracks|
      invariant forall j :: i <= j < |tracks| ==> tracks[j].Reached(sky, sw, sw.Count())
      invariant multiset(all) == Together(SoloLists(sky, stations, sw, i))
    {
      ListsAfterClosing(sky, stations, sw, i);
      var last := tracks[i].Finish(sky, sw);
      all := all + last;
    }
  }

  lemma NothingClosedYet(sky: Sky, stations: seq<Station>, sw: Sweep)
    requires sw.Valid()
    ensures sw.Count() > 0 ==> Together(ClosedLists(sky, stations, sw, 0, 0)) == multiset{}
    ensures sw.Count() == 0 ==> Together(SoloLists(sky, stations, sw, 0)) == multiset{}
  {
    var lists: seq<seq<PassWindow>> := seq(|stations|, _ => []);
    EmptyTogether(|stations|);
    if sw.Count() > 0 {
      assert ClosedLists(sky, stations, sw, 0, 0) == lists;
    } else {
      assert SoloLists(sky, stations, sw, 0) == lists;
    }
  }

  lemma EmptyTogether(n: nat)
    ensures var lists: seq<seq<PassWindow>> := seq(n, _ => []); Together(lists) == multiset{}
  {
    if n > 0 {
      EmptyTogether(n - 1);
      var lists: seq<seq<PassWindow>> := seq(n, _ => []);
      assert lists[..n - 1] == seq(n - 1, _ => []);
    }
  }

  /** predict_passes_multi: one sweep reports, for all stations together,
      exactly the passes each station would have alone, sorted by AOS. */
  method PredictPassesMulti(sky: Sky, stations: seq<Station>, sw: Sweep) returns (passes: seq<PassWindow>)
    requires sw.Valid()
    ensures SortedByAos(passes)
    ensures multiset(passes) == AllPasses(sky, stations, sw)
  {
    var tracks := MakeTracks(stations);
    passes := [];
    var t := sw.start;
    ghost var k := 0;
    NothingClosedYet(sky, stations, sw);
    while t <= sw.end
      invariant t == sw.At(k) && k <= sw.Count()
      invariant forall i :: 0 <= i < |tracks| ==> fresh(tracks[i]) && tracks[i].Reached(sky, sw, k)
      invariant k < sw.Count() ==> multiset(passes) == Together(ClosedLists(sky, stations, sw, 0, k))
      invariant k == sw.Count() ==> multiset(passes) == Together(SoloLists(sky, stations, sw, 0))
      decreases sw.Count() - k
    {
      ListsAtNextSample(sky, stations, sw, k);
      passes := ObserveAll(sky, stations, sw, tracks, k, t, passes);
      k := k + 1;
      t := t + sw.step;
    }
    passes := CloseAll(sky, stations, sw, tracks, passes);
    SortIsCorrect(passes);
    passes := SortByAos(passes);
  }

  // ---------------------------------------------------------------------
  // Many stations against one
  // ---------------------------------------------------------------------

  function Restrict(ps: seq<PassWindow>, st: Station): seq<PassWindow> {
    if ps == [] then [] else
    Restrict(ps[..|ps| - 1], st) + if ps[|ps| - 1].station == st then [ps[|ps| - 1]] else []
  }

  lemma RestrictCounts(ps: seq<PassWindow>, st: Station)
    ensures forall p: PassWindow :: multiset(Restrict(ps, st))[p] == if p.station == st then multiset(ps)[p] else 0
    ensures forall p :: p in Restrict(ps, st) ==> p in ps
  {
    if ps != [] {
      RestrictCounts(ps[..|ps| - 1], st);
      assert ps == ps[..|ps| - 1] + [ps[|ps| - 1]];
    }
  }

  lemma RestrictKeepsOrder(ps: seq<PassWindow>, st: Station)
    requires SortedByAos(ps)
    ensures SortedByAos(Restrict(ps, st))
  {
    if ps != [] {
      var n := |ps| - 1;
      RestrictKeepsOrder(ps[..n], st);
      RestrictCounts(ps[..n], st);
      assert ps == ps[..n] + [ps[n]];
    }
  }

  ghost predicate StrictByAos(ps: seq<PassWindow>) {
    forall i, j :: 0 <= i < j < |ps| ==> ps[i].aos < ps[j].aos
  }

  lemma LastIsLatest(a: seq<PassWindow>, b: seq<PassWindow>)
    requires a != [] && b != [] && SortedByAos(a) && StrictByAos(b) && multiset(a) == multiset(b)
    ensures a[|a| - 1] == b[|b| - 1]
  {
    assert a[|a| - 1] in multiset(b) && b[|b| - 1] in multiset(a);
    var i :| 0 <= i < |b| && b[i] == a[|a| - 1];
    var j :| 0 <= j < |a| && a[j] == b[|b| - 1];
  }

  lemma DropLast(a: seq<PassWindow>)
    requires a != []
    ensures multiset(a[..|a| - 1]) == multiset(a) - multiset{a[|a| - 1]}
    ensures SortedByAos(a) ==> SortedByAos(a[..|a| - 1])
    ensures StrictByAos(a) ==> StrictByAos(a[..|a| - 1])
  {
    assert a == a[..|a| - 1] + [a[|a| - 1]];
  }

  lemma EmptyTogetherOnly(a: seq<PassWindow>, b: seq<PassWindow>)
    requires multiset(a) == multiset(b)
    ensures a == [] <==> b == []
  {
    assert a != [] ==> a[0] in multiset(a);
    assert b != [] ==> b[0] in multiset(b);
  }

  /** A strictly ordered list is determined by its contents. */
  lemma {:induction false} OrderIsUnique(a: seq<PassWindow>, b: seq<PassWindow>)
    requires SortedByAos(a) && StrictByAos(b) && multiset(a) == multiset(b)
    ensures a == b
    decreases |a|
  {
    hide SortedByAos, StrictByAos;
    EmptyTogetherOnly(a, b);
    if a != [] {
      LastIsLatest(a, b);
      DropLast(a);
      DropLast(b);
      OrderIsUnique(a[..|a| - 1], b[..|b| - 1]);
      assert a == a[..|a| - 1] + [a[|a| - 1]];
      assert b == b[..|b| - 1] + [b[|b| - 1]];
    }
  }

  /** Every pass of a station's list is that station's. */
  lemma SoloIsOwn(sky: Sky, st: Station, sw: Sweep)
    requires sw.Valid()
    ensures forall p :: p in Solo(sky, st, sw) ==> p.station == st
  {
    forall p | p in Solo(sky, st, sw) ensures p.station == st {
      SoloIsExact(sky, st, sw, p);
    }
  }

  lemma {:induction false} TogetherOfOne(sky: Sky, stations: seq<Station>, sw: Sweep, st: Station, n: nat)
    requires sw.Valid() && n <= |stations|
    requires forall i, j :: 0 <= i < j < |stations| ==> stations[i] != stations[j]
    ensures forall p: PassWindow :: p.station == st ==>
              Together(SoloLists(sky, stations, sw, |stations|)[..n])[p]
              == if st in stations[..n] then multiset(Solo(sky, st, sw))[p] else 0
  {
    if n > 0 {
      TogetherOfOne(sky, stations, sw, st, n - 1);
      var lists := SoloLists(sky, stations, sw, |stations|);
      assert lists[..n][..n - 1] == lists[..n - 1];
      assert stations[..n] == stations[..n - 1] + [stations[n - 1]];
      SoloIsOwn(sky, stations[n - 1], sw);
    }
  }

  /** What one station gets out of a sweep over many is what it would get alone. */
  lemma RestrictionIsSolo(sky: Sky, stations: seq<Station>, sw: Sweep, passes: seq<PassWindow>, st: Station)
    requires sw.Valid() && SortedByAos(passes) && multiset(passes) == AllPasses(sky, stations, sw)
    requires forall i, j :: 0 <= i < j < |stations| ==> stations[i] != stations[j]
    ensures Restrict(passes, st) == if st in stations then Solo(sky, st, sw) else []
  {
    hide Solo, Restrict, Together, SoloLists;
    var mine := if st in stations then Solo(sky, st, sw) else [];
    RestrictCounts(passes, st);
    RestrictKeepsOrder(passes, st);
    AllOfStation(sky, stations, sw, st);
    SoloIsOwn(sky, st, sw);
    SoloIsDisjoint(sky, st, sw);
    assert forall p: PassWindow :: multiset(Restrict(passes, st))[p] == multiset(mine)[p];
    assert forall i, j :: 0 <= i < j < |mine| ==> mine[i].aos <= mine[i].los < mine[j].aos;
    OrderIsUnique(Restrict(passes, st), mine);
  }

  lemma AllOfStation(sky: Sky, stations: seq<Station>, sw: Sweep, st: Station)
    requires sw.Valid()
    requires forall i, j :: 0 <= i < j < |stations| ==> stations[i] != stations[j]
    ensures forall p: PassWindow :: p.station == st ==>
              AllPasses(sky, stations, sw)[p] == if st in stations then multiset(Solo(sky, st, sw))[p] else 0
  {
    TogetherOfOne(sky, stations, sw, st, |stations|);
    var lists := SoloLists(sky, stations, sw, |stations|);
    assert lists[..|stations|] == lists && stations[..|stations|] == stations;
  }

  /** predict_passes */
  method PredictPasses(sky: Sky, station: Station, sw: Sweep) returns (passes: seq<PassWindow>)
    requires sw.Valid()
    ensures passes == Solo(sky, station, sw)
  {
    passes := PredictPassesMulti(sky, [station], sw);
    RestrictionIsSolo(sky, [station], sw, passes, station);
    AllOfOne(sky, station, sw, passes);
  }

  lemma AllOfOne(sky: Sky, st: Station, sw: Sweep, passes: seq<PassWindow>)
    requires sw.Valid() && multiset(passes) == AllPasses(sky, [st], sw)
    ensures Restrict(passes, st) == passes
  {
    var lists := SoloLists(sky, [st], sw, 1);
    assert Together(lists) == Together(lists[..0]) + multiset(lists[0]);
    SoloIsOwn(sky, st, sw);
    assert forall p :: p in passes ==> p in multiset(passes);
    RestrictOwn(passes, st);
  }

  lemma RestrictOwn(ps: seq<PassWindow>, st: Station)
    requires forall p :: p in ps ==> p.station == st
    ensures Restrict(ps, st) == ps
  {
    if ps != [] {
      RestrictOwn(ps[..|ps| - 1], st);
      assert ps == ps[..|ps| - 1] + [ps[|ps| - 1]];
    }
  }
}
