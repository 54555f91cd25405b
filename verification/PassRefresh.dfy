/** The incremental refresh of the stored pass schedule
    (backend/src/api/routes/satellites.py, _compute_and_store_passes). */
module PassRefresh {
  import opened Basics
  import opened PassRuns
  import opened PassPrediction

  const STEP: Time := 30 * SECOND
  const HORIZON: Time := 48 * 3600 * SECOND
  const WEEK: Time := 7 * 24 * 3600 * SECOND

  /** A row of pass_schedule. */
  datatype Stored = Stored(satelliteId: string, stationId: int, aos: Time, los: Time, maxElevation: real, azimuthAtAos: real)

  /** One refresh: the satellite, the active stations, when prediction started
      and when the transaction ran. */
  datatype Refresh = Refresh(satelliteId: string, stations: seq<Station>, predictedFrom: Time, now: Time) {
    function Sampling(): Sweep {
      Sweep(predictedFrom, predictedFrom + HORIZON, STEP)
    }
  }

  function ToRow(satelliteId: string, p: PassWindow): Stored {
    Stored(satelliteId, p.station.id, p.aos, p.los, p.maxElevation, p.azimuthAtAos)
  }

  predicate Expired(r: Stored, f: Refresh) {
    r.satelliteId == f.satelliteId && (r.aos > f.now || r.los < f.now - WEEK)
  }

  /** DELETE: predictions that have not started, and history older than a week. */
  function Kept(rows: seq<Stored>, f: Refresh): (k: seq<Stored>)
    ensures forall r :: r in k <==> r in rows && !Expired(r, f)
  {
    if rows == [] then [] else
    (if Expired(rows[0], f) then [] else [rows[0]]) + Kept(rows[1..], f)
  }

  predicate InProgressRow(r: Stored, f: Refresh) {
    r.satelliteId == f.satelliteId && r.aos <= f.now && r.los > f.now
  }

  /** SELECT station_id of the passes in progress. */
  function InProgress(rows: seq<Stored>, f: Refresh): set<int> {
    set r | r in rows && InProgressRow(r, f) :: r.stationId
  }

  /** Leave out the copy, cut at the prediction start, of a pass in progress. */
  function Inserted(passes: seq<PassWindow>, busy: set<int>, f: Refresh): (k: seq<Stored>)
    ensures forall r :: r in k <==>
              exists p :: p in passes && !(p.station.id in busy && p.aos <= f.predictedFrom) && r == ToRow(f.satelliteId, p)
  {
    if passes == [] then [] else
    var rest := Inserted(passes[1..], busy, f);
    var p := passes[0];
    assert forall q :: q in passes <==> q == p || q in passes[1..];
    if p.station.id in busy && p.aos <= f.predictedFrom then rest else [ToRow(f.satelliteId, p)] + rest
  }

  function Refreshed(rows: seq<Stored>, passes: seq<PassWindow>, f: Refresh): seq<Stored> {
    var kept := Kept(rows, f);
    kept + Inserted(passes, InProgress(kept, f), f)
  }

  /** The columns of the row are what the sky shows of samples i to j - 1, a maximal
      run of a prediction over 48 hours in steps of 30 seconds. */
  ghost predicate TellsRun(sky: Sky, from: Time, st: Station, r: Stored, i: int, j: int) {
    var sw := Sweep(from, from + 172_800_000_000, 30_000_000);
    && MaximalRun(sky, st, sw, i, j)
    && r.stationId == st.id && r.aos == from + i * 30_000_000
    && r.los == (if j < sw.Count() then from + j * 30_000_000 else from + 172_800_000_000)
    && (forall k :: i <= k < j ==> sky.elevation(st, sw.At(k)) <= r.maxElevation)
    && (exists k :: i <= k < j && sky.elevation(st, sw.At(k)) == r.maxElevation)
    && r.azimuthAtAos == sky.azimuth(st, r.aos)
  }

  /** The row tells of a pass over one of the stations of this refresh. */
  ghost predicate Told(sky: Sky, f: Refresh, r: Stored) {
    r.satelliteId == f.satelliteId && exists st, i, j :: st in f.stations && TellsRun(sky, f.predictedFrom, st, r, i, j)
  }

  lemma RunsAreTold(sky: Sky, f: Refresh, st: Station, i: int, j: int)
    requires st in f.stations && MaximalRun(sky, st, f.Sampling(), i, j)
    ensures Told(sky, f, ToRow(f.satelliteId, PassOf(sky, st, f.Sampling(), i, j)))
  {
    PeakIsMaximum(sky, st, f.Sampling(), i, j);
    assert TellsRun(sky, f.predictedFrom, st, ToRow(f.satelliteId, PassOf(sky, st, f.Sampling(), i, j)), i, j);
  }

  lemma TogetherMember(lists: seq<seq<PassWindow>>, p: PassWindow)
    requires p in Together(lists)
    ensures exists i :: 0 <= i < |lists| && p in lists[i]
  {
    var n := |lists| - 1;
    if p in lists[n] {
    } else {
      assert p !in multiset(lists[n]);
      TogetherMember(lists[..n], p);
      var i :| 0 <= i < n && p in lists[..n][i];
      assert p in lists[i];
    }
  }

  /** Every row that a refresh adds tells of a pass. */
  lemma {:induction false} AddedRowsAreTold(sky: Sky, rows: seq<Stored>, passes: seq<PassWindow>, f: Refresh, r: Stored)
    requires multiset(passes) == AllPasses(sky, f.stations, f.Sampling())
    requires r in Refreshed(rows, passes, f)
    ensures r in rows || (r.satelliteId == f.satelliteId && Told(sky, f, r))
  {
    var kept := Kept(rows, f);
    if r !in kept {
      var p :| p in passes && r == ToRow(f.satelliteId, p);
      var lists := SoloLists(sky, f.stations, f.Sampling(), |f.stations|);
      assert p in multiset(passes);
      hide Refreshed, AllPasses, Solo, PassOf, Told;
      TogetherMember(lists, p);
      var n :| 0 <= n < |lists| && p in lists[n];
      SoloIsExact(sky, f.stations[n], f.Sampling(), p);
      var i, j :| MaximalRun(sky, f.stations[n], f.Sampling(), i, j) && p == PassOf(sky, f.stations[n], f.Sampling(), i, j);
      RunsAreTold(sky, f, f.stations[n], i, j);
    }
  }

  lemma {:induction false} RowsAreKeptOrTold(sky: Sky, rows: seq<Stored>, passes: seq<PassWindow>, f: Refresh, r: Stored)
    requires multiset(passes) == AllPasses(sky, f.stations, f.Sampling())
    requires r in Refreshed(rows, passes, f)
    ensures (r in rows && !Deleted(r, f)) || Told(sky, f, r)
  {
    hide AllPasses, Told;
    if r !in Kept(rows, f) { AddedRowsAreTold(sky, [], passes, f, r); }
  }

  /** What the DELETE takes: rows of this satellite that have not begun, or ended a week ago. */
  predicate Deleted(r: Stored, f: Refresh) {
    r.satelliteId == f.satelliteId && (r.aos > f.now || r.los < f.now - 604_800_000_000)
  }

  class PassTable {
    var rows: seq<Stored>

    constructor ()
      ensures rows == []
    {
      rows := [];
    }

    /** _compute_and_store_passes; `fails` means that prediction raised. */
    method ComputeAndStorePasses(sky: Sky, f: Refresh, fails: bool) returns (ghost passes: seq<PassWindow>)
      modifies this
      ensures f.stations == [] || fails ==> rows == old(rows)
      ensures f.stations != [] && !fails ==>
                multiset(passes) == AllPasses(sky, f.stations, f.Sampling()) && rows == Refreshed(old(rows), passes, f)
      ensures f.stations != [] && !fails ==>
                && (forall r :: r in old(rows) && !Deleted(r, f) ==> r in rows)
                && (forall r :: r in rows ==> (r in old(rows) && !Deleted(r, f)) || Told(sky, f, r))
    {
      passes := [];
      if f.stations == [] || fails {
        return;
      }
      var all := PredictPassesMulti(sky, f.stations, f.Sampling());
      passes := all;
      rows := Kept(rows, f);
      var busy := InProgress(rows, f);
      rows := rows + Inserted(all, busy, f);
      hide Refreshed, Told, AllPasses;
      forall r | r in rows ensures (r in old(rows) && !Deleted(r, f)) || Told(sky, f, r) {
        RowsAreKeptOrTold(sky, old(rows), all, f, r);
      }
    }
  }

  // ---------------------------------------------------------------------
  // What the table says against what the station sees
  // ---------------------------------------------------------------------

  predicate OnGrid(t: Time, origin: Time) {
    (t - origin) % STEP == 0
  }

  predicate Visible(sky: Sky, st: Station, t: Time) {
    sky.elevation(st, t) >= st.minElevation
  }

  predicate Covers(r: Stored, satelliteId: string, st: Station, t: Time) {
    r.satelliteId == satelliteId && r.stationId == st.id && r.aos <= t < r.los
  }

  ghost predicate Covered(rows: seq<Stored>, satelliteId: string, st: Station, t: Time) {
    exists r :: r in rows && Covers(r, satelliteId, st, t)
  }

  /** A row spans only sampled instants at which the station sees the satellite. */
  ghost predicate Sound(sky: Sky, origin: Time, st: Station, r: Stored) {
    && OnGrid(r.aos, origin) && OnGrid(r.los, origin)
    && (forall t :: OnGrid(t, origin) && r.aos <= t < r.los ==> Visible(sky, st, t))
  }

  ghost predicate RowsSound(sky: Sky, origin: Time, satelliteId: string, st: Station, rows: seq<Stored>) {
    forall r :: r in rows && r.satelliteId == satelliteId && r.stationId == st.id ==> Sound(sky, origin, st, r)
  }

  /** What the source relies on: a grid of samples, prediction before the
      transaction, and stations told apart by their ids. */
  ghost predicate Regular(f: Refresh, origin: Time) {
    && OnGrid(f.predictedFrom, origin) && f.predictedFrom <= f.now
    && (forall i, j :: 0 <= i < j < |f.stations| ==> f.stations[i].id != f.stations[j].id)
  }

  /** The stored windows agree with the sky from the transaction to the horizon. */
  ghost predicate Exact(sky: Sky, origin: Time, st: Station, f: Refresh, rows: seq<Stored>) {
    forall t :: OnGrid(t, origin) && f.now <= t < f.Sampling().end ==>
      (Covered(rows, f.satelliteId, st, t) <==> Visible(sky, st, t))
  }

  /** The pass in progress was cut by the horizon of the refresh that stored
      it: the station has been seeing the satellite since the prediction began,
      and still does where every stored row of the pass ends. */
  ghost predicate CutInProgress(sky: Sky, origin: Time, st: Station, f: Refresh, rows: seq<Stored>) {
    && Covered(rows, f.satelliteId, st, f.now)
    && (forall t :: OnGrid(t, origin) && f.predictedFrom <= t <= f.now ==> Visible(sky, st, t))
    && (forall r :: r in rows && Covers(r, f.satelliteId, st, f.now) ==>
          r.los < f.Sampling().end && Visible(sky, st, r.los))
  }

  lemma {:induction false} GridIndex(f: Refresh, origin: Time, t: Time) returns (k: nat)
    requires OnGrid(f.predictedFrom, origin) && OnGrid(t, origin) && f.predictedFrom <= t
    ensures t == f.Sampling().At(k)
    ensures t <= f.Sampling().end <==> k < f.Sampling().Count()
  {
    k := (t - f.predictedFrom) / STEP;
    assert (t - f.predictedFrom) % STEP == 0;
  }

  lemma IndexGrid(f: Refresh, origin: Time, k: int)
    requires OnGrid(f.predictedFrom, origin)
    ensures OnGrid(f.Sampling().At(k), origin)
  {
    assert (f.predictedFrom + k * STEP - origin) % STEP == 0;
  }

  /** Where a visible sample's run ends. */
  lemma {:induction false} RunEnd(sky: Sky, st: Station, sw: Sweep, k: nat) returns (j: nat)
    requires sw.Valid() && k < sw.Count() && Sees(sky, st, sw, k)
    ensures k < j <= sw.Count() && (forall m :: k <= m < j ==> Sees(sky, st, sw, m))
    ensures j == sw.Count() || !Sees(sky, st, sw, j)
  {
    j := k + 1;
    while j < sw.Count() && Sees(sky, st, sw, j)
      invariant k < j <= sw.Count() && (forall m :: k <= m < j ==> Sees(sky, st, sw, m))
    {
      j := j + 1;
    }
  }

  /** A visible sample lies in a maximal run. */
  lemma {:induction false} RunAround(sky: Sky, st: Station, sw: Sweep, k: nat) returns (i: nat, j: nat)
    requires sw.Valid() && k < sw.Count() && Sees(sky, st, sw, k)
    ensures i <= k < j && MaximalRun(sky, st, sw, i, j)
  {
    OpenRunIsSeen(sky, st, sw, k + 1);
    i := OpenFrom(sky, st, sw, k + 1).value;
    j := RunEnd(sky, st, sw, k);
  }

  /** Sweep passes of a station, as members of the whole prediction. */
  lemma PredictedExactly(sky: Sky, f: Refresh, passes: seq<PassWindow>, st: Station, p: PassWindow)
    requires multiset(passes) == AllPasses(sky, f.stations, f.Sampling())
    requires st in f.stations && p.station == st
    requires forall i, j :: 0 <= i < j < |f.stations| ==> f.stations[i].id != f.stations[j].id
    ensures p in passes <==>
            exists i, j :: MaximalRun(sky, st, f.Sampling(), i, j) && p == PassOf(sky, st, f.Sampling(), i, j)
  {
    AllOfStation(sky, f.stations, f.Sampling(), st);
    SoloIsExact(sky, st, f.Sampling(), p);
    assert p in passes <==> p in multiset(passes);
    assert p in Solo(sky, st, f.Sampling()) <==> p in multiset(Solo(sky, st, f.Sampling()));
  }

  lemma PredictedStations(sky: Sky, f: Refresh, passes: seq<PassWindow>, p: PassWindow)
    requires multiset(passes) == AllPasses(sky, f.stations, f.Sampling()) && p in passes
    ensures p.station in f.stations
  {
    var lists := SoloLists(sky, f.stations, f.Sampling(), |f.stations|);
    assert p in multiset(passes);
    TogetherMember(lists, p);
    var i :| 0 <= i < |lists| && p in lists[i];
    SoloIsOwn(sky, f.stations[i], f.Sampling());
  }

  lemma PredictedStation(sky: Sky, f: Refresh, passes: seq<PassWindow>, st: Station, p: PassWindow)
    requires multiset(passes) == AllPasses(sky, f.stations, f.Sampling()) && p in passes
    requires forall i, j :: 0 <= i < j < |f.stations| ==> f.stations[i].id != f.stations[j].id
    requires st in f.stations && p.station.id == st.id
    ensures p.station == st
    ensures exists i, j :: MaximalRun(sky, st, f.Sampling(), i, j) && p == PassOf(sky, st, f.Sampling(), i, j)
  {
    PredictedStations(sky, f, passes, p);
    var a :| 0 <= a < |f.stations| && f.stations[a] == st;
    var b :| 0 <= b < |f.stations| && f.stations[b] == p.station;
    assert a == b;
    PredictedExactly(sky, f, passes, st, p);
  }

  /** Where a run of samples covers a sampled instant. */
  lemma {:induction false} RunCovers(sky: Sky, origin: Time, st: Station, f: Refresh, i: nat, j: nat, t: Time) returns (k: nat)
    requires OnGrid(f.predictedFrom, origin) && OnGrid(t, origin) && f.predictedFrom <= t < f.Sampling().end
    requires i < j <= f.Sampling().Count()
    ensures t == f.Sampling().At(k) && k < f.Sampling().Count()
    ensures var p := PassOf(sky, st, f.Sampling(), i, j); p.aos <= t < p.los <==> i <= k < j
  {
    k := GridIndex(f, origin, t);
    var n := f.Sampling().Count();
    assert f.Sampling().At(n - 1) <= f.Sampling().end;
    assert j == n && k == n - 1 ==> t >= f.Sampling().end by { LastSampleIsHorizon(f); }
  }

  lemma LastSampleIsHorizon(f: Refresh)
    ensures f.Sampling().Count() > 0 && f.Sampling().At(f.Sampling().Count() - 1) == f.Sampling().end
  {
    var k := GridIndex(f, f.predictedFrom, f.Sampling().end);
    var n := f.Sampling().Count();
    assert n > 0 && f.Sampling().At(n - 1) <= f.Sampling().end;
    assert k <= n - 1;
  }

  lemma PredictedRowIsSound(sky: Sky, origin: Time, st: Station, f: Refresh, i: nat, j: nat)
    requires Regular(f, origin) && MaximalRun(sky, st, f.Sampling(), i, j)
    ensures Sound(sky, origin, st, ToRow(f.satelliteId, PassOf(sky, st, f.Sampling(), i, j)))
  {
    var p := PassOf(sky, st, f.Sampling(), i, j);
    IndexGrid(f, origin, i);
    IndexGrid(f, origin, j);
    LastSampleIsHorizon(f);
    IndexGrid(f, origin, f.Sampling().Count() - 1);
    forall t | OnGrid(t, origin) && p.aos <= t < p.los ensures Visible(sky, st, t) {
      assert f.Sampling().At(i) >= f.predictedFrom;
      assert p.los <= f.Sampling().end;
      var k := RunCovers(sky, origin, st, f, i, j, t);
      assert Sees(sky, st, f.Sampling(), k);
    }
  }

  /** Every refresh keeps the stored rows sound. */
  lemma RefreshKeepsSound(sky: Sky, origin: Time, st: Station, f: Refresh, rows: seq<Stored>, passes: seq<PassWindow>)
    requires Regular(f, origin) && st in f.stations
    requires multiset(passes) == AllPasses(sky, f.stations, f.Sampling())
    requires RowsSound(sky, origin, f.satelliteId, st, rows)
    ensures RowsSound(sky, origin, f.satelliteId, st, Refreshed(rows, passes, f))
  {
    var kept := Kept(rows, f);
    forall r | r in Inserted(passes, InProgress(kept, f), f) && r.stationId == st.id
      ensures Sound(sky, origin, st, r)
    {
      var p :| p in passes && r == ToRow(f.satelliteId, p);
      assert ToRow(f.satelliteId, p).stationId == p.station.id;
      PredictedStation(sky, f, passes, st, p);
      var i, j :| MaximalRun(sky, st, f.Sampling(), i, j) && p == PassOf(sky, st, f.Sampling(), i, j);
      PredictedRowIsSound(sky, origin, st, f, i, j);
    }
  }

  lemma RunFromStart(sky: Sky, origin: Time, st: Station, f: Refresh, j: nat, k: nat, u: Time)
    requires Regular(f, origin) && OnGrid(u, origin) && f.predictedFrom <= u <= f.Sampling().At(k)
    requires MaximalRun(sky, st, f.Sampling(), 0, j) && k < j
    ensures Visible(sky, st, u)
  {
    var m := GridIndex(f, origin, u);
    assert Sees(sky, st, f.Sampling(), m);
  }

  /** A visible instant is covered, unless its run was left out as the copy of
      a pass in progress; that copy reaches back to the prediction start. */
  lemma VisibleIsCovered(sky: Sky, origin: Time, st: Station, f: Refresh, rows: seq<Stored>, passes: seq<PassWindow>, t: Time)
    requires Regular(f, origin) && st in f.stations
    requires multiset(passes) == AllPasses(sky, f.stations, f.Sampling())
    requires OnGrid(t, origin) && f.now <= t < f.Sampling().end && Visible(sky, st, t)
    ensures Covered(Refreshed(rows, passes, f), f.satelliteId, st, t)
            || (st.id in InProgress(Kept(rows, f), f)
                && forall u :: OnGrid(u, origin) && f.predictedFrom <= u <= t ==> Visible(sky, st, u))
  {
    hide AllPasses, Peak, Sweep.Count;
    var sw := f.Sampling();
    var k := GridIndex(f, origin, t);
    var i, j := RunAround(sky, st, sw, k);
    var p := PassOf(sky, st, sw, i, j);
    PredictedExactly(sky, f, passes, st, p);
    var busy := InProgress(Kept(rows, f), f);
    if st.id in busy && p.aos <= f.predictedFrom {
      assert i == 0;
      forall u | OnGrid(u, origin) && f.predictedFrom <= u <= t ensures Visible(sky, st, u) {
        RunFromStart(sky, origin, st, f, j, k, u);
      }
    } else {
      var m := RunCovers(sky, origin, st, f, i, j, t);
      assert ToRow(f.satelliteId, p) in Inserted(passes, busy, f);
      assert Covers(ToRow(f.satelliteId, p), f.satelliteId, st, t);
    }
  }

  /** Covered instants are visible, because every stored row is sound. */
  lemma CoveredIsVisible(sky: Sky, origin: Time, st: Station, satelliteId: string, rows: seq<Stored>, t: Time)
    requires RowsSound(sky, origin, satelliteId, st, rows) && OnGrid(t, origin)
    requires Covered(rows, satelliteId, st, t)
    ensures Visible(sky, st, t)
  {
    var r :| r in rows && Covers(r, satelliteId, st, t);
    assert Sound(sky, origin, st, r);
  }

  /** A row in progress at the transaction survives the DELETE. */
  lemma InProgressIsKept(st: Station, f: Refresh, rows: seq<Stored>)
    ensures forall r :: r in rows && Covers(r, f.satelliteId, st, f.now) ==> r in Kept(rows, f)
    ensures st.id in InProgress(Kept(rows, f), f) <==> Covered(rows, f.satelliteId, st, f.now)
  {
    if r :| r in rows && Covers(r, f.satelliteId, st, f.now) {
      assert r in Kept(rows, f) && InProgressRow(r, f);
    }
  }

  lemma UncutIsExact(sky: Sky, origin: Time, st: Station, f: Refresh, rows: seq<Stored>, passes: seq<PassWindow>)
    requires Regular(f, origin) && st in f.stations
    requires multiset(passes) == AllPasses(sky, f.stations, f.Sampling())
    requires RowsSound(sky, origin, f.satelliteId, st, rows)
    requires !CutInProgress(sky, origin, st, f, rows)
    ensures Exact(sky, origin, st, f, Refreshed(rows, passes, f))
  {
    var after := Refreshed(rows, passes, f);
    RefreshKeepsSound(sky, origin, st, f, rows, passes);
    InProgressIsKept(st, f, rows);
    forall t | OnGrid(t, origin) && f.now <= t < f.Sampling().end
      ensures Covered(after, f.satelliteId, st, t) <==> Visible(sky, st, t)
    {
      if Covered(after, f.satelliteId, st, t) {
        CoveredIsVisible(sky, origin, st, f.satelliteId, after, t);
      }
      if Visible(sky, st, t) {
        UncutCovers(sky, origin, st, f, rows, passes, t);
      }
    }
  }

  lemma UncutCovers(sky: Sky, origin: Time, st: Station, f: Refresh, rows: seq<Stored>, passes: seq<PassWindow>, t: Time)
    requires Regular(f, origin) && st in f.stations
    requires multiset(passes) == AllPasses(sky, f.stations, f.Sampling())
    requires RowsSound(sky, origin, f.satelliteId, st, rows)
    requires !CutInProgress(sky, origin, st, f, rows)
    requires OnGrid(t, origin) && f.now <= t < f.Sampling().end && Visible(sky, st, t)
    ensures Covered(Refreshed(rows, passes, f), f.satelliteId, st, t)
  {
    InProgressIsKept(st, f, rows);
    VisibleIsCovered(sky, origin, st, f, rows, passes, t);
    if st.id in InProgress(Kept(rows, f), f)
       && forall u :: OnGrid(u, origin) && f.predictedFrom <= u <= t ==> Visible(sky, st, u) {
        var r :| r in rows && Covers(r, f.satelliteId, st, f.now)
                 && !(r.los < f.Sampling().end && Visible(sky, st, r.los));
        assert Sound(sky, origin, st, r);
        assert r in Refreshed(rows, passes, f) && Covers(r, f.satelliteId, st, t);
    }
  }

  /** Of the rows covering an instant, one ends last. */
  lemma {:induction false} LastToEnd(rows: seq<Stored>, satelliteId: string, st: Station, t: Time) returns (r: Stored)
    requires Covered(rows, satelliteId, st, t)
    ensures r in rows && Covers(r, satelliteId, st, t)
    ensures forall q :: q in rows && Covers(q, satelliteId, st, t) ==> q.los <= r.los
  {
    r :| r in rows && Covers(r, satelliteId, st, t);
    for i := 0 to |rows|
      invariant r in rows && Covers(r, satelliteId, st, t)
      invariant forall j :: 0 <= j < i && Covers(rows[j], satelliteId, st, t) ==> rows[j].los <= r.los
    {
      if Covers(rows[i], satelliteId, st, t) && rows[i].los > r.los { r := rows[i]; }
    }
  }

  lemma {:induction false} CutIsInexact(sky: Sky, origin: Time, st: Station, f: Refresh, rows: seq<Stored>, passes: seq<PassWindow>)
    requires Regular(f, origin) && st in f.stations
    requires multiset(passes) == AllPasses(sky, f.stations, f.Sampling())
    requires RowsSound(sky, origin, f.satelliteId, st, rows)
    requires CutInProgress(sky, origin, st, f, rows)
    ensures !Exact(sky, origin, st, f, Refreshed(rows, passes, f))
  {
    var r := LastToEnd(rows, f.satelliteId, st, f.now);
    var t := r.los;
    InProgressIsKept(st, f, rows);
    assert Sound(sky, origin, st, r);
    if Covered(Refreshed(rows, passes, f), f.satelliteId, st, t) {
      var q :| q in Refreshed(rows, passes, f) && Covers(q, f.satelliteId, st, t);
      if q !in Kept(rows, f) {
        var p :| p in passes && q == ToRow(f.satelliteId, p)
                 && !(p.station.id in InProgress(Kept(rows, f), f) && p.aos <= f.predictedFrom);
        RunReachesBack(sky, origin, st, f, passes, p, r);
      }
      assert false;
    }
  }

  /** A predicted pass covering the end of a cut row starts where prediction does. */
  lemma RunReachesBack(sky: Sky, origin: Time, st: Station, f: Refresh, passes: seq<PassWindow>, p: PassWindow, r: Stored)
    requires Regular(f, origin) && st in f.stations
    requires multiset(passes) == AllPasses(sky, f.stations, f.Sampling())
    requires p in passes && p.station.id == st.id && p.aos <= r.los < p.los
    requires Sound(sky, origin, st, r) && r.aos <= f.now < r.los
    requires forall t :: OnGrid(t, origin) && f.predictedFrom <= t <= f.now ==> Visible(sky, st, t)
    ensures p.aos == f.predictedFrom
  {
    hide AllPasses, Peak, Sweep.Count;
    PredictedStation(sky, f, passes, st, p);
    var i, j :| MaximalRun(sky, st, f.Sampling(), i, j) && p == PassOf(sky, st, f.Sampling(), i, j);
    var t := f.Sampling().At(i - 1);
    IndexGrid(f, origin, i - 1);
    assert i > 0 ==> !Visible(sky, st, t);
    assert i > 0 ==> f.predictedFrom <= t < r.los;
    assert i > 0 ==> f.now < t;
  }

  // ---------------------------------------------------------------------
  // Main results, over any sequence of refreshes
  // ---------------------------------------------------------------------

  /** The table after refreshes of any satellites, oldest first; each satellite
      has one sky throughout, and the station stays in use. */
  ghost predicate History(skies: string -> Sky, origin: Time, st: Station, fs: seq<Refresh>, tables: seq<seq<Stored>>) {
    && |tables| == |fs| + 1 && tables[0] == []
    && forall n :: 0 <= n < |fs| ==>
         && Regular(fs[n], origin) && st in fs[n].stations
         && exists passes :: multiset(passes) == AllPasses(skies(fs[n].satelliteId), fs[n].stations, fs[n].Sampling())
                             && tables[n + 1] == Refreshed(tables[n], passes, fs[n])
  }

  lemma {:induction false} HistoryStep(skies: string -> Sky, origin: Time, st: Station, fs: seq<Refresh>, tables: seq<seq<Stored>>, n: nat)
      returns (passes: seq<PassWindow>)
    requires History(skies, origin, st, fs, tables) && n < |fs|
    ensures Regular(fs[n], origin) && st in fs[n].stations
    ensures multiset(passes) == AllPasses(skies(fs[n].satelliteId), fs[n].stations, fs[n].Sampling())
    ensures tables[n + 1] == Refreshed(tables[n], passes, fs[n])
  {
    hide AllPasses, Refreshed;
    passes :| multiset(passes) == AllPasses(skies(fs[n].satelliteId), fs[n].stations, fs[n].Sampling())
              && tables[n + 1] == Refreshed(tables[n], passes, fs[n]);
  }

  lemma HistoryBegins(skies: string -> Sky, origin: Time, st: Station, fs: seq<Refresh>, tables: seq<seq<Stored>>)
    requires History(skies, origin, st, fs, tables)
    ensures |tables| == |fs| + 1 && tables[0] == []
  {
    hide AllPasses, Refreshed;
  }

  /** A refresh neither adds nor removes rows of another satellite. */
  lemma OtherSatellitesAreSpared(rows: seq<Stored>, passes: seq<PassWindow>, f: Refresh, r: Stored)
    requires r.satelliteId != f.satelliteId
    ensures r in Refreshed(rows, passes, f) <==> r in rows
  {
  }

  lemma UnexpiredStays(rows: seq<Stored>, passes: seq<PassWindow>, f: Refresh, r: Stored)
    requires r in rows && !Expired(r, f)
    ensures r in Refreshed(rows, passes, f)
  {
    assert r in Kept(rows, f);
  }

  lemma OtherRefreshKeepsSound(sky: Sky, origin: Time, satelliteId: string, st: Station, f: Refresh,
                               rows: seq<Stored>, passes: seq<PassWindow>)
    requires satelliteId != f.satelliteId && RowsSound(sky, origin, satelliteId, st, rows)
    ensures RowsSound(sky, origin, satelliteId, st, Refreshed(rows, passes, f))
  {
    hide Refreshed, Sound;
    forall r | r in Refreshed(rows, passes, f) && r.satelliteId == satelliteId ensures r in rows {
      OtherSatellitesAreSpared(rows, passes, f, r);
    }
  }

  lemma {:induction false} HistoryIsSound(skies: string -> Sky, origin: Time, st: Station, fs: seq<Refresh>,
                                          tables: seq<seq<Stored>>, n: nat, satelliteId: string)
    requires History(skies, origin, st, fs, tables) && n <= |fs|
    ensures RowsSound(skies(satelliteId), origin, satelliteId, st, tables[n])
  {
    HistoryBegins(skies, origin, st, fs, tables);
    if n > 0 {
      hide *;
      HistoryIsSound(skies, origin, st, fs, tables, n - 1, satelliteId);
      var passes := HistoryStep(skies, origin, st, fs, tables, n - 1);
      if fs[n - 1].satelliteId == satelliteId {
        RefreshKeepsSound(skies(satelliteId), origin, st, fs[n - 1], tables[n - 1], passes);
      } else {
        OtherRefreshKeepsSound(skies(satelliteId), origin, satelliteId, st, fs[n - 1], tables[n - 1], passes);
      }
    }
  }

  /** After any sequence of refreshes, the stored windows agree with the sky up
      to the new horizon exactly when the latest refresh did not meet a pass
      in progress that an earlier horizon had cut. */
  lemma RefreshesAgreeWithTheSky(skies: string -> Sky, origin: Time, st: Station, fs: seq<Refresh>,
                                 tables: seq<seq<Stored>>, n: nat)
    requires History(skies, origin, st, fs, tables) && n < |fs|
    ensures var sky := skies(fs[n].satelliteId);
            Exact(sky, origin, st, fs[n], tables[n + 1]) <==> !CutInProgress(sky, origin, st, fs[n], tables[n])
  {
    HistoryIsSound(skies, origin, st, fs, tables, n, fs[n].satelliteId);
    var passes := HistoryStep(skies, origin, st, fs, tables, n);
    var sky := skies(fs[n].satelliteId);
    if CutInProgress(sky, origin, st, fs[n], tables[n]) {
      CutIsInexact(sky, origin, st, fs[n], tables[n], passes);
    } else {
      UncutIsExact(sky, origin, st, fs[n], tables[n], passes);
    }
  }

  /** After any sequence of refreshes, every stored row tells of a pass of its
      satellite that one of them predicted. */
  lemma {:induction false} StoredRowsAreTold(skies: string -> Sky, origin: Time, st: Station, fs: seq<Refresh>,
                                             tables: seq<seq<Stored>>, n: nat, r: Stored) returns (m: nat)
    requires History(skies, origin, st, fs, tables) && n <= |fs| && n < |tables| && r in tables[n]
    ensures m < n && Told(skies(r.satelliteId), fs[m], r)
  {
    HistoryBegins(skies, origin, st, fs, tables);
    hide *;
    m := n - 1;
    var passes := HistoryStep(skies, origin, st, fs, tables, m);
    AddedRowsAreTold(skies(fs[m].satelliteId), tables[m], passes, fs[m], r);
    if r in tables[m] {
      m := StoredRowsAreTold(skies, origin, st, fs, tables, m, r);
    }
  }

  /** A stored pass that has started stays until a week after its LOS. */
  lemma {:induction false} StartedPassesStay(skies: string -> Sky, origin: Time, st: Station, fs: seq<Refresh>,
                                             tables: seq<seq<Stored>>, r: Stored, m: nat, n: nat)
    requires History(skies, origin, st, fs, tables) && m <= n <= |fs| && r in tables[m]
    requires forall k :: m <= k < n ==> r.aos <= fs[k].now && fs[k].now - WEEK <= r.los
    ensures r in tables[n]
    decreases n - m
  {
    hide History, AllPasses, Refreshed, Regular, RowsSound;
    HistoryBegins(skies, origin, st, fs, tables);
    if m < n {
      StartedPassesStay(skies, origin, st, fs, tables, r, m, n - 1);
      var passes := HistoryStep(skies, origin, st, fs, tables, n - 1);
      assert !Expired(r, fs[n - 1]);
      UnexpiredStays(tables[n - 1], passes, fs[n - 1], r);
    }
  }

  // ---------------------------------------------------------------------
  // Two refreshes that cut a pass
  // ---------------------------------------------------------------------

  lemma SoloIsAll(sky: Sky, st: Station, sw: Sweep)
    requires sw.Valid()
    ensures multiset(Solo(sky, st, sw)) == AllPasses(sky, [st], sw)
  {
    var lists := SoloLists(sky, [st], sw, 1);
    assert lists[..0] == [] && Together(lists[..0]) == multiset{};
  }

  /** A satellite that never sets has one pass, from the first sample to the horizon. */
  lemma NeverSets(sky: Sky, st: Station, sw: Sweep, p: PassWindow)
    requires sw.Valid() && sw.Count() > 0 && forall k :: Sees(sky, st, sw, k)
    ensures p in Solo(sky, st, sw) <==> p == PassOf(sky, st, sw, 0, sw.Count())
  {
    SoloIsExact(sky, st, sw, p);
    assert MaximalRun(sky, st, sw, 0, sw.Count());
    forall i, j | MaximalRun(sky, st, sw, i, j) ensures i == 0 && j == sw.Count() {
      assert i > 0 ==> Sees(sky, st, sw, i - 1);
      assert j < sw.Count() ==> Sees(sky, st, sw, j);
    }
  }

  lemma FirstTable(sky: Sky, st: Station, f: Refresh, r: Stored)
    requires f.stations == [st] && forall k :: Sees(sky, st, f.Sampling(), k)
    ensures r in Refreshed([], Solo(sky, st, f.Sampling()), f) <==>
            r == ToRow(f.satelliteId, PassOf(sky, st, f.Sampling(), 0, f.Sampling().Count()))
  {
    var sw := f.Sampling();
    LastSampleIsHorizon(f);
    var whole := PassOf(sky, st, sw, 0, sw.Count());
    NeverSets(sky, st, sw, whole);
    forall p | p in Solo(sky, st, sw) ensures p == whole { NeverSets(sky, st, sw, p); }
  }

  lemma OneRowIsCut(sky: Sky, st: Station, g: Refresh, rows: seq<Stored>, r: Stored)
    requires g == Refresh("sat", [st], STEP, STEP) && forall t :: Visible(sky, st, t)
    requires r.satelliteId == "sat" && r.stationId == st.id && r.aos == 0 && r.los == HORIZON
    requires forall q :: q in rows <==> q == r
    ensures CutInProgress(sky, 0, st, g, rows)
  {
    assert r in rows && Covers(r, "sat", st, g.now);
  }

  /** The table after the first refresh, under a satellite that never sets. */
  lemma {:induction false} TableOfOne(sky: Sky, st: Station, f: Refresh) returns (r: Stored)
    requires f == Refresh("sat", [st], 0, 0) && forall t :: Visible(sky, st, t)
    ensures r.satelliteId == "sat" && r.stationId == st.id && r.aos == 0 && r.los == HORIZON
    ensures forall q :: q in Refreshed([], Solo(sky, st, f.Sampling()), f) <==> q == r
  {
    assert forall k :: Sees(sky, st, f.Sampling(), k) <==> Visible(sky, st, f.Sampling().At(k));
    r := ToRow("sat", PassOf(sky, st, f.Sampling(), 0, f.Sampling().Count()));
    hide Refreshed, Solo, Visible, Sees, Peak;
    forall q ensures q in Refreshed([], Solo(sky, st, f.Sampling()), f) <==> q == r { FirstTable(sky, st, f, q); }
  }

  /** A satellite that never sets. */
  const EVER_UP: Sky := Sky((s, t) => 90.0, (s, t) => 0.0)

  const ANYWHERE: Station := Station(1, 10.0)

  /** The exact condition can fail: a satellite that never sets, refreshed at two
      successive samples.  The first horizon cuts the pass, the second refresh
      leaves its own copy out, and the last sample is covered by nothing. */
  lemma {:induction false} CutPassIsLost() returns (fs: seq<Refresh>, tables: seq<seq<Stored>>)
    ensures |fs| == 2 && fs[0].satelliteId == fs[1].satelliteId && History(name => EVER_UP, 0, ANYWHERE, fs, tables)
    ensures CutInProgress(EVER_UP, 0, ANYWHERE, fs[1], tables[1]) && !Exact(EVER_UP, 0, ANYWHERE, fs[1], tables[2])
  {
    var skies, sky, st := (name: string) => EVER_UP, EVER_UP, ANYWHERE;
    var f, g := Refresh("sat", [st], 0, 0), Refresh("sat", [st], STEP, STEP);
    assert forall t :: Visible(sky, st, t);
    assert Regular(f, 0) && Regular(g, 0);
    hide History, Refreshed, Solo, AllPasses, Visible, CutInProgress, Exact, Regular;
    var ps, qs := Solo(sky, st, f.Sampling()), Solo(sky, st, g.Sampling());
    SoloIsAll(sky, st, f.Sampling());
    SoloIsAll(sky, st, g.Sampling());
    fs := [f, g];
    tables := [[], Refreshed([], ps, f), Refreshed(Refreshed([], ps, f), qs, g)];
    IsHistory(skies, st, f, g, ps, qs);
    var r := TableOfOne(sky, st, f);
    OneRowIsCut(sky, st, g, tables[1], r);
    RefreshesAgreeWithTheSky(skies, 0, st, fs, tables, 1);
  }

  lemma {:induction false} IsHistory(skies: string -> Sky, st: Station, f: Refresh, g: Refresh, ps: seq<PassWindow>, qs: seq<PassWindow>)
    requires Regular(f, 0) && Regular(g, 0) && f.stations == g.stations == [st]
    requires multiset(ps) == AllPasses(skies(f.satelliteId), f.stations, f.Sampling())
    requires multiset(qs) == AllPasses(skies(g.satelliteId), g.stations, g.Sampling())
    ensures History(skies, 0, st, [f, g], [[], Refreshed([], ps, f), Refreshed(Refreshed([], ps, f), qs, g)])
  {
    hide AllPasses, Refreshed, Regular;
    var fs := [f, g];
    var tables := [[], Refreshed([], ps, f), Refreshed(Refreshed([], ps, f), qs, g)];
    forall n | 0 <= n < |fs|
      ensures exists passes :: multiset(passes) == AllPasses(skies(fs[n].satelliteId), fs[n].stations, fs[n].Sampling())
                               && tables[n + 1] == Refreshed(tables[n], passes, fs[n])
    {
      var passes := if n == 0 then ps else qs;
      assert multiset(passes) == AllPasses(skies(fs[n].satelliteId), fs[n].stations, fs[n].Sampling());
      assert tables[n + 1] == Refreshed(tables[n], passes, fs[n]);
    }
  }
}
