/** Uplink windows as the scheduler queries them: pass_schedule joined with
    the ground stations (backend/src/scheduler/service.py). */
module UplinkWindow {
  import opened Basics
  import opened PassRuns

  const MIN_WINDOW_LEFT: Time := 30 * SECOND

  /** A row of the join; `uplink` means the station can transmit and is active. */
  datatype Pass = Pass(satelliteId: string, aos: Time, los: Time, uplink: bool)

  function Latest(a: Time, b: Time): Time {
    if a < b then b else a
  }

  predicate Open(p: Pass, satelliteId: string, t: Time) {
    p.satelliteId == satelliteId && p.uplink && p.aos <= t < p.los
  }

  predicate Usable(p: Pass, satelliteId: string, now: Time) {
    p.satelliteId == satelliteId && p.uplink && p.los > now + MIN_WINDOW_LEFT
  }

  /** _window_open */
  predicate WindowOpen(passes: seq<Pass>, satelliteId: string, now: Time): (open: bool)
    ensures open <==> exists p :: p in passes && p.satelliteId == satelliteId && p.uplink && p.aos <= now < p.los
  {
    exists i :: 0 <= i < |passes| && Open(passes[i], satelliteId, now)
  }

  /** p is the pass that planning would take. */
  predicate FirstUsable(passes: seq<Pass>, satelliteId: string, now: Time, p: Pass) {
    && p in passes && Usable(p, satelliteId, now)
    && forall q :: q in passes && Usable(q, satelliteId, now) ==> p.aos <= q.aos
  }

  /** The start of the current or next usable window; none if there is no such window. */
  ghost predicate IsNextStart(passes: seq<Pass>, satelliteId: string, now: Time, start: Option<Time>) {
    match start
    case None => forall p :: p in passes ==> !Usable(p, satelliteId, now)
    case Some(t) => exists p :: FirstUsable(passes, satelliteId, now, p) && t == Latest(p.aos, now)
  }

  /** A pass over a station in use that lasts for more than another 30 seconds. */
  predicate WorthWaiting(p: Pass, satelliteId: string, now: Time) {
    p.satelliteId == satelliteId && p.uplink && p.los - now > 30_000_000
  }

  predicate EarliestWorthWaiting(passes: seq<Pass>, satelliteId: string, now: Time, p: Pass) {
    && p in passes && WorthWaiting(p, satelliteId, now)
    && forall q :: q in passes && WorthWaiting(q, satelliteId, now) ==> p.aos <= q.aos
  }

  lemma WorthWaitingIs(passes: seq<Pass>, satelliteId: string, now: Time)
    ensures forall p :: Usable(p, satelliteId, now) <==> WorthWaiting(p, satelliteId, now)
    ensures forall p :: FirstUsable(passes, satelliteId, now, p) <==> EarliestWorthWaiting(passes, satelliteId, now, p)
  {
    assert forall p :: Usable(p, satelliteId, now) <==> WorthWaiting(p, satelliteId, now);
    hide Usable, WorthWaiting;
  }

  /** The planned start is that of the earliest such pass, or now if it has begun. */
  lemma NextStartIs(passes: seq<Pass>, satelliteId: string, now: Time, start: Option<Time>)
    ensures IsNextStart(passes, satelliteId, now, start) <==>
            match start
            case None => forall p :: p in passes ==> !WorthWaiting(p, satelliteId, now)
            case Some(t) => exists p :: EarliestWorthWaiting(passes, satelliteId, now, p) && t == if p.aos > now then p.aos else now
  {
    WorthWaitingIs(passes, satelliteId, now);
    hide Usable, WorthWaiting, FirstUsable, EarliestWorthWaiting;
    assert forall p: Pass :: Latest(p.aos, now) == if p.aos > now then p.aos else now;
    hide Latest;
  }

  /** _next_pass_aos */
  method NextPassAos(passes: seq<Pass>, satelliteId: string, now: Time) returns (start: Option<Time>)
    ensures IsNextStart(passes, satelliteId, now, start)
  {
    var best: Option<Pass> := None;
    for i := 0 to |passes|
      invariant best.None? ==> forall j :: 0 <= j < i ==> !Usable(passes[j], satelliteId, now)
      invariant best.Some? ==> FirstUsable(passes[..i], satelliteId, now, best.value)
    {
      var p := passes[i];
      if Usable(p, satelliteId, now) && (best.None? || p.aos < best.value.aos) {
        best := Some(p);
      }
      assert passes[..i + 1] == passes[..i] + [p];
    }
    assert passes[..|passes|] == passes;
    start := if best.Some? then Some(Latest(best.value.aos, now)) else None;
  }

  /** Nothing usable opens between now and the planned start. */
  lemma NoEarlierWindow(passes: seq<Pass>, satelliteId: string, now: Time, p: Pass, q: Pass, t: Time)
    requires FirstUsable(passes, satelliteId, now, p)
    requires q in passes && Usable(q, satelliteId, now)
    requires now <= t < Latest(p.aos, now)
    ensures !Open(q, satelliteId, t)
  {
  }

  /** The planned start is inside the chosen pass exactly when that pass is not
      an empty one (prediction leaves one, with aos == los, when a satellite
      rises on the very last sample). */
  lemma PlannedStartIsOpen(passes: seq<Pass>, satelliteId: string, now: Time, p: Pass)
    requires FirstUsable(passes, satelliteId, now, p)
    ensures Open(p, satelliteId, Latest(p.aos, now)) <==> p.aos < p.los
  {
  }

  const MINUTE: Sweep := Sweep(0, 60 * SECOND, 30 * SECOND)

  /** A satellite that rises when the minute is over. */
  const LATE: Sky := Sky((s, t) => if t >= 60 * SECOND then 90.0 else 0.0, (s, t) => 0.0)

  /** Such a pass exists, and is planned for: the satellite rises on the last of
      three samples. */
  lemma {:induction false} EmptyPassIsPlanned() returns (p: PassWindow)
    ensures MINUTE.Valid() && p in Solo(LATE, Station(1, 10.0), MINUTE)
    ensures var row := Pass("sat", p.aos, p.los, true);
            FirstUsable([row], "sat", 0, row) && !WindowOpen([row], "sat", Latest(row.aos, 0))
  {
    var sky, st, sw := LATE, Station(1, 10.0), MINUTE;
    assert sw.At(0) == 0 && sw.At(1) == 30 * SECOND && sw.At(2) == sw.end && sw.At(3) > sw.end;
    p := PassOf(sky, st, sw, 2, 3);
    assert MaximalRun(sky, st, sw, 2, 3);
    SoloIsExact(sky, st, sw, p);
  }
}
