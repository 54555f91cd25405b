/** Which alarm is active, over whole traces, in terms of the scores alone
    (backend/src/anomaly/detector.py). */
module AnomalyHysteresis {
  import opened Basics
  import opened AnomalyModel
  import opened AnomalyIsolation

  /** What reading j scores against the window of its key; none without nine earlier values. */
  function JudgedScore(c: Config, rs: seq<Reading>, j: nat): Option<real>
    requires j < |rs|
  {
    var window := View(After(c, rs[..j]), rs[j].key).window;
    if |window| < 9 then None else Score(c.sqrt, window, rs[j].value)
  }

  /** Reading j is of the key, and scores at least this. */
  predicate Reaches(c: Config, rs: seq<Reading>, j: nat, key: Key, least: real) {
    j < |rs| && rs[j].key == key && JudgedScore(c, rs, j).Some? && JudgedScore(c, rs, j).value >= least
  }

  /** Reading j is of the key, and back in the noise. */
  predicate Recovers(c: Config, rs: seq<Reading>, j: nat, key: Key) {
    j < |rs| && rs[j].key == key && JudgedScore(c, rs, j).Some? && JudgedScore(c, rs, j).value < 1.6
  }

  /** Before reading n, the key has reached this score and not recovered since. */
  ghost predicate Unrecovered(c: Config, rs: seq<Reading>, n: nat, key: Key, least: real) {
    exists j :: 0 <= j < n && Reaches(c, rs, j, key, least) && forall m :: j < m < n ==> !Recovers(c, rs, m, key)
  }

  lemma JudgedNeedsBaseline(c: Config, window: seq<real>, value: real)
    ensures Judged(c, window, value) <==> |window| >= 9
  {
    hide Mean, Deviation, Floor;
  }

  lemma OneMoreUnrecovered(c: Config, rs: seq<Reading>, n: nat, key: Key, least: real)
    ensures Unrecovered(c, rs, n + 1, key, least) <==>
            Reaches(c, rs, n, key, least) || (Unrecovered(c, rs, n, key, least) && !Recovers(c, rs, n, key))
  {
    hide Reaches, Recovers;
    if Unrecovered(c, rs, n + 1, key, least) && !Reaches(c, rs, n, key, least) {
      var j :| 0 <= j < n + 1 && Reaches(c, rs, j, key, least) && forall m :: j < m < n + 1 ==> !Recovers(c, rs, m, key);
      assert j < n;
    }
    if Unrecovered(c, rs, n, key, least) && !Recovers(c, rs, n, key) {
      var j :| 0 <= j < n && Reaches(c, rs, j, key, least) && forall m :: j < m < n ==> !Recovers(c, rs, m, key);
      assert forall m :: j < m < n + 1 ==> !Recovers(c, rs, m, key);
    }
  }

  /** The alarm that a history of scores leaves active. */
  ghost function Standing(c: Config, rs: seq<Reading>, n: nat, key: Key): Option<Band> {
    if Unrecovered(c, rs, n, key, 3.0) then Some(Critical)
    else if Unrecovered(c, rs, n, key, 2.0) then Some(Warning)
    else None
  }

  lemma LowerIsReached(c: Config, rs: seq<Reading>, n: nat, key: Key)
    requires Unrecovered(c, rs, n, key, 3.0)
    ensures Unrecovered(c, rs, n, key, 2.0)
  {
    hide JudgedScore, Recovers;
    var j :| 0 <= j < n && Reaches(c, rs, j, key, 3.0) && forall m :: j < m < n ==> !Recovers(c, rs, m, key);
    assert Reaches(c, rs, j, key, 2.0);
  }

  lemma ActiveMoves(c: Config, d: Detector, r: Reading, key: Key)
    ensures var before, after := Get(d.active, key), Get(Feed(c, d, r).active, key);
            var z := Score(c.sqrt, View(d, r.key).window, r.value);
            if r.key != key || |View(d, r.key).window| < 9 then after == before
            else z.Some? && after == Decide(Alarm(before, Get(d.lastEmit, key)), z.value, r.now, c.cooldown).active
  {
    JudgedNeedsBaseline(c, View(d, r.key).window, r.value);
    hide Score, Decide, Tracked, Narrowed;
  }

  lemma StepDecides(a: Alarm, z: real, now: Time, cooldown: Time)
    ensures Decide(a, z, now, cooldown).active ==
            if z < 1.6 then None
            else if z >= 3.0 then Some(Critical)
            else if z >= 2.0 && a.active.None? then Some(Warning)
            else a.active
  {
  }

  lemma StandingMoves(c: Config, rs: seq<Reading>, n: nat, key: Key, d: Detector)
    requires n < |rs| && d == After(c, rs[..n]) && Get(d.active, key) == Standing(c, rs, n, key)
    ensures Get(Feed(c, d, rs[n]).active, key) == Standing(c, rs, n + 1, key)
  {
    hide After, Feed, Get, Unrecovered, Score, Decide, View;
    ActiveMoves(c, d, rs[n], key);
    OneMoreUnrecovered(c, rs, n, key, 3.0);
    OneMoreUnrecovered(c, rs, n, key, 2.0);
    if Unrecovered(c, rs, n, key, 3.0) { LowerIsReached(c, rs, n, key); }
    if JudgedScore(c, rs, n).Some? {
      StepDecides(Alarm(Get(d.active, key), Get(d.lastEmit, key)), JudgedScore(c, rs, n).value, rs[n].now, c.cooldown);
    }
  }

  lemma AfterNext(c: Config, rs: seq<Reading>, n: nat)
    requires n < |rs|
    ensures After(c, rs[..n + 1]) == Feed(c, After(c, rs[..n]), rs[n])
  {
    assert rs[..n + 1][..n] == rs[..n];
    hide Feed;
  }

  lemma NothingStands(c: Config, rs: seq<Reading>, key: Key)
    ensures Get(After(c, rs[..0]).active, key) == Standing(c, rs, 0, key)
  {
    assert rs[..0] == [];
  }

  /** In every trace, the active alarm of a key is the highest severity it has
      reached and not recovered from since. */
  lemma {:induction false} ActiveIsStanding(c: Config, rs: seq<Reading>, n: nat, key: Key)
    requires n <= |rs|
    ensures Get(After(c, rs[..n]).active, key) == Standing(c, rs, n, key)
    decreases n
  {
    hide *;
    if n == 0 {
      NothingStands(c, rs, key);
    } else {
      ActiveIsStanding(c, rs, n - 1, key);
      StandingMoves(c, rs, n - 1, key, After(c, rs[..n - 1]));
      AfterNext(c, rs, n - 1);
    }
  }
}
