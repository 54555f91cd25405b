/** Fault detection: health assessment and alert de-duplication
    (backend/src/fdir/monitor.py). */
module FdirMonitor {
  import opened Basics

  const BATTERY_CRITICAL: real := 3.3
  const TEMP_OBCS_CRITICAL: real := 65.0
  const TEMP_EPS_CRITICAL: real := 55.0
  const STALE_TELEMETRY: Time := 10 * 60 * SECOND
  const PASS_GRACE: Time := 5 * 60 * SECOND

  datatype Observation = Observation(time: Time, battery: Option<real>, tempObcs: Option<real>, tempEps: Option<real>)

  datatype LastPass = LastPass(station: string, aos: Time, los: Time)

  datatype Field = Battery | TempObcs | TempEps

  datatype Warning = MissedPass(pass: LastPass) | Stale(age: Time) | Missing(field: Field) | OutOfRange(field: Field, value: real)

  /** A warning and the data point it rests on. */
  datatype Finding = Finding(warning: Warning, evidenceAt: Time)

  function Reading(o: Observation, f: Field): Option<real> {
    match f case Battery => o.battery case TempObcs => o.tempObcs case TempEps => o.tempEps
  }

  predicate Bad(f: Field, v: real) {
    match f
    case Battery => v < BATTERY_CRITICAL
    case TempObcs => v > TEMP_OBCS_CRITICAL
    case TempEps => v > TEMP_EPS_CRITICAL
  }

  const CHECKS: seq<Field> := [Battery, TempObcs, TempEps]

  function CheckField(o: Observation, f: Field): seq<Finding> {
    match Reading(o, f)
    case None => [Finding(Missing(f), o.time)]
    case Some(v) => if Bad(f, v) then [Finding(OutOfRange(f, v), o.time)] else []
  }

  function CheckFields(o: Observation, n: nat): seq<Finding>
    requires n <= |CHECKS|
  {
    if n == 0 then [] else CheckFields(o, n - 1) + CheckField(o, CHECKS[n - 1])
  }

  lemma AllFields(o: Observation)
    ensures CheckFields(o, |CHECKS|) == CheckField(o, Battery) + CheckField(o, TempObcs) + CheckField(o, TempEps)
  {
    assert CheckFields(o, 1) == CheckField(o, Battery);
    assert CheckFields(o, 2) == CheckField(o, Battery) + CheckField(o, TempObcs);
  }

  function CheckLink(o: Observation, lastPass: Option<LastPass>, hasPasses: bool, now: Time): seq<Finding> {
    if hasPasses then
      if lastPass.Some? && o.time < lastPass.value.aos
      then [Finding(MissedPass(lastPass.value), lastPass.value.los)] else []
    else if now - o.time > STALE_TELEMETRY then [Finding(Stale(now - o.time), o.time)] else []
  }

  /** Everything that is wrong with a satellite now. */
  function Findings(latest: Option<Observation>, lastPass: Option<LastPass>, hasPasses: bool, now: Time): seq<Finding> {
    match latest
    case None => if lastPass.Some? then [Finding(MissedPass(lastPass.value), lastPass.value.los)] else []
    case Some(o) => CheckLink(o, lastPass, hasPasses, now) + CheckFields(o, |CHECKS|)
  }

  /** What is wrong with a satellite, warning by warning. */
  predicate Justified(latest: Option<Observation>, lastPass: Option<LastPass>, hasPasses: bool, now: Time, f: Finding) {
    match f.warning
    case MissedPass(p) =>
      lastPass == Some(p) && f.evidenceAt == p.los
      && (latest.None? || (hasPasses && latest.value.time < p.aos))
    case Stale(age) =>
      latest.Some? && !hasPasses && f.evidenceAt == latest.value.time && age == now - latest.value.time > 600_000_000
    case Missing(field) =>
      latest.Some? && f.evidenceAt == latest.value.time
      && (field == Battery ==> latest.value.battery.None?)
      && (field == TempObcs ==> latest.value.tempObcs.None?)
      && (field == TempEps ==> latest.value.tempEps.None?)
    case OutOfRange(field, v) =>
      latest.Some? && f.evidenceAt == latest.value.time
      && (field == Battery ==> latest.value.battery == Some(v) && v < 3.3)
      && (field == TempObcs ==> latest.value.tempObcs == Some(v) && v > 65.0)
      && (field == TempEps ==> latest.value.tempEps == Some(v) && v > 55.0)
  }

  /** The field a warning is about, if it is about one. */
  function FieldOf(w: Warning): Option<Field> {
    match w
    case Missing(field) => Some(field)
    case OutOfRange(field, _) => Some(field)
    case _ => None
  }

  lemma FieldFindings(o: Observation, lastPass: Option<LastPass>, hasPasses: bool, now: Time, field: Field, f: Finding)
    ensures f in CheckField(o, field) <==>
            FieldOf(f.warning) == Some(field) && Justified(Some(o), lastPass, hasPasses, now, f)
  {
  }

  lemma LinkFindings(o: Observation, lastPass: Option<LastPass>, hasPasses: bool, now: Time, f: Finding)
    ensures f in CheckLink(o, lastPass, hasPasses, now) <==>
            FieldOf(f.warning).None? && Justified(Some(o), lastPass, hasPasses, now, f)
  {
  }

  /** These are found, and nothing else. */
  lemma FindingsExactly(latest: Option<Observation>, lastPass: Option<LastPass>, hasPasses: bool, now: Time, f: Finding)
    ensures f in Findings(latest, lastPass, hasPasses, now) <==> Justified(latest, lastPass, hasPasses, now, f)
  {
    if latest.Some? {
      var o := latest.value;
      AllFields(o);
      LinkFindings(o, lastPass, hasPasses, now, f);
      FieldFindings(o, lastPass, hasPasses, now, Battery, f);
      FieldFindings(o, lastPass, hasPasses, now, TempObcs, f);
      FieldFindings(o, lastPass, hasPasses, now, TempEps, f);
      hide CheckField, CheckFields, CheckLink, Justified;
    }
  }

  /** The newest evidence of some findings. */
  function Newest(fs: seq<Finding>): (t: Option<Time>)
    ensures t.None? <==> fs == []
    ensures t.Some? ==> (exists f :: f in fs && f.evidenceAt == t.value) && forall f :: f in fs ==> f.evidenceAt <= t.value
  {
    if fs == [] then None else
    var n := |fs| - 1;
    assert fs == fs[..n] + [fs[n]];
    match Newest(fs[..n])
    case None => assert fs[n] in fs; Some(fs[n].evidenceAt)
    case Some(t) =>
      assert fs[n] in fs;
      assert forall f :: f in fs[..n] ==> f in fs;
      if fs[n].evidenceAt > t then Some(fs[n].evidenceAt) else Some(t)
  }

  function Warnings(fs: seq<Finding>): seq<Warning> {
    if fs == [] then [] else Warnings(fs[..|fs| - 1]) + [fs[|fs| - 1].warning]
  }

  lemma Collect(fs: seq<Finding>, f: Finding)
    ensures Warnings(fs + [f]) == Warnings(fs) + [f.warning]
    ensures Newest(fs + [f]) ==
            if Newest(fs).Some? && Newest(fs).value >= f.evidenceAt then Newest(fs) else Some(f.evidenceAt)
  {
    assert (fs + [f])[..|fs|] == fs;
  }

  class Assessment {
    var warnings: seq<Warning>
    var evidenceAt: Option<Time>
    ghost var findings: seq<Finding>

    ghost predicate Valid()
      reads this
    {
      warnings == Warnings(findings) && evidenceAt == Newest(findings)
    }

    constructor ()
      ensures Valid() && findings == []
    {
      warnings, evidenceAt, findings := [], None, [];
    }

    method Add(warning: Warning, at: Time)
      requires Valid()
      modifies this
      ensures Valid() && findings == old(findings) + [Finding(warning, at)]
    {
      Collect(findings, Finding(warning, at));
      warnings := warnings + [warning];
      if evidenceAt.None? || at > evidenceAt.value {
        evidenceAt := Some(at);
      }
      findings := findings + [Finding(warning, at)];
    }

    /** Is the satellite heard when it should be? */
    method CheckContact(o: Observation, lastPass: Option<LastPass>, hasPasses: bool, now: Time)
      requires Valid() && findings == []
      modifies this
      ensures Valid() && findings == CheckLink(o, lastPass, hasPasses, now)
    {
      if hasPasses {
        if lastPass.Some? && o.time < lastPass.value.aos {
          Add(MissedPass(lastPass.value), lastPass.value.los);
        }
      } else {
        var age := now - o.time;
        if age > STALE_TELEMETRY {
          Add(Stale(age), o.time);
        }
      }
    }

    /** One field: missing and out of range are different faults. */
    method Check(o: Observation, f: Field)
      requires Valid()
      modifies this
      ensures Valid() && findings == old(findings) + CheckField(o, f)
    {
      var value := Reading(o, f);
      if value.None? {
        Add(Missing(f), o.time);
      } else if Bad(f, value.value) {
        Add(OutOfRange(f, value.value), o.time);
      }
    }
  }

  lemma FieldsStep(o: Observation, i: nat)
    requires i < |CHECKS|
    ensures CheckFields(o, i + 1) == CheckFields(o, i) + CheckField(o, CHECKS[i])
  {
  }

  /** assess: collects exactly the findings, and the newest evidence among them. */
  method Assess(latest: Option<Observation>, lastPass: Option<LastPass>, hasPasses: bool, now: Time) returns (result: Assessment)
    ensures fresh(result) && result.Valid()
    ensures result.findings == Findings(latest, lastPass, hasPasses, now)
  {
    hide Newest, Warnings, CheckField, CheckLink, CheckFields;
    result := new Assessment();
    if latest.None? {
      if lastPass.Some? {
        result.Add(MissedPass(lastPass.value), lastPass.value.los);
      }
      return;
    }
    var o := latest.value;
    result.CheckContact(o, lastPass, hasPasses, now);
    NoFields(o);
    for i := 0 to |CHECKS|
      invariant fresh(result) && result.Valid()
      invariant result.findings == CheckLink(o, lastPass, hasPasses, now) + CheckFields(o, i)
    {
      result.Check(o, CHECKS[i]);
      FieldsStep(o, i);
    }
  }

  lemma NoFields(o: Observation)
    ensures CheckFields(o, 0) == []
  {
  }

  lemma FieldEvidence(o: Observation, f: Field)
    ensures forall x :: x in CheckField(o, f) ==> x.evidenceAt == o.time
  {
  }

  lemma LinkEvidence(o: Observation, lastPass: Option<LastPass>, hasPasses: bool, now: Time)
    ensures forall x :: x in CheckLink(o, lastPass, hasPasses, now) ==>
              x.evidenceAt == o.time || (lastPass.Some? && x.evidenceAt == lastPass.value.los)
  {
  }

  /** Every finding rests on the latest observation or on the end of the last pass. */
  lemma EvidenceIsData(latest: Option<Observation>, lastPass: Option<LastPass>, hasPasses: bool, now: Time)
    ensures forall f :: f in Findings(latest, lastPass, hasPasses, now) ==>
              || (latest.Some? && f.evidenceAt == latest.value.time)
              || (lastPass.Some? && f.evidenceAt == lastPass.value.los)
  {
    hide CheckField, CheckFields, CheckLink;
    if latest.Some? {
      AllFields(latest.value);
      FieldEvidence(latest.value, Battery);
      FieldEvidence(latest.value, TempObcs);
      FieldEvidence(latest.value, TempEps);
      LinkEvidence(latest.value, lastPass, hasPasses, now);
    }
  }

  // ---------------------------------------------------------------------
  // Alerts
  // ---------------------------------------------------------------------

  datatype Alert = Alert(satelliteId: string, warnings: seq<Warning>, triggeredAt: Time, acknowledged: bool)

  /** _ALREADY_ALERTED_SQL */
  predicate AlreadyAlerted(alerts: seq<Alert>, satelliteId: string, evidenceAt: Time) {
    exists i :: 0 <= i < |alerts| && alerts[i].satelliteId == satelliteId
                && (!alerts[i].acknowledged || alerts[i].triggeredAt >= evidenceAt)
  }

  /** Operators only ever acknowledge. */
  predicate OnlyAcks(a: seq<Alert>, b: seq<Alert>) {
    |a| == |b| && forall i :: 0 <= i < |a| ==>
      b[i] == a[i] || b[i] == a[i].(acknowledged := true)
  }

  class AlertTable {
    var alerts: seq<Alert>
    var now: Time
    /** The evidence each alert was raised on. */
    ghost var evidence: seq<Time>

    /** Of one satellite, alerts alternate strictly with newer evidence, and
        only the latest can be open. */
    ghost predicate Valid()
      reads this
    {
      && |evidence| == |alerts|
      && (forall i :: 0 <= i < |alerts| ==> evidence[i] <= alerts[i].triggeredAt <= now)
      && (forall i, j :: 0 <= i < j < |alerts| && alerts[i].satelliteId == alerts[j].satelliteId ==>
            alerts[i].triggeredAt < evidence[j] && alerts[i].acknowledged)
    }

    constructor (now: Time)
      ensures Valid() && alerts == [] && this.now == now
    {
      alerts, evidence := [], [];
      this.now := now;
    }

    /** POST /alerts/{id}/ack */
    method Acknowledge(i: nat) returns (done: bool)
      requires Valid()
      modifies this`alerts
      ensures Valid() && OnlyAcks(old(alerts), alerts)
      ensures done <==> i < |alerts| && !old(alerts)[i].acknowledged
      ensures alerts == if done then old(alerts)[i := old(alerts)[i].(acknowledged := true)] else old(alerts)
    {
      done := i < |alerts| && !alerts[i].acknowledged;
      if done {
        alerts := alerts[i := alerts[i].(acknowledged := true)];
      }
    }

    /** An await: time passes and operators may acknowledge. */
    method Await()
      requires Valid()
      modifies this
      ensures Valid() && OnlyAcks(old(alerts), alerts) && evidence == old(evidence) && old(now) <= now
    {
      var passed: nat, acks: nat := *, *;
      now := now + passed;
      for n := 0 to acks
        invariant Valid() && OnlyAcks(old(alerts), alerts) && evidence == old(evidence) && old(now) <= now
      {
        var i: nat := *;
        var done := Acknowledge(i);
      }
    }

    /** The INSERT of _raise_alert. */
    method Insert(satelliteId: string, warnings: seq<Warning>, triggeredAt: Time, ghost evidenceAt: Time)
      requires Valid() && evidenceAt <= triggeredAt <= now
      requires forall i :: 0 <= i < |alerts| && alerts[i].satelliteId == satelliteId ==>
                 alerts[i].acknowledged && alerts[i].triggeredAt < evidenceAt
      modifies this
      ensures Valid() && now == old(now)
      ensures alerts == old(alerts) + [Alert(satelliteId, warnings, triggeredAt, false)]
      ensures evidence == old(evidence) + [evidenceAt]
    {
      alerts := alerts + [Alert(satelliteId, warnings, triggeredAt, false)];
      evidence := evidence + [evidenceAt];
    }
  }

  /** _check_satellite, by the one monitor there is.  `latest` and `lastPass`
      are what the database holds now; `persists` says whether the INSERT works. */
  method CheckSatellite(table: AlertTable, satelliteId: string, latest: Option<Observation>, lastPass: Option<LastPass>,
                        hasPasses: bool, persists: bool) returns (published: bool, ghost queried: seq<Alert>)
    requires table.Valid()
    requires latest.Some? ==> latest.value.time <= table.now
    requires lastPass.Some? ==> lastPass.value.los < table.now - 300_000_000
    modifies table
    ensures table.Valid() && |queried| == |old(table.alerts)|
    ensures OnlyAcks(old(table.alerts), queried)
    ensures exists assessedAt {:trigger Findings(latest, lastPass, hasPasses, assessedAt)} ::
              old(table.now) <= assessedAt <= table.now
              && var newest := Newest(Findings(latest, lastPass, hasPasses, assessedAt));
                 && (published <==>
                       newest.Some? && forall i :: 0 <= i < |queried| && queried[i].satelliteId == satelliteId ==>
                                         queried[i].acknowledged && queried[i].triggeredAt < newest.value)
                 && (published && persists ==>
                       |table.alerts| == |queried| + 1 && OnlyAcks(queried, table.alerts[..|queried|])
                       && table.alerts[|queried|].satelliteId == satelliteId && !table.alerts[|queried|].acknowledged
                       && assessedAt <= table.alerts[|queried|].triggeredAt <= table.now
                       && table.alerts[|queried|].warnings == Warnings(Findings(latest, lastPass, hasPasses, assessedAt))
                       && table.evidence == old(table.evidence) + [newest.value])
                 && (!(published && persists) ==> OnlyAcks(queried, table.alerts))
  {
    table.Await();
    var assessedAt := table.now;
    var result := Assess(latest, lastPass, hasPasses, assessedAt);
    EvidenceIsData(latest, lastPass, hasPasses, assessedAt);
    queried := table.alerts;
    if result.evidenceAt.None? {
      published := false;
      return;
    }
    table.Await();
    queried := table.alerts;
    if AlreadyAlerted(table.alerts, satelliteId, result.evidenceAt.value) {
      published := false;
      return;
    }
    table.Await();
    assert forall i :: 0 <= i < |queried| && queried[i].satelliteId == satelliteId ==>
             queried[i].acknowledged && queried[i].triggeredAt < result.evidenceAt.value;
    if persists {
      table.Insert(satelliteId, result.warnings, table.now, result.evidenceAt.value);
    }
    published := true;
  }

  /** No two alerts of a satellite rest on the same newest evidence: each
      is raised on data newer than the alert before it. */
  lemma EvidenceAlternates(table: AlertTable, i: nat, j: nat, k: nat)
    requires table.Valid() && i < j < k < |table.alerts|
    requires table.alerts[i].satelliteId == table.alerts[j].satelliteId == table.alerts[k].satelliteId
    ensures table.alerts[i].triggeredAt < table.evidence[j] <= table.alerts[j].triggeredAt < table.evidence[k]
    ensures table.alerts[i].acknowledged && table.alerts[j].acknowledged
  {
  }

  // ---------------------------------------------------------------------
  // Warnings that repeat
  // ---------------------------------------------------------------------

  /** Newer than every alert of the satellite so far. */
  predicate NewerThanAlerts(alerts: seq<Alert>, satelliteId: string, t: Time) {
    forall i :: 0 <= i < |alerts| && alerts[i].satelliteId == satelliteId ==> alerts[i].triggeredAt < t
  }

  /** The observation itself gives no cause for a warning. */
  predicate Unremarkable(o: Observation, hasPasses: bool, now: Time) {
    && (hasPasses || now - o.time <= STALE_TELEMETRY)
    && forall f: Field :: Reading(o, f).Some? && !Bad(f, Reading(o, f).value)
  }

  lemma FindingsAre(o: Observation, lastPass: Option<LastPass>, hasPasses: bool, now: Time)
    ensures var fs := Findings(Some(o), lastPass, hasPasses, now);
            && (forall f :: f in fs ==> f.evidenceAt == o.time || (lastPass.Some? && o.time < lastPass.value.aos && f.evidenceAt == lastPass.value.los))
            && (Unremarkable(o, hasPasses, now) <==> forall f :: f in fs ==> f.warning.MissedPass?)
  {
    AllFields(o);
    var fs := Findings(Some(o), lastPass, hasPasses, now);
    if !(hasPasses || now - o.time <= STALE_TELEMETRY) {
      assert fs[0] == Finding(Stale(now - o.time), o.time);
    }
    forall f: Field | !(Reading(o, f).Some? && !Bad(f, Reading(o, f).value)) ensures exists x :: x in fs && !x.warning.MissedPass? {
      var x := CheckField(o, f)[0];
      assert x in CheckField(o, f);
      assert x in fs;
    }
  }

  /** An alert is raised on evidence newer than the satellite's earlier alerts.
      All its warnings rest on data that new if and only if there is no
      observation, or the latest one is that new, or it gives no cause for a
      warning (so that the missed pass is the only one). */
  lemma AllFreshExactly(alerts: seq<Alert>, satelliteId: string, latest: Option<Observation>, lastPass: Option<LastPass>,
                        hasPasses: bool, now: Time)
    requires lastPass.Some? ==> lastPass.value.aos <= lastPass.value.los
    requires var newest := Newest(Findings(latest, lastPass, hasPasses, now));
             newest.Some? && !AlreadyAlerted(alerts, satelliteId, newest.value)
    ensures (forall f :: f in Findings(latest, lastPass, hasPasses, now) ==> NewerThanAlerts(alerts, satelliteId, f.evidenceAt))
            <==> || latest.None?
                 || NewerThanAlerts(alerts, satelliteId, latest.value.time)
                 || Unremarkable(latest.value, hasPasses, now)
  {
    var fs := Findings(latest, lastPass, hasPasses, now);
    var newest := Newest(fs).value;
    assert NewerThanAlerts(alerts, satelliteId, newest);
    if latest.Some? {
      var o := latest.value;
      FindingsAre(o, lastPass, hasPasses, now);
      OwnFindings(o, lastPass, hasPasses, now);
    }
  }

  /** A warning that is not about a missed pass rests on the observation; a missed
      pass is newer than the observation. */
  lemma OwnFindings(o: Observation, lastPass: Option<LastPass>, hasPasses: bool, now: Time)
    requires lastPass.Some? ==> lastPass.value.aos <= lastPass.value.los
    ensures forall f :: f in Findings(Some(o), lastPass, hasPasses, now) ==>
              if f.warning.MissedPass? then lastPass.Some? && f.evidenceAt == lastPass.value.los && o.time < f.evidenceAt
              else f.evidenceAt == o.time
  {
    AllFields(o);
  }

  lemma WarningOf(fs: seq<Finding>, f: Finding)
    requires f in fs
    ensures f.warning in Warnings(fs)
  {
    assert fs == fs[..|fs| - 1] + [fs[|fs| - 1]];
    if f in fs[..|fs| - 1] { WarningOf(fs[..|fs| - 1], f); }
  }

  /** What a low battery after a missed pass is reported as. */
  lemma LowAfterMissedPass(o: Observation, p: LastPass, now: Time)
    requires o.battery.Some? && o.battery.value < BATTERY_CRITICAL && o.time < p.aos <= p.los
    ensures var fs := Findings(Some(o), Some(p), true, now);
            Newest(fs) == Some(p.los) && OutOfRange(Battery, o.battery.value) in Warnings(fs)
  {
    AllFields(o);
    var fs := Findings(Some(o), Some(p), true, now);
    assert fs[0] == Finding(MissedPass(p), p.los) && fs[1] == Finding(OutOfRange(Battery, o.battery.value), o.time);
    WarningOf(fs, fs[1]);
    OwnFindings(o, Some(p), true, now);
  }

  /** Time passes. */
  method Wait(table: AlertTable, d: nat)
    requires table.Valid()
    modifies table`now
    ensures table.Valid() && table.now == old(table.now) + d
  {
    table.now := table.now + d;
  }

  lemma LowAfterMissedPasses(o: Observation, p: LastPass)
    requires o.battery.Some? && o.battery.value < BATTERY_CRITICAL && o.time < p.aos <= p.los
    ensures forall now :: var fs := Findings(Some(o), Some(p), true, now);
              Newest(fs) == Some(p.los) && OutOfRange(Battery, o.battery.value) in Warnings(fs)
  {
    forall now ensures var fs := Findings(Some(o), Some(p), true, now);
                       Newest(fs) == Some(p.los) && OutOfRange(Battery, o.battery.value) in Warnings(fs)
    {
      LowAfterMissedPass(o, p, now);
    }
  }

  /** A check that raises an alert for a low battery, set off by a missed pass. */
  method RaiseLow(table: AlertTable, o: Observation, p: LastPass)
    requires o.battery.Some? && o.battery.value < BATTERY_CRITICAL && o.time < p.aos <= p.los
    requires table.Valid() && p.los < table.now - PASS_GRACE
    requires forall i :: 0 <= i < |table.alerts| ==> table.alerts[i].acknowledged && table.alerts[i].triggeredAt < p.los
    modifies table
    ensures table.Valid() && |table.alerts| == |old(table.alerts)| + 1 && table.evidence == old(table.evidence) + [p.los]
    ensures table.alerts[..|old(table.alerts)|] == old(table.alerts)
    ensures var last := table.alerts[|old(table.alerts)|];
            last.satelliteId == "sat" && OutOfRange(Battery, o.battery.value) in last.warnings
  {
    hide Findings, Newest, Warnings;
    LowAfterMissedPasses(o, p);
    var published: bool;
    ghost var queried: seq<Alert>;
    published, queried := CheckSatellite(table, "sat", Some(o), Some(p), true, true);
    assert queried == old(table.alerts);
  }

  /** The condition can fail: two alerts, the first acknowledged before the second
      is raised, that both hold the warning of one observation, made before either.
      The second was set off by another missed pass. */
  method OldWarningsRepeat(o: Observation, p: LastPass) returns (table: AlertTable)
    requires o.battery.Some? && o.battery.value < BATTERY_CRITICAL && o.time < p.aos <= p.los
    ensures fresh(table) && table.Valid() && |table.alerts| == 2
    ensures forall i :: 0 <= i < 2 ==>
              && table.alerts[i].satelliteId == "sat" && o.time < table.alerts[i].triggeredAt
              && OutOfRange(Battery, o.battery.value) in table.alerts[i].warnings
    ensures table.alerts[0].acknowledged && table.alerts[0].triggeredAt < table.evidence[1] <= table.alerts[1].triggeredAt
  {
    table := new AlertTable(p.los + PASS_GRACE + 1);
    RaiseLow(table, o, p);
    var acked := table.Acknowledge(0);
    var q := LastPass("ground", table.now + 1, table.now + 2);
    ghost var first := table.alerts[0];
    Wait(table, PASS_GRACE + 3);
    RaiseLow(table, o, q);
    assert table.alerts[..1][0] == first;
  }
}
