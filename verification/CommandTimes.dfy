/** When commands go out: never before the time they are planned for
    (backend/src/scheduler/service.py). */
module CommandTimes {
  import opened Basics
  import opened CommandModel
  import opened CommandProtocol
  import opened CommandSafety
  import opened CommandSpacing
  import opened CommandSubmission

  // ---------------------------------------------------------------------
  // The operator's time
  // ---------------------------------------------------------------------

  /** A row with an operator's time t: it waits for it, or it has come. */
  ghost predicate OperatorKept(c: Cmd, now: Time, t: Time) {
    && c.row.order.manual && c.tickets == map[] && c.row.status !in {Timeout, Retry}
    && (c.row.status in {AwaitingApproval, Pending} ==> c.row.scheduledAt == Some(t) && c.executing == map[])
    && (c.row.status == Scheduled ==> c.row.scheduledAt.Some? && c.row.scheduledAt.value >= t)
    && (c.row.status in {Transmitting, Sent} ==> now >= t)
    && (c.row.status == Transmitting ==> c.row.scheduledAt.Some? && c.row.scheduledAt.value >= t)
    && (c.executing != map[] ==> now >= t)
  }

  lemma StepKeepsOperatorTime(c: Cmd, e: RowEvent, now: Time, t: Time)
    requires RowEnabled(c, e, now) && Unpatched(e) && OperatorKept(c, now, t)
    ensures OperatorKept(RowNext(c, e, now), now, t)
  {
  }

  lemma TimeKeepsOperatorTime(c: Cmd, now: Time, later: Time, t: Time)
    requires OperatorKept(c, now, t) && now <= later
    ensures OperatorKept(c, later, t)
  {
  }

  lemma NewRowKeepsOperatorTime(w: World, e: Event, id: Id, body: Request)
    requires Enabled(w, e) && id !in w.cmds && id in Next(w, e).cmds && NewRow(Next(w, e).cmds[id].row, body)
    requires body.scheduledAt.Some?
    ensures OperatorKept(Next(w, e).cmds[id], Next(w, e).now, body.scheduledAt.value)
  {
  }

  lemma {:induction false} OperatorTimeHolds(es: seq<Event>, id: Id, i: nat, body: Request, k: nat)
    requires IsRun(es) && UnpatchedRun(es, id) && InsertedBy(es, i, id, body) && body.scheduledAt.Some? && i < k <= |es|
    ensures IsRun(es[..k]) && id in After(es[..k]).cmds
    ensures OperatorKept(After(es[..k]).cmds[id], After(es[..k]).now, body.scheduledAt.value)
    decreases k
  {
    hide IsRun, After, Next, Enabled, RowNext, RowEnabled, OperatorKept, Unpatched, NewRow;
    PrefixStep(es, k - 1);
    var w, e := After(es[..k - 1]), es[k - 1];
    if k == i + 1 {
      NewRowKeepsOperatorTime(w, e, id, body);
    } else {
      OperatorTimeHolds(es, id, i, body, k - 1);
      RowStepOf(w, e, id);
      TimeGoesOn(w, e);
      if e.OnRow? && e.id == id {
        StepKeepsOperatorTime(w.cmds[id], e.event, w.now, body.scheduledAt.value);
      }
      TimeKeepsOperatorTime(After(es[..k]).cmds[id], w.now, After(es[..k]).now, body.scheduledAt.value);
    }
  }

  lemma TimeGoesOn(w: World, e: Event)
    requires Enabled(w, e)
    ensures w.now <= Next(w, e).now && (e.OnRow? ==> Next(w, e).now == w.now)
  {
    hide RowNext;
  }

  predicate TakesUp(e: RowEvent) {
    e.Fetch? || e.Claim? || e.Publish?
  }

  lemma TakenUpInTime(c: Cmd, e: RowEvent, now: Time, t: Time)
    requires RowEnabled(c, e, now) && TakesUp(e) && OperatorKept(c, now, t)
    ensures now >= t
  {
  }

  /** With any number of schedulers and no PATCH: a command for which the operator
      gave a time is not even taken up before it, and so never claimed or published. */
  lemma {:induction false} OperatorTimeIsKept(es: seq<Event>, id: Id, i: nat, body: Request, j: nat)
    requires IsRun(es) && UnpatchedRun(es, id) && InsertedBy(es, i, id, body) && body.scheduledAt.Some?
    requires i < j < |es| && es[j].OnRow? && es[j].id == id && TakesUp(es[j].event)
    ensures IsRun(es[..j]) && TimeOf(es, j) >= body.scheduledAt.value
  {
    hide IsRun, After, Next, RowNext, RowEnabled, OperatorKept, TakesUp, UnpatchedRun, InsertedBy;
    OperatorTimeHolds(es, id, i, body, j);
    PrefixStep(es, j);
    TakenUpInTime(After(es[..j]).cmds[id], es[j].event, TimeOf(es, j), body.scheduledAt.value);
  }

  // ---------------------------------------------------------------------
  // The latest plan
  // ---------------------------------------------------------------------

  /** A row planned for t, and not planned again since. */
  ghost predicate PlanKept(c: Cmd, now: Time, t: Time) {
    && (c.row.status in {Scheduled, Transmitting} ==> c.row.scheduledAt.Some? && c.row.scheduledAt.value >= t)
    && (c.row.status in {Transmitting, Sent} ==> now >= t)
    && (forall v :: Holds(c.executing, v) ==> now >= t)
  }

  /** Event e plans the row, for the time it carries. */
  predicate Plans(c: Cmd, e: RowEvent) {
    e.Plan? && c.row.status == Pending
  }

  lemma HoldersComeFromClaims(c: Cmd, e: RowEvent, now: Time, v: Worker)
    requires RowEnabled(c, e, now) && Holds(RowNext(c, e, now).executing, v)
    ensures Holds(c.executing, v) || (e.Claim? && e.worker == v && c.row.status == Scheduled)
  {
  }

  lemma StepKeepsPlanTime(c: Cmd, e: RowEvent, now: Time, t: Time, me: Worker)
    requires RowEnabled(c, e, now) && Solo(e, me) && Alone(c, now, me) && PlanKept(c, now, t) && !Plans(c, e)
    ensures PlanKept(RowNext(c, e, now), now, t)
  {
    var d := RowNext(c, e, now);
    AloneKept(c, e, now, me);
    forall v | Holds(d.executing, v) ensures now >= t { HoldersComeFromClaims(c, e, now, v); }
  }

  lemma PlanSetsTime(c: Cmd, e: RowEvent, now: Time, me: Worker)
    requires RowEnabled(c, e, now) && Plans(c, e) && Alone(c, now, me)
    ensures PlanKept(RowNext(c, e, now), now, e.aos)
  {
  }

  lemma TimeKeepsPlan(c: Cmd, now: Time, later: Time, t: Time)
    requires PlanKept(c, now, t) && now <= later
    ensures PlanKept(c, later, t)
  {
  }

  /** Event i planned the row, for the time it carries. */
  ghost predicate PlannedBy(es: seq<Event>, id: Id, i: nat) {
    && i < |es| && es[i].OnRow? && es[i].id == id
    && IsRun(es[..i]) && id in After(es[..i]).cmds && Plans(After(es[..i]).cmds[id], es[i].event)
  }

  lemma {:induction false} PlanTimeHolds(es: seq<Event>, id: Id, me: Worker, i: nat, k: nat)
    requires IsRun(es) && SoloRun(es, id, me) && PlannedBy(es, id, i) && i < k <= |es|
    requires forall m :: i < m < k ==> !PlannedBy(es, id, m)
    ensures IsRun(es[..k]) && id in After(es[..k]).cmds
    ensures PlanKept(After(es[..k]).cmds[id], After(es[..k]).now, es[i].event.aos)
    decreases k
  {
    hide IsRun, After, Next, Enabled, RowNext, RowEnabled, PlanKept, Solo, Alone;
    PrefixStep(es, k - 1);
    var w, e := After(es[..k - 1]), es[k - 1];
    if k > i + 1 { PlanTimeHolds(es, id, me, i, k - 1); }
    RowStepOf(w, e, id);
    TimeGoesOn(w, e);
    if e.OnRow? && e.id == id {
      SoloPrefixIsAlone(es, id, me, k - 1);
      if k == i + 1 {
        PlanSetsTime(w.cmds[id], e.event, w.now, me);
      } else {
        assert !PlannedBy(es, id, k - 1);
        StepKeepsPlanTime(w.cmds[id], e.event, w.now, es[i].event.aos, me);
      }
    }
    TimeKeepsPlan(After(es[..k]).cmds[id], w.now, After(es[..k]).now, es[i].event.aos);
  }

  lemma SoloPrefixIsAlone(es: seq<Event>, id: Id, me: Worker, k: nat)
    requires IsRun(es) && SoloRun(es, id, me) && k <= |es| && IsRun(es[..k]) && id in After(es[..k]).cmds
    ensures Alone(After(es[..k]).cmds[id], After(es[..k]).now, me)
  {
    hide IsRun, After, Alone, Solo;
    assert forall m :: 0 <= m < k ==> es[..k][m] == es[m];
    SoloRunIsAlone(es[..k], id, me);
  }

  /** A claim that finds the row scheduled, or a publication. */
  predicate GoesOut(c: Cmd, e: RowEvent) {
    e.Publish? || (e.Claim? && c.row.status == Scheduled)
  }

  lemma GoesOutInTime(c: Cmd, e: RowEvent, now: Time, t: Time, me: Worker)
    requires RowEnabled(c, e, now) && Solo(e, me) && Alone(c, now, me) && PlanKept(c, now, t) && GoesOut(c, e)
    ensures now >= t
  {
    AloneKept(c, e, now, me);
    if e.Publish? { assert Holds(c.executing, e.worker); }
  }

  /** With one scheduler and no PATCH: no command is claimed or published before
      the time of its latest plan. */
  lemma {:induction false} PlannedTimeIsKept(es: seq<Event>, id: Id, me: Worker, i: nat, j: nat)
    requires IsRun(es) && SoloRun(es, id, me) && PlannedBy(es, id, i) && i < j < |es|
    requires forall m :: i < m < j ==> !PlannedBy(es, id, m)
    requires es[j].OnRow? && es[j].id == id && IsRun(es[..j]) && id in After(es[..j]).cmds
    requires GoesOut(After(es[..j]).cmds[id], es[j].event)
    ensures TimeOf(es, j) >= es[i].event.aos
  {
    hide IsRun, After, Next, RowNext, RowEnabled, PlanKept, Alone, Solo, GoesOut;
    PlanTimeHolds(es, id, me, i, j);
    PrefixStep(es, j);
    SoloPrefixIsAlone(es, id, me, j);
    GoesOutInTime(After(es[..j]).cmds[id], es[j].event, TimeOf(es, j), es[i].event.aos, me);
  }
}
