/** The UPDATE statements, column by column, and what they add up to over whole
    runs (backend/src/scheduler/service.py, backend/src/api/routes/commands.py). */
module CommandRows {
  import opened Basics
  import opened CommandModel
  import opened Satellite
  import opened CommandProtocol

  /** safe_retry, and not of a type that must never be retried. */
  predicate MayRetry(o: Order) {
    o.safeRetry && o.commandType !in {"engine_fire", "deploy_antenna", "deploy_solar_panel", "separation"}
  }

  /** The timeout transaction: protect from LOS, else retry, else give up. */
  predicate TimedOutRow(r: Row, open: bool, now: Time, s: Row) {
    if r.status != Sent then s == r
    else if MayRetry(r.order) && !r.order.manual && !open then
      s == r.(status := Pending, scheduledAt := None)
    else if MayRetry(r.order) && r.retryCount < 3 then
      && s == r.(status := Scheduled, retryCount := r.retryCount + 1, scheduledAt := s.scheduledAt)
      && (r.retryCount == 0 ==> s.scheduledAt == Some(now + 1_000_000))
      && (r.retryCount == 1 ==> s.scheduledAt == Some(now + 4_000_000))
      && (r.retryCount == 2 ==> s.scheduledAt == Some(now + 16_000_000))
    else s == r.(status := Dead)
  }

  /** The UPDATE of a PATCH request that validated the row in status `from`. */
  predicate PatchedRow(r: Row, t: Ticket, now: Time, s: Row) {
    if r.status != t.from then s == r
    else
      s == r.(status := t.target,
              sentAt := if t.target == Sent then Some(now) else r.sentAt,
              ackedAt := if t.target == Acked then Some(now) else r.ackedAt,
              retryCount := if t.target == Retry then r.retryCount + 1 else r.retryCount)
  }

  /** An answer finds the row on air, or sent before, and not ended. */
  predicate AwaitsAnswer(r: Row) {
    r.status != Acked && r.status != Dead && (r.status == Transmitting || r.sentAt.Some?)
  }

  predicate AnsweredRow(r: Row, ok: bool, now: Time, s: Row) {
    if !AwaitsAnswer(r) then s == r
    else
      s == r.(status := if ok then Acked else Dead,
              sentAt := if r.sentAt.Some? then r.sentAt else Some(now),
              ackedAt := if ok then Some(now) else r.ackedAt)
  }

  /** Of a row in this status, the statement changes what it says; of others, nothing. */
  predicate Changes(r: Row, from: Status, changed: Row, s: Row) {
    s == if r.status == from then changed else r
  }

  /** What the event leaves of the row. */
  predicate Wrote(c: Cmd, e: RowEvent, now: Time, s: Row) {
    var r := c.row;
    match e
    case Plan(aos) => Changes(r, Pending, r.(status := Scheduled, scheduledAt := Some(aos)), s)
    case Replan(_) => Changes(r, Scheduled, r.(status := Pending, scheduledAt := None), s)
    case PolicyDrop(_) => Changes(r, Scheduled, r.(status := Dead), s)
    case Claim(_) => Changes(r, Scheduled, r.(status := Transmitting), s)
    case MarkSent(_) => Changes(r, Transmitting, r.(status := Sent, sentAt := Some(now)), s)
    case Bounce(_) => Changes(r, Transmitting, r.(status := Scheduled), s)
    case TimeOut(_, open) => TimedOutRow(r, open, now, s)
    case MarkAcked => AnsweredRow(r, true, now, s)
    case MarkRejected => AnsweredRow(r, false, now, s)
    case Approve(user) =>
      if user == r.order.createdBy then s == r
      else Changes(r, AwaitingApproval, r.(status := Pending, approvedBy := Some(user)), s)
    case PatchWrite(k) => k in c.tickets && PatchedRow(r, c.tickets[k], now, s)
    case Cancel => s == if r.status in {AwaitingApproval, Pending, Scheduled} then r.(status := Dead) else r
    case Fetch(_) => s == r
    case Publish(_, _, _) => s == r
    case Sweep(_) => s == r
    case Crash(_) => s == r
    case PatchRead(_, _) => s == r
  }

  lemma TimedOutIsWritten(c: Cmd, now: Time, open: bool)
    ensures TimedOutRow(c.row, open, now, TimedOut(c, now, open).row)
  {
  }

  lemma RowsAreWritten(c: Cmd, e: RowEvent, now: Time)
    requires RowEnabled(c, e, now)
    ensures Wrote(c, e, now, RowNext(c, e, now).row)
  {
    if e.TimeOut? { TimedOutIsWritten(c.(sweeping := c.sweeping - {e.worker}), now, e.windowOpen); }
    hide TimedOut, TimedOutRow;
  }

  /** In a run, event i wrote the row of the command so. */
  ghost predicate WroteAt(es: seq<Event>, i: nat, id: Id) {
    && i < |es| && es[i].OnRow? && es[i].id == id && IsRun(es[..i]) && IsRun(es[..i + 1])
    && id in After(es[..i]).cmds && id in After(es[..i + 1]).cmds
    && Wrote(After(es[..i]).cmds[id], es[i].event, After(es[..i]).now, After(es[..i + 1]).cmds[id].row)
  }

  lemma StepWrites(w: World, id: Id, e: RowEvent)
    requires Enabled(w, OnRow(id, e))
    ensures var v := Next(w, OnRow(id, e)); id in w.cmds && id in v.cmds && Wrote(w.cmds[id], e, w.now, v.cmds[id].row)
  {
    RowsAreWritten(w.cmds[id], e, w.now);
    hide RowNext, Wrote;
  }

  /** Every event of every run that is about a row writes it so. */
  lemma EventsWriteRows(es: seq<Event>, i: nat)
    requires IsRun(es) && i < |es| && es[i].OnRow?
    ensures WroteAt(es, i, es[i].id)
  {
    hide Next, Enabled, Wrote, IsRun, After;
    PrefixStep(es, i);
    StepWrites(After(es[..i]), es[i].id, es[i].event);
  }

  /** And an event that is not about a row leaves it as it is. */
  lemma OthersLeaveRows(w: World, e: Event, id: Id)
    requires Enabled(w, e) && id in w.cmds && !(e.OnRow? && e.id == id)
    ensures id in Next(w, e).cmds && Next(w, e).cmds[id] == w.cmds[id]
  {
  }

  // ---------------------------------------------------------------------
  // Retries
  // ---------------------------------------------------------------------

  /** What spends a retry: a timeout that is not the pass's fault, or a PATCH. */
  predicate SpendsRetry(c: Cmd, e: RowEvent) {
    || (e.TimeOut? && c.row.status == Sent && MayRetry(c.row.order) && c.row.retryCount < 3
        && (c.row.order.manual || e.windowOpen))
    || (e.PatchWrite? && e.request in c.tickets && c.tickets[e.request].target == Retry
        && c.tickets[e.request].from == c.row.status)
  }

  lemma RetriesAreSpentExactly(c: Cmd, e: RowEvent, now: Time)
    requires RowEnabled(c, e, now)
    ensures RowNext(c, e, now).row.retryCount == c.row.retryCount + if SpendsRetry(c, e) then 1 else 0
  {
    RowsAreWritten(c, e, now);
    hide RowNext;
  }

  /** No timeout of a pass-planned row with its window closed ever spends a retry:
      the row waits for the next pass, or ends. */
  lemma {:induction false} LosSparesRetries(es: seq<Event>, i: nat, id: Id, v: Worker)
    requires IsRun(es) && i < |es| && es[i] == OnRow(id, TimeOut(v, false))
    ensures WroteAt(es, i, id)
    ensures var before, after := After(es[..i]).cmds[id].row, After(es[..i + 1]).cmds[id].row;
            !before.order.manual ==>
              && after.retryCount == before.retryCount
              && (before.status == Sent && MayRetry(before.order) ==> after.status == Pending && after.scheduledAt == None)
              && (before.status == Sent && !MayRetry(before.order) ==> after.status == Dead)
              && (before.status != Sent ==> after == before)
  {
    hide After, IsRun;
    EventsWriteRows(es, i);
  }
}
