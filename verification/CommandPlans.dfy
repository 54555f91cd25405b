/** Planned times: what a waiting row carries, and that nothing goes out before
    the time it is planned for (backend/src/scheduler/service.py). */
module CommandPlans {
  import opened Basics
  import opened CommandModel
  import opened CommandProtocol
  import opened CommandSafety

  predicate Waiting(r: Row) {
    r.status == AwaitingApproval || r.status == Pending
  }

  /** A waiting row carries a time exactly if the operator gave one. */
  predicate PlanValid(c: Cmd) {
    Waiting(c.row) ==> (c.row.scheduledAt.Some? <==> c.row.order.manual)
  }

  lemma StepKeepsPlan(c: Cmd, e: RowEvent, now: Time)
    requires RowEnabled(c, e, now) && TicketsValid(c) && PlanValid(c)
    ensures PlanValid(RowNext(c, e, now))
  {
    if e.PatchWrite? { assert TicketValid(c, c.tickets[e.request]); }
  }

  lemma SafeTickets(c: Cmd, now: Time)
    requires Safe(c, now)
    ensures TicketsValid(c)
  {
  }

  lemma {:induction false} WaitingRowsArePlanned(es: seq<Event>, id: Id)
    requires IsRun(es) && id in After(es).cmds
    ensures PlanValid(After(es).cmds[id])
    decreases |es|
  {
    var before := es[..|es| - 1];
    var w, e := After(before), es[|es| - 1];
    if id in w.cmds {
      hide RowNext, RowEnabled, PlanValid, Safe;
      WaitingRowsArePlanned(before, id);
      if e.OnRow? && e.id == id {
        RunIsSafe(before, id);
        SafeTickets(w.cmds[id], w.now);
        StepKeepsPlan(w.cmds[id], e.event, w.now);
      }
    }
  }

  /** A row with an operator's time waits only before its first plan, and keeps the time. */
  lemma ManualRowsWaitOnce(c: Cmd, e: RowEvent, now: Time)
    requires RowEnabled(c, e, now) && TicketsValid(c) && c.row.order.manual && Waiting(RowNext(c, e, now).row)
    ensures Waiting(c.row) && RowNext(c, e, now).row.scheduledAt == c.row.scheduledAt
  {
    if e.PatchWrite? { assert TicketValid(c, c.tickets[e.request]); }
  }

  lemma OrderIsFixed(c: Cmd, e: RowEvent, now: Time)
    requires RowEnabled(c, e, now)
    ensures RowNext(c, e, now).row.order == c.row.order
  {
  }

  /** Of a row that was read as pending: what PlanRow may rely on when it gets to it. */
  lemma ReadPlanStands(h: seq<Event>, k: seq<Event>, id: Id)
    requires IsRun(h) && IsRun(k) && h <= k && id in After(h).cmds && After(h).cmds[id].row.status == Pending
    requires id in After(k).cmds && After(k).cmds[id].row.order == After(h).cmds[id].row.order
    ensures var read, row := After(h).cmds[id].row, After(k).cmds[id].row;
            row.order.manual ==> read.scheduledAt.Some? && (Waiting(row) ==> read.scheduledAt == row.scheduledAt)
  {
    WaitingRowsArePlanned(h, id);
    if After(h).cmds[id].row.order.manual { OperatorTimeStays(h, k, id); }
  }

  /** So what a planner read of such a row is still there when it finds the row waiting. */
  lemma {:induction false} OperatorTimeStays(h: seq<Event>, k: seq<Event>, id: Id)
    requires IsRun(h) && IsRun(k) && h <= k && id in After(h).cmds && After(h).cmds[id].row.order.manual
    ensures id in After(k).cmds && After(k).cmds[id].row.order == After(h).cmds[id].row.order
    ensures Waiting(After(k).cmds[id].row) ==>
              Waiting(After(h).cmds[id].row) && After(k).cmds[id].row.scheduledAt == After(h).cmds[id].row.scheduledAt
    decreases |k|
  {
    if |k| > |h| {
      var before := k[..|k| - 1];
      var w, e := After(before), k[|k| - 1];
      OperatorTimeStays(h, before, id);
      if e.OnRow? && e.id == id {
        hide RowNext, RowEnabled, Waiting, Safe;
        RunIsSafe(before, id);
        SafeTickets(w.cmds[id], w.now);
        OrderIsFixed(w.cmds[id], e.event, w.now);
        if Waiting(RowNext(w.cmds[id], e.event, w.now).row) {
          ManualRowsWaitOnce(w.cmds[id], e.event, w.now);
        }
      }
    } else {
      assert h == k;
    }
  }
}
