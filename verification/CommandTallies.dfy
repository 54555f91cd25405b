/** The tallies that the claims about whole runs speak of are counts of events
    in the run (backend/src/scheduler/service.py). */
module CommandTallies {
  import opened Basics
  import opened CommandModel
  import opened CommandProtocol
  import opened CommandSafety
  import opened CommandRows

  /** Entries into transmitting, publish failures taken back, re-plans after LOS,
      missed windows, PATCH retries on an outdated read, retries, status changes. */
  datatype Kind = Entry | TakenBack | LosReplan | MissedWindow | StaleRetry | AnyRetry | Change

  /** How much of it the event is, which left the row in status s. */
  predicate Is(kind: Kind, c: Cmd, e: RowEvent, s: Status) {
    match kind
    case Entry => c.row.status != Transmitting && s == Transmitting
    case TakenBack => e.Bounce? && c.row.status == Transmitting
    case LosReplan => e.TimeOut? && c.row.status == Sent && s == Pending
    case MissedWindow => e.Replan? && c.row.status == Scheduled
    case StaleRetry =>
      e.PatchWrite? && e.request in c.tickets && c.tickets[e.request].target == Retry
      && c.tickets[e.request].from == c.row.status && c.tickets[e.request].seenRetries != c.row.retryCount
    case AnyRetry => SpendsRetry(c, e)
    case Change => s != c.row.status
  }

  /** A timeout changes the status two or three times in one transaction. */
  function Weight(kind: Kind, c: Cmd, e: RowEvent, s: Status): nat {
    if !Is(kind, c, e, s) then 0
    else if kind == Change && e.TimeOut? then if s == Dead then 2 else 3
    else 1
  }

  /** How much of it there is in a run. */
  ghost function Total(kind: Kind, es: seq<Event>, id: Id): nat
    requires IsRun(es)
  {
    if es == [] then 0 else
    var w, e := After(es[..|es| - 1]), es[|es| - 1];
    Total(kind, es[..|es| - 1], id)
    + if e.OnRow? && e.id == id then Weight(kind, w.cmds[id], e.event, After(es).cmds[id].row.status) else 0
  }

  function Tallied(kind: Kind, c: Cmd): nat {
    match kind
    case Entry => c.tally.entries
    case TakenBack => c.tally.bounces
    case LosReplan => c.tally.losReplans
    case MissedWindow => c.tally.missed
    case StaleRetry => c.tally.stale
    case AnyRetry => c.row.retryCount
    case Change => c.tally.changes
  }

  lemma TimeOutTallies(kind: Kind, c: Cmd, v: Worker, open: bool, now: Time)
    requires v in c.sweeping
    ensures var d := RowNext(c, TimeOut(v, open), now);
            Tallied(kind, d) == Tallied(kind, c) + Weight(kind, c, TimeOut(v, open), d.row.status)
  {
  }

  lemma PatchTallies(kind: Kind, c: Cmd, k: nat, now: Time)
    requires k in c.tickets && TicketValid(c, c.tickets[k])
    ensures var d := RowNext(c, PatchWrite(k), now);
            Tallied(kind, d) == Tallied(kind, c) + Weight(kind, c, PatchWrite(k), d.row.status)
  {
  }

  lemma StepTallies(kind: Kind, c: Cmd, e: RowEvent, now: Time)
    requires RowEnabled(c, e, now) && TicketsValid(c)
    ensures var d := RowNext(c, e, now); Tallied(kind, d) == Tallied(kind, c) + Weight(kind, c, e, d.row.status)
  {
    hide Patched, TimedOut;
    if e.TimeOut? {
      TimeOutTallies(kind, c, e.worker, e.windowOpen, now);
    } else if e.PatchWrite? {
      assert TicketValid(c, c.tickets[e.request]);
      PatchTallies(kind, c, e.request, now);
    }
  }

  lemma InsertTalliesNothing(kind: Kind, order: Order, scheduledAt: Option<Time>)
    ensures Tallied(kind, Inserted(order, scheduledAt)) == 0
  {
  }

  /** In every run each tally, and the retry count of the row, is the number of
      those events of the run. */
  lemma {:induction false} TalliesAreTotals(kind: Kind, es: seq<Event>, id: Id)
    requires IsRun(es)
    ensures Total(kind, es, id) == if id in After(es).cmds then Tallied(kind, After(es).cmds[id]) else 0
    decreases |es|
  {
    if es != [] {
      var before := es[..|es| - 1];
      var w, e := After(before), es[|es| - 1];
      TalliesAreTotals(kind, before, id);
      hide RowNext, RowEnabled, Weight, Tallied, Safe;
      if e.OnRow? && e.id == id {
        RunIsSafe(before, id);
        SafeHasTickets(w.cmds[id], w.now);
        StepTallies(kind, w.cmds[id], e.event, w.now);
      } else if id in w.cmds {
        OthersLeaveRows(w, e, id);
      } else if e.Insert? {
        InsertTalliesNothing(kind, w.submissions[e.request].body.ToOrder(), w.submissions[e.request].body.scheduledAt);
      }
    }
  }

  lemma SafeHasTickets(c: Cmd, now: Time)
    requires Safe(c, now)
    ensures TicketsValid(c)
  {
  }
}
