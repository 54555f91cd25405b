/** What every run of the command protocol keeps, command by command. */
module CommandSafety {
  import opened Basics
  import opened CommandModel
  import opened Satellite
  import opened CommandProtocol

  // ---------------------------------------------------------------------
  // The invariants
  // ---------------------------------------------------------------------

  /** A PATCH in flight validated a table edge, and a retry only of a retryable command. */
  predicate TicketValid(c: Cmd, t: Ticket) {
    && t.target in Transitions(t.from)
    && t.target in PATCHABLE
    && (t.target == Retry ==> c.row.order.Retryable() && t.seenRetries < MAX_RETRIES)
  }

  ghost predicate TicketsValid(c: Cmd) {
    forall k :: k in c.tickets ==> TicketValid(c, c.tickets[k])
  }

  /** Where every entry into `transmitting` went. */
  predicate Accounted(c: Cmd) {
    var paid := c.tally.bounces + c.row.retryCount + c.tally.losReplans;
    match c.row.status
    case AwaitingApproval => c.tally.entries == paid
    case Pending => c.tally.entries == paid
    case Scheduled => c.tally.entries == paid
    case Retry => c.tally.entries == paid
    case Transmitting => c.tally.entries == paid + 1
    case Sent => c.tally.entries == paid + 1
    case Timeout => c.tally.entries == paid + 1
    case Acked => paid <= c.tally.entries <= paid + 1
    case Dead => paid <= c.tally.entries <= paid + 1
  }

  /** The retry budget is only ever exceeded by PATCH retries on an outdated read. */
  predicate WithinBudget(c: Cmd) {
    c.row.retryCount <= MAX_RETRIES + c.tally.stale
  }

  /** The executors that claimed the row and have not finished with it. */
  predicate Holds(executing: map<Worker, Stage>, w: Worker) {
    w in executing && executing[w] != Fetched
  }

  /** A command that must not be retried has one claim in its life that is not given back. */
  ghost predicate Single(c: Cmd) {
    !c.row.order.Retryable() ==>
      && c.row.status != Retry
      && c.tally.published <= 1
      && (forall v, w :: Holds(c.executing, v) && Holds(c.executing, w) ==> v == w)
      && (forall w :: Holds(c.executing, w) && c.executing[w] != Published ==> c.tally.published == 0)
      && (c.row.status in {AwaitingApproval, Pending, Scheduled} ==>
            c.tally.published == 0 && forall w :: !Holds(c.executing, w))
  }

  /** A different admin than the creator released the row. */
  predicate Released(row: Row) {
    row.approvedBy.Some? && row.approvedBy.value != row.order.createdBy
  }

  predicate TwoAdmins(c: Cmd) {
    && (c.row.status == AwaitingApproval ==> c.executing == map[] && c.tally.entries == 0)
    && (c.row.order.NeedsTwoAdmins() ==>
          (c.row.status !in {AwaitingApproval, Dead} || c.executing != map[] || c.tally.entries > 0) ==>
            Released(c.row))
  }

  /** Timestamps and time on air. */
  predicate OnAir(c: Cmd, now: Time) {
    && (c.row.sentAt.Some? ==> c.row.sentAt.value <= now && c.tally.entries > 0)
    && (c.row.status in {Transmitting, Sent, Timeout, Retry, Acked} ==> c.tally.entries > 0)
    && (c.row.status == AwaitingApproval ==> c.row.sentAt.None?)
    && (c.row.status == Sent ==> c.row.sentAt.Some?)
    && (c.row.status == Acked ==>
          c.row.sentAt.Some? && c.row.ackedAt.Some? && c.row.sentAt.value <= c.row.ackedAt.value <= now)
  }

  /** Steps left before a command in this state ends, retries left aside. */
  function StageRank(s: Status): nat {
    match s
    case AwaitingApproval => 6
    case Pending => 5
    case Scheduled => 4
    case Transmitting => 3
    case Sent => 2
    case Timeout => 1
    case Retry => 5
    case Acked => 0
    case Dead => 0
  }

  /** Each retry left is worth one more turn of five status changes. */
  function Rank(row: Row): nat {
    StageRank(row.status) + 5 * (if row.retryCount < MAX_RETRIES then MAX_RETRIES - row.retryCount else 0)
  }

  predicate Ranked(c: Cmd) {
    c.tally.changes + Rank(c.row) <=
      21 + 2 * c.tally.bounces + 2 * c.tally.missed + 6 * c.tally.losReplans + 5 * c.tally.stale
  }

  ghost predicate Safe(c: Cmd, now: Time) {
    && TicketsValid(c)
    && Accounted(c)
    && WithinBudget(c)
    && Single(c)
    && TwoAdmins(c)
    && OnAir(c, now)
    && Ranked(c)
  }

  // ---------------------------------------------------------------------
  // Every event keeps them
  // ---------------------------------------------------------------------

  lemma TicketsKept(c: Cmd, e: RowEvent, now: Time)
    requires RowEnabled(c, e, now) && TicketsValid(c)
    ensures TicketsValid(RowNext(c, e, now))
  {
    var d := RowNext(c, e, now);
    assert forall k :: k in d.tickets && k in c.tickets ==> d.tickets[k] == c.tickets[k];
  }

  lemma AccountsTimedOut(c: Cmd, now: Time, windowOpen: bool)
    requires Accounted(c)
    ensures Accounted(TimedOut(c, now, windowOpen))
  {
  }

  lemma AccountsPatched(c: Cmd, t: Ticket, now: Time)
    requires Accounted(c) && TicketValid(c, t)
    ensures Accounted(Patched(c, t, now))
  {
  }

  lemma AccountsKept(c: Cmd, e: RowEvent, now: Time)
    requires RowEnabled(c, e, now) && TicketsValid(c) && Accounted(c)
    ensures Accounted(RowNext(c, e, now))
  {
    hide Patched, TimedOut;
    if e.PatchWrite? {
      assert TicketValid(c, c.tickets[e.request]);
      AccountsPatched(c.(tickets := c.tickets - {e.request}), c.tickets[e.request], now);
    }
    if e.TimeOut? { AccountsTimedOut(c.(sweeping := c.sweeping - {e.worker}), now, e.windowOpen); }
  }

  lemma BudgetKept(c: Cmd, e: RowEvent, now: Time)
    requires RowEnabled(c, e, now) && TicketsValid(c) && WithinBudget(c)
    ensures WithinBudget(RowNext(c, e, now))
  {
    if e.PatchWrite? { assert TicketValid(c, c.tickets[e.request]); }
  }

  lemma SingleTimedOut(c: Cmd, now: Time, windowOpen: bool)
    requires Single(c)
    ensures Single(TimedOut(c, now, windowOpen))
  {
  }

  lemma SinglePatched(c: Cmd, t: Ticket, now: Time)
    requires Single(c) && TicketValid(c, t)
    ensures Single(Patched(c, t, now))
  {
  }

  /** Executors take a row, publish it, and let go of it. */
  lemma SingleExecuted(c: Cmd, e: RowEvent, now: Time)
    requires RowEnabled(c, e, now) && Single(c)
    requires e.Claim? || e.Publish? || e.MarkSent? || e.Bounce?
    ensures Single(RowNext(c, e, now))
  {
    var d := RowNext(c, e, now);
    assert forall w :: w != e.worker && Holds(d.executing, w) ==> Holds(c.executing, w) && d.executing[w] == c.executing[w];
    if !e.Claim? { assert Holds(c.executing, e.worker); }
  }

  lemma SingleElsewhere(c: Cmd, e: RowEvent, now: Time)
    requires RowEnabled(c, e, now) && Single(c)
    requires !(e.Claim? || e.Publish? || e.MarkSent? || e.Bounce? || e.PatchWrite? || e.TimeOut?)
    ensures Single(RowNext(c, e, now))
  {
    var d := RowNext(c, e, now);
    assert forall w :: Holds(d.executing, w) ==> Holds(c.executing, w) && d.executing[w] == c.executing[w];
  }

  lemma SingleKept(c: Cmd, e: RowEvent, now: Time)
    requires RowEnabled(c, e, now) && TicketsValid(c) && Single(c)
    ensures Single(RowNext(c, e, now))
  {
    hide Patched, TimedOut;
    if e.PatchWrite? {
      assert TicketValid(c, c.tickets[e.request]);
      SinglePatched(c.(tickets := c.tickets - {e.request}), c.tickets[e.request], now);
    } else if e.TimeOut? {
      SingleTimedOut(c.(sweeping := c.sweeping - {e.worker}), now, e.windowOpen);
    } else if e.Claim? || e.Publish? || e.MarkSent? || e.Bounce? {
      SingleExecuted(c, e, now);
    } else {
      SingleElsewhere(c, e, now);
    }
  }

  lemma TwoAdminsKept(c: Cmd, e: RowEvent, now: Time)
    requires RowEnabled(c, e, now) && TicketsValid(c) && TwoAdmins(c) && OnAir(c, now)
    ensures TwoAdmins(RowNext(c, e, now))
  {
    if e.PatchWrite? { assert TicketValid(c, c.tickets[e.request]); }
  }

  lemma OnAirTimedOut(c: Cmd, now: Time, windowOpen: bool)
    requires OnAir(c, now)
    ensures OnAir(TimedOut(c, now, windowOpen), now)
  {
  }

  lemma OnAirPatched(c: Cmd, t: Ticket, now: Time)
    requires OnAir(c, now) && TicketValid(c, t)
    ensures OnAir(Patched(c, t, now), now)
  {
  }

  lemma OnAirKept(c: Cmd, e: RowEvent, now: Time)
    requires RowEnabled(c, e, now) && TicketsValid(c) && OnAir(c, now)
    ensures OnAir(RowNext(c, e, now), now)
  {
    hide Patched, TimedOut;
    if e.PatchWrite? {
      assert TicketValid(c, c.tickets[e.request]);
      OnAirPatched(c.(tickets := c.tickets - {e.request}), c.tickets[e.request], now);
    }
    if e.TimeOut? { OnAirTimedOut(c.(sweeping := c.sweeping - {e.worker}), now, e.windowOpen); }
  }

  lemma RankTimedOut(c: Cmd, now: Time, windowOpen: bool)
    requires Ranked(c)
    ensures Ranked(TimedOut(c, now, windowOpen))
  {
  }

  lemma RankPatched(c: Cmd, t: Ticket, now: Time)
    requires Ranked(c) && TicketValid(c, t)
    ensures Ranked(Patched(c, t, now))
  {
  }

  lemma RankKept(c: Cmd, e: RowEvent, now: Time)
    requires RowEnabled(c, e, now) && TicketsValid(c) && Ranked(c)
    ensures Ranked(RowNext(c, e, now))
  {
    hide Patched, TimedOut;
    if e.PatchWrite? {
      assert TicketValid(c, c.tickets[e.request]);
      RankPatched(c.(tickets := c.tickets - {e.request}), c.tickets[e.request], now);
    }
    if e.TimeOut? { RankTimedOut(c.(sweeping := c.sweeping - {e.worker}), now, e.windowOpen); }
  }

  lemma SafeKept(c: Cmd, e: RowEvent, now: Time)
    requires RowEnabled(c, e, now) && Safe(c, now)
    ensures Safe(RowNext(c, e, now), now)
  {
    TicketsKept(c, e, now);
    AccountsKept(c, e, now);
    BudgetKept(c, e, now);
    SingleKept(c, e, now);
    TwoAdminsKept(c, e, now);
    OnAirKept(c, e, now);
    RankKept(c, e, now);
  }

  lemma InsertedIsSafe(order: Order, scheduledAt: Option<Time>, now: Time)
    ensures Safe(Inserted(order, scheduledAt), now)
  {
  }

  /** Every command of every reachable state is safe. */
  lemma {:induction false} RunIsSafe(es: seq<Event>, id: Id)
    requires IsRun(es) && id in After(es).cmds
    ensures Safe(After(es).cmds[id], After(es).now)
    decreases |es|
  {
    var before := es[..|es| - 1];
    var w, e := After(before), es[|es| - 1];
    if id in w.cmds {
      RunIsSafe(before, id);
      if e.OnRow? && e.id == id {
        SafeKept(w.cmds[id], e.event, w.now);
      }
    } else {
      InsertedIsSafe(w.submissions[e.request].body.ToOrder(), w.submissions[e.request].body.scheduledAt, w.now);
    }
  }

  // ---------------------------------------------------------------------
  // Main results, for all runs
  // ---------------------------------------------------------------------

  /** Transmissions are accounted for by publish failures, retries and LOS
      re-plans, and the retry budget bounds them. */
  lemma {:induction false} TransmissionsAreAccounted(es: seq<Event>, id: Id)
    requires IsRun(es) && id in After(es).cmds
    ensures var c := After(es).cmds[id];
            var paid := c.tally.bounces + c.row.retryCount + c.tally.losReplans;
            && (c.row.status in {AwaitingApproval, Pending, Scheduled, Retry} ==> c.tally.entries == paid)
            && (c.row.status in {Transmitting, Sent, Timeout} ==> c.tally.entries == paid + 1)
            && paid <= c.tally.entries <= paid + 1
            && c.row.retryCount <= MAX_RETRIES + c.tally.stale
            && c.tally.entries <= 4 + c.tally.bounces + c.tally.losReplans + c.tally.stale
  {
    RunIsSafe(es, id);
  }

  /** A publication of the command that did not raise. */
  predicate IsPublication(e: Event, id: Id) {
    e.OnRow? && e.id == id && e.event.Publish? && !e.event.raised
  }

  function Publications(es: seq<Event>, id: Id): nat {
    if es == [] then 0
    else Publications(es[..|es| - 1], id) + if IsPublication(es[|es| - 1], id) then 1 else 0
  }

  lemma StepCountsPublications(w: World, e: Event, id: Id)
    requires Enabled(w, e)
    ensures var before := if id in w.cmds then w.cmds[id].tally.published else 0;
            var after := if id in Next(w, e).cmds then Next(w, e).cmds[id].tally.published else 0;
            after == before + if IsPublication(e, id) then 1 else 0
  {
  }

  /** The tally is the number of those in the run. */
  lemma {:induction false} PublicationsAreCounted(es: seq<Event>, id: Id)
    requires IsRun(es)
    ensures Publications(es, id) == if id in After(es).cmds then After(es).cmds[id].tally.published else 0
    decreases |es|
  {
    if es != [] {
      PublicationsAreCounted(es[..|es| - 1], id);
      StepCountsPublications(After(es[..|es| - 1]), es[|es| - 1], id);
    }
  }

  /** A command that may not be retried is published successfully at most once. */
  lemma {:induction false} AtMostOnePublication(es: seq<Event>, id: Id)
    requires IsRun(es) && id in After(es).cmds
    requires var order := After(es).cmds[id].row.order;
             !order.safeRetry || order.commandType in {"engine_fire", "deploy_antenna", "deploy_solar_panel", "separation"}
    ensures Publications(es, id) == After(es).cmds[id].tally.published <= 1
  {
    RunIsSafe(es, id);
    PublicationsAreCounted(es, id);
  }

  /** Whatever goes out of a two-admin type was released by a second admin. */
  lemma {:induction false} PublicationsAreReleased(es: seq<Event>, id: Id, w: Worker, raised: bool, stored: bool)
    requires IsRun(es + [OnRow(id, Publish(w, raised, stored))])
    ensures IsRun(es) && id in After(es).cmds
    ensures var row := After(es).cmds[id].row;
            row.order.commandType in {"separation", "factory_reset"} ==>
              row.approvedBy.Some? && row.approvedBy.value != row.order.createdBy
  {
    var all := es + [OnRow(id, Publish(w, raised, stored))];
    assert all[..|all| - 1] == es;
    RunIsSafe(es, id);
  }

  /** Outside awaiting_approval and dead, a two-admin row carries the approval. */
  lemma ApprovalIsCarried(es: seq<Event>, id: Id)
    requires IsRun(es) && id in After(es).cmds
    ensures var row := After(es).cmds[id].row;
            row.order.commandType in {"separation", "factory_reset"} && row.status !in {AwaitingApproval, Dead} ==>
              row.approvedBy.Some? && row.approvedBy.value != row.order.createdBy
  {
    RunIsSafe(es, id);
  }

  /** A command's status changes are bounded, whatever the interleaving. */
  lemma ChangesAreBounded(es: seq<Event>, id: Id)
    requires IsRun(es) && id in After(es).cmds
    ensures var t := After(es).cmds[id].tally;
            t.changes <= 21 + 2 * t.bounces + 2 * t.missed + 6 * t.losReplans + 5 * t.stale
  {
    RunIsSafe(es, id);
  }

  /** An acked command was on air, and was sent before it was acked. */
  lemma AckedWasSent(es: seq<Event>, id: Id)
    requires IsRun(es) && id in After(es).cmds
    requires After(es).cmds[id].row.status == Acked
    ensures var c := After(es).cmds[id];
            c.tally.entries > 0 && c.row.sentAt.Some? && c.row.ackedAt.Some?
            && c.row.sentAt.value <= c.row.ackedAt.value <= After(es).now
  {
    RunIsSafe(es, id);
  }

  /** Rows that ended stay exactly as they are, and so does the verdict on them. */
  lemma EndedRowsStay(c: Cmd, e: RowEvent, now: Time)
    requires RowEnabled(c, e, now) && TicketsValid(c) && Terminal(c.row.status)
    ensures RowNext(c, e, now).row == c.row && RowNext(c, e, now).tally.answer == c.tally.answer
  {
    if e.PatchWrite? { assert TicketValid(c, c.tickets[e.request]); }
  }

  lemma {:induction false} EndIsFinal(es: seq<Event>, more: seq<Event>, id: Id)
    requires IsRun(es + more) && IsRun(es)
    requires id in After(es).cmds && Terminal(After(es).cmds[id].row.status)
    ensures id in After(es + more).cmds
    ensures var c, d := After(es).cmds[id], After(es + more).cmds[id];
            d.row == c.row && d.tally.answer == c.tally.answer
    decreases |more|
  {
    if more == [] {
      assert es + more == es;
    } else {
      var before := more[..|more| - 1];
      assert (es + more)[..|es + more| - 1] == es + before;
      EndIsFinal(es, before, id);
      RunIsSafe(es + before, id);
      var w, e := After(es + before), (es + more)[|es + more| - 1];
      if e.OnRow? && e.id == id {
        EndedRowsStay(w.cmds[id], e.event, w.now);
      }
    }
  }

  /** The statuses an event walks a row through, first to last. */
  function Walk(c: Cmd, e: RowEvent, now: Time): seq<Status>
    requires RowEnabled(c, e, now)
  {
    var to := RowNext(c, e, now).row.status;
    if to == c.row.status then [to]
    else if e.TimeOut? && to == Dead then [Sent, Timeout, Dead]
    else if e.TimeOut? then [Sent, Timeout, Retry, to]
    else [c.row.status, to]
  }

  /** A walk that follows the table and is counted. */
  predicate Follows(c: Cmd, d: Cmd, path: seq<Status>) {
    && path != [] && path[0] == c.row.status && path[|path| - 1] == d.row.status
    && d.tally.changes == c.tally.changes + |path| - 1
  }

  lemma TimeOutFollows(c: Cmd, now: Time, windowOpen: bool)
    ensures var d := TimedOut(c, now, windowOpen);
            var path := if d.row.status == c.row.status then [c.row.status]
                        else if d.row.status == Dead then [Sent, Timeout, Dead]
                        else [Sent, Timeout, Retry, d.row.status];
            Follows(c, d, path) && IsPath(path)
  {
  }

  lemma PatchFollows(c: Cmd, t: Ticket, now: Time)
    requires TicketValid(c, t)
    ensures var d := Patched(c, t, now);
            var path := if d.row.status == c.row.status then [c.row.status] else [c.row.status, d.row.status];
            Follows(c, d, path) && IsPath(path)
  {
  }

  /** Every status change is a path of table edges of the counted length,
      except the bounce after a failed publication and the satellite's answers. */
  lemma ChangesFollowTheTable(c: Cmd, e: RowEvent, now: Time)
    requires RowEnabled(c, e, now) && Safe(c, now)
    ensures var path := Walk(c, e, now);
            && Follows(c, RowNext(c, e, now), path)
            && (IsPath(path)
                || (e.Bounce? && path == [Transmitting, Scheduled])
                || (e.MarkAcked? && c.row.Answerable() && path == [c.row.status, Acked])
                || (e.MarkRejected? && c.row.Answerable() && path == [c.row.status, Dead]))
  {
    hide Patched, TimedOut;
    if e.PatchWrite? {
      assert TicketValid(c, c.tickets[e.request]);
      PatchFollows(c.(tickets := c.tickets - {e.request}), c.tickets[e.request], now);
    } else if e.TimeOut? {
      TimeOutFollows(c.(sweeping := c.sweeping - {e.worker}), now, e.windowOpen);
    }
  }
}
