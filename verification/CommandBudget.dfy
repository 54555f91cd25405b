/** The retry budget and the PATCH endpoint, which reads a row and updates it
    in two statements guarded only by the status it read. */
module CommandBudget {
  import opened Basics
  import opened CommandModel
  import opened CommandProtocol
  import opened CommandSafety

  /** Within budget, exactly one thing breaks it: a PATCH retry written while
      the retries are already spent, its own read being out of date. */
  lemma OnlyOutdatedRetriesOverspend(c: Cmd, e: RowEvent, now: Time)
    requires RowEnabled(c, e, now) && Safe(c, now) && c.row.retryCount <= MAX_RETRIES
    ensures RowNext(c, e, now).row.retryCount > MAX_RETRIES <==>
            && e.PatchWrite?
            && c.tickets[e.request].target == Retry
            && c.tickets[e.request].from == c.row.status
            && c.row.retryCount == MAX_RETRIES
  {
  }

  /** Every PATCH of this command writes right after its own read. */
  ghost predicate PatchesAtomically(es: seq<Event>, id: Id) {
    forall i {:trigger es[i]} :: 0 <= i < |es| && es[i].OnRow? && es[i].id == id && es[i].event.PatchWrite? ==>
      i > 0 && es[i - 1].OnRow? && es[i - 1].id == id
      && es[i - 1].event.PatchRead? && es[i - 1].event.request == es[i].event.request
  }

  lemma StaleOnlyIfOutdated(c: Cmd, e: RowEvent, now: Time)
    requires RowEnabled(c, e, now)
    requires e.PatchWrite? ==> c.tickets[e.request].seenRetries == c.row.retryCount
    ensures RowNext(c, e, now).tally.stale == c.tally.stale
  {
  }

  lemma ReadIsCurrent(es: seq<Event>, id: Id, request: nat, target: Status)
    requires es != [] && IsRun(es) && es[|es| - 1] == OnRow(id, PatchRead(request, target))
    ensures var c := After(es).cmds[id];
            request in c.tickets && c.tickets[request].seenRetries == c.row.retryCount
  {
  }

  lemma AtomicityOfPrefix(es: seq<Event>, id: Id)
    requires es != [] && PatchesAtomically(es, id)
    ensures PatchesAtomically(es[..|es| - 1], id)
  {
    var before := es[..|es| - 1];
    assert forall i :: 0 <= i < |before| ==> before[i] == es[i];
  }

  lemma {:induction false} AtomicPatchesAreNeverStale(es: seq<Event>, id: Id)
    requires IsRun(es) && id in After(es).cmds && PatchesAtomically(es, id)
    ensures After(es).cmds[id].tally.stale == 0
    decreases |es|
  {
    var n := |es| - 1;
    var before := es[..n];
    var e := es[n];
    if id in After(before).cmds {
      AtomicityOfPrefix(es, id);
      AtomicPatchesAreNeverStale(before, id);
      if e.OnRow? && e.id == id {
        if e.event.PatchWrite? {
          assert before[n - 1] == es[n - 1];
          ReadIsCurrent(before, id, e.event.request, es[n - 1].event.target);
        }
        StaleOnlyIfOutdated(After(before).cmds[id], e.event, After(before).now);
      }
    }
  }

  /** With PATCH as one step, no command is ever retried more than MAX_RETRIES
      times, and the transmissions are bounded accordingly. */
  lemma {:induction false} AtomicPatchesKeepTheBudget(es: seq<Event>, id: Id)
    requires IsRun(es) && id in After(es).cmds && PatchesAtomically(es, id)
    ensures var c := After(es).cmds[id];
            && c.row.retryCount <= MAX_RETRIES
            && c.tally.entries <= 4 + c.tally.bounces + c.tally.losReplans
            && c.tally.changes <= 21 + 2 * c.tally.bounces + 2 * c.tally.missed + 6 * c.tally.losReplans
  {
    AtomicPatchesAreNeverStale(es, id);
    TransmissionsAreAccounted(es, id);
    ChangesAreBounded(es, id);
  }

  // ---------------------------------------------------------------------
  // A run that overspends
  // ---------------------------------------------------------------------

  /** Add one event to a run. */
  lemma {:induction false} Append(es: seq<Event>, e: Event) returns (fs: seq<Event>)
    requires IsRun(es) && Enabled(After(es), e)
    ensures fs == es + [e] && IsRun(fs) && After(fs) == Next(After(es), e)
  {
    fs := es + [e];
    assert fs[..|fs| - 1] == es;
  }

  lemma {:induction false} OnCommand(es: seq<Event>, id: Id, e: RowEvent) returns (fs: seq<Event>)
    requires IsRun(es) && id in After(es).cmds && RowEnabled(After(es).cmds[id], e, After(es).now)
    requires !e.MarkAcked? && !e.MarkRejected?
    ensures IsRun(fs) && es <= fs && id in After(fs).cmds && After(fs).now == After(es).now
    ensures After(fs).cmds[id] == RowNext(After(es).cmds[id], e, After(es).now)
    ensures After(fs).sats == After(es).sats && After(es).uplink <= After(fs).uplink
  {
    fs := Append(es, OnRow(id, e));
  }

  /** A PATCH served without interruption. */
  lemma {:induction false} Patch(es: seq<Event>, id: Id, request: nat, target: Status) returns (fs: seq<Event>)
    requires IsRun(es) && id in After(es).cmds
    requires request !in After(es).cmds[id].tickets && PatchAllowed(After(es).cmds[id].row, target)
    ensures IsRun(fs) && id in After(fs).cmds && After(fs).now == After(es).now
    ensures var c, d := After(es).cmds[id], After(fs).cmds[id];
            && d.tickets == c.tickets && d.row.order == c.row.order && d.row.status == target
            && d.row.retryCount == c.row.retryCount + if target == Retry then 1 else 0
  {
    hide IsRun, After, Next;
    fs := OnCommand(es, id, PatchRead(request, target));
    fs := OnCommand(fs, id, PatchWrite(request));
    assert After(fs).cmds[id].tickets == After(es).cmds[id].tickets;
  }

  /** A run with one command, freshly created and planned. */
  lemma {:induction false} Submit(body: Request, id: Id) returns (es: seq<Event>)
    requires id != "" && body.key.None?
    ensures IsRun(es) && After(es).now == 0 && After(es).sats == map[]
    ensures After(es).cmds == map[id := Inserted(body.ToOrder(), body.scheduledAt)]
  {
    es := Append([], Lookup(0, body, None));
    es := Append(es, Insert(0, id));
  }

  /** Two operators read a timed-out command with two retries spent, and both
      retries go through: four retries, although the limit is three. */
  lemma {:induction false} TwoPatchesOverspend() returns (es: seq<Event>, id: Id)
    ensures IsRun(es) && id in After(es).cmds && After(es).cmds[id].row.retryCount == MAX_RETRIES + 1
  {
    hide IsRun, After, Next;
    id := "c";
    es := Submit(Request("sat", "ping", map[], true, None, None, "op"), id);
    es := OnCommand(es, id, Plan(0));
    es := Patch(es, id, 0, Transmitting);
    es := Patch(es, id, 0, Timeout);
    for spent := 0 to 2
      invariant IsRun(es) && id in After(es).cmds
      invariant var c := After(es).cmds[id];
                c.row.status == Timeout && c.row.retryCount == spent && c.tickets == map[] && c.row.order.Retryable()
    {
      es := Patch(es, id, 0, Retry);
      es := Patch(es, id, 0, Transmitting);
      es := Patch(es, id, 0, Timeout);
    }
    es := OnCommand(es, id, PatchRead(1, Retry));
    es := Patch(es, id, 0, Retry);
    es := Patch(es, id, 0, Transmitting);
    es := Patch(es, id, 0, Timeout);
    es := OnCommand(es, id, PatchWrite(1));
  }
}
