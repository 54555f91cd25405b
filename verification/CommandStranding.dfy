/** Rows that stay in `transmitting` because nobody is left to mark them as sent
    (backend/src/scheduler/service.py). */
module CommandStranding {
  import opened Basics
  import opened CommandModel
  import opened CommandProtocol
  import opened CommandSafety
  import opened CommandBudget

  /** An executor is between its claim of the row and the statement that records the outcome. */
  ghost predicate Held(c: Cmd) {
    exists w :: Holds(c.executing, w)
  }

  /** On air by its status, with no executor to take it off. */
  ghost predicate Stranded(c: Cmd) {
    c.row.status == Transmitting && !Held(c)
  }

  /** What strands a row: the only executor holding it crashes, or a PATCH
      writes the status of a row that nobody holds. */
  ghost predicate Strands(c: Cmd, e: RowEvent) {
    || (e.Crash? && c.row.status == Transmitting && Holds(c.executing, e.worker)
        && forall w :: Holds(c.executing, w) ==> w == e.worker)
    || (e.PatchWrite? && e.request in c.tickets && c.tickets[e.request].target == Transmitting
        && c.tickets[e.request].from == c.row.status && !Held(c))
  }

  lemma OthersStillHold(c: Cmd, e: RowEvent, now: Time, w: Worker)
    requires RowEnabled(c, e, now) && Holds(c.executing, w)
    ensures Holds(RowNext(c, e, now).executing, w) || ((e.MarkSent? || e.Bounce? || e.Crash?) && e.worker == w)
  {
  }

  lemma OnlyHoldersRecord(c: Cmd, e: RowEvent, now: Time)
    requires RowEnabled(c, e, now)
    ensures e.Publish? || e.MarkSent? || e.Bounce? ==> Held(c)
    ensures e.Claim? && c.row.status == Scheduled ==> Held(RowNext(c, e, now))
  {
    assert e.Publish? || e.MarkSent? || e.Bounce? ==> Holds(c.executing, e.worker);
    assert e.Claim? && c.row.status == Scheduled ==> Holds(RowNext(c, e, now).executing, e.worker);
  }

  lemma NobodyTakesIt(c: Cmd, e: RowEvent, now: Time)
    requires RowEnabled(c, e, now) && !Held(c) && c.row.status == Transmitting
    ensures !Held(RowNext(c, e, now))
  {
    OnlyHoldersRecord(c, e, now);
    var d := RowNext(c, e, now);
    assert forall w :: Holds(d.executing, w) ==> Holds(c.executing, w);
  }

  lemma StrandingEvents(c: Cmd, e: RowEvent, now: Time)
    requires RowEnabled(c, e, now) && Strands(c, e)
    ensures Stranded(RowNext(c, e, now))
  {
    var d := RowNext(c, e, now);
    forall w | Holds(d.executing, w) ensures Holds(c.executing, w) && w != e.worker {
    }
  }

  /** A row becomes stranded in one of these two ways only. */
  lemma StrandedExactly(c: Cmd, e: RowEvent, now: Time)
    requires RowEnabled(c, e, now) && !Stranded(c)
    ensures Stranded(RowNext(c, e, now)) <==> Strands(c, e)
  {
    if Strands(c, e) {
      StrandingEvents(c, e, now);
    } else if Stranded(RowNext(c, e, now)) {
      OnlyHoldersRecord(c, e, now);
      forall w | Holds(c.executing, w) ensures e.Crash? && e.worker == w { OthersStillHold(c, e, now, w); }
    }
  }

  /** Only a PATCH or the satellite's answer takes it further. */
  lemma StrandedStep(c: Cmd, e: RowEvent, now: Time)
    requires RowEnabled(c, e, now) && Stranded(c)
    requires !e.PatchWrite? && !e.MarkAcked? && !e.MarkRejected?
    ensures Stranded(RowNext(c, e, now)) && RowNext(c, e, now).row == c.row
  {
    OnlyHoldersRecord(c, e, now);
    NobodyTakesIt(c, e, now);
  }

  // ---------------------------------------------------------------------
  // Over whole runs
  // ---------------------------------------------------------------------

  /** Event i stranded the row. */
  ghost predicate StrandedBy(es: seq<Event>, id: Id, i: nat) {
    && i < |es| && es[i].OnRow? && es[i].id == id
    && IsRun(es[..i]) && id in After(es[..i]).cmds && Strands(After(es[..i]).cmds[id], es[i].event)
  }

  ghost predicate StrandedAt(es: seq<Event>, id: Id, k: nat)
    requires k <= |es|
  {
    IsRun(es[..k]) && id in After(es[..k]).cmds && Stranded(After(es[..k]).cmds[id])
  }

  /** From event i on the row has been stranded. */
  ghost predicate StrandedSince(es: seq<Event>, id: Id, i: nat) {
    forall k :: i < k <= |es| ==> StrandedAt(es, id, k)
  }

  lemma SinceThenToo(es: seq<Event>, id: Id, i: nat)
    requires es != [] && IsRun(es) && id in After(es).cmds && Stranded(After(es).cmds[id])
    requires StrandedBy(es[..|es| - 1], id, i) && StrandedSince(es[..|es| - 1], id, i)
    ensures StrandedBy(es, id, i) && StrandedSince(es, id, i)
  {
    hide Strands, Stranded;
    var before := es[..|es| - 1];
    assert before[..i] == es[..i];
    forall k | i < k <= |es| ensures StrandedAt(es, id, k) {
      if k < |es| {
        assert StrandedAt(before, id, k);
        assert before[..k] == es[..k];
      } else {
        assert es[..k] == es;
      }
    }
  }

  lemma JustStranded(es: seq<Event>, id: Id)
    requires es != [] && IsRun(es) && id in After(es).cmds && Stranded(After(es).cmds[id])
    requires var before := es[..|es| - 1]; id in After(before).cmds ==> !Stranded(After(before).cmds[id])
    ensures StrandedBy(es, id, |es| - 1) && StrandedSince(es, id, |es| - 1)
  {
    var w, e := After(es[..|es| - 1]), es[|es| - 1];
    assert id in w.cmds;
    assert e.OnRow? && e.id == id;
    assert es[..|es|] == es;
    hide RowNext, Strands, Stranded, RowEnabled;
    StrandedExactly(w.cmds[id], e.event, w.now);
  }

  /** A transmitting row has an executor that is about to record the outcome, or
      the executor crashed, or a PATCH put it there; and then it has been like
      that ever since. */
  lemma {:induction false} TransmittingIsHeld(es: seq<Event>, id: Id) returns (i: nat)
    requires IsRun(es) && id in After(es).cmds && After(es).cmds[id].row.status == Transmitting
    ensures Held(After(es).cmds[id]) || (StrandedBy(es, id, i) && StrandedSince(es, id, i))
    decreases |es|
  {
    i := 0;
    if !Held(After(es).cmds[id]) {
      assert es != [] && Stranded(After(es).cmds[id]);
      var before := es[..|es| - 1];
      if id in After(before).cmds && Stranded(After(before).cmds[id]) {
        i := TransmittingIsHeld(before, id);
        SinceThenToo(es, id, i);
      } else {
        i := |es| - 1;
        JustStranded(es, id);
      }
    }
  }

  /** Of this event: it is not one of those that end it. */
  predicate LeavesStranded(e: Event, id: Id) {
    e.OnRow? && e.id == id ==> !e.event.PatchWrite? && !e.event.MarkAcked? && !e.event.MarkRejected?
  }

  lemma StrandedThroughStep(w: World, e: Event, id: Id)
    requires Enabled(w, e) && id in w.cmds && Stranded(w.cmds[id]) && LeavesStranded(e, id)
    ensures id in Next(w, e).cmds && Stranded(Next(w, e).cmds[id])
    ensures Next(w, e).cmds[id].row == w.cmds[id].row && !IsPublication(e, id)
  {
    if e.OnRow? && e.id == id {
      OnlyHoldersRecord(w.cmds[id], e.event, w.now);
      StrandedStep(w.cmds[id], e.event, w.now);
    }
  }

  /** Without a PATCH or an answer of the satellite it stays as it is, whatever
      the schedulers do, and is never published again. */
  lemma {:induction false} StrandedStays(es: seq<Event>, more: seq<Event>, id: Id)
    requires IsRun(es) && IsRun(es + more) && id in After(es).cmds && Stranded(After(es).cmds[id])
    requires forall i :: 0 <= i < |more| ==> LeavesStranded(more[i], id)
    ensures id in After(es + more).cmds && Stranded(After(es + more).cmds[id])
    ensures After(es + more).cmds[id].row == After(es).cmds[id].row
    ensures Publications(es + more, id) == Publications(es, id)
    decreases |more|
  {
    if more == [] {
      assert es + more == es;
    } else {
      var all := es + more;
      assert all[..|all| - 1] == es + more[..|more| - 1];
      hide Next, Enabled, Stranded, IsPublication, LeavesStranded;
      StrandedStays(es, more[..|more| - 1], id);
      StrandedThroughStep(After(all[..|all| - 1]), all[|all| - 1], id);
    }
  }

  /** An executor claims a row and crashes before it has published it. */
  lemma {:induction false} CrashStrands() returns (es: seq<Event>, id: Id)
    ensures IsRun(es) && id in After(es).cmds && Stranded(After(es).cmds[id]) && Publications(es, id) == 0
  {
    hide IsRun, After, Next;
    id := "c";
    es := Submit(Request("sat", "ping", map[], true, None, None, "op"), id);
    es := OnCommand(es, id, Plan(0));
    es := OnCommand(es, id, Fetch(0));
    es := OnCommand(es, id, Claim(0));
    es := OnCommand(es, id, Crash(0));
    PublicationsAreCounted(es, id);
  }
}
