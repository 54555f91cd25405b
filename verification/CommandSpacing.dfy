/** How far apart the publications of one command are. */
module CommandSpacing {
  import opened Basics
  import opened CommandModel
  import opened CommandProtocol
  import opened CommandSafety
  import opened CommandBudget

  // ---------------------------------------------------------------------
  // Any number of schedulers: what spacing rests on
  // ---------------------------------------------------------------------

  /** The retry rules allow a publication now. */
  predicate Due(c: Cmd, now: Time) {
    c.tally.notBefore.None? || now > c.tally.notBefore.value
  }

  predicate Unpatched(e: RowEvent) {
    !e.PatchRead? && !e.PatchWrite?
  }

  /** An executor that claimed the row: it may publish now, or it has published. */
  predicate MayPublish(c: Cmd, now: Time, stage: Stage) {
    if stage == Published then c.tally.notBefore.Some? && c.tally.notBefore.value <= now + ACK_TIMEOUT
    else Due(c, now)
  }

  /** Nothing that is under way can lead to a publication before its time. */
  ghost predicate Spread(c: Cmd, now: Time) {
    && c.tickets == map[] && c.row.status !in {Timeout, Retry}
    && (c.row.status == AwaitingApproval ==> c.tally.notBefore.None?)
    && (c.row.status == Pending ==> Due(c, now))
    && (c.row.status == Scheduled ==>
          Due(c, now) || (c.row.scheduledAt.Some? && c.row.scheduledAt.value > c.tally.notBefore.value))
    && (c.row.status == Sent && c.tally.notBefore.Some? ==>
          c.row.sentAt.Some? && c.tally.notBefore.value <= c.row.sentAt.value + ACK_TIMEOUT)
    && (forall v, w :: Holds(c.executing, v) && Holds(c.executing, w) ==> v == w)
    && (forall w :: Holds(c.executing, w) ==>
          c.row.status in {Transmitting, Acked, Dead} && MayPublish(c, now, c.executing[w]))
  }

  /** The three ways to go wrong: claiming or re-planning a row, or retrying a
      timed-out one, before the retry rules allow its next publication. */
  predicate TooEarly(c: Cmd, e: RowEvent, now: Time)
    requires RowEnabled(c, e, now)
  {
    && !Due(c, now)
    && (((e.Claim? || e.Replan?) && c.row.status == Scheduled)
        || (e.TimeOut? && c.row.status == Sent && RowNext(c, e, now).row.status != Dead))
  }

  lemma SpreadTimedOut(c: Cmd, now: Time, open: bool)
    requires Spread(c, now)
    ensures var d := TimedOut(c, now, open);
            Spread(d, now) <==> !(!Due(c, now) && c.row.status == Sent && d.row.status != Dead)
  {
  }

  lemma SpreadExecuted(c: Cmd, e: RowEvent, now: Time)
    requires RowEnabled(c, e, now) && Spread(c, now)
    requires e.Claim? || e.Publish? || e.MarkSent? || e.Bounce?
    ensures Spread(RowNext(c, e, now), now) <==> !TooEarly(c, e, now)
  {
    var d := RowNext(c, e, now);
    assert forall w :: w != e.worker && Holds(d.executing, w) ==> Holds(c.executing, w) && d.executing[w] == c.executing[w];
    if e.Claim? {
      if c.row.status == Scheduled { assert Holds(d.executing, e.worker); }
    } else {
      assert Holds(c.executing, e.worker);
    }
  }

  lemma SpreadElsewhere(c: Cmd, e: RowEvent, now: Time)
    requires RowEnabled(c, e, now) && Spread(c, now) && Unpatched(e)
    requires !(e.Claim? || e.Publish? || e.MarkSent? || e.Bounce? || e.TimeOut?)
    ensures Spread(RowNext(c, e, now), now) <==> !TooEarly(c, e, now)
  {
    var d := RowNext(c, e, now);
    assert forall w :: Holds(d.executing, w) ==> Holds(c.executing, w) && d.executing[w] == c.executing[w];
  }

  /** Without PATCH, a step breaks the spacing exactly if it comes too early. */
  lemma SpacingBreaksExactly(c: Cmd, e: RowEvent, now: Time)
    requires RowEnabled(c, e, now) && Spread(c, now) && Unpatched(e)
    ensures Spread(RowNext(c, e, now), now) <==> !TooEarly(c, e, now)
  {
    if e.TimeOut? {
      SpreadTimedOut(c.(sweeping := c.sweeping - {e.worker}), now, e.windowOpen);
    } else if e.Claim? || e.Publish? || e.MarkSent? || e.Bounce? {
      SpreadExecuted(c, e, now);
    } else {
      SpreadElsewhere(c, e, now);
    }
  }

  /** What the UPDATEs would have to check again: that a sent row is still
      overdue, and a scheduled one still due.  And no PATCH. */
  predicate Guarded(c: Cmd, e: RowEvent, now: Time) {
    && Unpatched(e)
    && (e.TimeOut? && c.row.status == Sent ==> c.row.sentAt.Some? && c.row.sentAt.value < now - ACK_TIMEOUT)
    && ((e.Claim? || e.Replan?) && c.row.status == Scheduled ==>
          c.row.scheduledAt.Some? && c.row.scheduledAt.value <= now)
  }

  lemma GuardsSuffice(c: Cmd, e: RowEvent, now: Time)
    requires RowEnabled(c, e, now) && Spread(c, now) && Guarded(c, e, now)
    ensures !TooEarly(c, e, now)
  {
  }

  /** Event i, if it is on this command, met the guards. */
  ghost predicate GuardedAt(es: seq<Event>, id: Id, i: nat) {
    i < |es| && es[i].OnRow? && es[i].id == id ==>
      IsRun(es[..i]) && id in After(es[..i]).cmds && Guarded(After(es[..i]).cmds[id], es[i].event, After(es[..i]).now)
  }

  ghost predicate GuardedRun(es: seq<Event>, id: Id) {
    forall i :: 0 <= i < |es| ==> GuardedAt(es, id, i)
  }

  /** Nobody PATCHes this command. */
  ghost predicate UnpatchedRun(es: seq<Event>, id: Id) {
    forall i :: 0 <= i < |es| && es[i].OnRow? && es[i].id == id ==> Unpatched(es[i].event)
  }

  /** Event i, if it is on this command, is not a PATCH and does not come too early. */
  ghost predicate TimelyAt(es: seq<Event>, id: Id, i: nat) {
    i < |es| && es[i].OnRow? && es[i].id == id ==>
      && Unpatched(es[i].event) && IsRun(es[..i]) && Enabled(After(es[..i]), es[i])
      && !TooEarly(After(es[..i]).cmds[id], es[i].event, After(es[..i]).now)
  }

  ghost predicate TimelyRun(es: seq<Event>, id: Id) {
    forall i :: 0 <= i < |es| ==> TimelyAt(es, id, i)
  }

  lemma TimelyPrefix(es: seq<Event>, id: Id, k: nat)
    requires TimelyRun(es, id) && k <= |es|
    ensures TimelyRun(es[..k], id)
  {
    forall i | 0 <= i < k ensures TimelyAt(es[..k], id, i) {
      assert TimelyAt(es, id, i);
      assert es[..k][..i] == es[..i];
    }
  }

  lemma TimelyIsUnpatched(es: seq<Event>, id: Id)
    requires TimelyRun(es, id)
    ensures UnpatchedRun(es, id)
  {
    forall i | 0 <= i < |es| && es[i].OnRow? && es[i].id == id ensures Unpatched(es[i].event) {
      assert TimelyAt(es, id, i);
    }
  }

  lemma SpreadLater(c: Cmd, now: Time, later: Time)
    requires Spread(c, now) && now <= later
    ensures Spread(c, later)
  {
  }

  lemma InsertedIsSpread(order: Order, scheduledAt: Option<Time>, now: Time)
    ensures Spread(Inserted(order, scheduledAt), now)
  {
  }

  lemma {:induction false} TimelyRunIsSpread(es: seq<Event>, id: Id)
    requires IsRun(es) && id in After(es).cmds && TimelyRun(es, id)
    ensures Spread(After(es).cmds[id], After(es).now)
    decreases |es|
  {
    hide Spread, RowNext, TooEarly, Unpatched;
    var n := |es| - 1;
    var before := es[..n];
    var w, e := After(before), es[n];
    TimelyPrefix(es, id, n);
    assert TimelyAt(es, id, n);
    if id in w.cmds {
      TimelyRunIsSpread(before, id);
      if e.OnRow? && e.id == id {
        SpacingBreaksExactly(w.cmds[id], e.event, w.now);
      } else {
        SpreadLater(w.cmds[id], w.now, After(es).now);
      }
    } else {
      InsertedIsSpread(w.submissions[e.request].body.ToOrder(), w.submissions[e.request].body.scheduledAt, w.now);
    }
  }

  /** The guards keep every step timely. */
  lemma {:induction false} GuardedRunIsTimely(es: seq<Event>, id: Id)
    requires IsRun(es) && GuardedRun(es, id)
    ensures TimelyRun(es, id)
    decreases |es|
  {
    hide Spread, RowNext, TooEarly, Guarded, Unpatched, Next, RowEnabled;
    if es != [] {
      var n := |es| - 1;
      var before := es[..n];
      forall i | 0 <= i < n ensures GuardedAt(before, id, i) {
        assert GuardedAt(es, id, i);
        assert before[..i] == es[..i];
      }
      GuardedRunIsTimely(before, id);
      forall i | 0 <= i < |es| ensures TimelyAt(es, id, i) {
        if i < n {
          assert TimelyAt(before, id, i);
          assert before[..i] == es[..i];
        } else if es[n].OnRow? && es[n].id == id {
          assert GuardedAt(es, id, n);
          TimelyRunIsSpread(before, id);
          GuardsSuffice(After(before).cmds[id], es[n].event, After(before).now);
          GuardedIsUnpatched(After(before).cmds[id], es[n].event, After(before).now);
        }
      }
    }
  }

  lemma GuardedIsUnpatched(c: Cmd, e: RowEvent, now: Time)
    requires Guarded(c, e, now)
    ensures Unpatched(e)
  {
  }

  // ---------------------------------------------------------------------
  // From one publication to the next
  // ---------------------------------------------------------------------

  /** The backoffs of the retries that took the count from `lo` to `hi`. */
  function BackoffsSpent(lo: nat, hi: nat): Time {
    if hi <= lo then 0 else BackoffsSpent(lo, hi - 1) + Backoff(hi - 1)
  }

  /** The time at which the event after a prefix happens. */
  ghost function TimeOf(es: seq<Event>, i: nat): Time
    requires i <= |es| && IsRun(es[..i])
  {
    After(es[..i]).now
  }

  lemma PrefixIsSpread(es: seq<Event>, id: Id, k: nat)
    requires IsRun(es) && k <= |es| && TimelyRun(es, id)
    requires IsRun(es[..k]) && id in After(es[..k]).cmds
    ensures Spread(After(es[..k]).cmds[id], After(es[..k]).now)
  {
    hide TimelyRun, Spread;
    TimelyPrefix(es, id, k);
    TimelyRunIsSpread(es[..k], id);
  }

  lemma RetriesPostpone(c: Cmd, e: RowEvent, now: Time)
    requires RowEnabled(c, e, now) && Unpatched(e) && c.tally.notBefore.Some?
    requires !(e.Publish? && !e.raised)
    ensures var d := RowNext(c, e, now);
            && d.row.retryCount in {c.row.retryCount, c.row.retryCount + 1}
            && d.tally.notBefore == Some(c.tally.notBefore.value + BackoffsSpent(c.row.retryCount, d.row.retryCount))
  {
  }

  lemma {:induction false} BackoffsAdd(lo: nat, mid: nat, hi: nat)
    requires lo <= mid <= hi
    ensures BackoffsSpent(lo, hi) == BackoffsSpent(lo, mid) + BackoffsSpent(mid, hi)
    decreases hi
  {
    if mid < hi { BackoffsAdd(lo, mid, hi - 1); }
  }

  /** What a publication at time t with retry count r allows from then on. */
  predicate Postponed(c: Cmd, t: Time, r: nat) {
    r <= c.row.retryCount
    && c.tally.notBefore == Some(t + ACK_TIMEOUT + BackoffsSpent(r, c.row.retryCount))
  }

  lemma StepKeepsPostponed(c: Cmd, e: RowEvent, now: Time, t: Time, r: nat)
    requires RowEnabled(c, e, now) && Unpatched(e) && !(e.Publish? && !e.raised) && Postponed(c, t, r)
    ensures Postponed(RowNext(c, e, now), t, r)
  {
    hide RowNext, BackoffsSpent;
    RetriesPostpone(c, e, now);
    BackoffsAdd(r, c.row.retryCount, RowNext(c, e, now).row.retryCount);
  }

  lemma RowStepOf(w: World, e: Event, id: Id)
    requires Enabled(w, e) && id in w.cmds
    ensures id in Next(w, e).cmds
    ensures if e.OnRow? && e.id == id then
              RowEnabled(w.cmds[id], e.event, w.now) && Next(w, e).cmds[id] == RowNext(w.cmds[id], e.event, w.now)
            else Next(w, e).cmds[id] == w.cmds[id]
  {
    hide RowNext, RowEnabled;
  }

  lemma PublicationPostpones(w: World, e: Event, id: Id)
    requires Enabled(w, e) && IsPublication(e, id)
    ensures id in w.cmds && id in Next(w, e).cmds
    ensures Postponed(Next(w, e).cmds[id], w.now, w.cmds[id].row.retryCount)
  {
  }

  /** After publication i and until the next one, the earliest time for the
      next is ACK_TIMEOUT and the spent backoffs later. */
  lemma {:induction false} EarliestNext(es: seq<Event>, id: Id, i: nat, k: nat)
    requires IsRun(es) && i < k <= |es| && UnpatchedRun(es, id)
    requires IsPublication(es[i], id) && forall j :: i < j < k ==> !IsPublication(es[j], id)
    ensures IsRun(es[..i]) && IsRun(es[..k])
    ensures id in After(es[..i]).cmds && id in After(es[..k]).cmds
    ensures Postponed(After(es[..k]).cmds[id], TimeOf(es, i), After(es[..i]).cmds[id].row.retryCount)
    decreases k
  {
    hide IsRun, After, Next, Enabled, Postponed, RowEnabled, RowNext, Unpatched;
    PrefixStep(es, i);
    PublicationPostpones(After(es[..i]), es[i], id);
    if k > i + 1 {
      EarliestNext(es, id, i, k - 1);
      PrefixStep(es, k - 1);
      RowStepOf(After(es[..k - 1]), es[k - 1], id);
      if es[k - 1].OnRow? && es[k - 1].id == id {
        var w := After(es[..k - 1]);
        StepKeepsPostponed(w.cmds[id], es[k - 1].event, w.now, TimeOf(es, i), After(es[..i]).cmds[id].row.retryCount);
      }
    }
  }

  /** With any number of schedulers: as long as no step comes too early, successive
      publications are more than ACK_TIMEOUT apart, and further by the backoff
      of every retry between. */
  lemma {:induction false} TimelyPublicationsAreSpaced(es: seq<Event>, id: Id, i: nat, j: nat)
    requires IsRun(es) && i < j < |es| && TimelyRun(es, id)
    requires IsPublication(es[i], id) && IsPublication(es[j], id)
    requires forall k :: i < k < j ==> !IsPublication(es[k], id)
    ensures IsRun(es[..i]) && IsRun(es[..j])
    ensures id in After(es[..i]).cmds && id in After(es[..j]).cmds
    ensures TimeOf(es, j) - TimeOf(es, i) >
            ACK_TIMEOUT + BackoffsSpent(After(es[..i]).cmds[id].row.retryCount, After(es[..j]).cmds[id].row.retryCount)
  {
    hide IsRun, After, Next, TimelyRun;
    TimelyIsUnpatched(es, id);
    EarliestNext(es, id, i, j);
    PrefixStep(es, j);
    PrefixIsSpread(es, id, j);
    assert Holds(After(es[..j]).cmds[id].executing, es[j].event.worker);
  }

  /** So they are as long as the guards are met. */
  lemma {:induction false} GuardedPublicationsAreSpaced(es: seq<Event>, id: Id, i: nat, j: nat)
    requires IsRun(es) && i < j < |es| && GuardedRun(es, id)
    requires IsPublication(es[i], id) && IsPublication(es[j], id)
    requires forall k :: i < k < j ==> !IsPublication(es[k], id)
    ensures IsRun(es[..i]) && IsRun(es[..j])
    ensures id in After(es[..i]).cmds && id in After(es[..j]).cmds
    ensures TimeOf(es, j) - TimeOf(es, i) >
            ACK_TIMEOUT + BackoffsSpent(After(es[..i]).cmds[id].row.retryCount, After(es[..j]).cmds[id].row.retryCount)
  {
    hide IsRun, After, GuardedRun, TimelyRun;
    GuardedRunIsTimely(es, id);
    TimelyPublicationsAreSpaced(es, id, i, j);
  }

  // ---------------------------------------------------------------------
  // What a step that comes too early leads to
  // ---------------------------------------------------------------------

  /** Neither a publication of the command nor a PATCH of it. */
  predicate Quiet(e: Event, id: Id) {
    !IsPublication(e, id) && (e.OnRow? && e.id == id ==> Unpatched(e.event))
  }

  ghost predicate QuietSince(es: seq<Event>, fs: seq<Event>, id: Id) {
    es <= fs && forall j :: |es| <= j < |fs| ==> Quiet(fs[j], id)
  }

  /** fs is a run that continues es quietly, and by the retry rules the command
      may not be published yet. */
  ghost predicate Hurries(es: seq<Event>, fs: seq<Event>, id: Id) {
    QuietSince(es, fs, id) && IsRun(fs) && id in After(fs).cmds && !Due(After(fs).cmds[id], After(fs).now)
  }

  lemma {:induction false} HurryOn(es: seq<Event>, fs: seq<Event>, id: Id, e: RowEvent) returns (gs: seq<Event>)
    requires Hurries(es, fs, id)
    requires RowEnabled(After(fs).cmds[id], e, After(fs).now)
    requires e.Fetch? || e.Plan? || e.Claim? || e.Replan? || e.TimeOut?
    requires !Due(RowNext(After(fs).cmds[id], e, After(fs).now), After(fs).now)
    ensures gs == fs + [OnRow(id, e)] && Hurries(es, gs, id) && After(gs).now == After(fs).now
    ensures After(gs).cmds[id] == RowNext(After(fs).cmds[id], e, After(fs).now)
  {
    hide IsRun, After, RowNext, RowEnabled;
    gs := Append(fs, OnRow(id, e));
  }

  /** A run that ends with a publication before its time. */
  ghost predicate EndsEarly(es: seq<Event>, fs: seq<Event>, id: Id) {
    && |es| < |fs| && es <= fs && IsRun(fs) && IsPublication(fs[|fs| - 1], id)
    && Hurries(es, fs[..|fs| - 1], id)
  }

  lemma {:induction false} PublishEarly(es: seq<Event>, fs: seq<Event>, id: Id, v: Worker) returns (gs: seq<Event>)
    requires Hurries(es, fs, id) && v in After(fs).cmds[id].executing && After(fs).cmds[id].executing[v] == Claimed
    ensures |gs| == |fs| + 1 && fs <= gs && EndsEarly(es, gs, id)
  {
    hide IsRun, After, RowNext;
    gs := Append(fs, OnRow(id, Publish(v, false, true)));
    assert gs[..|gs| - 1] == fs;
  }

  /** From a scheduled row whose time has come. */
  lemma {:induction false} ExecuteEarly(es: seq<Event>, fs: seq<Event>, id: Id, v: Worker) returns (gs: seq<Event>)
    requires Hurries(es, fs, id) && v !in After(fs).cmds[id].executing
    requires var c := After(fs).cmds[id];
             c.row.status == Scheduled && c.row.scheduledAt.Some? && c.row.scheduledAt.value <= After(fs).now
    ensures |gs| == |fs| + 3 && fs <= gs && EndsEarly(es, gs, id)
  {
    hide IsRun, After, QuietSince, EndsEarly;
    gs := HurryOn(es, fs, id, Fetch(v));
    gs := HurryOn(es, gs, id, Claim(v));
    gs := PublishEarly(es, gs, id, v);
  }

  /** From a waiting row. */
  lemma {:induction false} PlanEarly(es: seq<Event>, fs: seq<Event>, id: Id, v: Worker) returns (gs: seq<Event>)
    requires Hurries(es, fs, id) && v !in After(fs).cmds[id].executing
    requires After(fs).cmds[id].row.status == Pending && !After(fs).cmds[id].row.order.manual
    ensures |gs| == |fs| + 4 && fs <= gs && EndsEarly(es, gs, id)
  {
    hide IsRun, After, QuietSince, EndsEarly;
    gs := HurryOn(es, fs, id, Plan(After(fs).now));
    gs := ExecuteEarly(es, gs, id, v);
  }

  lemma {:induction false} FreshWorker(ws: set<Worker>) returns (v: Worker)
    ensures forall w :: w in ws ==> w < v
    decreases |ws|
  {
    v := 0;
    if w :| w in ws {
      v := FreshWorker(ws - {w});
      v := if w < v then v else w + 1;
      assert forall x :: x in ws ==> x == w || x in ws - {w};
    }
  }

  /** From a row timed out early: at once if it is re-planned, after the backoff
      if it is retried. */
  lemma {:induction false} RetryEarly(es: seq<Event>, id: Id, e: RowEvent) returns (fs: seq<Event>)
    requires Hurries(es, es, id) && e.TimeOut? && RowEnabled(After(es).cmds[id], e, After(es).now)
    requires TooEarly(After(es).cmds[id], e, After(es).now)
    ensures |fs| == |es| + 5 && es + [OnRow(id, e)] <= fs && EndsEarly(es, fs, id)
  {
    hide IsRun, After, QuietSince, EndsEarly;
    var c, now := After(es).cmds[id], After(es).now;
    var v := FreshWorker(c.executing.Keys);
    fs := HurryOn(es, es, id, e);
    if After(fs).cmds[id].row.status == Pending {
      fs := PlanEarly(es, fs, id, v);
    } else {
      fs := WaitQuietly(es, fs, id, now + Backoff(c.row.retryCount));
      fs := ExecuteEarly(es, fs, id, v);
    }
  }

  lemma {:induction false} WaitQuietly(es: seq<Event>, fs: seq<Event>, id: Id, to: Time) returns (gs: seq<Event>)
    requires Hurries(es, fs, id) && After(fs).now <= to && !Due(After(fs).cmds[id], to)
    ensures gs == fs + [Tick(to)] && Hurries(es, gs, id) && After(gs) == After(fs).(now := to)
  {
    hide IsRun, After;
    gs := Append(fs, Tick(to));
  }

  lemma {:induction false} EndingsComeEarly(es: seq<Event>, id: Id, e: RowEvent) returns (fs: seq<Event>)
    requires Hurries(es, es, id) && RowEnabled(After(es).cmds[id], e, After(es).now)
    requires TooEarly(After(es).cmds[id], e, After(es).now)
    ensures |es| + 2 <= |fs| <= |es| + 5 && es + [OnRow(id, e)] <= fs && EndsEarly(es, fs, id)
  {
    hide IsRun, After, QuietSince, EndsEarly;
    if e.TimeOut? {
      fs := RetryEarly(es, id, e);
    } else {
      fs := HurryOn(es, es, id, e);
      if e.Claim? {
        fs := PublishEarly(es, fs, id, e.worker);
      } else {
        fs := PlanEarly(es, fs, id, e.worker);
      }
    }
  }

  lemma OnlyPublicationsCount(w: World, e: Event, id: Id)
    requires Enabled(w, e) && id in Next(w, e).cmds && Next(w, e).cmds[id].tally.notBefore.Some?
    ensures IsPublication(e, id) || (id in w.cmds && w.cmds[id].tally.notBefore.Some?)
  {
  }

  /** A command with a time to wait for has been published; this is the latest time. */
  lemma {:induction false} LastPublication(es: seq<Event>, id: Id) returns (i: nat)
    requires IsRun(es) && id in After(es).cmds && After(es).cmds[id].tally.notBefore.Some?
    ensures i < |es| && IsPublication(es[i], id) && forall j :: i < j < |es| ==> !IsPublication(es[j], id)
    decreases |es|
  {
    i := |es| - 1;
    if !IsPublication(es[i], id) {
      OnlyPublicationsCount(After(es[..|es| - 1]), es[i], id);
      i := LastPublication(es[..|es| - 1], id);
    }
  }

  /** With any number of schedulers: after any step that comes too early, within
      four more events there can be a publication that is not spaced from the
      one before. */
  lemma {:induction false} EarlyStepsBreakSpacing(es: seq<Event>, id: Id, e: RowEvent) returns (fs: seq<Event>, i: nat)
    requires IsRun(es) && id in After(es).cmds && UnpatchedRun(es, id)
    requires RowEnabled(After(es).cmds[id], e, After(es).now) && TooEarly(After(es).cmds[id], e, After(es).now)
    ensures IsRun(fs) && UnpatchedRun(fs, id)
    ensures es + [OnRow(id, e)] <= fs && |fs| <= |es| + 5
    ensures i < |es| && IsPublication(fs[i], id) && IsPublication(fs[|fs| - 1], id)
    ensures forall j :: i < j < |fs| - 1 ==> !IsPublication(fs[j], id)
    ensures IsRun(fs[..i]) && IsRun(fs[..|fs| - 1])
    ensures id in After(fs[..i]).cmds && id in After(fs[..|fs| - 1]).cmds
    ensures var j := |fs| - 1;
            TimeOf(fs, j) - TimeOf(fs, i) <=
              ACK_TIMEOUT + BackoffsSpent(After(fs[..i]).cmds[id].row.retryCount, After(fs[..j]).cmds[id].row.retryCount)
  {
    hide IsRun, After, TooEarly, RowEnabled, Unpatched, IsPublication, BackoffsSpent;
    NotDueYet(es, id, e);
    fs := EndingsComeEarly(es, id, e);
    i := LastPublication(es, id);
    EndsUnpatched(es, fs, id);
    EarliestNext(fs, id, i, |fs| - 1);
  }

  lemma NotDueYet(es: seq<Event>, id: Id, e: RowEvent)
    requires IsRun(es) && id in After(es).cmds
    requires RowEnabled(After(es).cmds[id], e, After(es).now) && TooEarly(After(es).cmds[id], e, After(es).now)
    ensures Hurries(es, es, id) && After(es).cmds[id].tally.notBefore.Some?
  {
  }

  lemma EndsUnpatched(es: seq<Event>, fs: seq<Event>, id: Id)
    requires EndsEarly(es, fs, id) && UnpatchedRun(es, id)
    ensures UnpatchedRun(fs, id) && forall j :: |es| <= j < |fs| - 1 ==> !IsPublication(fs[j], id)
  {
    hide IsRun, After;
    assert forall j :: |es| <= j < |fs| - 1 ==> Quiet(fs[..|fs| - 1][j], id) && fs[..|fs| - 1][j] == fs[j];
  }

  // ---------------------------------------------------------------------
  // One scheduler meets the guards
  // ---------------------------------------------------------------------

  /** Only scheduler `me` executes and sweeps this command, and nobody PATCHes it. */
  predicate Solo(e: RowEvent, me: Worker) {
    match e
    case Fetch(w) => w == me
    case Sweep(w) => w == me
    case PatchRead(_, _) => false
    case PatchWrite(_) => false
    case _ => true
  }

  ghost predicate SoloRun(es: seq<Event>, id: Id, me: Worker) {
    forall i :: 0 <= i < |es| && es[i].OnRow? && es[i].id == id ==> Solo(es[i].event, me)
  }

  /** What the scheduler read of the row is still true of it. */
  predicate Alone(c: Cmd, now: Time, me: Worker) {
    && c.tickets == map[] && c.executing.Keys <= {me} && c.sweeping <= {me}
    && c.row.status !in {Timeout, Retry}
    && (me in c.sweeping ==>
          && c.row.status in {Sent, Acked, Dead}
          && (c.row.status == Sent ==> c.row.sentAt.Some? && c.row.sentAt.value < now - ACK_TIMEOUT))
    && (me in c.executing ==>
          if c.executing[me] == Fetched then
            && c.row.status in {Scheduled, Acked, Dead}
            && (c.row.status == Scheduled ==> c.row.scheduledAt.Some? && c.row.scheduledAt.value <= now)
          else c.row.status in {Transmitting, Acked, Dead})
  }

  lemma AloneKept(c: Cmd, e: RowEvent, now: Time, me: Worker)
    requires RowEnabled(c, e, now) && Alone(c, now, me) && Solo(e, me)
    ensures Guarded(c, e, now) && Alone(RowNext(c, e, now), now, me)
  {
  }

  lemma {:induction false} SoloRunIsAlone(es: seq<Event>, id: Id, me: Worker)
    requires IsRun(es) && id in After(es).cmds && SoloRun(es, id, me)
    ensures Alone(After(es).cmds[id], After(es).now, me)
    decreases |es|
  {
    var before := es[..|es| - 1];
    var w, e := After(before), es[|es| - 1];
    if id in w.cmds {
      hide RowNext, RowEnabled;
      SoloRunIsAlone(before, id, me);
      if e.OnRow? && e.id == id {
        AloneKept(w.cmds[id], e.event, w.now, me);
      }
    }
  }

  lemma SoloRunIsGuarded(es: seq<Event>, id: Id, me: Worker)
    requires IsRun(es) && SoloRun(es, id, me)
    ensures GuardedRun(es, id)
  {
    hide IsRun, After, Alone, RowNext, RowEnabled;
    forall i | 0 <= i < |es| ensures GuardedAt(es, id, i) {
      if es[i].OnRow? && es[i].id == id {
        PrefixStep(es, i);
        assert forall m :: 0 <= m < i ==> es[..i][m] == es[m];
        SoloRunIsAlone(es[..i], id, me);
        AloneKept(After(es[..i]).cmds[id], es[i].event, After(es[..i]).now, me);
      }
    }
  }

  /** With one scheduler and no PATCH, the publications are so spaced. */
  lemma {:induction false} PublicationsAreSpaced(es: seq<Event>, id: Id, me: Worker, i: nat, j: nat)
    requires IsRun(es) && i < j < |es| && SoloRun(es, id, me)
    requires IsPublication(es[i], id) && IsPublication(es[j], id)
    requires forall k :: i < k < j ==> !IsPublication(es[k], id)
    ensures IsRun(es[..i]) && IsRun(es[..j])
    ensures id in After(es[..i]).cmds && id in After(es[..j]).cmds
    ensures TimeOf(es, j) - TimeOf(es, i) >
            ACK_TIMEOUT + BackoffsSpent(After(es[..i]).cmds[id].row.retryCount, After(es[..j]).cmds[id].row.retryCount)
  {
    hide IsRun, After, SoloRun, GuardedRun;
    SoloRunIsGuarded(es, id, me);
    GuardedPublicationsAreSpaced(es, id, i, j);
  }

  // ---------------------------------------------------------------------
  // Runs that break it
  // ---------------------------------------------------------------------

  lemma {:induction false} Wait(es: seq<Event>, to: Time) returns (fs: seq<Event>)
    requires IsRun(es) && After(es).now <= to
    ensures IsRun(fs) && es <= fs && After(fs) == After(es).(now := to)
  {
    hide IsRun, After;
    fs := Append(es, Tick(to));
  }

  /** One uninterrupted transmission by executor 0. */
  lemma {:induction false} Transmit(es: seq<Event>, id: Id) returns (fs: seq<Event>)
    requires IsRun(es) && id in After(es).cmds
    requires var c := After(es).cmds[id];
             c.row.status == Scheduled && c.row.scheduledAt.Some? && c.row.scheduledAt.value <= After(es).now
             && 0 !in c.executing
    ensures IsRun(fs) && es <= fs && id in After(fs).cmds && After(fs).now == After(es).now
    ensures var c, d := After(es).cmds[id], After(fs).cmds[id];
            && d.row == c.row.(status := Sent, sentAt := Some(After(es).now))
            && d.executing == c.executing && d.sweeping == c.sweeping
            && d.tally.published == c.tally.published + 1
  {
    hide IsRun, After, Next;
    fs := OnCommand(es, id, Fetch(0));
    fs := OnCommand(fs, id, Claim(0));
    fs := OnCommand(fs, id, Publish(0, false, true));
    fs := OnCommand(fs, id, MarkSent(0));
    assert After(fs).cmds[id].executing == After(es).cmds[id].executing;
  }

  /** A timeout within a pass, and the backoff it starts. */
  lemma {:induction false} TimeOutAndWait(es: seq<Event>, id: Id, w: Worker) returns (fs: seq<Event>)
    requires IsRun(es) && id in After(es).cmds
    requires var c := After(es).cmds[id]; c.row.status == Sent && c.row.CanRetry() && w in c.sweeping
    ensures IsRun(fs) && es <= fs && id in After(fs).cmds
    ensures var c, d := After(es).cmds[id], After(fs).cmds[id];
            && After(fs).now == After(es).now + Backoff(c.row.retryCount)
            && d.row == c.row.(status := Scheduled, retryCount := c.row.retryCount + 1, scheduledAt := Some(After(fs).now))
            && d.executing == c.executing && d.sweeping == c.sweeping - {w}
            && d.tally.published == c.tally.published
  {
    hide IsRun, After, Next;
    fs := OnCommand(es, id, TimeOut(w, true));
    fs := Wait(fs, After(es).now + Backoff(After(es).cmds[id].row.retryCount));
  }

  /** A second scheduler's timeout sweep, delayed since before the retry, times
      the new transmission out early: the third publication comes 4 s later. */
  lemma {:induction false} SecondSweeperBreaksSpacing() returns (es: seq<Event>, id: Id, t: Time)
    ensures IsRun(es) && id in After(es).cmds
    ensures After(es).cmds[id].tally.published == 3
    ensures After(es).cmds[id].row.sentAt == Some(t + 4 * SECOND)
    ensures exists fs :: IsRun(fs) && id in After(fs).cmds && fs <= es
              && After(fs).cmds[id].tally.published == 2 && After(fs).cmds[id].row.sentAt == Some(t)
  {
    hide IsRun, After, Next;
    id := "c";
    es := Submit(Request("sat", "ping", map[], true, None, None, "op"), id);
    es := OnCommand(es, id, Plan(0));
    es := Transmit(es, id);
    es := Wait(es, 61 * SECOND);
    es := OnCommand(es, id, Sweep(0));
    es := OnCommand(es, id, Sweep(1));
    es := TimeOutAndWait(es, id, 0);
    es := Transmit(es, id);
    t := After(es).now;
    var fs := es;
    es := TimeOutAndWait(es, id, 1);
    es := Transmit(es, id);
  }

  /** A row sent at time 0, which a second scheduler fetched before that. */
  lemma {:induction false} SentPastFetch() returns (es: seq<Event>, id: Id)
    ensures IsRun(es) && id in After(es).cmds && After(es).now == 0
    ensures var c := After(es).cmds[id];
            && c.tally.published == 1 && c.row.status == Sent && c.row.sentAt == Some(0) && c.row.retryCount == 0
            && c.row.order.Retryable() && !c.row.order.manual && c.executing == map[1 := Fetched] && c.sweeping == {}
  {
    hide IsRun, After;
    id := "c";
    es := Submit(Request("sat", "ping", map[], true, None, None, "op"), id);
    es := OnCommand(es, id, Plan(0));
    es := OnCommand(es, id, Fetch(1));
    es := Transmit(es, id);
  }

  /** The row timed out, and but for an instant its backoff is over. */
  lemma {:induction false} RetryPastFetch() returns (es: seq<Event>, id: Id, fs: seq<Event>)
    ensures IsRun(fs) && IsRun(es) && fs <= es && id in After(fs).cmds && id in After(es).cmds
    ensures After(fs).now == 0 && After(es).now == 61 * SECOND - 1
    ensures var c, d := After(fs).cmds[id], After(es).cmds[id];
            && c.tally.published == 1 && c.row.sentAt == Some(0) && c.row.retryCount == 0
            && d.tally.published == 1 && d.row.status == Scheduled && d.row.retryCount == 1
            && !d.row.order.manual && d.executing == map[1 := Fetched]
  {
    hide IsRun, After;
    fs, id := SentPastFetch();
    es := Wait(fs, 61 * SECOND - 1);
    es := OnCommand(es, id, Sweep(0));
    es := OnCommand(es, id, TimeOut(0, true));
  }

  /** The second scheduler claims the row, or finds its window closed and
      re-plans it, during the backoff: the second publication comes without
      waiting for the backoff. */
  lemma {:induction false} StaleExecutorBreaksSpacing(replans: bool) returns (es: seq<Event>, id: Id, fs: seq<Event>)
    ensures IsRun(fs) && IsRun(es) && fs <= es && id in After(fs).cmds && id in After(es).cmds
    ensures var c, d := After(fs).cmds[id], After(es).cmds[id];
            && c.tally.published == 1 && d.tally.published == 2 && c.row.sentAt == Some(After(fs).now)
            && d.row.retryCount == c.row.retryCount + 1
            && After(es).now - After(fs).now < ACK_TIMEOUT + Backoff(c.row.retryCount)
  {
    hide IsRun, After, Next;
    es, id, fs := RetryPastFetch();
    if replans {
      es := OnCommand(es, id, Replan(1));
      es := OnCommand(es, id, Plan(After(es).now));
      es := Transmit(es, id);
    } else {
      es := OnCommand(es, id, Claim(1));
      es := OnCommand(es, id, Publish(1, false, true));
    }
  }
}
