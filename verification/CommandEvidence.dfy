/** What a stretch of a run shows: the states a process could see in it, and the
    events that happened in it.  Here h is the run before the stretch and k the
    run after it. */
module CommandEvidence {
  import opened Basics
  import opened CommandModel
  import opened CommandProtocol
  import opened CommandRows
  import opened UplinkWindow

  /** The state after n events, one that the stretch went through. */
  ghost predicate Witnessed(h: seq<Event>, k: seq<Event>, n: nat, w: World) {
    |h| <= n <= |k| && IsRun(k[..n]) && w == After(k[..n])
  }

  /** The stretch ended with this event, in this state. */
  ghost predicate LastStep(h: seq<Event>, k: seq<Event>, before: World, e: Event) {
    |h| < |k| && k[|k| - 1] == e && IsRun(k[..|k| - 1]) && before == After(k[..|k| - 1])
  }

  /** This happened to the command, and wrote its row accordingly. */
  ghost predicate Happened(h: seq<Event>, k: seq<Event>, id: Id, e: RowEvent) {
    exists i :: |h| <= i < |k| && k[i] == OnRow(id, e) && WroteAt(k, i, id)
  }

  /** At some point an uplink window of the satellite was open, or was not. */
  ghost predicate WindowSeen(passesAt: nat -> seq<Pass>, h: seq<Event>, k: seq<Event>, satelliteId: string, open: bool) {
    exists n, w :: Witnessed(h, k, n, w) && WindowOpen(passesAt(n), satelliteId, w.now) == open
  }

  /** At some point this was the start of the next usable window, or there was none. */
  ghost predicate NextStartSeen(passesAt: nat -> seq<Pass>, h: seq<Event>, k: seq<Event>, satelliteId: string, start: Option<Time>) {
    exists n, w :: Witnessed(h, k, n, w) && IsNextStart(passesAt(n), satelliteId, w.now, start)
  }

  /** At some point the mode reading denied the command, or did not. */
  ghost predicate DenialSeen(deniedAt: nat -> set<(string, string)>, h: seq<Event>, k: seq<Event>, order: Order, denied: bool) {
    exists n, w :: Witnessed(h, k, n, w) && ((order.satelliteId, order.commandType) in deniedAt(n)) == denied
  }

  /** Worker `me` claimed the row, and won or lost the race for it. */
  ghost predicate ClaimSeen(h: seq<Event>, k: seq<Event>, id: Id, me: Worker, won: bool) {
    exists n: nat, w :: Witnessed(h, k, n, w) && n < |k| && k[n] == OnRow(id, Claim(me))
                   && id in w.cmds && (w.cmds[id].row.status == Scheduled) == won && WroteAt(k, n, id)
  }

  // ---------------------------------------------------------------------
  // What became of a row an executor took
  // ---------------------------------------------------------------------

  datatype Fate = Replanned | Dropped | LostClaim | Bounced | Transmitted

  ghost predicate GatePassed(passesAt: nat -> seq<Pass>, deniedAt: nat -> set<(string, string)>,
                             h: seq<Event>, k: seq<Event>, order: Order) {
    && (order.manual || WindowSeen(passesAt, h, k, order.satelliteId, true))
    && DenialSeen(deniedAt, h, k, order, false)
  }

  /** Worker `me` published the row, and the bus at that point raised or did not. */
  ghost predicate PublishSeen(busAt: nat -> Publication, h: seq<Event>, k: seq<Event>, id: Id, me: Worker, raised: bool) {
    exists n: nat :: |h| <= n < |k| && k[n] == OnRow(id, Publish(me, raised, busAt(n) != Raised(false)))
                     && busAt(n).Raised? == raised
  }

  /** A published row was marked sent, or, the publication having raised, bounced. */
  ghost predicate Recorded(busAt: nat -> Publication, h: seq<Event>, k: seq<Event>, id: Id, me: Worker, raised: bool) {
    PublishSeen(busAt, h, k, id, me, raised) && Happened(h, k, id, if raised then Bounce(me) else MarkSent(me))
  }

  /** What worker `me` did with the row, and why. */
  ghost predicate Fated(passesAt: nat -> seq<Pass>, deniedAt: nat -> set<(string, string)>, busAt: nat -> Publication,
                        h: seq<Event>, k: seq<Event>, me: Worker, id: Id, order: Order, fate: Fate) {
    match fate
    case Replanned =>
      !order.manual && WindowSeen(passesAt, h, k, order.satelliteId, false) && Happened(h, k, id, Replan(me))
    case Dropped =>
      && (order.manual || WindowSeen(passesAt, h, k, order.satelliteId, true))
      && DenialSeen(deniedAt, h, k, order, true) && Happened(h, k, id, PolicyDrop(me))
    case LostClaim => GatePassed(passesAt, deniedAt, h, k, order) && ClaimSeen(h, k, id, me, false)
    case Bounced =>
      GatePassed(passesAt, deniedAt, h, k, order) && ClaimSeen(h, k, id, me, true) && Recorded(busAt, h, k, id, me, true)
    case Transmitted =>
      GatePassed(passesAt, deniedAt, h, k, order) && ClaimSeen(h, k, id, me, true) && Recorded(busAt, h, k, id, me, false)
  }

  /** What a planning cycle did with a waiting row: a manual time wins, otherwise
      the next usable start, if there was one. */
  ghost predicate Planned(passesAt: nat -> seq<Pass>, h: seq<Event>, k: seq<Event>, id: Id, order: Order, scheduledAt: Option<Time>) {
    match scheduledAt
    case Some(t) => Happened(h, k, id, Plan(t))
    case None =>
      exists start :: NextStartSeen(passesAt, h, k, order.satelliteId, start)
                      && (start.Some? ==> Happened(h, k, id, Plan(start.value)))
  }

  /** Worker `me` timed the row out, with the window as it then was. */
  ghost predicate Handled(passesAt: nat -> seq<Pass>, h: seq<Event>, k: seq<Event>, id: Id, me: Worker) {
    exists n: nat, w :: Witnessed(h, k, n, w) && n < |k| && id in w.cmds
                        && k[n] == OnRow(id, TimeOut(me, WindowOpen(passesAt(n), w.cmds[id].row.order.satelliteId, w.now)))
                        && WroteAt(k, n, id)
  }

  // ---------------------------------------------------------------------
  // A longer stretch, from g to l, shows it too
  // ---------------------------------------------------------------------

  lemma NowWitnessed(h: seq<Event>, k: seq<Event>)
    requires h <= k && IsRun(k)
    ensures Witnessed(h, k, |k|, After(k))
  {
    assert k[..|k|] == k;
  }

  lemma WitnessedWidens(g: seq<Event>, h: seq<Event>, k: seq<Event>, l: seq<Event>, n: nat, w: World)
    requires g <= h && k <= l && Witnessed(h, k, n, w)
    ensures Witnessed(g, l, n, w)
  {
    assert l[..n] == k[..n];
  }

  lemma WroteStill(k: seq<Event>, l: seq<Event>, i: nat, id: Id)
    requires k <= l && WroteAt(k, i, id)
    ensures WroteAt(l, i, id)
  {
    hide Wrote;
    assert l[..i] == k[..i] && l[..i + 1] == k[..i + 1];
  }

  lemma JustHappened(h: seq<Event>, k: seq<Event>, before: World, id: Id, e: RowEvent)
    requires IsRun(k) && LastStep(h, k, before, OnRow(id, e))
    ensures Happened(h, k, id, e)
  {
    hide WroteAt, IsRun, After;
    EventsWriteRows(k, |k| - 1);
  }

  lemma StepIsLast(h: seq<Event>, k: seq<Event>, e: Event)
    requires h <= k && IsRun(k)
    ensures LastStep(h, k + [e], After(k), e)
  {
    assert (k + [e])[..|k + [e]| - 1] == k;
  }

  lemma LastStepWidens(g: seq<Event>, h: seq<Event>, k: seq<Event>, before: World, e: Event)
    requires g <= h && LastStep(h, k, before, e)
    ensures LastStep(g, k, before, e)
  {
  }

  lemma ClaimJustSeen(h: seq<Event>, k: seq<Event>, before: World, id: Id, me: Worker)
    requires IsRun(k) && LastStep(h, k, before, OnRow(id, Claim(me))) && id in before.cmds
    ensures ClaimSeen(h, k, id, me, before.cmds[id].row.status == Scheduled)
  {
    hide WroteAt;
    EventsWriteRows(k, |k| - 1);
    assert Witnessed(h, k, |k| - 1, before);
  }

  lemma HappenedWidens(g: seq<Event>, h: seq<Event>, k: seq<Event>, l: seq<Event>, id: Id, e: RowEvent)
    requires g <= h && k <= l && Happened(h, k, id, e)
    ensures Happened(g, l, id, e)
  {
    hide WroteAt;
    var i :| |h| <= i < |k| && k[i] == OnRow(id, e) && WroteAt(k, i, id);
    WroteStill(k, l, i, id);
    assert l[i] == OnRow(id, e);
  }

  lemma PublishSeenWidens(busAt: nat -> Publication, g: seq<Event>, h: seq<Event>, k: seq<Event>, l: seq<Event>,
                          id: Id, me: Worker, raised: bool)
    requires g <= h && k <= l && PublishSeen(busAt, h, k, id, me, raised)
    ensures PublishSeen(busAt, g, l, id, me, raised)
  {
    var n: nat :| |h| <= n < |k| && k[n] == OnRow(id, Publish(me, raised, busAt(n) != Raised(false)))
                  && busAt(n).Raised? == raised;
    assert l[n] == k[n];
  }

  lemma JustPublished(busAt: nat -> Publication, h: seq<Event>, k: seq<Event>, before: World, id: Id, me: Worker)
    requires |k| > 0 && LastStep(h, k, before, OnRow(id, PublishAs(me, busAt(|k| - 1))))
    ensures PublishSeen(busAt, h, k, id, me, busAt(|k| - 1).Raised?)
  {
  }

  lemma WindowSeenWidens(passesAt: nat -> seq<Pass>, g: seq<Event>, h: seq<Event>, k: seq<Event>, l: seq<Event>,
                         satelliteId: string, open: bool)
    requires g <= h && k <= l && WindowSeen(passesAt, h, k, satelliteId, open)
    ensures WindowSeen(passesAt, g, l, satelliteId, open)
  {
    hide Witnessed;
    var n, w :| Witnessed(h, k, n, w) && WindowOpen(passesAt(n), satelliteId, w.now) == open;
    WitnessedWidens(g, h, k, l, n, w);
  }

  lemma NextStartSeenWidens(passesAt: nat -> seq<Pass>, g: seq<Event>, h: seq<Event>, k: seq<Event>, l: seq<Event>,
                            satelliteId: string, start: Option<Time>)
    requires g <= h && k <= l && NextStartSeen(passesAt, h, k, satelliteId, start)
    ensures NextStartSeen(passesAt, g, l, satelliteId, start)
  {
    hide Witnessed, IsNextStart;
    var n, w :| Witnessed(h, k, n, w) && IsNextStart(passesAt(n), satelliteId, w.now, start);
    WitnessedWidens(g, h, k, l, n, w);
  }

  lemma DenialSeenWidens(deniedAt: nat -> set<(string, string)>, g: seq<Event>, h: seq<Event>, k: seq<Event>, l: seq<Event>,
                         order: Order, denied: bool)
    requires g <= h && k <= l && DenialSeen(deniedAt, h, k, order, denied)
    ensures DenialSeen(deniedAt, g, l, order, denied)
  {
    hide Witnessed;
    var n, w :| Witnessed(h, k, n, w) && ((order.satelliteId, order.commandType) in deniedAt(n)) == denied;
    WitnessedWidens(g, h, k, l, n, w);
  }

  lemma ClaimSeenWidens(g: seq<Event>, h: seq<Event>, k: seq<Event>, l: seq<Event>, id: Id, me: Worker, won: bool)
    requires g <= h && k <= l && ClaimSeen(h, k, id, me, won)
    ensures ClaimSeen(g, l, id, me, won)
  {
    hide Witnessed, WroteAt;
    var n: nat, w :| Witnessed(h, k, n, w) && n < |k| && k[n] == OnRow(id, Claim(me))
                && id in w.cmds && (w.cmds[id].row.status == Scheduled) == won && WroteAt(k, n, id);
    WitnessedWidens(g, h, k, l, n, w);
    WroteStill(k, l, n, id);
    assert l[n] == k[n];
  }

  lemma GatePassedWidens(passesAt: nat -> seq<Pass>, deniedAt: nat -> set<(string, string)>,
                         g: seq<Event>, h: seq<Event>, k: seq<Event>, l: seq<Event>, order: Order)
    requires g <= h && k <= l && GatePassed(passesAt, deniedAt, h, k, order)
    ensures GatePassed(passesAt, deniedAt, g, l, order)
  {
    hide WindowSeen, DenialSeen;
    if !order.manual { WindowSeenWidens(passesAt, g, h, k, l, order.satelliteId, true); }
    DenialSeenWidens(deniedAt, g, h, k, l, order, false);
  }

  lemma RecordedWidens(busAt: nat -> Publication, g: seq<Event>, h: seq<Event>, k: seq<Event>, l: seq<Event>,
                       id: Id, me: Worker, raised: bool)
    requires g <= h && k <= l && Recorded(busAt, h, k, id, me, raised)
    ensures Recorded(busAt, g, l, id, me, raised)
  {
    hide Happened, PublishSeen;
    PublishSeenWidens(busAt, g, h, k, l, id, me, raised);
    HappenedWidens(g, h, k, l, id, if raised then Bounce(me) else MarkSent(me));
  }

  lemma FatedWidens(passesAt: nat -> seq<Pass>, deniedAt: nat -> set<(string, string)>, busAt: nat -> Publication,
                    g: seq<Event>, h: seq<Event>, k: seq<Event>, l: seq<Event>, me: Worker, id: Id, order: Order, fate: Fate)
    requires g <= h && k <= l && Fated(passesAt, deniedAt, busAt, h, k, me, id, order, fate)
    ensures Fated(passesAt, deniedAt, busAt, g, l, me, id, order, fate)
  {
    hide WindowSeen, DenialSeen, ClaimSeen, GatePassed, Recorded, Happened;
    match fate
    case Replanned =>
      WindowSeenWidens(passesAt, g, h, k, l, order.satelliteId, false);
      HappenedWidens(g, h, k, l, id, Replan(me));
    case Dropped =>
      if !order.manual { WindowSeenWidens(passesAt, g, h, k, l, order.satelliteId, true); }
      DenialSeenWidens(deniedAt, g, h, k, l, order, true);
      HappenedWidens(g, h, k, l, id, PolicyDrop(me));
    case LostClaim =>
      GatePassedWidens(passesAt, deniedAt, g, h, k, l, order);
      ClaimSeenWidens(g, h, k, l, id, me, false);
    case Bounced =>
      GatePassedWidens(passesAt, deniedAt, g, h, k, l, order);
      ClaimSeenWidens(g, h, k, l, id, me, true);
      RecordedWidens(busAt, g, h, k, l, id, me, true);
    case Transmitted =>
      GatePassedWidens(passesAt, deniedAt, g, h, k, l, order);
      ClaimSeenWidens(g, h, k, l, id, me, true);
      RecordedWidens(busAt, g, h, k, l, id, me, false);
  }

  lemma LostFate(passesAt: nat -> seq<Pass>, deniedAt: nat -> set<(string, string)>, busAt: nat -> Publication,
                 g: seq<Event>, h: seq<Event>, k: seq<Event>, me: Worker, id: Id, order: Order)
    requires g <= h <= k && GatePassed(passesAt, deniedAt, g, h, order) && ClaimSeen(h, k, id, me, false)
    ensures Fated(passesAt, deniedAt, busAt, g, k, me, id, order, LostClaim)
  {
    hide GatePassed, ClaimSeen;
    GatePassedWidens(passesAt, deniedAt, g, g, h, k, order);
    ClaimSeenWidens(g, h, k, k, id, me, false);
  }

  lemma WonFate(passesAt: nat -> seq<Pass>, deniedAt: nat -> set<(string, string)>, busAt: nat -> Publication,
                g: seq<Event>, h: seq<Event>, k: seq<Event>, l: seq<Event>, me: Worker, id: Id, order: Order, raised: bool)
    requires g <= h <= k <= l && GatePassed(passesAt, deniedAt, g, h, order)
    requires ClaimSeen(h, k, id, me, true) && Recorded(busAt, k, l, id, me, raised)
    ensures Fated(passesAt, deniedAt, busAt, g, l, me, id, order, if raised then Bounced else Transmitted)
  {
    hide GatePassed, ClaimSeen, Recorded;
    GatePassedWidens(passesAt, deniedAt, g, g, h, l, order);
    ClaimSeenWidens(g, h, k, l, id, me, true);
    RecordedWidens(busAt, g, k, l, l, id, me, raised);
  }

  lemma PlannedWidens(passesAt: nat -> seq<Pass>, g: seq<Event>, h: seq<Event>, k: seq<Event>, l: seq<Event>,
                      id: Id, order: Order, scheduledAt: Option<Time>)
    requires g <= h && k <= l && Planned(passesAt, h, k, id, order, scheduledAt)
    ensures Planned(passesAt, g, l, id, order, scheduledAt)
  {
    hide NextStartSeen, Happened;
    match scheduledAt
    case Some(t) => HappenedWidens(g, h, k, l, id, Plan(t));
    case None =>
      var start :| NextStartSeen(passesAt, h, k, order.satelliteId, start) && (start.Some? ==> Happened(h, k, id, Plan(start.value)));
      NextStartSeenWidens(passesAt, g, h, k, l, order.satelliteId, start);
      if start.Some? { HappenedWidens(g, h, k, l, id, Plan(start.value)); }
  }

  lemma JustHandled(passesAt: nat -> seq<Pass>, h: seq<Event>, k: seq<Event>, before: World, id: Id, me: Worker)
    requires |k| > 0 && IsRun(k) && id in before.cmds
    requires LastStep(h, k, before, OnRow(id, TimeOut(me, WindowOpen(passesAt(|k| - 1), before.cmds[id].row.order.satelliteId, before.now))))
    ensures Handled(passesAt, h, k, id, me)
  {
    hide WindowOpen, WroteAt;
    EventsWriteRows(k, |k| - 1);
    assert Witnessed(h, k, |k| - 1, before);
  }

  lemma HandledWidens(passesAt: nat -> seq<Pass>, g: seq<Event>, h: seq<Event>, k: seq<Event>, l: seq<Event>, id: Id, me: Worker)
    requires g <= h && k <= l && Handled(passesAt, h, k, id, me)
    ensures Handled(passesAt, g, l, id, me)
  {
    hide Witnessed, WindowOpen, WroteAt;
    var n: nat, w :| Witnessed(h, k, n, w) && n < |k| && id in w.cmds
                     && k[n] == OnRow(id, TimeOut(me, WindowOpen(passesAt(n), w.cmds[id].row.order.satelliteId, w.now)))
                     && WroteAt(k, n, id);
    WitnessedWidens(g, h, k, l, n, w);
    WroteStill(k, l, n, id);
    assert l[n] == k[n];
  }
}
