/** The scheduler's loops (backend/src/scheduler/service.py), statement by
    statement, with an await wherever the code has one.  Each statement is a
    step of the protocol, so whatever holds in every run holds here. */
module CommandScheduler {
  import opened Basics
  import opened CommandModel
  import opened Satellite
  import opened CommandProtocol
  import opened UplinkWindow
  import opened GroundSegment
  import opened CommandDelivery
  import opened CommandEvidence
  import opened CommandPlans
  import opened CommandRows

  const BATCH: nat := 50

  /** Executor `me` holds exactly `id`, at the given stage, and `rest`, fetched. */
  ghost predicate Holding(w: World, me: Worker, id: Id, stage: Stage, rest: seq<Id>) {
    && id in w.cmds && me in w.cmds[id].executing && w.cmds[id].executing[me] == stage
    && HoldingOnly(w, me, {id}, rest)
  }

  /** Apart from `others`, executor `me` holds exactly `rest`, fetched. */
  ghost predicate HoldingOnly(w: World, me: Worker, others: set<Id>, rest: seq<Id>) {
    && (forall x :: x in rest ==> x in w.cmds && me in w.cmds[x].executing && w.cmds[x].executing[me] == Fetched)
    && (forall x :: x in w.cmds && x !in others && x !in rest ==> me !in w.cmds[x].executing)
  }

  lemma HoldingSurvives(w: World, v: World, me: Worker, id: Id, stage: Stage, rest: seq<Id>)
    requires Holding(w, me, id, stage, rest) && SameProgress(w, v, Executor(me))
    ensures Holding(v, me, id, stage, rest) && v.cmds[id].row.order == w.cmds[id].row.order
  {
    assert SameHold(w.cmds[id], v.cmds[id], Executor(me));
    forall x | x in v.cmds && x != id && x !in rest ensures me !in v.cmds[x].executing {
      assert x in w.cmds ==> SameHold(w.cmds[x], v.cmds[x], Executor(me));
    }
    forall x | x in rest ensures x in v.cmds && me in v.cmds[x].executing && v.cmds[x].executing[me] == Fetched {
      assert SameHold(w.cmds[x], v.cmds[x], Executor(me));
    }
  }

  /** The stage an executor's own step leaves it in, or None when it lets the row go. */
  function StageAfter(c: Cmd, e: RowEvent): Option<Stage> {
    match e
    case Claim(_) => if c.row.status == Scheduled then Some(Claimed) else None
    case Publish(_, raised, _) => Some(if raised then Stage.Refused else Published)
    case _ => None
  }

  lemma StepChangesHold(w: World, me: Worker, id: Id, e: RowEvent, stage: Stage, rest: seq<Id>)
    requires Holding(w, me, id, stage, rest) && id !in rest
    requires RowEnabled(w.cmds[id], e, w.now) && !e.MarkAcked? && !e.MarkRejected? && !e.Fetch?
    requires RowOwns(e, Executor(me))
    ensures var v := Next(w, OnRow(id, e));
            match StageAfter(w.cmds[id], e)
            case Some(s) => Holding(v, me, id, s, rest)
            case None => HoldingOnly(v, me, {}, rest)
  {
    var d := RowNext(w.cmds[id], e, w.now);
    assert match StageAfter(w.cmds[id], e)
           case Some(s) => me in d.executing && d.executing[me] == s
           case None => me !in d.executing;
  }

  lemma StepSparesOthers(w: World, id: Id, e: RowEvent)
    requires id in w.cmds && RowEnabled(w.cmds[id], e, w.now) && !e.MarkAcked? && !e.MarkRejected?
    ensures var v := Next(w, OnRow(id, e));
            v.now == w.now && v.cmds.Keys == w.cmds.Keys && forall x :: x in w.cmds && x != id ==> v.cmds[x] == w.cmds[x]
  {
  }

  lemma FetchAddsHold(w: World, me: Worker, ids: seq<Id>, id: Id)
    requires id in w.cmds && RowEnabled(w.cmds[id], Fetch(me), w.now) && HoldingOnly(w, me, {}, ids)
    ensures HoldingOnly(Next(w, OnRow(id, Fetch(me))), me, {}, ids + [id])
  {
    var v := Next(w, OnRow(id, Fetch(me)));
    assert v.cmds[id].executing == w.cmds[id].executing[me := Fetched];
    forall x | x in v.cmds && x !in ids + [id] ensures me !in v.cmds[x].executing {
      assert x !in ids && x != id;
    }
  }

  /** The commands sweeper `me` is about to time out. */
  ghost function Swept(w: World, me: Worker): set<Id> {
    set id | id in w.cmds && me in w.cmds[id].sweeping
  }

  lemma SweptSurvives(w: World, v: World, me: Worker)
    requires SameProgress(w, v, Sweeper(me))
    ensures Swept(v, me) == Swept(w, me)
  {
    assert forall id :: id in w.cmds ==> SameHold(w.cmds[id], v.cmds[id], Sweeper(me));
  }

  lemma StepChangesSwept(w: World, me: Worker, id: Id, e: RowEvent)
    requires id in w.cmds && RowEnabled(w.cmds[id], e, w.now) && !e.MarkAcked? && !e.MarkRejected?
    requires (e.Sweep? || e.TimeOut?) && e.worker == me
    ensures Swept(Next(w, OnRow(id, e)), me) == if e.Sweep? then Swept(w, me) + {id} else Swept(w, me) - {id}
  {
    var d := RowNext(w.cmds[id], e, w.now);
    assert me in d.sweeping <==> e.Sweep?;
  }

  /** How often an event happened, to whatever command. */
  function Occurrences(h: seq<Event>, e: RowEvent): nat {
    if h == [] then 0
    else Occurrences(h[..|h| - 1], e) + if h[|h| - 1].OnRow? && h[|h| - 1].event == e then 1 else 0
  }

  /** Publications by `me` that it went on to mark as sent. */
  function SentBy(h: seq<Event>, me: Worker): nat {
    Occurrences(h, MarkSent(me))
  }

  /** h grew to k without worker `me` abandoning anything it had begun. */
  ghost predicate Steady(h: seq<Event>, k: seq<Event>, me: Worker) {
    h <= k && Occurrences(k, Crash(me)) == Occurrences(h, Crash(me))
  }

  lemma OthersDoNotCount(h: seq<Event>, k: seq<Event>, e: RowEvent, task: Task)
    requires Continues(h, k, task) && RowOwns(e, task)
    ensures Occurrences(k, e) == Occurrences(h, e)
    decreases |k|
  {
    if |k| > |h| {
      OthersDoNotCount(h, k[..|k| - 1], e, task);
    } else {
      assert h == k;
    }
  }

  lemma StepCounts(h: seq<Event>, e: Event, x: RowEvent)
    ensures Occurrences(h + [e], x) == Occurrences(h, x) + if e.OnRow? && e.event == x then 1 else 0
  {
    assert (h + [e])[..|h + [e]| - 1] == h;
  }

  predicate Distinct(ids: seq<Id>) {
    forall i, j :: 0 <= i < j < |ids| ==> ids[i] != ids[j]
  }

  /** The rows still to be swept. */
  ghost function Among(ids: seq<Id>): set<Id> {
    set id | id in ids
  }

  lemma RestOf(ids: seq<Id>, i: nat)
    requires Distinct(ids) && i < |ids|
    ensures ids[i..] == [ids[i]] + ids[i + 1..] && ids[i] !in ids[i + 1..]
    ensures ids[i] in Among(ids[i..]) && Among(ids[i..]) - {ids[i]} == Among(ids[i + 1..])
  {
    assert forall x :: x in ids[i..] <==> x == ids[i] || x in ids[i + 1..];
  }

  lemma FirstIsHeld(w: World, me: Worker, id: Id, rest: seq<Id>)
    requires HoldingOnly(w, me, {}, [id] + rest)
    ensures Holding(w, me, id, Fetched, rest)
  {
    assert forall x :: x in [id] + rest <==> x == id || x in rest;
  }

  /** Rows due for transmission. */
  function DueRows(now: Time): Cmd -> bool {
    (c: Cmd) => c.row.status == Scheduled && c.row.scheduledAt.Some? && c.row.scheduledAt.value <= now
  }

  /** Rows whose answer is overdue. */
  function OverdueRows(now: Time): Cmd -> bool {
    (c: Cmd) => c.row.status == Sent && c.row.sentAt.Some? && c.row.sentAt.value < now - ACK_TIMEOUT
  }

  /** Rows waiting for a plan. */
  function WaitingRows(): Cmd -> bool {
    (c: Cmd) => c.row.status == Pending
  }

  /** Rows of the table that satisfy p: all of them, unless there are more than 50. */
  ghost predicate IsBatch(w: World, p: Cmd -> bool, ids: seq<Id>) {
    && |ids| <= BATCH && Distinct(ids)
    && (forall id :: id in ids ==> id in w.cmds && p(w.cmds[id]))
    && (|ids| < BATCH ==> forall id :: id in w.cmds && p(w.cmds[id]) ==> id in ids)
  }

  /** This happened to every one of these commands. */
  ghost predicate AllHappened(h: seq<Event>, k: seq<Event>, ids: seq<Id>, e: RowEvent) {
    forall id :: id in ids ==> Happened(h, k, id, e)
  }

  lemma NothingYet(h: seq<Event>, e: RowEvent)
    ensures AllHappened(h, h, [], e)
  {
  }

  lemma AllHappenedStay(h: seq<Event>, k: seq<Event>, l: seq<Event>, ids: seq<Id>, e: RowEvent)
    requires AllHappened(h, k, ids, e) && k <= l
    ensures AllHappened(h, l, ids, e)
  {
    hide Happened;
    forall id | id in ids ensures Happened(h, l, id, e) { HappenedWidens(h, h, k, l, id, e); }
  }

  lemma OneMoreHappened(h: seq<Event>, k: seq<Event>, l: seq<Event>, ids: seq<Id>, i: nat, e: RowEvent)
    requires i < |ids| && k <= l && AllHappened(h, k, ids[..i], e) && Happened(h, l, ids[i], e)
    ensures AllHappened(h, l, ids[..i + 1], e)
  {
    hide Happened;
    AllHappenedStay(h, k, l, ids[..i], e);
    assert ids[..i + 1] == ids[..i] + [ids[i]];
  }

  /** Every one of these commands of w met its fate. */
  ghost predicate AllFated(passesAt: nat -> seq<Pass>, deniedAt: nat -> set<(string, string)>, busAt: nat -> Publication,
                           h: seq<Event>, k: seq<Event>, me: Worker, ids: seq<Id>, w: World) {
    forall id :: id in ids ==>
      id in w.cmds && exists fate :: Fated(passesAt, deniedAt, busAt, h, k, me, id, w.cmds[id].row.order, fate)
  }

  lemma NoFates(passesAt: nat -> seq<Pass>, deniedAt: nat -> set<(string, string)>, busAt: nat -> Publication,
                h: seq<Event>, me: Worker, w: World)
    ensures AllFated(passesAt, deniedAt, busAt, h, h, me, [], w)
  {
  }

  lemma FatesSince(passesAt: nat -> seq<Pass>, deniedAt: nat -> set<(string, string)>, busAt: nat -> Publication,
                   g: seq<Event>, h: seq<Event>, k: seq<Event>, me: Worker, ids: seq<Id>, w: World, v: World)
    requires g <= h && AllFated(passesAt, deniedAt, busAt, h, k, me, ids, v)
    requires OrdersKept(w, v) && forall id :: id in ids ==> id in w.cmds
    ensures AllFated(passesAt, deniedAt, busAt, g, k, me, ids, w)
  {
    hide Fated;
    forall id | id in ids ensures exists fate :: Fated(passesAt, deniedAt, busAt, g, k, me, id, w.cmds[id].row.order, fate) {
      var fate :| Fated(passesAt, deniedAt, busAt, h, k, me, id, v.cmds[id].row.order, fate);
      FatedWidens(passesAt, deniedAt, busAt, g, h, k, k, me, id, w.cmds[id].row.order, fate);
    }
  }

  lemma OneMoreFate(passesAt: nat -> seq<Pass>, deniedAt: nat -> set<(string, string)>, busAt: nat -> Publication,
                    h: seq<Event>, k: seq<Event>, l: seq<Event>, me: Worker, ids: seq<Id>, i: nat, w: World, fate: Fate)
    requires h <= k <= l && i < |ids| && AllFated(passesAt, deniedAt, busAt, h, k, me, ids[..i], w)
    requires ids[i] in w.cmds && Fated(passesAt, deniedAt, busAt, k, l, me, ids[i], w.cmds[ids[i]].row.order, fate)
    ensures AllFated(passesAt, deniedAt, busAt, h, l, me, ids[..i + 1], w)
  {
    hide Fated;
    FatedWidens(passesAt, deniedAt, busAt, h, k, l, l, me, ids[i], w.cmds[ids[i]].row.order, fate);
    forall id | id in ids[..i]
      ensures id in w.cmds && exists fate :: Fated(passesAt, deniedAt, busAt, h, l, me, id, w.cmds[id].row.order, fate)
    {
      var fate :| Fated(passesAt, deniedAt, busAt, h, k, me, id, w.cmds[id].row.order, fate);
      FatedWidens(passesAt, deniedAt, busAt, h, h, k, l, me, id, w.cmds[id].row.order, fate);
    }
    assert ids[..i + 1] == ids[..i] + [ids[i]];
  }

  lemma AnswerIsRecorded(w: World, ack: Ack)
    requires Genuine(w) && ack in w.downlink
    ensures var id, e := ack.commandId, if ack.ok then MarkAcked else MarkRejected;
            && id in w.cmds && Enabled(w, OnRow(id, e)) && id in Next(w, OnRow(id, e)).cmds
            && AnsweredRow(w.cmds[id].row, ack.ok, w.now, Next(w, OnRow(id, e)).cmds[id].row)
            && var c, d := w.cmds[id], Next(w, OnRow(id, e)).cmds[id];
               if c.row.Answerable() then
                 && d.row.status == (if ack.ok then Acked else Dead)
                 && d.tally.answer == if ack.ok then AckedBySatellite else RejectedBySatellite
               else d == c
  {
    assert Ack(ack.commandId, ack.ok) == ack;
    StepWrites(w, ack.commandId, if ack.ok then MarkAcked else MarkRejected);
  }

  /** A timeout ends the command exactly when no retry is left and the pass is not to blame. */
  predicate EndsOnTimeout(row: Row, open: bool) {
    row.status == Sent && !row.CanRetry() && !(row.order.Retryable() && !row.order.manual && !open)
  }

  lemma TimeOutWrites(w: World, id: Id, me: Worker, open: bool)
    requires id in w.cmds && RowEnabled(w.cmds[id], TimeOut(me, open), w.now)
    ensures var v := Next(w, OnRow(id, TimeOut(me, open)));
            && id in v.cmds && TimedOutRow(w.cmds[id].row, open, w.now, v.cmds[id].row)
            && (EndsOnTimeout(w.cmds[id].row, open) <==> w.cmds[id].row.status == Sent && v.cmds[id].row.status == Dead)
  {
    StepWrites(w, id, TimeOut(me, open));
    hide RowNext;
  }

  lemma PlanWrites(w: World, id: Id, t: Time)
    requires id in w.cmds && RowEnabled(w.cmds[id], Plan(t), w.now)
    ensures var v := Next(w, OnRow(id, Plan(t)));
            id in v.cmds && Changes(w.cmds[id].row, Pending, w.cmds[id].row.(status := Scheduled, scheduledAt := Some(t)), v.cmds[id].row)
  {
    StepWrites(w, id, Plan(t));
    hide RowNext;
  }

  /** SELECT ... WHERE p LIMIT 50. */
  method Select(w: World, p: Cmd -> bool) returns (ids: seq<Id>)
    ensures IsBatch(w, p, ids)
  {
    var rest := set id | id in w.cmds && p(w.cmds[id]);
    ids := [];
    while rest != {} && |ids| < BATCH
      invariant |ids| <= BATCH
      invariant Distinct(ids)
      invariant forall id :: id in ids ==> id in w.cmds && p(w.cmds[id]) && id !in rest
      invariant forall id :: id in rest ==> id in w.cmds && p(w.cmds[id])
      invariant forall id :: id in w.cmds && p(w.cmds[id]) ==> id in rest || id in ids
      decreases |rest|
    {
      var id :| id in rest;
      ids := ids + [id];
      rest := rest - {id};
    }
  }

  class Scheduler {
    const me: Worker
    const db: Segment
    var scheduledCount: nat
    var transmittedCount: nat
    var ackedCount: nat
    var timedOutCount: nat
    var deadCount: nat

    constructor (me: Worker, db: Segment)
      ensures this.me == me && this.db == db
      ensures scheduledCount == transmittedCount == ackedCount == timedOutCount == deadCount == 0
    {
      this.me, this.db := me, db;
      scheduledCount, transmittedCount, ackedCount, timedOutCount, deadCount := 0, 0, 0, 0, 0;
    }

    /** An executor's step on the row it is busy with. */
    method Step(id: Id, e: RowEvent, ghost stage: Stage, ghost rest: seq<Id>)
      requires db.Valid() && Holding(db.world, me, id, stage, rest) && id !in rest
      requires RowEnabled(db.world.cmds[id], e, db.world.now) && !e.MarkAcked? && !e.MarkRejected? && !e.Fetch?
      requires RowOwns(e, Executor(me)) && !e.Crash?
      modifies db
      ensures db.Valid() && Steady(old(db.history), db.history, me)
      ensures match StageAfter(old(db.world.cmds[id]), e)
              case Some(s) => Holding(db.world, me, id, s, rest)
              case None => HoldingOnly(db.world, me, {}, rest)
      ensures SentBy(db.history, me) == SentBy(old(db.history), me) + if e.MarkSent? then 1 else 0
      ensures LastStep(old(db.history), db.history, old(db.world), OnRow(id, e))
      ensures |db.history| == |old(db.history)| + 1 && db.world == Next(old(db.world), OnRow(id, e))
    {
      StepIsLast(db.history, db.history, OnRow(id, e));
      StepCounts(db.history, OnRow(id, e), MarkSent(me));
      StepCounts(db.history, OnRow(id, e), Crash(me));
      StepChangesHold(db.world, me, id, e, stage, rest);
      db.Do(OnRow(id, e));
    }

    method Pause(id: Id, ghost stage: Stage, ghost rest: seq<Id>)
      requires db.Valid() && Holding(db.world, me, id, stage, rest)
      modifies db
      ensures db.Valid() && Steady(old(db.history), db.history, me)
      ensures Holding(db.world, me, id, stage, rest)
      ensures db.world.cmds[id].row.order == old(db.world.cmds[id].row.order)
      ensures SentBy(db.history, me) == SentBy(old(db.history), me)
    {
      ghost var w, h := db.world, db.history;
      db.Await(Executor(me));
      HoldingSurvives(w, db.world, me, id, stage, rest);
      OthersDoNotCount(h, db.history, MarkSent(me), Executor(me));
      OthersDoNotCount(h, db.history, Crash(me), Executor(me));
    }

    /** _replan_if_window_missed: whether the row is re-planned depends on the
        window as the pass schedule was read. */
    method ReplanIfWindowMissed(id: Id, ghost rest: seq<Id>) returns (missed: bool)
      requires db.Valid() && Holding(db.world, me, id, Fetched, rest) && id !in rest
      requires !db.world.cmds[id].row.order.manual
      modifies db
      ensures db.Valid() && Steady(old(db.history), db.history, me)
      ensures SentBy(db.history, me) == SentBy(old(db.history), me)
      ensures WindowSeen(db.passesAt, old(db.history), db.history, old(db.world.cmds[id].row.order.satelliteId), !missed)
      ensures missed ==> Happened(old(db.history), db.history, id, Replan(me)) && HoldingOnly(db.world, me, {}, rest)
      ensures !missed ==> Holding(db.world, me, id, Fetched, rest)
    {
      hide IsRun, After, Next, RowNext, Occurrences, WindowOpen;
      ghost var order, start := db.world.cmds[id].row.order, db.history;
      Pause(id, Fetched, rest);
      missed := !WindowOpen(db.Passes(), db.world.cmds[id].row.order.satelliteId, db.world.now);
      ghost var read := db.history;
      NowWitnessed(start, read);
      assert WindowSeen(db.passesAt, start, read, order.satelliteId, !missed);
      hide WindowSeen, Witnessed;
      if missed {
        Pause(id, Fetched, rest);
        ghost var h, before := db.history, db.world;
        Step(id, Replan(me), Fetched, rest);
        LastStepWidens(start, h, db.history, before, OnRow(id, Replan(me)));
        JustHappened(start, db.history, before, id, Replan(me));
      }
      WindowSeenWidens(db.passesAt, start, start, read, db.history, order.satelliteId, !missed);
    }

    /** _drop_if_policy_denies: whether the row is dropped depends on the mode
        reading; dead_count counts it if it was still scheduled. */
    method DropIfPolicyDenies(id: Id, ghost rest: seq<Id>) returns (dropped: bool, ghost before: World)
      requires db.Valid() && Holding(db.world, me, id, Fetched, rest) && id !in rest
      modifies this, db
      ensures db.Valid() && Steady(old(db.history), db.history, me)
      ensures SentBy(db.history, me) == SentBy(old(db.history), me) && transmittedCount == old(transmittedCount)
      ensures DenialSeen(db.deniedAt, old(db.history), db.history, old(db.world.cmds[id].row.order), dropped)
      ensures dropped ==>
                && Happened(old(db.history), db.history, id, PolicyDrop(me)) && HoldingOnly(db.world, me, {}, rest)
                && LastStep(old(db.history), db.history, before, OnRow(id, PolicyDrop(me))) && id in before.cmds
                && deadCount == old(deadCount) + if before.cmds[id].row.status == Scheduled then 1 else 0
      ensures !dropped ==> Holding(db.world, me, id, Fetched, rest) && deadCount == old(deadCount)
    {
      hide IsRun, After, Next, RowNext, Occurrences;
      ghost var order, start := db.world.cmds[id].row.order, db.history;
      Pause(id, Fetched, rest);
      before := db.world;
      dropped := (db.world.cmds[id].row.order.satelliteId, db.world.cmds[id].row.order.commandType) in db.Denied();
      ghost var read := db.history;
      NowWitnessed(start, read);
      assert DenialSeen(db.deniedAt, start, read, order, dropped);
      hide DenialSeen, Witnessed;
      if dropped {
        Pause(id, Fetched, rest);
        before := db.world;
        if db.world.cmds[id].row.status == Scheduled {
          deadCount := deadCount + 1;
        }
        ghost var h := db.history;
        Step(id, PolicyDrop(me), Fetched, rest);
        LastStepWidens(start, h, db.history, before, OnRow(id, PolicyDrop(me)));
        JustHappened(start, db.history, before, id, PolicyDrop(me));
      }
      DenialSeenWidens(db.deniedAt, start, start, read, db.history, order, dropped);
    }

    /** A step after an await, as the whole stretch shows it. */
    method StepAfterPause(id: Id, e: RowEvent, ghost stage: Stage, ghost rest: seq<Id>)
      requires db.Valid() && Holding(db.world, me, id, stage, rest) && id !in rest
      requires (e == Bounce(me) && stage == Stage.Refused) || (e == MarkSent(me) && stage == Published)
      modifies db
      ensures db.Valid() && Steady(old(db.history), db.history, me)
      ensures HoldingOnly(db.world, me, {}, rest)
      ensures SentBy(db.history, me) == SentBy(old(db.history), me) + if e.MarkSent? then 1 else 0
      ensures Happened(old(db.history), db.history, id, e)
    {
      hide IsRun, After, Next, RowNext, Occurrences;
      ghost var start := db.history;
      Pause(id, stage, rest);
      ghost var h, before := db.history, db.world;
      Step(id, e, stage, rest);
      LastStepWidens(start, h, db.history, before, OnRow(id, e));
      JustHappened(start, db.history, before, id, e);
    }

    /** The publication itself. */
    method PublishNow(id: Id, ghost rest: seq<Id>) returns (raised: bool)
      requires db.Valid() && Holding(db.world, me, id, Claimed, rest) && id !in rest
      modifies db
      ensures db.Valid() && Steady(old(db.history), db.history, me)
      ensures Holding(db.world, me, id, if raised then Stage.Refused else Published, rest)
      ensures SentBy(db.history, me) == SentBy(old(db.history), me)
      ensures PublishSeen(db.busAt, old(db.history), db.history, id, me, raised)
      ensures |db.history| == |old(db.history)| + 1
      ensures var order := old(db.world.cmds[id].row.order);
              db.busAt(|db.history| - 1) != Raised(false) ==>
                Message(order.satelliteId, Payload(id, order.satelliteId, order.commandType, order.params)) in db.world.uplink
    {
      hide IsRun, After, Next, RowNext, Occurrences;
      var outcome := db.Bus();
      raised := outcome.Raised?;
      if outcome != Raised(false) { StoredIsOnUplink(db.world, id, me, raised); }
      ghost var before, read := db.world, db.history;
      Step(id, PublishAs(me, outcome), Claimed, rest);
      hide PublishSeen, Holding, HoldingOnly;
      JustPublished(db.busAt, read, db.history, before, id, me);
    }

    /** The publication of a claimed row, with the outcome the bus had for it then.
        What the bus accepts is this command, for its satellite, with its params. */
    method PublishRow(id: Id, ghost rest: seq<Id>) returns (raised: bool)
      requires db.Valid() && Holding(db.world, me, id, Claimed, rest) && id !in rest
      modifies db
      ensures db.Valid() && Steady(old(db.history), db.history, me)
      ensures Holding(db.world, me, id, if raised then Stage.Refused else Published, rest)
      ensures SentBy(db.history, me) == SentBy(old(db.history), me)
      ensures PublishSeen(db.busAt, old(db.history), db.history, id, me, raised)
      ensures |db.history| > 0
      ensures var order := old(db.world.cmds[id].row.order);
              db.busAt(|db.history| - 1) != Raised(false) ==>
                Message(order.satelliteId, Payload(id, order.satelliteId, order.commandType, order.params)) in db.world.uplink
    {
      hide IsRun, After, Next, RowNext, Occurrences;
      ghost var start := db.history;
      Pause(id, Claimed, rest);
      ghost var read := db.history;
      hide PublishSeen;
      raised := PublishNow(id, rest);
      PublishSeenWidens(db.busAt, start, read, db.history, db.history, id, me, raised);
    }

    /** Publish a claimed row and record the outcome. */
    method Transmit(id: Id, ghost rest: seq<Id>) returns (raised: bool)
      requires db.Valid() && Holding(db.world, me, id, Claimed, rest) && id !in rest
      modifies this, db
      ensures db.Valid() && Steady(old(db.history), db.history, me)
      ensures HoldingOnly(db.world, me, {}, rest)
      ensures Recorded(db.busAt, old(db.history), db.history, id, me, raised)
      ensures transmittedCount == old(transmittedCount) + if raised then 0 else 1
      ensures transmittedCount - old(transmittedCount) == SentBy(db.history, me) - SentBy(old(db.history), me)
    {
      hide IsRun, After, Next, RowNext, Occurrences, Happened, PublishSeen, Holding, HoldingOnly;
      ghost var start := db.history;
      raised := PublishRow(id, rest);
      ghost var h := db.history;
      if raised {
        StepAfterPause(id, Bounce(me), Stage.Refused, rest);
      } else {
        StepAfterPause(id, MarkSent(me), Published, rest);
        transmittedCount := transmittedCount + 1;
      }
      HappenedWidens(start, h, db.history, db.history, id, if raised then Bounce(me) else MarkSent(me));
      PublishSeenWidens(db.busAt, start, start, h, db.history, id, me, raised);
    }

    /** The checks before a row is claimed. */
    method Gate(id: Id, ghost rest: seq<Id>) returns (gone: bool, ghost fate: Fate)
      requires db.Valid() && Holding(db.world, me, id, Fetched, rest) && id !in rest
      modifies this, db
      ensures db.Valid() && Steady(old(db.history), db.history, me)
      ensures SentBy(db.history, me) == SentBy(old(db.history), me) && transmittedCount == old(transmittedCount)
      ensures gone ==>
                && HoldingOnly(db.world, me, {}, rest) && fate in {Replanned, Dropped}
                && Fated(db.passesAt, db.deniedAt, db.busAt, old(db.history), db.history, me, id,
                         old(db.world.cmds[id].row.order), fate)
      ensures !gone ==>
                && Holding(db.world, me, id, Fetched, rest)
                && GatePassed(db.passesAt, db.deniedAt, old(db.history), db.history, old(db.world.cmds[id].row.order))
    {
      hide IsRun, After, Next, RowNext, Occurrences, WindowSeen, DenialSeen, Happened, LastStep;
      ghost var order, start := db.world.cmds[id].row.order, db.history;
      fate := Replanned;
      if !db.world.cmds[id].row.order.manual {
        gone := ReplanIfWindowMissed(id, rest);
        if gone {
          return;
        }
      }
      ghost var h, before := db.history, db.world;
      OrderStays(start, h, id);
      gone, before := DropIfPolicyDenies(id, rest);
      fate := Dropped;
      if !order.manual { WindowSeenWidens(db.passesAt, start, start, h, db.history, order.satelliteId, true); }
      DenialSeenWidens(db.deniedAt, start, h, db.history, db.history, order, gone);
      if gone { HappenedWidens(start, h, db.history, db.history, id, PolicyDrop(me)); }
    }

    /** The claim, won exactly if the row was still scheduled. */
    method ClaimRow(id: Id, ghost rest: seq<Id>) returns (claimed: bool)
      requires db.Valid() && Holding(db.world, me, id, Fetched, rest) && id !in rest
      modifies db
      ensures db.Valid() && Steady(old(db.history), db.history, me)
      ensures SentBy(db.history, me) == SentBy(old(db.history), me)
      ensures ClaimSeen(old(db.history), db.history, id, me, claimed)
      ensures if claimed then Holding(db.world, me, id, Claimed, rest) else HoldingOnly(db.world, me, {}, rest)
    {
      hide IsRun, After, Next, RowNext, Occurrences;
      ghost var start := db.history;
      Pause(id, Fetched, rest);
      claimed := db.world.cmds[id].row.status == Scheduled;
      ghost var h, before := db.history, db.world;
      Step(id, Claim(me), Fetched, rest);
      LastStepWidens(start, h, db.history, before, OnRow(id, Claim(me)));
      ClaimJustSeen(start, db.history, before, id, me);
    }

    /** One row of an executor cycle: it is let go, with a fate that has its
        reason in what the run shows, and nothing begun was abandoned. */
    method ExecuteRow(id: Id, ghost rest: seq<Id>) returns (ghost fate: Fate)
      requires db.Valid() && Holding(db.world, me, id, Fetched, rest) && id !in rest
      modifies this, db
      ensures db.Valid() && Steady(old(db.history), db.history, me)
      ensures HoldingOnly(db.world, me, {}, rest)
      ensures Fated(db.passesAt, db.deniedAt, db.busAt, old(db.history), db.history, me, id,
                         old(db.world.cmds[id].row.order), fate)
      ensures transmittedCount == old(transmittedCount) + if fate == Transmitted then 1 else 0
      ensures transmittedCount - old(transmittedCount) == SentBy(db.history, me) - SentBy(old(db.history), me)
    {
      ghost var order, start := db.world.cmds[id].row.order, db.history;
      hide IsRun, After, Next, RowNext, Occurrences, Holding, HoldingOnly, GatePassed, ClaimSeen, Recorded, Fated;
      var gone: bool;
      gone, fate := Gate(id, rest);
      if gone {
        return;
      }
      ghost var h := db.history;
      var claimed := ClaimRow(id, rest);
      if !claimed {
        LostFate(db.passesAt, db.deniedAt, db.busAt, start, h, db.history, me, id, order);
        return LostClaim;
      }
      ghost var k := db.history;
      var raised := Transmit(id, rest);
      WonFate(db.passesAt, db.deniedAt, db.busAt, start, h, k, db.history, me, id, order, raised);
      fate := if raised then Bounced else Transmitted;
    }

    /** The rows of an executor cycle are read in one statement. */
    method FetchAll(ids: seq<Id>)
      requires db.Valid() && HoldingOnly(db.world, me, {}, [])
      requires Distinct(ids)
      requires forall id :: id in ids ==> id in db.world.cmds && RowEnabled(db.world.cmds[id], Fetch(me), db.world.now)
      modifies db
      ensures db.Valid() && Steady(old(db.history), db.history, me)
      ensures HoldingOnly(db.world, me, {}, ids)
      ensures SentBy(db.history, me) == SentBy(old(db.history), me)
      ensures AllHappened(old(db.history), db.history, ids, Fetch(me))
    {
      hide IsRun, After, Next, RowNext, RowEnabled, HoldingOnly, Occurrences, Happened, AllHappened, LastStep;
      assert ids[..0] == [];
      NothingYet(db.history, Fetch(me));
      for i := 0 to |ids|
        invariant db.Valid() && Steady(old(db.history), db.history, me)
        invariant HoldingOnly(db.world, me, {}, ids[..i])
        invariant SentBy(db.history, me) == SentBy(old(db.history), me)
        invariant forall j :: i <= j < |ids| ==>
                    ids[j] in db.world.cmds && RowEnabled(db.world.cmds[ids[j]], Fetch(me), db.world.now)
        invariant AllHappened(old(db.history), db.history, ids[..i], Fetch(me))
      {
        ghost var h, before := db.history, db.world;
        StepCounts(db.history, OnRow(ids[i], Fetch(me)), MarkSent(me));
        StepCounts(db.history, OnRow(ids[i], Fetch(me)), Crash(me));
        StepSparesOthers(db.world, ids[i], Fetch(me));
        FetchAddsHold(db.world, me, ids[..i], ids[i]);
        db.Do(OnRow(ids[i], Fetch(me)));
        assert ids[..i + 1] == ids[..i] + [ids[i]];
        StepIsLast(old(db.history), h, OnRow(ids[i], Fetch(me)));
        JustHappened(old(db.history), db.history, before, ids[i], Fetch(me));
        OneMoreHappened(old(db.history), h, db.history, ids, i, Fetch(me));
      }
      assert ids[..|ids|] == ids;
    }

    /** The rows of an executor cycle, one after the other. */
    method ExecuteAll(ids: seq<Id>)
      requires db.Valid() && Distinct(ids) && HoldingOnly(db.world, me, {}, ids)
      modifies this, db
      ensures db.Valid() && Steady(old(db.history), db.history, me)
      ensures AllFated(db.passesAt, db.deniedAt, db.busAt, old(db.history), db.history, me, ids, old(db.world))
      ensures HoldingOnly(db.world, me, {}, [])
      ensures transmittedCount - old(transmittedCount) == SentBy(db.history, me) - SentBy(old(db.history), me)
    {
      ghost var w, start := db.world, db.history;
      assert ids[0..] == ids && ids[..0] == [] && forall id :: id in ids ==> id in w.cmds;
      NoFates(db.passesAt, db.deniedAt, db.busAt, start, me, w);
      hide IsRun, After, Next, RowNext, HoldingOnly, Holding, Occurrences, Fated, Distinct, AllFated;
      for i := 0 to |ids|
        invariant db.Valid() && Steady(start, db.history, me)
        invariant HoldingOnly(db.world, me, {}, ids[i..])
        invariant transmittedCount - old(transmittedCount) == SentBy(db.history, me) - SentBy(start, me)
        invariant AllFated(db.passesAt, db.deniedAt, db.busAt, start, db.history, me, ids[..i], w)
      {
        ghost var before := db.history;
        RestOf(ids, i);
        FirstIsHeld(db.world, me, ids[i], ids[i + 1..]);
        OrderStays(start, before, ids[i]);
        var fate := ExecuteRow(ids[i], ids[i + 1..]);
        OneMoreFate(db.passesAt, db.deniedAt, db.busAt, start, before, db.history, me, ids, i, w, fate);
      }
      assert ids[|ids|..] == [] && ids[..|ids|] == ids;
    }

    /** _execute_once: every due row (up to a batch) is taken and meets its fate,
        no row stays with this executor and none was abandoned;
        transmitted_count counts its transmissions. */
    method ExecuteOnce() returns (ghost taken: seq<Id>)
      requires db.Valid() && HoldingOnly(db.world, me, {}, [])
      modifies this, db
      ensures db.Valid() && Steady(old(db.history), db.history, me)
      ensures IsBatch(old(db.world), DueRows(old(db.world.now)), taken)
      ensures |taken| < 50 ==>
                forall id :: id in old(db.world.cmds) ==>
                  var row := old(db.world.cmds)[id].row;
                  row.status == Scheduled && row.scheduledAt.Some? && row.scheduledAt.value <= old(db.world.now) ==> id in taken
      ensures AllHappened(old(db.history), db.history, taken, Fetch(me))
      ensures AllFated(db.passesAt, db.deniedAt, db.busAt, old(db.history), db.history, me, taken, old(db.world))
      ensures HoldingOnly(db.world, me, {}, [])
      ensures transmittedCount - old(transmittedCount) == SentBy(db.history, me) - SentBy(old(db.history), me)
    {
      hide IsRun, After, Next, RowNext;
      ghost var w, start := db.world, db.history;
      var ids := Select(db.world, DueRows(db.world.now));
      taken := ids;
      FetchAll(ids);
      hide HoldingOnly, Occurrences, Happened, AllHappened, DueRows, Fated, RowEnabled, AllFated;
      ghost var v, h := db.world, db.history;
      OrdersStay(start, h);
      ExecuteAll(ids);
      FatesSince(db.passesAt, db.deniedAt, db.busAt, start, h, db.history, me, ids, w, v);
      AllHappenedStay(start, h, db.history, ids, Fetch(me));
    }

    method PauseSweep()
      requires db.Valid()
      modifies db
      ensures db.Valid() && Steady(old(db.history), db.history, me)
      ensures Swept(db.world, me) == Swept(old(db.world), me)
    {
      ghost var w, h := db.world, db.history;
      db.Await(Sweeper(me));
      SweptSurvives(w, db.world, me);
      OthersDoNotCount(h, db.history, Crash(me), Sweeper(me));
    }

    /** _mark_timed_out: one step on the row as it is by then, with the window as
        it is by then, counted by what it did. */
    method MarkTimedOut(id: Id) returns (ghost before: World)
      requires db.Valid() && id in Swept(db.world, me)
      modifies this, db
      ensures db.Valid() && Steady(old(db.history), db.history, me)
      ensures Swept(db.world, me) == Swept(old(db.world), me) - {id}
      ensures Handled(db.passesAt, old(db.history), db.history, id, me)
      ensures id in before.cmds && me in before.cmds[id].sweeping
      ensures var c := before.cmds[id];
              var open := WindowOpen(db.passesAt(|db.history| - 1), c.row.order.satelliteId, before.now);
              && LastStep(old(db.history), db.history, before, OnRow(id, TimeOut(me, open)))
              && id in db.world.cmds && TimedOutRow(c.row, open, before.now, db.world.cmds[id].row)
              && timedOutCount == old(timedOutCount) + (if c.row.status == Sent then 1 else 0)
              && deadCount == old(deadCount)
                              + if c.row.status == Sent && db.world.cmds[id].row.status == Dead then 1 else 0
    {
      hide IsRun, After, Next, RowNext, WindowOpen, EndsOnTimeout, Occurrences, TimedOutRow;
      ghost var h := db.history;
      PauseSweep();
      assert id in Swept(db.world, me);
      before := db.world;
      var c := db.world.cmds[id];
      var windowOpen := WindowOpen(db.Passes(), c.row.order.satelliteId, db.world.now);
      StepChangesSwept(db.world, me, id, TimeOut(me, windowOpen));
      StepCounts(db.history, OnRow(id, TimeOut(me, windowOpen)), Crash(me));
      StepIsLast(h, db.history, OnRow(id, TimeOut(me, windowOpen)));
      TimeOutWrites(db.world, id, me, windowOpen);
      db.Do(OnRow(id, TimeOut(me, windowOpen)));
      hide Swept, LastStep, Handled;
      JustHandled(db.passesAt, h, db.history, before, id, me);
      if c.row.status == Sent {
        timedOutCount := timedOutCount + 1;
        if EndsOnTimeout(c.row, windowOpen) {
          deadCount := deadCount + 1;
        }
      }
    }

    /** The rows of a sweep are read in one statement. */
    method SweepAll(ids: seq<Id>)
      requires db.Valid() && Swept(db.world, me) == {}
      requires Distinct(ids)
      requires forall id :: id in ids ==> id in db.world.cmds && RowEnabled(db.world.cmds[id], Sweep(me), db.world.now)
      modifies db
      ensures db.Valid() && Steady(old(db.history), db.history, me)
      ensures Swept(db.world, me) == Among(ids)
    {
      hide IsRun, After, Next, RowNext, RowEnabled, Swept, Occurrences;
      for i := 0 to |ids|
        invariant db.Valid() && Steady(old(db.history), db.history, me)
        invariant Swept(db.world, me) == Among(ids[..i])
        invariant forall j :: i <= j < |ids| ==>
                    ids[j] in db.world.cmds && RowEnabled(db.world.cmds[ids[j]], Sweep(me), db.world.now)
      {
        StepChangesSwept(db.world, me, ids[i], Sweep(me));
        StepCounts(db.history, OnRow(ids[i], Sweep(me)), Crash(me));
        StepSparesOthers(db.world, ids[i], Sweep(me));
        db.Do(OnRow(ids[i], Sweep(me)));
        assert ids[..i + 1] == ids[..i] + [ids[i]];
      }
      assert ids[..|ids|] == ids;
    }

    /** _timeout_once: every overdue row (up to a batch) is timed out by a step
        of its own, and none is left half-way. */
    method TimeoutOnce() returns (ghost swept: seq<Id>)
      requires db.Valid() && Swept(db.world, me) == {}
      modifies this, db
      ensures db.Valid() && Steady(old(db.history), db.history, me)
      ensures IsBatch(old(db.world), OverdueRows(old(db.world.now)), swept)
      ensures |swept| < 50 ==>
                forall id :: id in old(db.world.cmds) ==>
                  var row := old(db.world.cmds)[id].row;
                  row.status == Sent && row.sentAt.Some? && old(db.world.now) - row.sentAt.value > 60_000_000 ==> id in swept
      ensures forall id :: id in swept ==> Handled(db.passesAt, old(db.history), db.history, id, me)
      ensures Swept(db.world, me) == {}
      ensures 0 <= timedOutCount - old(timedOutCount) <= |swept|
    {
      hide IsRun, After, Next, RowNext, Swept, WindowOpen, TimedOut, Occurrences, Handled, LastStep;
      var ids := Select(db.world, OverdueRows(db.world.now));
      swept := ids;
      SweepAll(ids);
      hide Distinct, OverdueRows;
      assert ids[0..] == ids;
      for i := 0 to |ids|
        invariant db.Valid() && Steady(old(db.history), db.history, me)
        invariant Swept(db.world, me) == Among(ids[i..])
        invariant 0 <= timedOutCount - old(timedOutCount) <= i
        invariant forall id :: id in ids[..i] ==> Handled(db.passesAt, old(db.history), db.history, id, me)
      {
        RestOf(ids, i);
        ghost var h := db.history;
        ghost var before := MarkTimedOut(ids[i]);
        HandledWidens(db.passesAt, old(db.history), h, db.history, db.history, ids[i], me);
        forall id | id in ids[..i] ensures Handled(db.passesAt, old(db.history), db.history, id, me) {
          HandledWidens(db.passesAt, old(db.history), old(db.history), h, db.history, id, me);
        }
        assert ids[..i + 1] == ids[..i] + [ids[i]];
      }
      assert ids[..|ids|] == ids;
    }

    /** The UPDATE of a planned row, counted if it found the row pending. */
    method WritePlan(id: Id, t: Time, task: Task) returns (ghost before: World)
      requires db.Valid() && id in db.world.cmds
      requires var row := db.world.cmds[id].row; row.order.manual && Waiting(row) ==> row.scheduledAt == Some(t)
      modifies this, db
      ensures db.Valid() && old(db.history) <= db.history
      ensures LastStep(old(db.history), db.history, before, OnRow(id, Plan(t)))
      ensures id in before.cmds && id in db.world.cmds
      ensures var r, s := before.cmds[id].row, db.world.cmds[id].row;
              && s == (if r.status == Pending then r.(status := Scheduled, scheduledAt := Some(t)) else r)
              && scheduledCount == old(scheduledCount) + if r.status == Pending then 1 else 0
    {
      hide IsRun, After, Next, RowNext;
      ghost var h, order := db.history, db.world.cmds[id].row.order;
      db.Await(task);
      before := db.world;
      assert before.cmds[id].row.order == order;
      if order.manual { OperatorTimeStays(h, db.history, id); }
      hide SameProgress;
      var pending := db.world.cmds[id].row.status == Pending;
      PlanWrites(db.world, id, t);
      StepIsLast(h, db.history, OnRow(id, Plan(t)));
      db.Do(OnRow(id, Plan(t)));
      if pending {
        scheduledCount := scheduledCount + 1;
      }
    }

    /** One row of a planning cycle, with the scheduled_at the cycle read: a
        manual time wins, otherwise the next usable window; without one the
        command is left alone. */
    method PlanRow(id: Id, scheduledAt: Option<Time>, task: Task) returns (ghost start: Option<Time>, ghost before: World)
      requires db.Valid() && id in db.world.cmds
      requires var row := db.world.cmds[id].row;
               row.order.manual ==> scheduledAt.Some? && (Waiting(row) ==> scheduledAt == row.scheduledAt)
      modifies this, db
      ensures db.Valid() && old(db.history) <= db.history
      ensures Planned(db.passesAt, old(db.history), db.history, id, old(db.world.cmds[id].row.order), scheduledAt)
      ensures if scheduledAt.Some? then start == scheduledAt
              else NextStartSeen(db.passesAt, old(db.history), db.history, old(db.world.cmds[id].row.order.satelliteId), start)
      ensures start.None? ==> scheduledCount == old(scheduledCount)
      ensures start.Some? ==>
                && LastStep(old(db.history), db.history, before, OnRow(id, Plan(start.value)))
                && id in before.cmds && id in db.world.cmds
                && var r, s := before.cmds[id].row, db.world.cmds[id].row;
                   && s == (if r.status == Pending then r.(status := Scheduled, scheduledAt := start) else r)
                   && scheduledCount == old(scheduledCount) + if r.status == Pending then 1 else 0
    {
      hide IsRun, After, IsNextStart, Next, RowNext;
      ghost var order, h := db.world.cmds[id].row.order, db.history;
      ghost var read := h;
      start, before := scheduledAt, db.world;
      var target := scheduledAt;
      if target.None? {
        db.Await(task);
        assert db.world.cmds[id].row.order == order;
        hide SameProgress;
        read := db.history;
        target := NextPassAos(db.Passes(), db.world.cmds[id].row.order.satelliteId, db.world.now);
        NowWitnessed(h, read);
        assert NextStartSeen(db.passesAt, h, read, order.satelliteId, target);
      }
      hide NextStartSeen, Witnessed, LastStep, Happened, Waiting;
      start := target;
      if target.Some? {
        before := WritePlan(id, target.value, task);
        LastStepWidens(h, read, db.history, before, OnRow(id, Plan(target.value)));
        JustHappened(h, db.history, before, id, Plan(target.value));
      }
      if scheduledAt.None? { NextStartSeenWidens(db.passesAt, h, h, read, db.history, order.satelliteId, start); }
    }

    /** _schedule_once: the waiting rows (up to a batch) are planned, those with a
        manual time for it, the others by the pass schedule. */
    method ScheduleOnce(task: Task) returns (ghost read: seq<Id>)
      requires db.Valid()
      modifies this, db
      ensures db.Valid() && old(db.history) <= db.history
      ensures IsBatch(old(db.world), WaitingRows(), read)
      ensures |read| < 50 ==>
                forall id :: id in old(db.world.cmds) && old(db.world.cmds)[id].row.status == Pending ==> id in read
      ensures forall id :: id in read ==>
                var row := old(db.world).cmds[id].row;
                Planned(db.passesAt, old(db.history), db.history, id, row.order, row.scheduledAt)
      ensures 0 <= scheduledCount - old(scheduledCount) <= |read|
    {
      ghost var h := db.history;
      var w := db.world;
      var ids := Select(w, WaitingRows());
      read := ids;
      hide IsRun, After, Next, RowNext, Planned, WaitingRows, Distinct, LastStep, NextStartSeen, Waiting;
      for i := 0 to |ids|
        invariant db.Valid() && h <= db.history
        invariant 0 <= scheduledCount - old(scheduledCount) <= i
        invariant forall id :: id in ids[..i] ==>
                    Planned(db.passesAt, h, db.history, id, w.cmds[id].row.order, w.cmds[id].row.scheduledAt)
      {
        ghost var k := db.history;
        OrderStays(h, k, ids[i]);
        var row := w.cmds[ids[i]].row;
        ReadPlanStands(h, k, ids[i]);
        ghost var start, before := PlanRow(ids[i], row.scheduledAt, task);
        PlannedWidens(db.passesAt, h, k, db.history, db.history, ids[i], row.order, row.scheduledAt);
        forall id | id in ids[..i]
          ensures Planned(db.passesAt, h, db.history, id, w.cmds[id].row.order, w.cmds[id].row.scheduledAt)
        {
          PlannedWidens(db.passesAt, h, h, k, db.history, id, w.cmds[id].row.order, w.cmds[id].row.scheduledAt);
        }
        assert ids[..i + 1] == ids[..i] + [ids[i]];
      }
      assert ids[..|ids|] == ids;
    }

    /** One message of the answer stream: it is recorded exactly when the row
        has been on air and has not ended, and then it is the truth. */
    method ConsumeAnswer(ack: Ack, task: Task) returns (ghost before: World)
      requires db.Valid() && ack in db.world.downlink
      modifies this, db
      ensures db.Valid() && old(db.history) <= db.history
      ensures LastStep(old(db.history), db.history, before, OnRow(ack.commandId, if ack.ok then MarkAcked else MarkRejected))
      ensures ack.commandId in before.cmds && ack.commandId in db.world.cmds
      ensures var c, d := before.cmds[ack.commandId], db.world.cmds[ack.commandId];
              var recorded := if c.row.Answerable() then 1 else 0;
              && ackedCount == old(ackedCount) + (if ack.ok then recorded else 0)
              && deadCount == old(deadCount) + (if ack.ok then 0 else recorded)
              && (!c.row.Answerable() ==> d == c) && AnsweredRow(c.row, ack.ok, before.now, d.row)
              && (c.row.Answerable() ==>
                    && d.row.status == (if ack.ok then Acked else Dead)
                    && (Effects(Addressee(db.world, ack.commandId), ack.commandId) != {} <==> ack.ok))
    {
      db.Await(task);
      RunIsGenuine(db.history);
      var id := ack.commandId;
      AnswerIsRecorded(db.world, ack);
      hide IsRun, Next, RowNext, Effects, LastStep, SameProgress, AnsweredRow, CarriedOut;
      before := db.world;
      var answerable := db.world.cmds[id].row.Answerable();
      StepIsLast(old(db.history), db.history, OnRow(id, if ack.ok then MarkAcked else MarkRejected));
      db.Do(OnRow(id, if ack.ok then MarkAcked else MarkRejected));
      if answerable {
        if ack.ok {
          ackedCount := ackedCount + 1;
          AckedMeansDone(db.history, id);
        } else {
          deadCount := deadCount + 1;
          RejectedMeansNotDone(db.history, id);
        }
      }
    }
  }
}
