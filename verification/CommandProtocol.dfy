/** The command lifecycle as a protocol over one shared table.

    Any number of schedulers, REST operators and satellites take steps; one
    event is one SQL statement or transaction, one publication, or one message
    delivery (backend/src/scheduler/service.py, backend/src/api/routes/commands.py). */
module CommandProtocol {
  import opened Basics
  import opened CommandModel
  import opened Satellite

  /** A scheduler instance. */
  type Worker = nat

  const ACK_TIMEOUT: Time := 60 * SECOND

  /** Exponential backoff between retries: 1 s, 4 s, 16 s. */
  function Backoff(retryCount: nat): Time {
    if retryCount == 0 then 1 * SECOND else if retryCount == 1 then 4 * SECOND else 16 * SECOND
  }

  /** How far an executor is with a row it fetched. */
  datatype Stage = Fetched | Claimed | Refused | Published

  /** A PATCH request between its SELECT and its UPDATE: what it validated. */
  datatype Ticket = Ticket(target: Status, from: Status, seenRetries: nat)

  datatype Answer = Unanswered | AckedBySatellite | RejectedBySatellite

  /** The history of one command: how often it entered `transmitting`, what
      took it back (publish failures, LOS re-plans, missed windows), PATCH
      retries applied on an outdated read, status changes, publications that
      did not raise, the satellite's verdict, and the earliest time the retry
      rules allow the next publication. */
  datatype Tally = Tally(
    entries: nat,
    bounces: nat,
    losReplans: nat,
    missed: nat,
    stale: nat,
    changes: nat,
    published: nat,
    answer: Answer,
    notBefore: Option<Time>)

  /** A row together with the requests in flight for it. */
  datatype Cmd = Cmd(
    row: Row,
    executing: map<Worker, Stage>,
    sweeping: set<Worker>,
    tickets: map<nat, Ticket>,
    tally: Tally)

  datatype RowEvent =
    | Plan(aos: Time)
    | Fetch(worker: Worker)
    | Replan(worker: Worker)
    | PolicyDrop(worker: Worker)
    | Claim(worker: Worker)
    | Publish(worker: Worker, raised: bool, stored: bool)
    | MarkSent(worker: Worker)
    | Bounce(worker: Worker)
    | Sweep(worker: Worker)
    | TimeOut(worker: Worker, windowOpen: bool)
    | Crash(worker: Worker)
    | MarkAcked
    | MarkRejected
    | Approve(user: string)
    | PatchRead(request: nat, target: Status)
    | PatchWrite(request: nat)
    | Cancel

  /** What becomes of a publication: the bus took it, or the client raised, and
      then the bus may have stored the message all the same. */
  datatype Publication = Accepted | Raised(stored: bool)

  function PublishAs(w: Worker, p: Publication): RowEvent {
    Publish(w, p.Raised?, p.Accepted? || p.stored)
  }

  /** Targets the PATCH endpoint accepts. */
  const PATCHABLE: set<Status> := {Scheduled, Transmitting, Sent, Acked, Timeout, Retry}

  /** Every status change goes through here, so that the tally counts it. */
  function Move(c: Cmd, to: Status): Cmd {
    c.(row := c.row.(status := to),
       tally := c.tally.(changes := c.tally.changes + 1,
                         entries := c.tally.entries + if to == Transmitting then 1 else 0))
  }

  /** INSERT INTO commands. */
  function Inserted(order: Order, scheduledAt: Option<Time>): Cmd {
    Cmd(Row(order, if order.NeedsTwoAdmins() then AwaitingApproval else Pending,
            0, scheduledAt, None, None, None),
        map[], {}, map[],
        Tally(0, 0, 0, 0, 0, 0, 0, Unanswered, None))
  }

  function Release(c: Cmd, w: Worker): Cmd {
    c.(executing := c.executing - {w})
  }

  /** The PATCH endpoint's validation of the row it read. */
  predicate PatchAllowed(row: Row, target: Status) {
    && target in PATCHABLE
    && target in Transitions(row.status)
    && (target == Retry ==> row.CanRetry())
  }

  /** May this event happen to this command now? */
  predicate RowEnabled(c: Cmd, e: RowEvent, now: Time) {
    match e
    // the planner read the operator's time, if there is one
    case Plan(aos) => c.row.order.manual && c.row.status == Pending ==> c.row.scheduledAt == Some(aos)
    case Fetch(w) =>
      w !in c.executing && c.row.status == Scheduled && c.row.scheduledAt.Some? && c.row.scheduledAt.value <= now
    case Replan(w) => w in c.executing && c.executing[w] == Fetched && !c.row.order.manual
    case PolicyDrop(w) => w in c.executing && c.executing[w] == Fetched
    case Claim(w) => w in c.executing && c.executing[w] == Fetched
    case Publish(w, raised, stored) => w in c.executing && c.executing[w] == Claimed && (raised || stored)
    case MarkSent(w) => w in c.executing && c.executing[w] == Published
    case Bounce(w) => w in c.executing && c.executing[w] == Stage.Refused
    case Sweep(w) => c.row.status == Sent && c.row.sentAt.Some? && c.row.sentAt.value < now - ACK_TIMEOUT
    case TimeOut(w, _) => w in c.sweeping
    case Crash(w) => w in c.executing || w in c.sweeping
    case MarkAcked => true
    case MarkRejected => true
    case Approve(_) => true
    case PatchRead(k, target) => k !in c.tickets && PatchAllowed(c.row, target)
    case PatchWrite(k) => k in c.tickets
    case Cancel => true
  }

  /** _mark_timed_out: one transaction. */
  function TimedOut(c: Cmd, now: Time, windowOpen: bool): Cmd {
    if c.row.status != Sent then c else
    var c1 := Move(c, Timeout);
    var windowLost := !c.row.order.manual && !windowOpen;
    if c.row.order.Retryable() && windowLost then
      var c3 := Move(Move(c1, Retry), Pending);
      c3.(row := c3.row.(scheduledAt := None), tally := c3.tally.(losReplans := c3.tally.losReplans + 1))
    else if c.row.CanRetry() then
      var delay := Backoff(c.row.retryCount);
      var c3 := Move(Move(c1, Retry), Scheduled);
      c3.(row := c3.row.(retryCount := c3.row.retryCount + 1, scheduledAt := Some(now + delay)),
          tally := c3.tally.(notBefore := if c3.tally.notBefore.Some? then Some(c3.tally.notBefore.value + delay) else None))
    else
      Move(c1, Dead)
  }

  /** The UPDATE of a PATCH request, guarded by the status it validated. */
  function Patched(c: Cmd, t: Ticket, now: Time): Cmd {
    if c.row.status != t.from then c else
    var d := Move(c, t.target);
    match t.target
    case Sent => d.(row := d.row.(sentAt := Some(now)))
    case Acked => d.(row := d.row.(ackedAt := Some(now)))
    case Retry =>
      d.(row := d.row.(retryCount := d.row.retryCount + 1),
         tally := d.tally.(stale := d.tally.stale + if c.row.retryCount != t.seenRetries then 1 else 0))
    case _ => d
  }

  function Answered(c: Cmd, to: Status, answer: Answer, now: Time): Cmd {
    if !c.row.Answerable() then c else
    var d := Move(c, to);
    var sentAt := if d.row.sentAt.Some? then d.row.sentAt else Some(now);
    d.(row := d.row.(sentAt := sentAt, ackedAt := if to == Acked then Some(now) else d.row.ackedAt),
       tally := d.tally.(answer := answer))
  }

  /** What the event does to the command. */
  function RowNext(c: Cmd, e: RowEvent, now: Time): Cmd
    requires RowEnabled(c, e, now)
  {
    match e
    case Plan(aos) =>
      if c.row.status != Pending then c else
      var d := Move(c, Scheduled); d.(row := d.row.(scheduledAt := Some(aos)))
    case Fetch(w) => c.(executing := c.executing[w := Fetched])
    case Replan(w) =>
      var r := Release(c, w);
      if c.row.status != Scheduled then r else
      var d := Move(r, Pending);
      d.(row := d.row.(scheduledAt := None), tally := d.tally.(missed := d.tally.missed + 1))
    case PolicyDrop(w) =>
      if c.row.status != Scheduled then Release(c, w) else Move(Release(c, w), Dead)
    case Claim(w) =>
      if c.row.status != Scheduled then Release(c, w) else
      Move(c.(executing := c.executing[w := Claimed]), Transmitting)
    case Publish(w, raised, _) =>
      if raised then c.(executing := c.executing[w := Stage.Refused]) else
      c.(executing := c.executing[w := Published],
         tally := c.tally.(published := c.tally.published + 1, notBefore := Some(now + ACK_TIMEOUT)))
    case MarkSent(w) =>
      if c.row.status != Transmitting then Release(c, w) else
      var d := Move(Release(c, w), Sent); d.(row := d.row.(sentAt := Some(now)))
    case Bounce(w) =>
      if c.row.status != Transmitting then Release(c, w) else
      var d := Move(Release(c, w), Scheduled); d.(tally := d.tally.(bounces := d.tally.bounces + 1))
    case Sweep(w) => c.(sweeping := c.sweeping + {w})
    case TimeOut(w, windowOpen) => TimedOut(c.(sweeping := c.sweeping - {w}), now, windowOpen)
    case Crash(w) => Release(c, w).(sweeping := c.sweeping - {w})
    case MarkAcked => Answered(c, Acked, AckedBySatellite, now)
    case MarkRejected => Answered(c, Dead, RejectedBySatellite, now)
    case Approve(user) =>
      if c.row.status != AwaitingApproval || c.row.order.createdBy == user then c else
      var d := Move(c, Pending); d.(row := d.row.(approvedBy := Some(user)))
    case PatchRead(k, target) =>
      c.(tickets := c.tickets[k := Ticket(target, c.row.status, c.row.retryCount)])
    case PatchWrite(k) => Patched(c.(tickets := c.tickets - {k}), c.tickets[k], now)
    case Cancel =>
      if c.row.status in {AwaitingApproval, Pending, Scheduled} then Move(c, Dead) else c
  }

  // ---------------------------------------------------------------------
  // The whole system
  // ---------------------------------------------------------------------

  /** A POST /commands request; `scheduledAt` set means an operator override. */
  datatype Request = Request(
    satelliteId: string,
    commandType: string,
    params: map<string, string>,
    safeRetry: bool,
    key: Option<string>,
    scheduledAt: Option<Time>,
    user: string)
  {
    function ToOrder(): Order {
      Order(satelliteId, commandType, params, safeRetry, key, user, scheduledAt.Some?)
    }
  }

  /** A create request after its first lookup: about to insert, about to look
      again after a unique violation, or answered. */
  datatype Submission =
    | Inserting(body: Request)
    | Collided(body: Request)
    | Created(body: Request, id: Id)
    | Failed(body: Request)

  /** A payload on the subject commands.{subject}, which one satellite listens to. */
  datatype Message = Message(subject: string, payload: Payload)

  /** The bus keeps every message it ever accepted: delivering one any number
      of times, in any order, or never, is loss, duplication and reordering. */
  datatype World = World(
    now: Time,
    cmds: map<Id, Cmd>,
    submissions: map<nat, Submission>,
    uplink: set<Message>,
    downlink: set<Ack>,
    sats: map<string, Sat>)

  datatype Event =
    | Tick(to: Time)
    | Lookup(request: nat, body: Request, found: Option<Id>)
    | Deny(request: nat)
    | Insert(request: nat, id: Id)
    | Relookup(request: nat, found: Option<Id>)
    | OnRow(id: Id, event: RowEvent)
    | Deliver(message: Message, answered: bool)

  const START: World := World(0, map[], map[], {}, {}, map[])

  function SatOf(w: World, name: string): Sat {
    if name in w.sats then w.sats[name] else FRESH
  }

  function PayloadOf(id: Id, order: Order): Payload {
    Payload(id, order.satelliteId, order.commandType, order.params)
  }

  /** _cmd_subject and the payload, as the executor publishes them. */
  function MessageOf(id: Id, order: Order): Message {
    Message(order.satelliteId, PayloadOf(id, order))
  }

  /** Is a request with this body a repeat of the one that made the row? */
  predicate SameSubmission(order: Order, body: Request) {
    && order.createdBy == body.user
    && order.satelliteId == body.satelliteId
    && order.commandType == body.commandType
    && order.params == body.params
  }

  /** SELECT ... WHERE idempotency_key = $1. */
  predicate Selects(w: World, key: Option<string>, found: Option<Id>) {
    match found
    case Some(id) => key.Some? && id in w.cmds && w.cmds[id].row.order.key == key
    case None => !KeyTaken(w, key)
  }

  predicate KeyTaken(w: World, key: Option<string>) {
    key.Some? && exists id :: id in w.cmds && w.cmds[id].row.order.key == key
  }

  /** The first lookup is skipped when the key is absent or empty. */
  predicate LooksUp(body: Request) {
    body.key.Some? && body.key.value != ""
  }

  /** _replay_of once the row is found: the original command, or a conflict. */
  function Replay(w: World, body: Request, id: Id): Submission
    requires id in w.cmds
  {
    if SameSubmission(w.cmds[id].row.order, body) then Created(body, id) else Failed(body)
  }

  predicate Enabled(w: World, e: Event) {
    match e
    case Tick(to) => w.now <= to
    case Lookup(r, body, found) =>
      r !in w.submissions && if LooksUp(body) then Selects(w, body.key, found) else found.None?
    case Deny(r) => r in w.submissions && w.submissions[r].Inserting?
    case Insert(r, id) => r in w.submissions && w.submissions[r].Inserting? && id !in w.cmds && id != ""
    case Relookup(r, found) =>
      r in w.submissions && w.submissions[r].Collided? && Selects(w, w.submissions[r].body.key, found)
    case OnRow(id, event) =>
      && id in w.cmds
      && RowEnabled(w.cmds[id], event, w.now)
      && (event.MarkAcked? ==> Ack(id, true) in w.downlink)
      && (event.MarkRejected? ==> Ack(id, false) in w.downlink)
    case Deliver(m, _) => m in w.uplink
  }

  function Next(w: World, e: Event): World
    requires Enabled(w, e)
  {
    match e
    case Tick(to) => w.(now := to)
    case Lookup(r, body, found) =>
      w.(submissions := w.submissions[r := if found.Some? then Replay(w, body, found.value) else Inserting(body)])
    case Deny(r) => w.(submissions := w.submissions[r := Failed(w.submissions[r].body)])
    case Insert(r, id) =>
      var body := w.submissions[r].body;
      if KeyTaken(w, body.key) then w.(submissions := w.submissions[r := Collided(body)]) else
      w.(submissions := w.submissions[r := Created(body, id)],
         cmds := w.cmds[id := Inserted(body.ToOrder(), body.scheduledAt)])
    case Relookup(r, found) =>
      var body := w.submissions[r].body;
      w.(submissions := w.submissions[r := if found.Some? then Replay(w, body, found.value) else Failed(body)])
    case OnRow(id, event) =>
      w.(cmds := w.cmds[id := RowNext(w.cmds[id], event, w.now)],
         uplink := if event.Publish? && event.stored then w.uplink + {MessageOf(id, w.cmds[id].row.order)} else w.uplink)
    case Deliver(m, answered) =>
      var (sat, ack) := Receive(m.subject, SatOf(w, m.subject), m.payload);
      w.(sats := w.sats[m.subject := sat],
         downlink := if answered then w.downlink + {ack} else w.downlink)
  }

  /** A run of the system: every event was possible when it happened. */
  ghost predicate IsRun(es: seq<Event>)
    decreases |es|, 0
  {
    es == [] || (IsRun(es[..|es| - 1]) && Enabled(After(es[..|es| - 1]), es[|es| - 1]))
  }

  /** The state a run leads to. */
  ghost function After(es: seq<Event>): World
    requires IsRun(es)
    decreases |es|, 1
  {
    if es == [] then START else Next(After(es[..|es| - 1]), es[|es| - 1])
  }

  /** What has happened so far was a run at every point. */
  lemma {:induction false} PrefixIsRun(es: seq<Event>, i: nat)
    requires IsRun(es) && i <= |es|
    ensures IsRun(es[..i])
    decreases |es| - i
  {
    if i < |es| {
      PrefixIsRun(es, i + 1);
      assert es[..i + 1][..i] == es[..i];
    } else {
      assert es[..i] == es;
    }
  }

  /** Event k took the run from one state to the next. */
  lemma PrefixStep(es: seq<Event>, k: nat)
    requires IsRun(es) && k < |es|
    ensures IsRun(es[..k]) && IsRun(es[..k + 1])
    ensures Enabled(After(es[..k]), es[k]) && After(es[..k + 1]) == Next(After(es[..k]), es[k])
  {
    hide Next, Enabled;
    PrefixIsRun(es, k + 1);
    assert es[..k + 1][..k] == es[..k];
  }
}
