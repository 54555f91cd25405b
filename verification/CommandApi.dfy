/** The REST operators (backend/src/api/routes/commands.py), statement by
    statement, with an await between statements. */
module CommandApi {
  import opened Basics
  import opened CommandModel
  import opened CommandProtocol
  import opened CommandDelivery
  import opened CommandEvidence
  import opened CommandRows
  import opened CommandSubmission
  import opened GroundSegment

  datatype Reply = Done | NotFound | Conflict | Forbidden | Unprocessable

  /** SELECT id FROM commands WHERE idempotency_key = $1. */
  method FindByKey(w: World, key: Option<string>) returns (found: Option<Id>)
    ensures Selects(w, key, found)
  {
    found := None;
    if key.Some? && exists id :: id in w.cmds && w.cmds[id].row.order.key == key {
      var id :| id in w.cmds && w.cmds[id].row.order.key == key;
      found := Some(id);
    }
  }

  /** Somebody else's command, or another one. */
  predicate Differs(order: Order, body: Request) {
    || order.createdBy != body.user || order.satelliteId != body.satelliteId
    || order.commandType != body.commandType || order.params != body.params
  }

  /** A row with this key exists, and it is of a different submission. */
  ghost predicate KeyConflicts(w: World, body: Request) {
    exists id :: id in w.cmds && w.cmds[id].row.order.key == body.key && Differs(w.cmds[id].row.order, body)
  }

  /** The request has a key, and a row with it exists that is of the same submission. */
  ghost predicate Repeats(w: World, body: Request) {
    body.key.Some? && body.key.value != ""
    && exists id :: id in w.cmds && w.cmds[id].row.order.key == body.key && !Differs(w.cmds[id].row.order, body)
  }

  /** The answer after a unique violation: the key is there now, so the request
      ends with the winner's command, or in conflict with it. */
  method ReplayWinner(db: Segment, request: nat) returns (s: Submission)
    requires db.Valid() && request in db.world.submissions && db.world.submissions[request].Collided?
    modifies db
    ensures db.Valid() && old(db.history) <= db.history
    ensures request in db.world.submissions && db.world.submissions[request] == s
    ensures s.body == old(db.world.submissions[request].body) && (s.Created? || s.Failed?)
    ensures s.Failed? ==> KeyConflicts(db.world, s.body)
  {
    db.Await(Submitter(request));
    var body := db.world.submissions[request].body;
    var found := FindByKey(db.world, body.key);
    LoserFindsWinner(db.history, request, found);
    db.Do(Relookup(request, found));
    s := db.world.submissions[request];
  }

  /** The INSERT, unless a check before it fails. */
  method InsertOnce(db: Segment, request: nat, uuid: Id, denied: bool) returns (s: Submission)
    requires db.Valid() && request in db.world.submissions && db.world.submissions[request].Inserting? && uuid != ""
    modifies db
    ensures db.Valid() && old(db.history) <= db.history
    ensures request in db.world.submissions && db.world.submissions[request] == s
    ensures s.body == old(db.world.submissions[request].body) && !s.Inserting?
    ensures s.Created? ==> !denied && s.id == uuid && uuid in db.world.cmds && NewRow(db.world.cmds[uuid].row, s.body)
    ensures s.Failed? ==> denied || uuid in db.world.cmds
    ensures s.Collided? ==> !denied && KeyTaken(db.world, s.body.key)
  {
    db.Await(Submitter(request));
    if denied || uuid in db.world.cmds {
      db.Do(Deny(request));
    } else {
      db.Do(Insert(request, uuid));
    }
    s := db.world.submissions[request];
  }

  /** The lookup that a request with a key begins with: a repeat gets its original
      back, before any other check. */
  method FirstLookup(db: Segment, request: nat, body: Request) returns (s: Submission)
    requires db.Valid() && request !in db.world.submissions
    modifies db
    ensures db.Valid() && old(db.history) <= db.history
    ensures request in db.world.submissions && db.world.submissions[request] == s
    ensures s.body == body && !s.Collided?
    ensures s.Failed? ==> KeyConflicts(db.world, body)
    ensures Repeats(old(db.world), body) ==> s.Created?
  {
    hide IsRun, After;
    var found := None;
    ghost var before := db.history;
    if LooksUp(body) {
      db.Await(Submitter(request));
      found := FindByKey(db.world, body.key);
    }
    if Repeats(After(before), body) { RepeatIsFound(before, db.history, body, found); }
    db.Do(Lookup(request, body, found));
    s := db.world.submissions[request];
  }

  /** create_command: the request ends with the command it names, or with an
      error for a reason.  `denied` stands for the satellite lookup and the mode
      policy; an existing id is the one thing no check excludes. */
  method CreateCommand(db: Segment, request: nat, body: Request, uuid: Id, denied: bool) returns (s: Submission)
    requires db.Valid() && request !in db.world.submissions && uuid != ""
    modifies db
    ensures db.Valid() && old(db.history) <= db.history
    ensures request in db.world.submissions && db.world.submissions[request] == s
    ensures s.body == body && (s.Created? || s.Failed?)
    ensures s.Created? ==> s.id in db.world.cmds && !Differs(db.world.cmds[s.id].row.order, body)
                           && db.world.cmds[s.id].row.order.key == body.key
    ensures Repeats(old(db.world), body) ==> s.Created?
    ensures s.Failed? ==> denied || uuid in db.world.cmds || KeyConflicts(db.world, body)
  {
    s := FirstLookup(db, request, body);
    if s.Inserting? {
      s := InsertOnce(db, request, uuid, denied);
    }
    if s.Collided? {
      s := ReplayWinner(db, request);
    }
    RunIsSettled(db.history);
    assert Settled(db.world, s);
  }

  /** A repeat finds its original: rows stay, and a key names one row. */
  lemma RepeatIsFound(h: seq<Event>, k: seq<Event>, body: Request, found: Option<Id>)
    requires IsRun(h) && IsRun(k) && h <= k && Repeats(After(h), body) && Selects(After(k), body.key, found)
    ensures found.Some? && found.value in After(k).cmds && !Differs(After(k).cmds[found.value].row.order, body)
  {
    var w, v := After(h), After(k);
    var id :| id in w.cmds && w.cmds[id].row.order.key == body.key && !Differs(w.cmds[id].row.order, body);
    OrdersStay(h, k);
    assert id in v.cmds && v.cmds[id].row.order == w.cmds[id].row.order;
    if found.Some? { OneRowPerKey(k, id, found.value); }
  }

  /** approve_command: only a different user releases the command, and every
      refusal has its reason in a state the request saw. */
  method ApproveCommand(db: Segment, id: Id, user: string, task: Task) returns (reply: Reply, ghost n: nat, ghost seen: World)
    requires db.Valid()
    modifies db
    ensures db.Valid() && old(db.history) <= db.history
    ensures Witnessed(old(db.history), db.history, n, seen)
    ensures match reply
            case Done =>
              && LastStep(old(db.history), db.history, seen, OnRow(id, Approve(user)))
              && id in seen.cmds && seen.cmds[id].row.status == AwaitingApproval
              && id in db.world.cmds
              && var row := db.world.cmds[id].row;
                 row == seen.cmds[id].row.(status := Pending, approvedBy := Some(user)) && user != row.order.createdBy
                 && DenialSeen(db.deniedAt, old(db.history), db.history, row.order, false)
            case NotFound => id !in seen.cmds
            case Conflict => id in seen.cmds && seen.cmds[id].row.status != AwaitingApproval
            case Forbidden => id in seen.cmds && seen.cmds[id].row.order.createdBy == user
            case Unprocessable =>
              id in seen.cmds && (seen.cmds[id].row.order.satelliteId, seen.cmds[id].row.order.commandType) in db.deniedAt(n)
  {
    hide IsRun, After;
    ghost var start := db.history;
    db.Await(task);
    NowWitnessed(start, db.history);
    n, seen := db.moment, db.world;
    if id !in db.world.cmds {
      return NotFound, n, seen;
    }
    var row := db.world.cmds[id].row;
    if row.status != AwaitingApproval {
      return Conflict, n, seen;
    }
    if row.order.createdBy == user {
      return Forbidden, n, seen;
    }
    db.Await(task);
    NowWitnessed(start, db.history);
    n, seen := db.moment, db.world;
    if (row.order.satelliteId, row.order.commandType) in db.Denied() {
      return Unprocessable, n, seen;
    }
    ghost var checked := db.history;
    assert DenialSeen(db.deniedAt, start, checked, row.order, false);
    db.Await(task);
    NowWitnessed(start, db.history);
    n, seen := db.moment, db.world;
    ghost var before := db.history;
    var updated := db.world.cmds[id].row.status == AwaitingApproval;
    StepIsLast(start, db.history, OnRow(id, Approve(user)));
    db.Do(OnRow(id, Approve(user)));
    WitnessedWidens(start, start, before, db.history, n, seen);
    hide Witnessed;
    DenialSeenWidens(db.deniedAt, start, start, checked, db.history, row.order, false);
    reply := if updated then Done else Conflict;
  }

  /** The guarded UPDATE of a PATCH request that validated what it read. */
  method WriteTransition(db: Segment, request: nat, id: Id) returns (updated: bool, ghost wrote: World)
    requires db.Valid() && id in db.world.cmds && request in db.world.cmds[id].tickets
    modifies db
    ensures db.Valid() && old(db.history) <= db.history
    ensures id in wrote.cmds && request in wrote.cmds[id].tickets
    ensures LastStep(old(db.history), db.history, wrote, OnRow(id, PatchWrite(request)))
    ensures db.world == Next(wrote, OnRow(id, PatchWrite(request)))
    ensures updated <==> wrote.cmds[id].row.status == old(db.world.cmds[id].tickets[request].from)
    ensures id in db.world.cmds
    ensures PatchedRow(wrote.cmds[id].row, old(db.world.cmds[id].tickets[request]), wrote.now, db.world.cmds[id].row)
  {
    hide IsRun, After, Next, RowNext, PatchedRow;
    ghost var c, start := db.world.cmds[id], db.history;
    db.Await(Patcher(request));
    wrote := db.world;
    assert SameHold(c, wrote.cmds[id], Patcher(request));
    updated := db.world.cmds[id].row.status == db.world.cmds[id].tickets[request].from;
    hide SameProgress;
    StepWrites(db.world, id, PatchWrite(request));
    StepIsLast(start, db.history, OnRow(id, PatchWrite(request)));
    db.Do(OnRow(id, PatchWrite(request)));
  }

  /** The SELECT of a PATCH request, and what it says about the target. */
  method ValidateTransition(db: Segment, request: nat, id: Id, target: Status)
      returns (refusal: Option<Reply>, ghost n: nat, ghost read: World)
    requires db.Valid() && target in PATCHABLE
    requires forall x :: x in db.world.cmds ==> request !in db.world.cmds[x].tickets
    modifies db
    ensures db.Valid() && old(db.history) <= db.history
    ensures Witnessed(old(db.history), db.history, n, read)
    ensures match refusal
            case None =>
              && id in read.cmds && PatchAllowed(read.cmds[id].row, target)
              && n < |db.history| && db.history[n] == OnRow(id, PatchRead(request, target))
              && id in db.world.cmds && request in db.world.cmds[id].tickets
              && db.world.cmds[id].tickets[request] == Ticket(target, read.cmds[id].row.status, read.cmds[id].row.retryCount)
            case Some(reply) =>
              && (id in db.world.cmds ==> request !in db.world.cmds[id].tickets)
              && if reply == NotFound then id !in read.cmds
                 else reply == Unprocessable && id in read.cmds && !PatchAllowed(read.cmds[id].row, target)
  {
    hide IsRun, After, Next, RowNext, PatchAllowed;
    ghost var start := db.history;
    ghost var before := db.world;
    db.Await(Patcher(request));
    assert id in before.cmds ==> SameHold(before.cmds[id], db.world.cmds[id], Patcher(request));
    hide SameProgress;
    NowWitnessed(start, db.history);
    n, read := db.moment, db.world;
    if id !in db.world.cmds {
      return Some(NotFound), n, read;
    }
    if !PatchAllowed(db.world.cmds[id].row, target) {
      return Some(Unprocessable), n, read;
    }
    ghost var h := db.history;
    ReadLeavesTicket(db.world, id, request, target);
    db.Do(OnRow(id, PatchRead(request, target)));
    WitnessedWidens(start, start, h, db.history, n, read);
    refusal := None;
  }

  /** transition_command: validate the row as read, then update it if its
      status still is what was validated. */
  method TransitionCommand(db: Segment, request: nat, id: Id, target: Status)
      returns (reply: Reply, ghost n: nat, ghost read: World, ghost wrote: World)
    requires db.Valid()
    requires forall x :: x in db.world.cmds ==> request !in db.world.cmds[x].tickets
    modifies db
    ensures db.Valid() && old(db.history) <= db.history
    ensures Witnessed(old(db.history), db.history, n, read)
    ensures reply in {Done, Conflict} ==>
              && id in read.cmds && PatchAllowed(read.cmds[id].row, target)
              && n < |db.history| && db.history[n] == OnRow(id, PatchRead(request, target))
              && LastStep(old(db.history), db.history, wrote, OnRow(id, PatchWrite(request))) && id in wrote.cmds
              && (reply == Done <==> wrote.cmds[id].row.status == read.cmds[id].row.status)
    ensures reply == Done ==>
              && id in db.world.cmds
              && var r := wrote.cmds[id].row;
                 db.world.cmds[id].row ==
                   r.(status := target,
                      sentAt := if target == Sent then Some(wrote.now) else r.sentAt,
                      ackedAt := if target == Acked then Some(wrote.now) else r.ackedAt,
                      retryCount := if target == Retry then r.retryCount + 1 else r.retryCount)
    ensures reply == Conflict ==> id in db.world.cmds && db.world.cmds[id].row == wrote.cmds[id].row
    ensures reply == NotFound ==> id !in read.cmds
    ensures reply == Unprocessable ==> target !in PATCHABLE || (id in read.cmds && !PatchAllowed(read.cmds[id].row, target))
    ensures reply != Forbidden
    ensures id in db.world.cmds ==> request !in db.world.cmds[id].tickets
  {
    hide IsRun, After, Next, RowNext, PatchAllowed;
    ghost var start := db.history;
    NowWitnessed(start, start);
    n, read, wrote := db.moment, db.world, db.world;
    if target !in PATCHABLE {
      return Unprocessable, n, read, wrote;
    }
    var refusal: Option<Reply>;
    refusal, n, read := ValidateTransition(db, request, id, target);
    if refusal.Some? {
      return refusal.value, n, read, wrote;
    }
    hide Witnessed, LastStep;
    ghost var h := db.history;
    var updated: bool;
    updated, wrote := WriteTransition(db, request, id);
    LastStepWidens(start, h, db.history, wrote, OnRow(id, PatchWrite(request)));
    WitnessedWidens(start, start, h, db.history, n, read);
    WriteTakesTicket(wrote, id, request);
    reply := if updated then Done else Conflict;
  }

  lemma ReadLeavesTicket(w: World, id: Id, request: nat, target: Status)
    requires id in w.cmds && RowEnabled(w.cmds[id], PatchRead(request, target), w.now)
    ensures var v := Next(w, OnRow(id, PatchRead(request, target)));
            && id in v.cmds && request in v.cmds[id].tickets
            && v.cmds[id].tickets[request] == Ticket(target, w.cmds[id].row.status, w.cmds[id].row.retryCount)
  {
  }

  lemma WriteTakesTicket(w: World, id: Id, request: nat)
    requires id in w.cmds && request in w.cmds[id].tickets
    ensures var v := Next(w, OnRow(id, PatchWrite(request))); id in v.cmds && request !in v.cmds[id].tickets
  {
  }

  /** What a PATCH may do: nine steps of the table, a retry only where one is left. */
  lemma PatchesExactly(row: Row, target: Status)
    ensures PatchAllowed(row, target) <==>
            || (row.status == Pending && target == Scheduled)
            || (row.status == Scheduled && target == Transmitting)
            || (row.status == Transmitting && target in {Sent, Timeout})
            || (row.status == Sent && target in {Acked, Timeout})
            || (row.status == Timeout && target == Retry && MayRetry(row.order) && row.retryCount < 3)
            || (row.status == Retry && target in {Transmitting, Scheduled})
  {
  }

  lemma CancelWrites(w: World, id: Id)
    requires id in w.cmds
    ensures var v := Next(w, OnRow(id, Cancel)); id in v.cmds && Wrote(w.cmds[id], Cancel, w.now, v.cmds[id].row)
  {
    StepWrites(w, id, Cancel);
    hide RowNext;
  }

  /** cancel_command: only what has not been claimed yet, and then nothing but its status. */
  method CancelCommand(db: Segment, id: Id, task: Task) returns (reply: Reply, ghost before: World)
    requires db.Valid()
    modifies db
    ensures db.Valid() && old(db.history) <= db.history
    ensures reply in {Done, NotFound}
    ensures id in before.cmds <==> id in db.world.cmds
    ensures id in before.cmds ==> LastStep(old(db.history), db.history, before, OnRow(id, Cancel))
    ensures reply == Done <==> id in before.cmds && before.cmds[id].row.status in {AwaitingApproval, Pending, Scheduled}
    ensures id in before.cmds ==>
              db.world.cmds[id].row == if reply == Done then before.cmds[id].row.(status := Dead) else before.cmds[id].row
  {
    ghost var start := db.history;
    db.Await(task);
    before := db.world;
    if id !in db.world.cmds {
      return NotFound, before;
    }
    var cancellable := db.world.cmds[id].row.status in {AwaitingApproval, Pending, Scheduled};
    CancelWrites(db.world, id);
    StepIsLast(start, db.history, OnRow(id, Cancel));
    db.Do(OnRow(id, Cancel));
    reply := if cancellable then Done else NotFound;
  }
}
