/** Idempotent submission: any number of concurrent POST /commands requests,
    each split at its lookup, its insert and its second lookup. */
module CommandSubmission {
  import opened Basics
  import opened CommandModel
  import opened CommandProtocol
  import opened CommandDelivery

  predicate SameKey(c: Cmd, d: Cmd) {
    c.row.order.key.Some? && c.row.order.key == d.row.order.key
  }

  ghost predicate KeysUnique(w: World) {
    forall i, j :: i in w.cmds && j in w.cmds && SameKey(w.cmds[i], w.cmds[j]) ==> i == j
  }

  /** What a request in this state has established. */
  ghost predicate Settled(w: World, s: Submission) {
    match s
    case Created(body, id) =>
      id in w.cmds && SameSubmission(w.cmds[id].row.order, body)
      && w.cmds[id].row.order.key == body.key
    case Collided(body) => KeyTaken(w, body.key)
    case _ => true
  }

  ghost predicate AllSettled(w: World) {
    forall r :: r in w.submissions ==> Settled(w, w.submissions[r])
  }

  lemma {:induction false} StepKeepsKeys(w: World, e: Event)
    requires Enabled(w, e) && KeysUnique(w)
    ensures KeysUnique(Next(w, e))
  {
    StepKeepsOrders(w, e);
  }

  lemma StepKeepsSettled(w: World, e: Event)
    requires Enabled(w, e) && AllSettled(w)
    ensures AllSettled(Next(w, e))
  {
    var v := Next(w, e);
    StepKeepsOrders(w, e);
    forall r | r in v.submissions ensures Settled(v, v.submissions[r]) {
      if r in w.submissions && v.submissions[r] == w.submissions[r] {
        assert Settled(w, w.submissions[r]);
        var s := w.submissions[r];
        if s.Collided? {
          var id :| id in w.cmds && w.cmds[id].row.order.key == s.body.key;
          assert v.cmds[id].row.order.key == s.body.key;
        }
      }
    }
  }

  lemma {:induction false} RunIsSettled(es: seq<Event>)
    requires IsRun(es)
    ensures KeysUnique(After(es)) && AllSettled(After(es))
    decreases |es|
  {
    if es != [] {
      RunIsSettled(es[..|es| - 1]);
      StepKeepsKeys(After(es[..|es| - 1]), es[|es| - 1]);
      StepKeepsSettled(After(es[..|es| - 1]), es[|es| - 1]);
    }
  }

  // ---------------------------------------------------------------------
  // What a submission puts into the table
  // ---------------------------------------------------------------------

  /** The columns that no later statement updates, as the request gave them. */
  predicate AsRequested(order: Order, body: Request) {
    && order.satelliteId == body.satelliteId && order.commandType == body.commandType && order.params == body.params
    && order.safeRetry == body.safeRetry && order.key == body.key && order.createdBy == body.user
    && (order.manual <==> body.scheduledAt.Some?)
  }

  /** A new row: held for approval if the type needs two admins. */
  predicate NewRow(row: Row, body: Request) {
    && AsRequested(row.order, body) && row.scheduledAt == body.scheduledAt && row.retryCount == 0
    && row.sentAt == None && row.ackedAt == None && row.approvedBy == None
    && row.status == if body.commandType in {"separation", "factory_reset"} then AwaitingApproval else Pending
  }

  /** Event i inserted the command for this request. */
  ghost predicate InsertedBy(es: seq<Event>, i: nat, id: Id, body: Request) {
    && i < |es| && es[i].Insert? && es[i].id == id && IsRun(es[..i]) && IsRun(es[..i + 1])
    && es[i].request in After(es[..i]).submissions && After(es[..i]).submissions[es[i].request].Inserting?
    && After(es[..i]).submissions[es[i].request].body == body
    && id !in After(es[..i]).cmds && id in After(es[..i + 1]).cmds && NewRow(After(es[..i + 1]).cmds[id].row, body)
  }

  lemma InsertMakesNewRow(w: World, e: Event, id: Id)
    requires Enabled(w, e) && id !in w.cmds && id in Next(w, e).cmds
    ensures e.Insert? && e.id == id && e.request in w.submissions && w.submissions[e.request].Inserting?
    ensures NewRow(Next(w, e).cmds[id].row, w.submissions[e.request].body)
  {
  }

  /** Every row of every run was inserted for a request, as it asked, and still says so. */
  lemma {:induction false} RowsComeFromRequests(es: seq<Event>, id: Id) returns (i: nat, body: Request)
    requires IsRun(es) && id in After(es).cmds
    ensures InsertedBy(es, i, id, body) && AsRequested(After(es).cmds[id].row.order, body)
    decreases |es|
  {
    var n := |es| - 1;
    var w, e := After(es[..n]), es[n];
    if id in w.cmds {
      hide Next, Enabled, AsRequested, NewRow;
      i, body := RowsComeFromRequests(es[..n], id);
      assert es[..n][..i] == es[..i] && es[..n][..i + 1] == es[..i + 1];
      StepKeepsOrders(w, e);
    } else {
      InsertMakesNewRow(w, e, id);
      i, body := n, w.submissions[e.request].body;
      assert es[..n + 1] == es;
    }
  }

  /** One idempotency key names one command, and every request answered with
      it asked for that same command. */
  lemma OneCommandPerKey(es: seq<Event>, q: nat, r: nat)
    requires IsRun(es)
    requires var s := After(es).submissions;
             q in s && r in s && s[q].Created? && s[r].Created?
             && s[q].body.key.Some? && s[q].body.key == s[r].body.key
    ensures var a, b := After(es).submissions[q], After(es).submissions[r];
            && a.id == b.id
            && a.body.user == b.body.user
            && a.body.satelliteId == b.body.satelliteId
            && a.body.commandType == b.body.commandType
            && a.body.params == b.body.params
  {
    RunIsSettled(es);
    var w := After(es);
    assert Settled(w, w.submissions[q]) && Settled(w, w.submissions[r]);
  }

  /** At most one row per key. */
  lemma {:induction false} OneRowPerKey(es: seq<Event>, i: Id, j: Id)
    requires IsRun(es) && i in After(es).cmds && j in After(es).cmds
    requires After(es).cmds[i].row.order.key.Some?
    requires After(es).cmds[i].row.order.key == After(es).cmds[j].row.order.key
    ensures i == j
  {
    RunIsSettled(es);
  }

  /** A request that lost the insert finds the winner when it looks again. */
  lemma LoserFindsWinner(es: seq<Event>, r: nat, found: Option<Id>)
    requires IsRun(es) && Enabled(After(es), Relookup(r, found))
    ensures found.Some?
  {
    RunIsSettled(es);
    assert Settled(After(es), After(es).submissions[r]);
  }
}
