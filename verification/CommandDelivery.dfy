/** End to end: what an ACK or a NACK recorded on the ground says about the
    satellite, over a bus that loses, duplicates and reorders in both directions. */
module CommandDelivery {
  import opened Basics
  import opened CommandModel
  import opened Satellite
  import opened CommandProtocol
  import opened CommandBudget

  /** Would the addressed satellite accept this command? */
  predicate Acceptable(order: Order) {
    Supported(order.commandType, order.params)
  }

  /** What carrying out the command means. */
  predicate CarriedOut(order: Order, before: Mode, after: Mode) {
    Obeys(order.commandType, order.params, before, after)
  }

  ghost predicate SatsValid(w: World) {
    forall name :: name in w.sats ==> Valid(w.sats[name])
  }

  /** What is on the uplink is a command as it was created, on the subject of
      the satellite it is for. */
  ghost predicate UplinkGenuine(w: World) {
    forall m :: m in w.uplink ==> MessageGenuine(w, m)
  }

  ghost predicate MessageGenuine(w: World, m: Message) {
    && m.payload.commandId in w.cmds
    && var order := w.cmds[m.payload.commandId].row.order;
       && m.subject == order.satelliteId && m.payload.satelliteId == order.satelliteId
       && m.payload.commandType == order.commandType && m.payload.params == order.params
  }

  /** Run i that a satellite logged is of a command addressed to it, with the only
      possible outcome, and did to the satellite what the command says. */
  ghost predicate RunGenuine(w: World, name: string, i: nat)
    requires name in w.sats && i < |w.sats[name].log| == |w.sats[name].modes|
  {
    var s := w.sats[name];
    && s.log[i].commandId in w.cmds
    && var order := w.cmds[s.log[i].commandId].row.order;
       && order.satelliteId == name && s.log[i].ok == Acceptable(order)
       && if s.log[i].ok then CarriedOut(order, ModeBefore(s, i), s.modes[i]) else s.modes[i] == ModeBefore(s, i)
  }

  ghost predicate LogsGenuine(w: World) {
    forall name, i :: name in w.sats && 0 <= i < |w.sats[name].log| ==>
      |w.sats[name].log| == |w.sats[name].modes| && RunGenuine(w, name, i)
  }

  /** The satellite addressed by a command. */
  function Addressee(w: World, id: Id): Sat
    requires id in w.cmds
  {
    SatOf(w, w.cmds[id].row.order.satelliteId)
  }

  ghost predicate DownlinkGenuine(w: World) {
    forall ack :: ack in w.downlink ==> ack.commandId in w.cmds && ack in Addressee(w, ack.commandId).log
  }

  /** A recorded verdict is one that a satellite sent. */
  ghost predicate VerdictGenuine(w: World, id: Id)
    requires id in w.cmds
  {
    && (w.cmds[id].tally.answer == AckedBySatellite ==> Ack(id, true) in w.downlink)
    && (w.cmds[id].tally.answer == RejectedBySatellite ==> Ack(id, false) in w.downlink)
  }

  ghost predicate VerdictsGenuine(w: World) {
    forall id :: id in w.cmds ==> VerdictGenuine(w, id)
  }

  ghost predicate Genuine(w: World) {
    SatsValid(w) && UplinkGenuine(w) && LogsGenuine(w) && DownlinkGenuine(w) && VerdictsGenuine(w)
  }

  /** Commands are never removed and their orders never change. */
  ghost predicate OrdersKept(w: World, v: World) {
    forall id :: id in w.cmds ==> id in v.cmds && v.cmds[id].row.order == w.cmds[id].row.order
  }

  lemma StepKeepsOrders(w: World, e: Event)
    requires Enabled(w, e)
    ensures OrdersKept(w, Next(w, e))
    ensures w.downlink <= Next(w, e).downlink
  {
    if e.OnRow? { StepKeepsOrder(w.cmds[e.id], e.event, w.now); }
  }

  lemma StepKeepsOrder(c: Cmd, e: RowEvent, now: Time)
    requires RowEnabled(c, e, now)
    ensures RowNext(c, e, now).row.order == c.row.order
  {
  }

  /** However a run goes on, no command disappears or changes its order. */
  lemma {:induction false} OrdersStay(h: seq<Event>, k: seq<Event>)
    requires IsRun(h) && IsRun(k) && h <= k
    ensures OrdersKept(After(h), After(k))
    decreases |k|
  {
    if |k| > |h| {
      OrdersStay(h, k[..|k| - 1]);
      StepKeepsOrders(After(k[..|k| - 1]), k[|k| - 1]);
    } else {
      assert h == k;
    }
  }

  lemma {:induction false} OrderStays(h: seq<Event>, k: seq<Event>, id: Id)
    requires IsRun(h) && IsRun(k) && h <= k && id in After(h).cmds
    ensures id in After(k).cmds && After(k).cmds[id].row.order == After(h).cmds[id].row.order
  {
    OrdersStay(h, k);
  }

  lemma StepKeepsUplink(w: World, e: Event)
    requires Enabled(w, e) && UplinkGenuine(w)
    ensures UplinkGenuine(Next(w, e))
  {
    StepKeepsOrders(w, e);
  }

  lemma RunStaysGenuine(w: World, v: World, name: string, i: nat)
    requires OrdersKept(w, v) && name in w.sats && name in v.sats
    requires i < |w.sats[name].log| == |w.sats[name].modes| && RunGenuine(w, name, i)
    requires w.sats[name].log <= v.sats[name].log && w.sats[name].modes <= v.sats[name].modes
    requires |v.sats[name].log| == |v.sats[name].modes|
    ensures RunGenuine(v, name, i)
  {
    hide CarriedOut, Acceptable;
  }

  /** A delivery puts the satellite's answer on the downlink, unless the answer is
      lost, and nothing else goes there. */
  lemma DownlinkMoves(w: World, e: Event)
    requires Enabled(w, e)
    ensures if e.Deliver? && e.answered then
              exists ack: Ack :: ack.commandId == e.message.payload.commandId && Next(w, e).downlink == w.downlink + {ack}
                            && e.message.subject in Next(w, e).sats
                            && (SatsValid(w) ==> ack in Next(w, e).sats[e.message.subject].log)
            else Next(w, e).downlink == w.downlink
  {
    if e.Deliver? && e.answered {
      var s := SatOf(w, e.message.subject);
      var ack := Receive(e.message.subject, s, e.message.payload).1;
      assert ack.commandId == e.message.payload.commandId;
      if SatsValid(w) { ReceiveAnswersFromLog(e.message.subject, s, e.message.payload); }
      assert Next(w, e).downlink == w.downlink + {ack};
    }
  }

  /** What a delivery adds to a log. */
  lemma NewRunIsGenuine(w: World, m: Message, answered: bool)
    requires m in w.uplink && SatsValid(w) && UplinkGenuine(w)
    requires var v := Next(w, Deliver(m, answered));
             m.subject in v.sats && |v.sats[m.subject].log| > |SatOf(w, m.subject).log|
    ensures var v := Next(w, Deliver(m, answered));
            var i := |SatOf(w, m.subject).log|;
            && m.subject in v.sats && |v.sats[m.subject].log| == |v.sats[m.subject].modes| == i + 1
            && RunGenuine(v, m.subject, i)
  {
    var s := SatOf(w, m.subject);
    assert MessageGenuine(w, m);
    RunObeys(m.subject, s.mode, m.payload);
    ReceiveKeepsModes(m.subject, s, m.payload);
    hide Run, Recall, Obeys, Supported;
  }

  lemma LogAfterDelivery(w: World, m: Message, answered: bool, name: string)
    requires m in w.uplink && SatsValid(w)
    ensures var v := Next(w, Deliver(m, answered));
            && m.subject in v.sats && v.cmds == w.cmds
            && (name != m.subject && name in v.sats ==> name in w.sats && v.sats[name] == w.sats[name])
            && (m.subject !in w.sats ==> |SatOf(w, m.subject).log| == 0)
            && var s, t := SatOf(w, m.subject), v.sats[m.subject];
               && s.log <= t.log && s.modes <= t.modes && |s.log| == |s.modes| && |t.log| == |t.modes| <= |s.log| + 1
  {
    var s := SatOf(w, m.subject);
    ReceiveKeepsModes(m.subject, s, m.payload);
    ReceiveAnswersFromLog(m.subject, s, m.payload);
    AtMostOneRun(m.subject, s, m.payload);
    hide Receive;
  }

  /** A new command's id is in no log yet, so logs stay genuine. */
  lemma DeliveryKeepsRun(w: World, v: World, m: Message, answered: bool, name: string, i: nat)
    requires m in w.uplink && SatsValid(w) && UplinkGenuine(w) && LogsGenuine(w)
    requires v == Next(w, Deliver(m, answered)) && name in v.sats && i < |v.sats[name].log|
    ensures |v.sats[name].log| == |v.sats[name].modes| && RunGenuine(v, name, i)
  {
    hide Next, RunGenuine, Receive, MessageGenuine, UplinkGenuine, SatsValid;
    LogAfterDelivery(w, m, answered, name);
    if name == m.subject && i == |SatOf(w, name).log| {
      NewRunIsGenuine(w, m, answered);
    } else {
      LoggedIsGenuine(w, name, i);
      RunStaysGenuine(w, v, name, i);
    }
  }

  lemma LoggedIsGenuine(w: World, name: string, i: nat)
    requires LogsGenuine(w) && name in w.sats && i < |w.sats[name].log|
    ensures |w.sats[name].log| == |w.sats[name].modes| && RunGenuine(w, name, i)
  {
  }

  lemma DeliveryKeepsLogs(w: World, e: Event)
    requires Enabled(w, e) && e.Deliver? && SatsValid(w) && UplinkGenuine(w) && LogsGenuine(w)
    ensures LogsGenuine(Next(w, e))
  {
    assert e == Deliver(e.message, e.answered);
    hide Next, RunGenuine;
    var v := Next(w, e);
    forall name, i | name in v.sats && 0 <= i < |v.sats[name].log|
      ensures |v.sats[name].log| == |v.sats[name].modes| && RunGenuine(v, name, i)
    {
      DeliveryKeepsRun(w, v, e.message, e.answered, name, i);
    }
  }

  lemma AtMostOneRun(self: string, s: Sat, p: Payload)
    ensures |Receive(self, s, p).0.log| <= |s.log| + 1
  {
    hide Run, Recall;
  }

  lemma {:induction false} StepKeepsLogs(w: World, e: Event)
    requires Enabled(w, e) && SatsValid(w) && UplinkGenuine(w) && LogsGenuine(w)
    ensures LogsGenuine(Next(w, e))
  {
    var v := Next(w, e);
    if e.Deliver? {
      DeliveryKeepsLogs(w, e);
    } else {
      StepKeepsOrders(w, e);
      assert v.sats == w.sats;
      hide Next, Enabled;
      forall name, i | name in v.sats && 0 <= i < |v.sats[name].log|
        ensures |v.sats[name].log| == |v.sats[name].modes| && RunGenuine(v, name, i)
      {
        assert RunGenuine(w, name, i);
        RunStaysGenuine(w, v, name, i);
      }
    }
  }

  lemma DeliveryExtendsLogs(w: World, e: Event, name: string)
    requires Enabled(w, e) && SatsValid(w)
    ensures SatOf(w, name).log <= SatOf(Next(w, e), name).log
  {
    if e.Deliver? { ReceiveAnswersFromLog(e.message.subject, SatOf(w, e.message.subject), e.message.payload); }
  }

  lemma {:induction false} StepKeepsDownlink(w: World, e: Event)
    requires Enabled(w, e) && SatsValid(w) && UplinkGenuine(w) && DownlinkGenuine(w)
    ensures DownlinkGenuine(Next(w, e))
  {
    var v := Next(w, e);
    StepKeepsOrders(w, e);
    forall ack | ack in v.downlink ensures ack.commandId in v.cmds && ack in Addressee(v, ack.commandId).log {
      if ack in w.downlink {
        DeliveryExtendsLogs(w, e, w.cmds[ack.commandId].row.order.satelliteId);
      } else {
        ReceiveAnswersFromLog(e.message.subject, SatOf(w, e.message.subject), e.message.payload);
      }
    }
  }

  lemma VerdictsComeFromAnswers(c: Cmd, e: RowEvent, now: Time)
    requires RowEnabled(c, e, now)
    ensures var d := RowNext(c, e, now);
            || d.tally.answer == c.tally.answer
            || (e.MarkAcked? && d.tally.answer == AckedBySatellite)
            || (e.MarkRejected? && d.tally.answer == RejectedBySatellite)
  {
  }

  lemma StepKeepsVerdicts(w: World, e: Event)
    requires Enabled(w, e) && VerdictsGenuine(w)
    ensures VerdictsGenuine(Next(w, e))
  {
    hide RowNext;
    var v := Next(w, e);
    StepKeepsOrders(w, e);
    if e.OnRow? { VerdictsComeFromAnswers(w.cmds[e.id], e.event, w.now); }
    forall id | id in v.cmds ensures VerdictGenuine(v, id) {
      if id in w.cmds { assert VerdictGenuine(w, id); }
    }
  }

  lemma {:induction false} StepKeepsSats(w: World, e: Event)
    requires Enabled(w, e) && SatsValid(w)
    ensures SatsValid(Next(w, e))
  {
    if e.Deliver? {
      var self, p := e.message.subject, e.message.payload;
      ReceiveKeepsMemory(self, SatOf(w, self), p);
      ReceiveKeepsPositions(self, SatOf(w, self), p);
      ReceiveKeepsModes(self, SatOf(w, self), p);
    }
  }

  lemma {:induction false} RunIsGenuine(es: seq<Event>)
    requires IsRun(es)
    ensures Genuine(After(es))
    decreases |es|
  {
    if es != [] {
      var w, e := After(es[..|es| - 1]), es[|es| - 1];
      RunIsGenuine(es[..|es| - 1]);
      StepKeepsSats(w, e);
      StepKeepsUplink(w, e);
      StepKeepsLogs(w, e);
      StepKeepsDownlink(w, e);
      StepKeepsVerdicts(w, e);
    }
  }

  /** Routing: no satellite other than the addressee ever runs a command. */
  lemma OnlyTheAddresseeRuns(es: seq<Event>, id: Id, name: string)
    requires IsRun(es) && id in After(es).cmds && name in After(es).sats
    requires name != After(es).cmds[id].row.order.satelliteId
    ensures forall ack :: ack in After(es).sats[name].log ==> ack.commandId != id
  {
    RunIsGenuine(es);
    var log := After(es).sats[name].log;
    forall i | 0 <= i < |log| ensures log[i].commandId != id {
      assert RunGenuine(After(es), name, i);
    }
  }

  /** What is on the uplink in any run says, field by field, what the command says. */
  lemma {:induction false} UplinkCarriesOrders(es: seq<Event>, m: Message)
    requires IsRun(es) && m in After(es).uplink
    ensures m.payload.commandId in After(es).cmds
    ensures var order := After(es).cmds[m.payload.commandId].row.order;
            && m.subject == order.satelliteId && m.payload.satelliteId == order.satelliteId
            && m.payload.commandType == order.commandType && m.payload.params == order.params
  {
    RunIsGenuine(es);
    assert MessageGenuine(After(es), m);
  }

  lemma StoredIsOnUplink(w: World, id: Id, v: Worker, raised: bool)
    requires Enabled(w, OnRow(id, Publish(v, raised, true)))
    ensures var order := w.cmds[id].row.order;
            Message(order.satelliteId, Payload(id, order.satelliteId, order.commandType, order.params))
            in Next(w, OnRow(id, Publish(v, raised, true))).uplink
  {
  }

  /** Event i is a publication of the command that the bus stored. */
  predicate StoredAt(es: seq<Event>, id: Id, i: nat) {
    i < |es| && es[i].OnRow? && es[i].id == id && es[i].event.Publish? && es[i].event.stored
  }

  lemma StepMovesUplink(w: World, e: Event)
    requires Enabled(w, e)
    ensures w.uplink <= Next(w, e).uplink
    ensures forall m :: m in Next(w, e).uplink && m !in w.uplink ==>
              e.OnRow? && e.id == m.payload.commandId && e.event.Publish? && e.event.stored
  {
  }

  /** Every message of the uplink was published in the run. */
  lemma {:induction false} UplinkWasPublished(es: seq<Event>, m: Message) returns (i: nat)
    requires IsRun(es) && m in After(es).uplink
    ensures StoredAt(es, m.payload.commandId, i)
    decreases |es|
  {
    i := |es| - 1;
    var before := es[..i];
    StepMovesUplink(After(before), es[i]);
    if m in After(before).uplink {
      i := UplinkWasPublished(before, m);
    }
  }

  /** And every publication that the bus stored is on it, as the command says. */
  lemma {:induction false} PublishedIsOnUplink(es: seq<Event>, id: Id, i: nat)
    requires IsRun(es) && StoredAt(es, id, i)
    ensures id in After(es).cmds
    ensures var order := After(es).cmds[id].row.order;
            Message(order.satelliteId, Payload(id, order.satelliteId, order.commandType, order.params)) in After(es).uplink
    decreases |es|
  {
    var before, e := es[..|es| - 1], es[|es| - 1];
    StepKeepsOrders(After(before), e);
    StepMovesUplink(After(before), e);
    if i == |es| - 1 {
      StoredIsOnUplink(After(before), id, e.event.worker, e.event.raised);
    } else {
      assert StoredAt(before, id, i);
      PublishedIsOnUplink(before, id, i);
    }
  }

  // ---------------------------------------------------------------------
  // Main results
  // ---------------------------------------------------------------------

  /** A command acked by its satellite was carried out there, each time it took
      effect; exactly once, if fewer than 1000 commands ran between its first
      and latest delivery. */
  lemma {:induction false} AckedMeansDone(es: seq<Event>, id: Id)
    requires IsRun(es) && id in After(es).cmds
    requires After(es).cmds[id].tally.answer == AckedBySatellite
    ensures var sat, order := Addressee(After(es), id), After(es).cmds[id].row.order;
            && |sat.modes| == |sat.log| && Effects(sat, id) != {}
            && (forall i :: i in Effects(sat, id) ==> CarriedOut(order, ModeBefore(sat, i), sat.modes[i]))
            && id in sat.first && id in sat.last
            && (sat.last[id] - sat.first[id] - 1 < HISTORY ==> |Effects(sat, id)| == 1)
  {
    RunIsGenuine(es);
    var w := After(es);
    var name := w.cmds[id].row.order.satelliteId;
    var sat := Addressee(w, id);
    assert VerdictGenuine(w, id);
    var i :| 0 <= i < |sat.log| && sat.log[i] == Ack(id, true);
    assert i in Effects(sat, id);
    assert Bracketed(sat, i);
    assert name in w.sats && Valid(sat);
    assert RunGenuine(w, name, i);
    hide CarriedOut, Acceptable;
    forall k | k in Effects(sat, id) ensures CarriedOut(w.cmds[id].row.order, ModeBefore(sat, k), sat.modes[k]) {
      assert RunGenuine(w, name, k);
    }
    if sat.last[id] - sat.first[id] - 1 < HISTORY {
      assert Delivered(sat, id);
      assert RunGenuine(w, name, sat.first[id]);
      OneEffect(sat, id);
    }
  }

  /** A command its satellite rejected never took effect, not even through a duplicate. */
  lemma RejectedMeansNotDone(es: seq<Event>, id: Id)
    requires IsRun(es) && id in After(es).cmds
    requires After(es).cmds[id].tally.answer == RejectedBySatellite
    ensures Effects(Addressee(After(es), id), id) == {}
  {
    RunIsGenuine(es);
    var w := After(es);
    var name := w.cmds[id].row.order.satelliteId;
    var sat := Addressee(w, id);
    assert VerdictGenuine(w, id);
    var i :| 0 <= i < |sat.log| && sat.log[i] == Ack(id, false);
    assert RunGenuine(w, name, i);
    hide CarriedOut, Acceptable;
    forall k | 0 <= k < |sat.log| && sat.log[k].commandId == id ensures !sat.log[k].ok {
      assert RunGenuine(w, name, k);
    }
  }

  // ---------------------------------------------------------------------
  // A command that is carried out
  // ---------------------------------------------------------------------

  const GO_SAFE: Request :=
    Request("sat", "mode_change", map["mode" := "safe"], true, None, None, "op")

  const GO_SAFE_MESSAGE: Message :=
    Message("sat", Payload("c", "sat", "mode_change", map["mode" := "safe"]))

  lemma {:induction false} SafeModeIsSent() returns (es: seq<Event>)
    ensures IsRun(es) && GO_SAFE_MESSAGE in After(es).uplink && After(es).sats == map[] && "c" in After(es).cmds
    ensures var row := After(es).cmds["c"].row;
            row.status == Transmitting && row.order.satelliteId == "sat" && row.order.commandType == "mode_change"
  {
    hide IsRun, After, Next;
    es := Submit(GO_SAFE, "c");
    es := OnCommand(es, "c", Plan(0));
    es := OnCommand(es, "c", Fetch(0));
    es := OnCommand(es, "c", Claim(0));
    var before := es;
    es := Append(es, OnRow("c", Publish(0, false, true)));
    StoredIsOnUplink(After(before), "c", 0, false);
    PublishKeepsRow(After(before), "c", 0);
  }

  lemma PublishKeepsRow(w: World, id: Id, v: Worker)
    requires Enabled(w, OnRow(id, Publish(v, false, true)))
    ensures var u := Next(w, OnRow(id, Publish(v, false, true)));
            u.sats == w.sats && id in w.cmds && id in u.cmds && u.cmds[id].row == w.cmds[id].row
  {
  }

  lemma SafeModeIsEntered(w: World)
    requires GO_SAFE_MESSAGE in w.uplink && w.sats == map[]
    ensures var v := Next(w, Deliver(GO_SAFE_MESSAGE, true));
            v.cmds == w.cmds && Ack("c", true) in v.downlink && SatOf(v, "sat").mode == Safe
  {
    assert SatOf(w, "sat") == FRESH;
  }

  lemma AckIsRecorded(w: World, id: Id)
    requires id in w.cmds && w.cmds[id].row.status == Transmitting && Ack(id, true) in w.downlink
    ensures Enabled(w, OnRow(id, MarkAcked))
    ensures var v := Next(w, OnRow(id, MarkAcked));
            && id in v.cmds && v.cmds[id].row.status == Acked && v.cmds[id].tally.answer == AckedBySatellite
            && v.cmds[id].row.order == w.cmds[id].row.order && v.sats == w.sats
  {
  }

  /** From creation to acknowledgement: a satellite told to go to safe mode goes there. */
  lemma {:induction false} SafeModeIsReached() returns (es: seq<Event>, id: Id)
    ensures IsRun(es) && id in After(es).cmds
    ensures After(es).cmds[id].row.status == Acked && After(es).cmds[id].tally.answer == AckedBySatellite
    ensures After(es).cmds[id].row.order.commandType == "mode_change" && Addressee(After(es), id).mode == Safe
  {
    hide IsRun, After, Next;
    id := "c";
    es := SafeModeIsSent();
    SafeModeIsEntered(After(es));
    es := Append(es, Deliver(GO_SAFE_MESSAGE, true));
    AckIsRecorded(After(es), id);
    es := Append(es, OnRow(id, MarkAcked));
  }
}
