/** The satellite end of the uplink (simulator/src/commands.py). */
module Satellite {
  import opened Basics
  import opened CommandModel

  /** How many answers a satellite remembers. */
  const HISTORY: nat := 1000

  datatype Mode = Beacon | Deployment | Nominal | Science | Safe

  /** What the executor publishes on commands.{satelliteId}. */
  datatype Payload = Payload(
    commandId: Id,
    satelliteId: string,
    commandType: string,
    params: map<string, string>)

  datatype Ack = Ack(commandId: Id, ok: bool)

  function ParseMode(name: string): Option<Mode> {
    if name == "beacon" then Some(Beacon)
    else if name == "deployment" then Some(Deployment)
    else if name == "nominal" then Some(Nominal)
    else if name == "science" then Some(Science)
    else if name == "safe" then Some(Safe)
    else None
  }

  /** The values of SatelliteMode. */
  function NameOf(mode: Mode): string {
    match mode
    case Beacon => "beacon"
    case Deployment => "deployment"
    case Nominal => "nominal"
    case Science => "science"
    case Safe => "safe"
  }

  lemma ModesAreNamed(name: string, mode: Mode)
    ensures ParseMode(name) == Some(mode) <==> name == NameOf(mode)
  {
  }

  datatype Outcome = Applied(mode: Mode) | Refused

  /** Apply a command: the new mode, or a refusal that leaves the satellite alone. */
  function Run(self: string, mode: Mode, p: Payload): Outcome {
    if p.satelliteId != self then Refused
    else if p.commandType == "mode_change" then
      if "mode" in p.params && ParseMode(p.params["mode"]).Some?
      then Applied(ParseMode(p.params["mode"]).value)
      else Refused
    else if p.commandType in {"recovery", "abort", "science_stop"} then Applied(Nominal)
    else if p.commandType == "reset" then Applied(Beacon)
    else if p.commandType in {"ping", "diagnostic", "beacon_set", "deploy_antenna", "deploy_solar_panel"}
    then Applied(mode)
    else Refused
  }

  /** Does a satellite accept this payload?  The answer never depends on its mode. */
  predicate Accepts(self: string, p: Payload) {
    Run(self, Beacon, p).Applied?
  }

  /** The commands a satellite can carry out. */
  predicate Supported(commandType: string, params: map<string, string>) {
    || (commandType == "mode_change" && "mode" in params
        && params["mode"] in {"beacon", "deployment", "nominal", "science", "safe"})
    || commandType in {"recovery", "abort", "science_stop", "reset"}
    || commandType in {"ping", "diagnostic", "beacon_set", "deploy_antenna", "deploy_solar_panel"}
  }

  /** To carry one out means to go from mode `before` to mode `after`. */
  predicate Obeys(commandType: string, params: map<string, string>, before: Mode, after: Mode) {
    && (commandType == "mode_change" ==> "mode" in params && params["mode"] == NameOf(after))
    && (commandType in {"recovery", "abort", "science_stop"} ==> after == Nominal)
    && (commandType == "reset" ==> after == Beacon)
    && (commandType in {"ping", "diagnostic", "beacon_set", "deploy_antenna", "deploy_solar_panel"} ==> after == before)
  }

  /** A satellite carries out the supported commands that are addressed to it, and those only. */
  lemma RunObeys(self: string, mode: Mode, p: Payload)
    ensures Run(self, mode, p).Applied? <==> p.satelliteId == self && Supported(p.commandType, p.params)
    ensures Run(self, mode, p).Applied? ==> Obeys(p.commandType, p.params, mode, Run(self, mode, p).mode)
  {
    if p.commandType == "mode_change" && "mode" in p.params && ParseMode(p.params["mode"]).Some? {
      ModesAreNamed(p.params["mode"], ParseMode(p.params["mode"]).value);
    }
  }

  lemma AcceptanceIsModeIndependent(self: string, mode: Mode, p: Payload)
    ensures Run(self, mode, p).Applied? <==> Accepts(self, p)
  {
  }

  /** The remembered answer for a command id, if any. */
  function Recall(done: seq<Ack>, id: Id): (r: Option<Ack>)
    ensures r.None? <==> forall i :: 0 <= i < |done| ==> done[i].commandId != id
    ensures r.Some? ==> r.value in done && r.value.commandId == id
  {
    if done == [] then None
    else if done[0].commandId == id then Some(done[0])
    else Recall(done[1..], id)
  }

  /** Drop the oldest answers until at most HISTORY are left. */
  function Trim(done: seq<Ack>): seq<Ack> {
    if |done| > HISTORY then done[|done| - HISTORY..] else done
  }

  /** One satellite.  `log` lists every command actually run, oldest first, and
      `modes` the mode it was in after each; `first` and `last` give the length of `log` at the first and at the most
      recent delivery of a command. */
  datatype Sat = Sat(
    mode: Mode,
    done: seq<Ack>,
    log: seq<Ack>,
    modes: seq<Mode>,
    first: map<Id, nat>,
    last: map<Id, nat>)

  const FRESH: Sat := Sat(Beacon, [], [], [], map[], map[])

  /** Receive one payload: answer from memory, or run it and remember the answer. */
  function Receive(self: string, s: Sat, p: Payload): (Sat, Ack) {
    var n := |s.log|;
    var seen := s.(
      first := if p.commandId in s.first then s.first else s.first[p.commandId := n],
      last := s.last[p.commandId := n]);
    match Recall(s.done, p.commandId)
    case Some(ack) => (seen, ack)
    case None =>
      var outcome := Run(self, s.mode, p);
      var ack := Ack(p.commandId, outcome.Applied?);
      var mode := if outcome.Applied? then outcome.mode else s.mode;
      (seen.(mode := mode,
             done := Trim(s.done + [ack]),
             log := s.log + [ack],
             modes := s.modes + [mode]),
       ack)
  }

  /** The indices in `log` at which a command took effect. */
  function Effects(s: Sat, id: Id): set<nat> {
    set i | 0 <= i < |s.log| && s.log[i].commandId == id && s.log[i].ok
  }

  /** The memory is the tail of the log, and no command recurs while remembered. */
  ghost predicate MemoryValid(s: Sat) {
    && s.done == Trim(s.log)
    && (forall i, j :: 0 <= i < j < |s.log| && s.log[i].commandId == s.log[j].commandId ==> j - i > HISTORY)
  }

  /** `first` and `last` bracket every run of a command. */
  ghost predicate Bracketed(s: Sat, i: nat)
    requires i < |s.log|
  {
    var id := s.log[i].commandId;
    id in s.first && id in s.last && s.first[id] <= i <= s.last[id]
  }

  /** The first delivery of a command is a run of it. */
  ghost predicate Delivered(s: Sat, id: Id)
    requires id in s.first
  {
    id in s.last && s.first[id] <= s.last[id] <= |s.log| && s.first[id] < |s.log| && s.log[s.first[id]].commandId == id
  }

  ghost predicate PositionsValid(s: Sat) {
    && (forall i :: 0 <= i < |s.log| ==> Bracketed(s, i))
    && (forall id :: id in s.first ==> Delivered(s, id))
  }

  /** The mode a satellite was in before run i of its log, or is in now. */
  function ModeBefore(s: Sat, i: nat): Mode
    requires i <= |s.modes|
  {
    if i == 0 then Beacon else s.modes[i - 1]
  }

  /** Only commands change the mode. */
  ghost predicate ModesValid(s: Sat) {
    |s.modes| == |s.log| && s.mode == ModeBefore(s, |s.log|)
  }

  ghost predicate Valid(s: Sat) {
    MemoryValid(s) && PositionsValid(s) && ModesValid(s)
  }

  lemma ReceiveKeepsModes(self: string, s: Sat, p: Payload)
    requires ModesValid(s)
    ensures ModesValid(Receive(self, s, p).0) && s.modes <= Receive(self, s, p).0.modes
  {
    hide Run, Recall;
  }

  lemma RememberedIsLogged(s: Sat, ack: Ack)
    requires MemoryValid(s) && ack in s.done
    ensures ack in s.log
  {
    var k :| 0 <= k < |s.done| && s.done[k] == ack;
    assert s.log[|s.log| - |s.done| + k] == ack;
  }

  /** What is not remembered did not run recently. */
  lemma ForgottenIsOld(s: Sat, id: Id, i: nat)
    requires MemoryValid(s) && Recall(s.done, id).None?
    requires i < |s.log| && s.log[i].commandId == id
    ensures |s.log| - i > HISTORY
  {
    assert forall k :: 0 <= k < |s.done| ==> s.done[k] == s.log[|s.log| - |s.done| + k];
  }

  lemma ReceiveKeepsMemory(self: string, s: Sat, p: Payload)
    requires MemoryValid(s)
    ensures MemoryValid(Receive(self, s, p).0)
  {
    if Recall(s.done, p.commandId).None? {
      var t := Receive(self, s, p).0;
      forall i | 0 <= i < |s.log| && s.log[i].commandId == p.commandId
        ensures |s.log| - i > HISTORY
      {
        ForgottenIsOld(s, p.commandId, i);
      }
      assert Trim(Trim(s.log) + [t.log[|s.log|]]) == Trim(t.log);
    }
  }

  lemma ReceiveKeepsPositions(self: string, s: Sat, p: Payload)
    requires Valid(s)
    ensures PositionsValid(Receive(self, s, p).0)
  {
    var t := Receive(self, s, p).0;
    var id := p.commandId;
    if Recall(s.done, id).Some? {
      RememberedIsLogged(s, Recall(s.done, id).value);
      var k :| 0 <= k < |s.log| && s.log[k].commandId == id;
      assert Bracketed(s, k);
    }
    forall i | 0 <= i < |t.log| ensures Bracketed(t, i) {
      if i < |s.log| { assert Bracketed(s, i); }
    }
    forall x | x in t.first ensures Delivered(t, x) {
      if x in s.first { assert Delivered(s, x); }
    }
  }

  /** The address check: whatever a satellite is sent that is not for it
      changes neither its mode nor what took effect. */
  lemma MisaddressedHasNoEffect(self: string, s: Sat, p: Payload, id: Id)
    requires p.satelliteId != self
    ensures Receive(self, s, p).0.mode == s.mode && Effects(Receive(self, s, p).0, id) == Effects(s, id)
    ensures Recall(s.done, p.commandId).None? ==> !Receive(self, s, p).1.ok
  {
    var t := Receive(self, s, p).0;
    assert forall i :: i in Effects(t, id) ==> i < |s.log|;
  }

  /** Every answer, repeated or new, is the logged result of a run. */
  lemma ReceiveAnswersFromLog(self: string, s: Sat, p: Payload)
    requires MemoryValid(s)
    ensures s.log <= Receive(self, s, p).0.log
    ensures Receive(self, s, p).1 in Receive(self, s, p).0.log
    ensures Receive(self, s, p).1.commandId == p.commandId
  {
    match Recall(s.done, p.commandId)
    case Some(ack) => RememberedIsLogged(s, ack);
    case None =>
  }

  /** A repeated command runs again exactly when at least HISTORY other runs
      came after its most recent one (the one at index i). */
  lemma RerunExactly(self: string, s: Sat, p: Payload, i: nat)
    requires Valid(s)
    requires i < |s.log| && s.log[i].commandId == p.commandId
    requires forall j :: i < j < |s.log| ==> s.log[j].commandId != p.commandId
    ensures |Receive(self, s, p).0.log| > |s.log| <==> |s.log| - (i + 1) >= HISTORY
  {
    if Recall(s.done, p.commandId).None? {
      ForgottenIsOld(s, p.commandId, i);
    } else {
      var ack := Recall(s.done, p.commandId).value;
      var k :| 0 <= k < |s.done| && s.done[k] == ack;
      assert s.log[|s.log| - |s.done| + k].commandId == p.commandId;
    }
  }

  /** Between two runs of one command lie at least HISTORY runs, all of
      pairwise different other commands. */
  lemma RerunsAreFarApart(s: Sat, i: nat, j: nat)
    requires Valid(s)
    requires i < j < |s.log| && s.log[i].commandId == s.log[j].commandId
    ensures i + HISTORY < j
    ensures forall k :: i < k <= i + HISTORY ==> s.log[k].commandId != s.log[i].commandId
    ensures forall k, l :: i < k < l <= i + HISTORY ==> s.log[k].commandId != s.log[l].commandId
  {
  }

  /** If fewer than HISTORY commands ran between the first and the latest
      delivery of an accepted command, it took effect exactly once. */
  lemma OneEffect(s: Sat, id: Id)
    requires Valid(s) && id in s.first && id in s.last
    requires s.last[id] - s.first[id] - 1 < HISTORY
    requires s.log[s.first[id]].ok
    ensures |Effects(s, id)| == 1
  {
    var f := s.first[id];
    assert Delivered(s, id);
    forall i | i in Effects(s, id) ensures i == f {
      assert Bracketed(s, i);
    }
    assert Effects(s, id) == {f};
  }
}
