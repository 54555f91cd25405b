/** The simulated satellite's command executor as the object it is
    (simulator/src/commands.py). */
module SatelliteExecutor {
  import opened Basics
  import opened CommandModel
  import opened Satellite

  /** Receiving, case by case. */
  lemma ReceiveCases(self: string, s: Sat, p: Payload)
    ensures var (t, ack) := Receive(self, s, p);
            match Recall(s.done, p.commandId)
            case Some(known) => ack == known && t.mode == s.mode && t.done == s.done
            case None =>
              var outcome := Run(self, s.mode, p);
              && ack == Ack(p.commandId, outcome.Applied?) && t.done == Trim(s.done + [ack])
              && t.mode == if outcome.Applied? then outcome.mode else s.mode
  {
    hide Run, Recall, Trim;
  }

  /** Pop the oldest answers while there are too many. */
  method Forget(done: seq<Ack>) returns (kept: seq<Ack>)
    ensures kept == Trim(done)
  {
    kept := done;
    while |kept| > HISTORY
      invariant |kept| <= |done| && kept == done[|done| - |kept|..]
      invariant |kept| >= HISTORY || kept == done
    {
      kept := kept[1..];
    }
  }

  class CommandExecutor {
    const satelliteId: string
    var mode: Mode
    /** The OrderedDict of remembered answers, oldest first. */
    var done: seq<Ack>
    ghost var state: Sat

    ghost predicate Valid()
      reads this
    {
      Satellite.Valid(state) && state.mode == mode && state.done == done
    }

    constructor (satelliteId: string)
      ensures Valid() && this.satelliteId == satelliteId && state == FRESH
    {
      this.satelliteId := satelliteId;
      mode := Beacon;
      done := [];
      state := FRESH;
    }

    /** execute: refuse a command without an id, repeat a remembered answer,
        otherwise run the command and remember the answer. */
    method Execute(command: Payload) returns (r: Result<Ack>)
      requires Valid()
      modifies this
      ensures Valid()
      ensures command.commandId == "" ==> r == Failure && unchanged(this)
      ensures command.commandId != "" ==>
                var (next, ack) := Receive(satelliteId, old(state), command);
                r == Success(ack) && state == next
      ensures r.Success? && (exists i :: 0 <= i < |old(done)| && old(done)[i].commandId == command.commandId) ==>
                r.value in old(done) && r.value.commandId == command.commandId && mode == old(mode) && done == old(done)
      ensures r.Success? && (forall i :: 0 <= i < |old(done)| ==> old(done)[i].commandId != command.commandId) ==>
                && r.value.commandId == command.commandId
                && (r.value.ok <==> command.satelliteId == satelliteId && Supported(command.commandType, command.params))
                && (if r.value.ok then Obeys(command.commandType, command.params, old(mode), mode) else mode == old(mode))
                && done == if |old(done)| < 1000 then old(done) + [r.value] else (old(done) + [r.value])[|old(done)| - 999..]
    {
      if command.commandId == "" {
        return Failure;
      }
      ReceiveKeepsMemory(satelliteId, state, command);
      ReceiveKeepsPositions(satelliteId, state, command);
      ReceiveKeepsModes(satelliteId, state, command);
      RunObeys(satelliteId, mode, command);
      ReceiveCases(satelliteId, state, command);
      hide Receive, Run, Recall, Obeys, Supported;
      ghost var next := Receive(satelliteId, state, command).0;
      var known := Recall(done, command.commandId);
      if known.Some? {
        state := next;
        return Success(known.value);
      }
      var outcome := Run(satelliteId, mode, command);
      if outcome.Applied? {
        mode := outcome.mode;
      }
      var ack := Ack(command.commandId, outcome.Applied?);
      done := Forget(done + [ack]);
      state := next;
      return Success(ack);
    }
  }
}
