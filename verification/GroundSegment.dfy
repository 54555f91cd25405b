/** The shared database, bus and clock as an object that concurrent processes use.

    A process runs alone between two awaits; `Await` lets everyone else take any
    number of protocol steps.  `history` records the run so far. */
module GroundSegment {
  import opened Basics
  import opened CommandModel
  import opened Satellite
  import opened CommandProtocol
  import opened UplinkWindow

  /** Whose private progress an event touches. */
  datatype Task = Executor(worker: Worker) | Sweeper(worker: Worker) | Patcher(request: nat) | Submitter(request: nat)

  predicate RowOwns(e: RowEvent, task: Task) {
    match task
    case Executor(w) =>
      (e.Fetch? || e.Replan? || e.PolicyDrop? || e.Claim? || e.Publish? || e.MarkSent? || e.Bounce? || e.Crash?)
      && e.worker == w
    case Sweeper(w) => (e.Sweep? || e.TimeOut? || e.Crash?) && e.worker == w
    case Patcher(r) => (e.PatchRead? || e.PatchWrite?) && e.request == r
    case Submitter(_) => false
  }

  predicate Owns(e: Event, task: Task) {
    match e
    case OnRow(_, event) => RowOwns(event, task)
    case Lookup(r, _, _) => task == Submitter(r)
    case Deny(r) => task == Submitter(r)
    case Insert(r, _) => task == Submitter(r)
    case Relookup(r, _) => task == Submitter(r)
    case _ => false
  }

  /** This process is exactly as far with the command. */
  predicate SameHold(c: Cmd, d: Cmd, task: Task) {
    && d.row.order == c.row.order
    && match task
       case Executor(w) =>
         (w in d.executing <==> w in c.executing) && (w in c.executing ==> d.executing[w] == c.executing[w])
       case Sweeper(w) => w in d.sweeping <==> w in c.sweeping
       case Patcher(r) =>
         (r in d.tickets <==> r in c.tickets) && (r in c.tickets ==> d.tickets[r] == c.tickets[r])
       case Submitter(_) => true
  }

  /** This process holds nothing of the command. */
  predicate Untouched(c: Cmd, task: Task) {
    match task
    case Executor(w) => w !in c.executing
    case Sweeper(w) => w !in c.sweeping
    case Patcher(r) => r !in c.tickets
    case Submitter(_) => true
  }

  ghost predicate SameProgress(w: World, v: World, task: Task) {
    && w.now <= v.now && w.downlink <= v.downlink
    && (forall id :: id in w.cmds ==> id in v.cmds && SameHold(w.cmds[id], v.cmds[id], task))
    && (forall id :: id in v.cmds && id !in w.cmds ==> Untouched(v.cmds[id], task))
    && (task.Submitter? ==>
          (task.request in v.submissions <==> task.request in w.submissions)
          && (task.request in w.submissions ==> v.submissions[task.request] == w.submissions[task.request]))
  }

  /** h grew to k by events of other processes only. */
  ghost predicate Continues(h: seq<Event>, k: seq<Event>, task: Task) {
    h <= k && forall i :: |h| <= i < |k| ==> !Owns(k[i], task)
  }

  lemma OthersKeepHold(c: Cmd, e: RowEvent, now: Time, task: Task)
    requires RowEnabled(c, e, now) && !RowOwns(e, task)
    ensures SameHold(c, RowNext(c, e, now), task)
  {
  }

  lemma {:induction false} OthersKeepProgress(w: World, e: Event, task: Task)
    requires Enabled(w, e) && !Owns(e, task)
    ensures SameProgress(w, Next(w, e), task)
  {
    hide RowNext;
    if e.OnRow? { OthersKeepHold(w.cmds[e.id], e.event, w.now, task); }
  }

  lemma HoldsCompose(a: Cmd, b: Cmd, c: Cmd, task: Task)
    requires SameHold(b, c, task)
    ensures SameHold(a, b, task) ==> SameHold(a, c, task)
    ensures Untouched(b, task) ==> Untouched(c, task)
  {
  }

  lemma ProgressComposes(u: World, v: World, w: World, task: Task)
    requires SameProgress(u, v, task) && SameProgress(v, w, task)
    ensures SameProgress(u, w, task)
  {
    forall id | id in v.cmds
      ensures id in u.cmds && SameHold(u.cmds[id], v.cmds[id], task) ==> SameHold(u.cmds[id], w.cmds[id], task)
      ensures Untouched(v.cmds[id], task) ==> Untouched(w.cmds[id], task)
    {
      HoldsCompose(if id in u.cmds then u.cmds[id] else v.cmds[id], v.cmds[id], w.cmds[id], task);
    }
  }

  /** Whatever others do while a process awaits, its own progress is as it left it. */
  lemma {:induction false} AwaitKeepsProgress(h: seq<Event>, k: seq<Event>, task: Task)
    requires IsRun(h) && IsRun(k) && Continues(h, k, task)
    ensures SameProgress(After(h), After(k), task)
    decreases |k|
  {
    if |k| > |h| {
      var before := k[..|k| - 1];
      AwaitKeepsProgress(h, before, task);
      OthersKeepProgress(After(before), k[|k| - 1], task);
      ProgressComposes(After(h), After(before), After(k), task);
    } else {
      assert h == k;
    }
  }

  class Segment {
    /** pass_schedule joined with ground_stations, once n events have happened: arbitrary. */
    const passesAt: nat -> seq<Pass>
    /** The (satellite, command type) pairs that a fresh mode reading then denies: arbitrary. */
    const deniedAt: nat -> set<(string, string)>
    /** What becomes of a publication begun then: arbitrary. */
    const busAt: nat -> Publication
    var world: World
    /** How many events have happened. */
    var moment: nat
    ghost var history: seq<Event>

    ghost predicate Valid()
      reads this
    {
      IsRun(history) && After(history) == world && moment == |history|
    }

    function Passes(): seq<Pass>
      reads `moment
    {
      passesAt(moment)
    }

    function Denied(): set<(string, string)>
      reads `moment
    {
      deniedAt(moment)
    }

    /** What becomes of a publication begun now. */
    function Bus(): Publication
      reads `moment
    {
      busAt(moment)
    }

    constructor (passesAt: nat -> seq<Pass>, deniedAt: nat -> set<(string, string)>, busAt: nat -> Publication)
      ensures Valid() && world == START && history == []
      ensures this.passesAt == passesAt && this.deniedAt == deniedAt && this.busAt == busAt
    {
      this.passesAt, this.deniedAt, this.busAt := passesAt, deniedAt, busAt;
      world := START;
      moment := 0;
      history := [];
    }

    /** One atomic step of the calling process. */
    method Do(e: Event)
      requires Valid() && Enabled(world, e)
      modifies this
      ensures Valid() && history == old(history) + [e] && world == Next(old(world), e)
    {
      history := history + [e];
      assert history[..|history| - 1] == old(history);
      world := Next(world, e);
      moment := moment + 1;
    }

    /** An await: the other processes take any number of steps. */
    method Await(task: Task)
      requires Valid()
      modifies this
      ensures Valid() && Continues(old(history), history, task)
      ensures SameProgress(old(world), world, task)
    {
      var steps: int := *;
      while steps > 0
        invariant Valid() && Continues(old(history), history, task)
      {
        steps := steps - 1;
        var e: Event := *;
        if Enabled(world, e) && !Owns(e, task) {
          Do(e);
        }
      }
      AwaitKeepsProgress(old(history), history, task);
    }
  }
}
