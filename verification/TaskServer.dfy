/** app/campusApi/service/internal/server/campus_task_server.go: the background task loop, its workers and its shutdown. */
module TaskServer {
  import opened Wrappers

  /** The server's own fields: `cancel` names the loop whose context it cancels, `wg` is the wait group's count. */
  datatype Core = Core(running: set<string>, wg: nat, cancel: Option<nat>)

  /** The critical section of `runExclusive`: claims the name unless a worker holds it. */
  function Claim(c: Core, name: string): Core {
    if name in c.running then c else c.(running := c.running + {name}, wg := c.wg + 1)
  }

  function Release(c: Core, name: string): Core {
    c.(running := c.running - {name})
  }

  class CampusTaskServer {
    var running: set<string>
    var wg: nat
    var cancel: Option<nat>

    ghost function State(): Core
      reads this
    {
      Core(running, wg, cancel)
    }

    constructor ()
      ensures State() == Core({}, 0, None)
    {
      running, wg, cancel := {}, 0, None;
    }

    /** `Start` up to the `go` statement; `started` says whether a loop is started. */
    method Start(loop: nat) returns (started: bool)
      modifies this
      ensures started == old(cancel).None?
      ensures State() == if started then old(State()).(cancel := Some(loop)) else old(State())
    {
      if cancel.Some? {
        return false;
      }
      cancel := Some(loop);
      return true;
    }

    /** The critical section of `Stop`. */
    method TakeCancel() returns (taken: Option<nat>)
      modifies this
      ensures taken == old(cancel) && State() == old(State()).(cancel := None)
    {
      taken := cancel;
      cancel := None;
    }

    /** `runExclusive` up to the `go` statement; `spawned` says whether a worker is started. */
    method RunExclusive(name: string) returns (spawned: bool)
      modifies this
      ensures spawned == (name !in old(running)) && State() == Claim(old(State()), name)
    {
      if name in running {
        return false;
      }
      running := running + {name};
      wg := wg + 1;
      return true;
    }

    /** A worker's deferred calls: first its name is deleted, then the wait group counts it down. */
    method Delete(name: string)
      modifies this
      ensures State() == Release(old(State()), name)
    {
      running := running - {name};
    }

    method Done()
      requires wg > 0
      modifies this
      ensures State() == old(State()).(wg := old(wg) - 1)
    {
      wg := wg - 1;
    }
  }

  // ----- The server, its loops, its workers and the callers of Stop -----

  datatype Phase = Executing | Deleted | Finished
  datatype Worker = Worker(name: string, phase: Phase)

  /** A `run` loop launches the tasks it owes, then waits in its select, possibly flushing the batches. */
  datatype LoopPc = Launching(names: seq<string>) | Selecting | Flushing | Exited
  datatype Loop = Loop(pc: LoopPc, cancelled: bool)

  /** A caller of Stop: the loop whose cancel function it took, if there was one to take, and where it is. */
  datatype StopPc = Cancelling | WaitDone | WaitWorkers | StoppingBatches | Returned | TimedOut
  datatype Caller = Caller(took: Option<nat>, pc: StopPc)

  datatype Ticker = Recommend | Reconcile | Notification | OpsAlert | OpsSla | AiReply | AiAudit | DailyReport

  const INITIAL_TASKS: seq<string> := [
    "recommend_pool", "notification_outbox", "ops_alerts", "ops_sla_alerts",
    "ai_replies", "ai_audit", "access_log_cleanup", "rag_eval_drafts"]

  function TasksOf(t: Ticker): seq<string> {
    match t
    case Recommend => ["recommend_pool"]
    case Reconcile => ["stats_reconcile", "access_log_cleanup", "rag_eval_drafts"]
    case Notification => ["notification_outbox"]
    case OpsAlert => ["ops_alerts"]
    case OpsSla => ["ops_sla_alerts"]
    case AiReply => ["ai_replies"]
    case AiAudit => ["ai_audit"]
    case DailyReport => ["daily_agent_report"]
  }

  /**
   `closes` counts the closings of `done`: a second one panics, and nothing happens after that.
   `batchStops` counts the calls of StopCampusBatches; those of FlushCampusBatches are the actions Flush.
   */
  datatype Server = Server(
    core: Core, loops: seq<Loop>, workers: seq<Worker>, stoppers: seq<Caller>,
    closes: nat, batchStops: nat)

  datatype Action =
    | Start
    | Launch(loop: nat) | Tick(loop: nat, ticker: Ticker) | Flush(loop: nat) | FlushEnds(loop: nat)
    | ContextDone(loop: nat) | Exit(loop: nat)
    | WorkerDeletes(worker: nat) | WorkerDone(worker: nat)
    | Stop | StopCancels(caller: nat) | StopSeesDone(caller: nat) | StopSeesWorkers(caller: nat)
    | StopReturns(caller: nat) | StopTimesOut(caller: nat)

  const FRESH := Server(Core({}, 0, None), [], [], [], 0, 0)

  predicate LoopAt(s: Server, l: nat, pc: LoopPc) {
    l < |s.loops| && s.loops[l].pc == pc
  }

  predicate CallerAt(s: Server, k: nat, pc: StopPc) {
    k < |s.stoppers| && s.stoppers[k].pc == pc
  }

  predicate Enabled(s: Server, a: Action) {
    s.closes < 2 &&
    match a
    case Start => true
    case Launch(l) => l < |s.loops| && s.loops[l].pc.Launching? && s.loops[l].pc.names != []
    case Tick(l, _) => LoopAt(s, l, Selecting)
    case Flush(l) => LoopAt(s, l, Selecting)
    case FlushEnds(l) => LoopAt(s, l, Flushing)
    case ContextDone(l) => l < |s.loops|
    case Exit(l) => LoopAt(s, l, Selecting) && s.loops[l].cancelled
    case WorkerDeletes(w) => w < |s.workers| && s.workers[w].phase == Executing
    case WorkerDone(w) => w < |s.workers| && s.workers[w].phase == Deleted && s.core.wg > 0
    case Stop => true
    case StopCancels(k) =>
      CallerAt(s, k, Cancelling) && (s.stoppers[k].took.Some? ==> s.stoppers[k].took.value < |s.loops|)
    case StopSeesDone(k) => CallerAt(s, k, WaitDone) && s.closes >= 1
    case StopSeesWorkers(k) => CallerAt(s, k, WaitWorkers) && s.core.wg == 0
    case StopReturns(k) => CallerAt(s, k, StoppingBatches)
    case StopTimesOut(k) => CallerAt(s, k, WaitDone) || CallerAt(s, k, WaitWorkers)
  }

  function Onward(names: seq<string>): LoopPc {
    if names == [] then Selecting else Launching(names)
  }

  function SetLoop(s: Server, l: nat, pc: LoopPc): Server
    requires l < |s.loops|
  {
    s.(loops := s.loops[l := s.loops[l].(pc := pc)])
  }

  function SetCaller(s: Server, k: nat, pc: StopPc): Server
    requires k < |s.stoppers|
  {
    s.(stoppers := s.stoppers[k := s.stoppers[k].(pc := pc)])
  }

  function CancelLoop(s: Server, l: nat): Server
    requires l < |s.loops|
  {
    s.(loops := s.loops[l := s.loops[l].(cancelled := true)])
  }

  function RunExclusive(s: Server, name: string): Server {
    s.(core := Claim(s.core, name),
       workers := if name in s.core.running then s.workers else s.workers + [Worker(name, Executing)])
  }

  function Apply(s: Server, a: Action): Server
    requires Enabled(s, a)
  {
    match a
    case Start =>
      if s.core.cancel.Some? then s
      else s.(core := s.core.(cancel := Some(|s.loops|)), loops := s.loops + [Loop(Launching(INITIAL_TASKS), false)])
    case Launch(l) => SetLoop(RunExclusive(s, s.loops[l].pc.names[0]), l, Onward(s.loops[l].pc.names[1..]))
    case Tick(l, ticker) => SetLoop(s, l, Launching(TasksOf(ticker)))
    case Flush(l) => SetLoop(s, l, Flushing)
    case FlushEnds(l) => SetLoop(s, l, Selecting)
    case ContextDone(l) => CancelLoop(s, l)
    case Exit(l) => SetLoop(s, l, Exited).(closes := s.closes + 1)
    case WorkerDeletes(w) =>
      s.(core := Release(s.core, s.workers[w].name), workers := s.workers[w := s.workers[w].(phase := Deleted)])
    case WorkerDone(w) =>
      s.(core := s.core.(wg := s.core.wg - 1), workers := s.workers[w := s.workers[w].(phase := Finished)])
    case Stop => s.(core := s.core.(cancel := None), stoppers := s.stoppers + [Caller(s.core.cancel, Cancelling)])
    case StopCancels(k) =>
      var waiting := SetCaller(s, k, WaitDone);
      if s.stoppers[k].took.Some? then CancelLoop(waiting, s.stoppers[k].took.value) else waiting
    case StopSeesDone(k) => SetCaller(s, k, WaitWorkers)
    case StopSeesWorkers(k) => SetCaller(s, k, StoppingBatches).(batchStops := s.batchStops + 1)
    case StopReturns(k) => SetCaller(s, k, Returned)
    case StopTimesOut(k) => SetCaller(s, k, TimedOut)
  }

  predicate CanRun(s: Server, actions: seq<Action>)
    decreases |actions|
  {
    actions == [] || (Enabled(s, actions[0]) && CanRun(Apply(s, actions[0]), actions[1..]))
  }

  function RunAll(s: Server, actions: seq<Action>): Server
    requires CanRun(s, actions)
    decreases |actions|
  {
    if actions == [] then s else RunAll(Apply(s, actions[0]), actions[1..])
  }

  // ----- Per-name exclusion and the wait group -----

  function CountUnfinished(workers: seq<Worker>): nat {
    if workers == [] then 0
    else CountUnfinished(workers[..|workers| - 1]) + if workers[|workers| - 1].phase == Finished then 0 else 1
  }

  function CountExecuting(workers: seq<Worker>): nat {
    if workers == [] then 0
    else CountExecuting(workers[..|workers| - 1]) + if workers[|workers| - 1].phase == Executing then 1 else 0
  }

  function CountExited(loops: seq<Loop>): nat {
    if loops == [] then 0
    else CountExited(loops[..|loops| - 1]) + if loops[|loops| - 1].pc == Exited then 1 else 0
  }

  lemma {:induction false} CountWorkersUpdate(workers: seq<Worker>, w: nat, worker: Worker)
    requires w < |workers|
    ensures CountUnfinished(workers[w := worker])
         == CountUnfinished(workers) - (if workers[w].phase == Finished then 0 else 1) + (if worker.phase == Finished then 0 else 1)
    ensures CountExecuting(workers[w := worker])
         == CountExecuting(workers) - (if workers[w].phase == Executing then 1 else 0) + (if worker.phase == Executing then 1 else 0)
  {
    var n := |workers| - 1;
    var updated := workers[w := worker];
    if w < n {
      assert updated[..n] == workers[..n][w := worker];
      CountWorkersUpdate(workers[..n], w, worker);
    } else {
      assert updated[..n] == workers[..n];
    }
  }

  lemma {:induction false} CountLoopsUpdate(loops: seq<Loop>, l: nat, loop: Loop)
    requires l < |loops|
    ensures CountExited(loops[l := loop])
         == CountExited(loops) - (if loops[l].pc == Exited then 1 else 0) + (if loop.pc == Exited then 1 else 0)
  {
    var n := |loops| - 1;
    var updated := loops[l := loop];
    if l < n {
      assert updated[..n] == loops[..n][l := loop];
      CountLoopsUpdate(loops[..n], l, loop);
    } else {
      assert updated[..n] == loops[..n];
    }
  }

  lemma {:induction false} ExecutingAreUnfinished(workers: seq<Worker>)
    ensures CountExecuting(workers) <= CountUnfinished(workers)
  {
    if workers != [] {
      ExecutingAreUnfinished(workers[..|workers| - 1]);
    }
  }

  lemma {:induction false} NoneUnfinished(workers: seq<Worker>, w: nat)
    requires w < |workers| && CountUnfinished(workers) == 0
    ensures workers[w].phase == Finished
  {
    if w < |workers| - 1 {
      NoneUnfinished(workers[..|workers| - 1], w);
    }
  }

  /** `running` holds exactly the names of the workers still executing, and no two of those share a name. */
  ghost predicate Exclusive(s: Server) {
    && (forall w | 0 <= w < |s.workers| && s.workers[w].phase == Executing :: s.workers[w].name in s.core.running)
    && (forall name | name in s.core.running :: exists w | 0 <= w < |s.workers| :: s.workers[w] == Worker(name, Executing))
    && (forall v, w | 0 <= v < w < |s.workers| && s.workers[v].phase == Executing && s.workers[w].phase == Executing ::
          s.workers[v].name != s.workers[w].name)
  }

  ghost predicate WorkersCounted(s: Server) {
    s.core.wg == CountUnfinished(s.workers) && |s.core.running| == CountExecuting(s.workers)
  }

  ghost predicate Counted(s: Server) {
    WorkersCounted(s) && s.closes == CountExited(s.loops)
  }

  /**
   Every cancel function, held by the server or taken by a caller of Stop, belongs to a loop that was
   made; a caller past its cancelling has cancelled the loop it took; and only a cancelled loop exits.
   */
  ghost predicate CancelsObeyed(s: Server) {
    && (s.core.cancel.Some? ==> s.core.cancel.value < |s.loops|)
    && (forall k | 0 <= k < |s.stoppers| && s.stoppers[k].took.Some? ::
          && s.stoppers[k].took.value < |s.loops|
          && (s.stoppers[k].pc != Cancelling ==> s.loops[s.stoppers[k].took.value].cancelled))
    && (forall l | 0 <= l < |s.loops| && s.loops[l].pc == Exited :: s.loops[l].cancelled)
  }

  lemma ClaimKeepsExclusive(s: Server, name: string)
    requires Exclusive(s)
    ensures Exclusive(RunExclusive(s, name))
  {
    var s' := RunExclusive(s, name);
    if name !in s.core.running {
      assert s'.workers[|s.workers|] == Worker(name, Executing);
      forall n | n in s'.core.running ensures exists w | 0 <= w < |s'.workers| :: s'.workers[w] == Worker(n, Executing) {
        if n != name {
          var w :| 0 <= w < |s.workers| && s.workers[w] == Worker(n, Executing);
          assert s'.workers[w] == Worker(n, Executing);
        }
      }
    }
  }

  lemma DeleteKeepsExclusive(s: Server, w: nat)
    requires Exclusive(s) && Enabled(s, WorkerDeletes(w))
    ensures Exclusive(Apply(s, WorkerDeletes(w)))
  {
    var s' := Apply(s, WorkerDeletes(w));
    forall n | n in s'.core.running ensures exists v | 0 <= v < |s'.workers| :: s'.workers[v] == Worker(n, Executing) {
      var v :| 0 <= v < |s.workers| && s.workers[v] == Worker(n, Executing);
      assert s'.workers[v] == Worker(n, Executing);
    }
  }

  lemma DoneKeepsExclusive(s: Server, w: nat)
    requires Exclusive(s) && Enabled(s, WorkerDone(w))
    ensures Exclusive(Apply(s, WorkerDone(w)))
  {
    var s' := Apply(s, WorkerDone(w));
    forall n | n in s'.core.running ensures exists v | 0 <= v < |s'.workers| :: s'.workers[v] == Worker(n, Executing) {
      var v :| 0 <= v < |s.workers| && s.workers[v] == Worker(n, Executing);
      assert s'.workers[v] == Worker(n, Executing);
    }
  }

  lemma StepKeepsExclusive(s: Server, a: Action)
    requires Exclusive(s) && Enabled(s, a)
    ensures Exclusive(Apply(s, a))
  {
    match a
    case Launch(l) => ClaimKeepsExclusive(s, s.loops[l].pc.names[0]);
    case WorkerDeletes(w) => DeleteKeepsExclusive(s, w);
    case WorkerDone(w) => DoneKeepsExclusive(s, w);
    case _ =>
      assert Apply(s, a).workers == s.workers && Apply(s, a).core.running == s.core.running;
  }

  lemma ClaimKeepsWorkers(s: Server, name: string)
    requires WorkersCounted(s)
    ensures WorkersCounted(RunExclusive(s, name))
  {
    var s' := RunExclusive(s, name);
    if name !in s.core.running {
      assert s'.workers[..|s.workers|] == s.workers;
    }
  }

  lemma StepKeepsWorkers(s: Server, a: Action)
    requires WorkersCounted(s) && Exclusive(s) && Enabled(s, a)
    ensures WorkersCounted(Apply(s, a))
  {
    match a
    case Launch(l) => ClaimKeepsWorkers(s, s.loops[l].pc.names[0]);
    case WorkerDeletes(w) => CountWorkersUpdate(s.workers, w, s.workers[w].(phase := Deleted));
    case WorkerDone(w) => CountWorkersUpdate(s.workers, w, s.workers[w].(phase := Finished));
    case _ =>
  }

  lemma StepKeepsExits(s: Server, a: Action)
    requires s.closes == CountExited(s.loops) && Enabled(s, a)
    ensures Apply(s, a).closes == CountExited(Apply(s, a).loops)
  {
    match a
    case Start =>
      if s.core.cancel.None? {
        assert Apply(s, a).loops[..|s.loops|] == s.loops;
      }
    case Launch(l) => CountLoopsUpdate(s.loops, l, s.loops[l].(pc := Onward(s.loops[l].pc.names[1..])));
    case Tick(l, ticker) => CountLoopsUpdate(s.loops, l, s.loops[l].(pc := Launching(TasksOf(ticker))));
    case Flush(l) => CountLoopsUpdate(s.loops, l, s.loops[l].(pc := Flushing));
    case FlushEnds(l) => CountLoopsUpdate(s.loops, l, s.loops[l].(pc := Selecting));
    case ContextDone(l) => CountLoopsUpdate(s.loops, l, s.loops[l].(cancelled := true));
    case Exit(l) => CountLoopsUpdate(s.loops, l, s.loops[l].(pc := Exited));
    case StopCancels(k) =>
      if s.stoppers[k].took.Some? {
        var l := s.stoppers[k].took.value;
        CountLoopsUpdate(s.loops, l, s.loops[l].(cancelled := true));
      }
    case _ =>
  }

  lemma StepKeepsCounted(s: Server, a: Action)
    requires Counted(s) && Exclusive(s) && Enabled(s, a)
    ensures Counted(Apply(s, a))
  {
    StepKeepsWorkers(s, a);
    StepKeepsExits(s, a);
  }

  lemma StepKeepsCancelsObeyed(s: Server, a: Action)
    requires CancelsObeyed(s) && Enabled(s, a)
    ensures CancelsObeyed(Apply(s, a))
  {
  }

  lemma {:induction false} RunKeepsCancelsObeyed(s: Server, actions: seq<Action>)
    requires CanRun(s, actions) && CancelsObeyed(s)
    ensures CancelsObeyed(RunAll(s, actions))
    decreases |actions|
  {
    if actions != [] {
      StepKeepsCancelsObeyed(s, actions[0]);
      RunKeepsCancelsObeyed(Apply(s, actions[0]), actions[1..]);
    }
  }

  /** A loop that is launching always has a task left to launch. */
  ghost predicate Live(s: Server) {
    && s.closes <= 2
    && forall l | 0 <= l < |s.loops| :: s.loops[l].pc.Launching? ==> s.loops[l].pc.names != []
  }

  ghost predicate Sound(s: Server) {
    Exclusive(s) && Counted(s) && Live(s)
  }

  lemma StepKeepsLive(s: Server, a: Action)
    requires Live(s) && Enabled(s, a)
    ensures Live(Apply(s, a))
  {
  }

  lemma StepKeepsSound(s: Server, a: Action)
    requires Sound(s) && Enabled(s, a)
    ensures Sound(Apply(s, a))
  {
    StepKeepsExclusive(s, a);
    StepKeepsCounted(s, a);
    StepKeepsLive(s, a);
  }

  lemma {:induction false} RunKeepsSound(s: Server, actions: seq<Action>)
    requires CanRun(s, actions) && Sound(s)
    ensures Sound(RunAll(s, actions))
    decreases |actions|
  {
    if actions != [] {
      StepKeepsSound(s, actions[0]);
      RunKeepsSound(Apply(s, actions[0]), actions[1..]);
    }
  }

  /**
   In every reachable state, restarts included: at most one worker per task name is executing,
   `running` holds exactly those names, and the wait group counts the workers not yet past their Done,
   so it is never below the size of `running`; its counter is never decremented below zero.
   */
  lemma PerNameExclusion(actions: seq<Action>)
    requires CanRun(FRESH, actions)
    ensures var s := RunAll(FRESH, actions);
            && Exclusive(s) && CancelsObeyed(s)
            && s.core.wg == CountUnfinished(s.workers) >= |s.core.running|
            && forall w | 0 <= w < |s.workers| && s.workers[w].phase != Finished :: s.core.wg > 0
  {
    var s := RunAll(FRESH, actions);
    RunKeepsSound(FRESH, actions);
    RunKeepsCancelsObeyed(FRESH, actions);
    ExecutingAreUnfinished(s.workers);
    forall w | 0 <= w < |s.workers| && s.workers[w].phase != Finished ensures s.core.wg > 0 {
      if s.core.wg == 0 {
        NoneUnfinished(s.workers, w);
      }
    }
  }

  // ----- One life -----

  /** A `Start` that makes a second loop: `cancel` is not set, yet a loop was made before. */
  predicate StartsAgain(s: Server, a: Action) {
    a == Start && s.core.cancel.None? && s.loops != []
  }

  /** No step of the run is such a `Start`: what a caller keeps to for one life of the server. */
  predicate NoRestart(s: Server, actions: seq<Action>)
    requires CanRun(s, actions)
    decreases |actions|
  {
    actions == [] || (!StartsAgain(s, actions[0]) && NoRestart(Apply(s, actions[0]), actions[1..]))
  }

  lemma StepLoops(s: Server, a: Action)
    requires Enabled(s, a)
    ensures |s.loops| <= |Apply(s, a).loops| <= |s.loops| + 1
    ensures |Apply(s, a).loops| > |s.loops| <==> a == Start && s.core.cancel.None?
  {
  }

  lemma {:induction false} RunKeepsLoops(s: Server, actions: seq<Action>)
    requires CanRun(s, actions)
    ensures |s.loops| <= |RunAll(s, actions).loops|
    decreases |actions|
  {
    if actions != [] {
      StepLoops(s, actions[0]);
      RunKeepsLoops(Apply(s, actions[0]), actions[1..]);
    }
  }

  /** A run makes a second loop exactly when it restarts. */
  lemma {:induction false} OneLoopIff(s: Server, actions: seq<Action>)
    requires CanRun(s, actions) && |s.loops| <= 1
    ensures |RunAll(s, actions).loops| <= 1 <==> NoRestart(s, actions)
    decreases |actions|
  {
    if actions != [] {
      var s' := Apply(s, actions[0]);
      StepLoops(s, actions[0]);
      if StartsAgain(s, actions[0]) {
        RunKeepsLoops(s', actions[1..]);
      } else {
        OneLoopIff(s', actions[1..]);
      }
    }
  }

  predicate PastWait(pc: StopPc) {
    pc == StoppingBatches || pc == Returned
  }

  /** Nothing of the server is running. */
  ghost predicate Quiet(s: Server) {
    && s.closes == 1 && s.core.wg == 0 && s.core.running == {} && s.loops != []
    && (forall l | 0 <= l < |s.loops| :: s.loops[l].pc == Exited)
    && (forall w | 0 <= w < |s.workers| :: s.workers[w].phase == Finished)
  }

  /** A caller of Stop past its first wait has seen `done` closed, and past its second has stopped the batches. */
  ghost predicate StopsInOrder(s: Server) {
    forall k | 0 <= k < |s.stoppers| ::
      && (s.stoppers[k].pc == WaitWorkers || PastWait(s.stoppers[k].pc) ==> s.closes >= 1)
      && (PastWait(s.stoppers[k].pc) ==> s.batchStops > 0)
  }

  /** What holds throughout one life. */
  ghost predicate Lifecycle(s: Server) {
    && |s.loops| <= 1 && StopsInOrder(s) && (s.batchStops > 0 ==> Quiet(s))
  }

  lemma CountAtMostOne(loops: seq<Loop>)
    requires |loops| <= 1
    ensures CountExited(loops) == if |loops| == 1 && loops[0].pc == Exited then 1 else 0
  {
    if loops != [] {
      assert loops[..|loops| - 1] == [];
      assert CountExited(loops[..|loops| - 1]) == 0;
    }
  }

  lemma QuietWhenCounted(s: Server)
    requires Exclusive(s) && Counted(s) && |s.loops| <= 1 && s.core.wg == 0 && s.closes >= 1
    ensures Quiet(s)
  {
    forall w | 0 <= w < |s.workers| ensures s.workers[w].phase == Finished {
      NoneUnfinished(s.workers, w);
    }
    ExecutingAreUnfinished(s.workers);
    CountAtMostOne(s.loops);
  }

  /** Steps of a loop or of a worker: launching, ticking, flushing, exiting, finishing. */
  predicate Works(a: Action) {
    a.Launch? || a.Tick? || a.Flush? || a.FlushEnds? || a.Exit? || a.WorkerDeletes? || a.WorkerDone?
  }

  /** Once quiet, a server does nothing but answer callers of Stop and of a Start that changes nothing. */
  lemma QuietStep(s: Server, a: Action)
    requires Quiet(s) && Enabled(s, a) && !StartsAgain(s, a)
    ensures Quiet(Apply(s, a))
    ensures Apply(s, a).workers == s.workers && !Works(a)
  {
  }

  lemma StepKeepsStopsInOrder(s: Server, a: Action)
    requires StopsInOrder(s) && Enabled(s, a)
    ensures StopsInOrder(Apply(s, a))
  {
  }

  lemma BatchStopIsQuiet(s: Server, a: Action)
    requires Exclusive(s) && Counted(s) && Lifecycle(s) && Enabled(s, a) && !StartsAgain(s, a)
    requires Apply(s, a).batchStops > 0
    ensures Quiet(Apply(s, a))
  {
    if s.batchStops > 0 {
      QuietStep(s, a);
    } else {
      assert a.StopSeesWorkers?;
      assert s.stoppers[a.caller].pc == WaitWorkers;
      QuietWhenCounted(s);
    }
  }

  lemma StepKeepsLifecycle(s: Server, a: Action)
    requires Exclusive(s) && Counted(s) && Lifecycle(s) && Enabled(s, a) && !StartsAgain(s, a)
    ensures Lifecycle(Apply(s, a))
  {
    StepLoops(s, a);
    StepKeepsStopsInOrder(s, a);
    if Apply(s, a).batchStops > 0 {
      BatchStopIsQuiet(s, a);
    }
  }

  lemma {:induction false} RunKeepsLifecycle(s: Server, actions: seq<Action>)
    requires CanRun(s, actions) && Exclusive(s) && Counted(s) && Lifecycle(s) && NoRestart(s, actions)
    ensures Lifecycle(RunAll(s, actions))
    decreases |actions|
  {
    if actions != [] {
      StepKeepsExclusive(s, actions[0]);
      StepKeepsCounted(s, actions[0]);
      StepKeepsLifecycle(s, actions[0]);
      RunKeepsLifecycle(Apply(s, actions[0]), actions[1..]);
    }
  }

  lemma {:induction false} QuietRun(s: Server, actions: seq<Action>)
    requires CanRun(s, actions) && Quiet(s) && NoRestart(s, actions)
    ensures var s' := RunAll(s, actions); Quiet(s') && s'.workers == s.workers
    ensures forall i | 0 <= i < |actions| :: !Works(actions[i])
    decreases |actions|
  {
    if actions != [] {
      QuietStep(s, actions[0]);
      QuietRun(Apply(s, actions[0]), actions[1..]);
    }
  }

  /**
   Quiescent shutdown. In one life, StopCampusBatches is called only when the loop has closed `done`,
   every worker has finished and no flush is under way; whatever happens afterwards, no worker starts,
   no batch is flushed by the loop, only callers take steps, and the wait group stays at zero. In
   particular nothing is running when a Stop returns nil.
   */
  lemma QuiescentShutdown(before: seq<Action>, after: seq<Action>)
    requires CanRun(FRESH, before) && NoRestart(FRESH, before)
    requires CanRun(RunAll(FRESH, before), after) && NoRestart(RunAll(FRESH, before), after)
    requires var s := RunAll(FRESH, before);
             s.batchStops > 0 || exists k | 0 <= k < |s.stoppers| :: PastWait(s.stoppers[k].pc)
    ensures var s := RunAll(FRESH, before);
            var s' := RunAll(s, after);
            Quiet(s) && Quiet(s') && s'.workers == s.workers && forall i | 0 <= i < |after| :: !Works(after[i])
  {
    var s := RunAll(FRESH, before);
    RunKeepsSound(FRESH, before);
    RunKeepsLifecycle(FRESH, before);
    QuietRun(s, after);
  }

  // ----- Starting again -----

  predicate NoStart(actions: seq<Action>) {
    forall i | 0 <= i < |actions| :: actions[i] != Start
  }

  /** Without another `Start`, `done` can still be closed a second time, which panics. */
  ghost predicate CanPanic(s: Server) {
    exists actions :: NoStart(actions) && CanRun(s, actions) && RunAll(s, actions).closes == 2
  }

  lemma {:induction false} NoStartKeepsLoops(s: Server, actions: seq<Action>)
    requires CanRun(s, actions) && NoStart(actions)
    ensures |RunAll(s, actions).loops| == |s.loops|
    decreases |actions|
  {
    if actions != [] {
      StepLoops(s, actions[0]);
      NoStartKeepsLoops(Apply(s, actions[0]), actions[1..]);
    }
  }

  lemma {:induction false} SomeLoopLeft(loops: seq<Loop>) returns (l: nat)
    ensures CountExited(loops) <= |loops|
    ensures CountExited(loops) < |loops| ==> l < |loops| && loops[l].pc != Exited
  {
    l := 0;
    if loops != [] {
      var n := |loops| - 1;
      l := SomeLoopLeft(loops[..n]);
      if loops[n].pc != Exited {
        l := n;
      }
    }
  }

  function Launches(l: nat, n: nat): (actions: seq<Action>)
    ensures NoStart(actions)
  {
    if n == 0 then [] else [Launch(l)] + Launches(l, n - 1)
  }

  lemma {:induction false} RunAppend(s: Server, a: seq<Action>, b: seq<Action>)
    requires CanRun(s, a) && CanRun(RunAll(s, a), b)
    ensures CanRun(s, a + b) && RunAll(s, a + b) == RunAll(RunAll(s, a), b)
    decreases |a|
  {
    if a == [] {
      assert a + b == b;
    } else {
      assert (a + b)[0] == a[0] && (a + b)[1..] == a[1..] + b;
      RunAppend(Apply(s, a[0]), a[1..], b);
    }
  }

  lemma RunOne(s: Server, a: Action)
    requires Enabled(s, a)
    ensures CanRun(s, [a]) && RunAll(s, [a]) == Apply(s, a)
  {
    assert [a][1..] == [];
    assert CanRun(Apply(s, a), []);
  }

  lemma {:induction false} LaunchesReachSelect(s: Server, l: nat)
    requires s.closes < 2 && l < |s.loops| && s.loops[l].pc.Launching? && s.loops[l].pc.names != []
    ensures var launches := Launches(l, |s.loops[l].pc.names|);
            && CanRun(s, launches)
            && LoopAt(RunAll(s, launches), l, Selecting) && RunAll(s, launches).closes == s.closes
    decreases |s.loops[l].pc.names|
  {
    var names := s.loops[l].pc.names;
    var s' := Apply(s, Launch(l));
    var launches := Launches(l, |names|);
    assert launches[0] == Launch(l) && launches[1..] == Launches(l, |names| - 1);
    if names[1..] != [] {
      LaunchesReachSelect(s', l);
    } else {
      assert launches[1..] == [];
    }
  }

  /** A loop that has not exited can be brought back to its select. */
  lemma LoopReachesSelect(s: Server, l: nat) returns (actions: seq<Action>)
    requires Live(s) && s.closes < 2 && l < |s.loops| && s.loops[l].pc != Exited
    ensures NoStart(actions) && CanRun(s, actions)
    ensures LoopAt(RunAll(s, actions), l, Selecting) && RunAll(s, actions).closes == s.closes
  {
    actions := [];
    if s.loops[l].pc.Launching? {
      LaunchesReachSelect(s, l);
      actions := Launches(l, |s.loops[l].pc.names|);
    } else if s.loops[l].pc.Flushing? {
      RunOne(s, FlushEnds(l));
      actions := [FlushEnds(l)];
    }
  }

  /** And then its context can end, and it exits and closes `done`. */
  lemma LoopExits(s: Server, l: nat) returns (actions: seq<Action>)
    requires Live(s) && s.closes < 2 && l < |s.loops| && s.loops[l].pc != Exited
    ensures NoStart(actions) && CanRun(s, actions) && RunAll(s, actions).closes == s.closes + 1
  {
    var toSelect := LoopReachesSelect(s, l);
    var s1 := RunAll(s, toSelect);
    RunOne(s1, ContextDone(l));
    var s2 := Apply(s1, ContextDone(l));
    RunOne(s2, Exit(l));
    RunAppend(s1, [ContextDone(l)], [Exit(l)]);
    RunAppend(s, toSelect, [ContextDone(l)] + [Exit(l)]);
    actions := toSelect + ([ContextDone(l)] + [Exit(l)]);
  }

  /** While two loops have been made, loops can be made to exit until `done` has been closed twice. */
  lemma {:induction false} TwoLoopsPanic(s: Server) returns (actions: seq<Action>)
    requires Sound(s) && |s.loops| >= 2
    ensures NoStart(actions) && CanRun(s, actions) && RunAll(s, actions).closes == 2
    decreases 2 - s.closes
  {
    actions := [];
    if s.closes < 2 {
      var l := SomeLoopLeft(s.loops);
      var exit := LoopExits(s, l);
      RunKeepsSound(s, exit);
      NoStartKeepsLoops(s, exit);
      var more := TwoLoopsPanic(RunAll(s, exit));
      RunAppend(s, exit, more);
      actions := exit + more;
    }
  }

  lemma CanPanicIff(s: Server)
    requires Sound(s)
    ensures CanPanic(s) <==> |s.loops| >= 2
  {
    if |s.loops| >= 2 {
      var actions := TwoLoopsPanic(s);
    }
    if CanPanic(s) {
      var actions :| NoStart(actions) && CanRun(s, actions) && RunAll(s, actions).closes == 2;
      RunKeepsSound(s, actions);
      NoStartKeepsLoops(s, actions);
      var _ := SomeLoopLeft(RunAll(s, actions).loops);
    }
  }

  /**
   The restart theorem: after any run, `done` has been or can yet be closed a second time if and only
   if some `Start` of the run found `cancel` unset although a loop had been made before.
   */
  lemma PanicsIffRestarted(actions: seq<Action>)
    requires CanRun(FRESH, actions)
    ensures CanPanic(RunAll(FRESH, actions)) <==> !NoRestart(FRESH, actions)
  {
    RunKeepsSound(FRESH, actions);
    CanPanicIff(RunAll(FRESH, actions));
    OneLoopIff(FRESH, actions);
  }

  /** The guard a caller can check: in a life without restart, one more `Start` is safe unless it starts again. */
  lemma StartIsSafeIff(actions: seq<Action>)
    requires CanRun(FRESH, actions) && NoRestart(FRESH, actions)
    ensures var s := RunAll(FRESH, actions);
            && Enabled(s, Start)
            && (CanPanic(Apply(s, Start)) <==> s.core.cancel.None? && s.loops != [])
  {
    var s := RunAll(FRESH, actions);
    RunKeepsSound(FRESH, actions);
    OneLoopIff(FRESH, actions);
    CountAtMostOne(s.loops);
    StepLoops(s, Start);
    RunOne(s, Start);
    RunKeepsSound(s, [Start]);
    CanPanicIff(Apply(s, Start));
  }

  /** In one life there is at most one loop and `done` is closed at most once, so nothing panics. */
  lemma OneLifecycleNeverPanics(actions: seq<Action>)
    requires CanRun(FRESH, actions) && NoRestart(FRESH, actions)
    ensures RunAll(FRESH, actions).closes <= 1 && |RunAll(FRESH, actions).loops| <= 1
  {
    RunKeepsSound(FRESH, actions);
    OneLoopIff(FRESH, actions);
    CountAtMostOne(RunAll(FRESH, actions).loops);
  }

  /** A Stop gives `cancel` up whatever becomes of the loop, so a Start after it makes a second loop. */
  lemma StopAllowsRestart(actions: seq<Action>)
    requires CanRun(FRESH, actions)
    requires var s := RunAll(FRESH, actions); s.loops != [] && s.closes < 2
    ensures var s := RunAll(FRESH, actions);
            Enabled(s, Stop) && Enabled(Apply(s, Stop), Start) && CanPanic(Apply(Apply(s, Stop), Start))
  {
    var s := RunAll(FRESH, actions);
    RunKeepsSound(FRESH, actions);
    var s1 := Apply(s, Stop);
    RunOne(s, Stop);
    RunKeepsSound(s, [Stop]);
    RunOne(s1, Start);
    RunKeepsSound(s1, [Start]);
    CanPanicIff(Apply(s1, Start));
  }

  // ----- Stop does not wait in vain -----

  /** What the loop, the workers and the callers of Stop do by themselves: no context ends and nobody gives up waiting. */
  predicate Own(a: Action) {
    || a.Launch? || a.FlushEnds? || a.Exit? || a.WorkerDeletes? || a.WorkerDone?
    || a.StopCancels? || a.StopSeesDone? || a.StopSeesWorkers? || a.StopReturns?
  }

  ghost predicate Returns(s: Server, k: nat, actions: seq<Action>) {
    && (forall i | 0 <= i < |actions| :: Own(actions[i]))
    && CanRun(s, actions) && CallerAt(RunAll(s, actions), k, Returned)
  }

  /** Such steps alone can bring the caller to its return with nil. */
  ghost predicate CanReturn(s: Server, k: nat) {
    exists actions :: Returns(s, k, actions)
  }

  lemma Before(s: Server, a: Action, k: nat)
    requires Own(a) && Enabled(s, a) && CanReturn(Apply(s, a), k)
    ensures CanReturn(s, k)
  {
    var more :| Returns(Apply(s, a), k, more);
    var actions := [a] + more;
    assert actions[0] == a && actions[1..] == more;
    assert Returns(s, k, actions);
  }

  /** One loop, cancelled or about to be by this very caller, who has not given up. */
  ghost predicate Ending(s: Server, k: nat) {
    && Sound(s) && |s.loops| == 1
    && k < |s.stoppers| && s.stoppers[k].pc != TimedOut
    && (s.loops[0].cancelled || (s.stoppers[k].pc == Cancelling && s.stoppers[k].took == Some(0)))
    && (s.stoppers[k].pc == Cancelling && s.stoppers[k].took.Some? ==> s.stoppers[k].took.value == 0)
  }

  function LoopRank(pc: LoopPc): nat {
    match pc
    case Launching(names) => 2 + |names|
    case Flushing => 2
    case Selecting => 1
    case Exited => 0
  }

  function StopRank(pc: StopPc): nat {
    match pc
    case Cancelling => 4
    case WaitDone => 3
    case WaitWorkers => 2
    case StoppingBatches => 1
    case _ => 0
  }

  lemma {:induction false} FindUnfinished(workers: seq<Worker>) returns (w: nat)
    requires CountUnfinished(workers) > 0
    ensures w < |workers| && workers[w].phase != Finished
  {
    w := |workers| - 1;
    if workers[w].phase == Finished {
      w := FindUnfinished(workers[..w]);
    }
  }

  /** A step of the only loop that leaves everything else a caller looks at alone. */
  predicate LoopMoves(s: Server, s': Server) {
    && |s.loops| == |s'.loops| == 1 && s'.loops[0].cancelled == s.loops[0].cancelled && s'.stoppers == s.stoppers
    && LoopRank(s'.loops[0].pc) < LoopRank(s.loops[0].pc)
  }

  lemma LaunchMoves(s: Server)
    requires |s.loops| == 1 && Enabled(s, Launch(0))
    ensures LoopMoves(s, Apply(s, Launch(0)))
  {
    assert RunExclusive(s, s.loops[0].pc.names[0]).loops == s.loops;
  }

  /** The next step of the loop, once it is cancelled. */
  lemma LoopStep(s: Server) returns (a: Action)
    requires Sound(s) && |s.loops| == 1 && s.loops[0].cancelled && s.loops[0].pc != Exited
    ensures Own(a) && Enabled(s, a) && LoopMoves(s, Apply(s, a))
  {
    CountAtMostOne(s.loops);
    match s.loops[0].pc
    case Launching(names) =>
      a := Launch(0);
      LaunchMoves(s);
    case Flushing => a := FlushEnds(0);
    case Selecting => a := Exit(0);
  }

  /** The next step of a worker the caller waits for. */
  lemma WorkerStep(s: Server, k: nat) returns (a: Action)
    requires Ending(s, k) && s.core.wg > 0
    ensures Own(a) && Enabled(s, a) && Ending(Apply(s, a), k)
    ensures Apply(s, a).loops == s.loops && Apply(s, a).stoppers == s.stoppers
    ensures var s' := Apply(s, a);
            CountUnfinished(s'.workers) + CountExecuting(s'.workers) < CountUnfinished(s.workers) + CountExecuting(s.workers)
  {
    CountAtMostOne(s.loops);
    var w := FindUnfinished(s.workers);
    if s.workers[w].phase == Executing {
      a := WorkerDeletes(w);
      CountWorkersUpdate(s.workers, w, s.workers[w].(phase := Deleted));
    } else {
      a := WorkerDone(w);
      CountWorkersUpdate(s.workers, w, s.workers[w].(phase := Finished));
    }
    StepKeepsSound(s, a);
  }

  /** The next step of the caller itself, when nothing holds it up. */
  lemma CallerStep(s: Server, k: nat) returns (a: Action)
    requires Ending(s, k) && s.stoppers[k].pc != Returned
    requires s.stoppers[k].pc == Cancelling || s.loops[0].pc == Exited
    requires s.stoppers[k].pc == WaitWorkers ==> s.core.wg == 0
    ensures Own(a) && Enabled(s, a) && Ending(Apply(s, a), k)
    ensures LoopRank(Apply(s, a).loops[0].pc) == LoopRank(s.loops[0].pc)
    ensures StopRank(Apply(s, a).stoppers[k].pc) < StopRank(s.stoppers[k].pc)
  {
    CountAtMostOne(s.loops);
    match s.stoppers[k].pc
    case Cancelling => a := StopCancels(k);
    case WaitDone => a := StopSeesDone(k);
    case WaitWorkers => a := StopSeesWorkers(k);
    case StoppingBatches => a := StopReturns(k);
    StepKeepsSound(s, a);
  }

  lemma {:induction false} EndingReturns(s: Server, k: nat)
    requires Ending(s, k)
    ensures CanReturn(s, k)
    decreases LoopRank(s.loops[0].pc), StopRank(s.stoppers[k].pc), CountUnfinished(s.workers) + CountExecuting(s.workers)
  {
    if s.stoppers[k].pc == Returned {
      assert Returns(s, k, []);
    } else {
      var a;
      if s.stoppers[k].pc == Cancelling {
        a := CallerStep(s, k);
      } else if s.loops[0].pc != Exited {
        a := LoopStep(s);
        StepKeepsSound(s, a);
      } else if s.stoppers[k].pc == WaitWorkers && s.core.wg > 0 {
        a := WorkerStep(s, k);
      } else {
        a := CallerStep(s, k);
      }
      EndingReturns(Apply(s, a), k);
      Before(s, a, k);
    }
  }

  /**
   Stop does stop. In every reachable state, restarts included, a caller past its cancelling has
   cancelled the loop it took, and only a cancelled loop exits. In one life, a caller that took the
   cancel function and has not given up, wherever it is, can be brought to its return by the steps of the
   loop, the workers and the callers alone: no context need end and nobody need time out.
   */
  lemma StopCanReturn(actions: seq<Action>, k: nat)
    requires CanRun(FRESH, actions)
    requires var s := RunAll(FRESH, actions); k < |s.stoppers| && s.stoppers[k].took.Some?
    ensures var s := RunAll(FRESH, actions);
            var l := s.stoppers[k].took.value;
            l < |s.loops| && (s.stoppers[k].pc != Cancelling ==> s.loops[l].cancelled)
    ensures NoRestart(FRESH, actions) && RunAll(FRESH, actions).stoppers[k].pc != TimedOut ==> CanReturn(RunAll(FRESH, actions), k)
  {
    RunKeepsSound(FRESH, actions);
    RunKeepsCancelsObeyed(FRESH, actions);
    OneLoopIff(FRESH, actions);
    if NoRestart(FRESH, actions) && RunAll(FRESH, actions).stoppers[k].pc != TimedOut {
      EndingReturns(RunAll(FRESH, actions), k);
    }
  }

  // ----- Loops end when told to, and only then -----

  predicate Cancelled(s: Server, l: nat) {
    l < |s.loops| && s.loops[l].cancelled
  }

  /** Some caller of Stop took the loop's cancel function and has called it. */
  ghost predicate StoppedBy(s: Server, l: nat) {
    exists k | 0 <= k < |s.stoppers| :: s.stoppers[k].took == Some(l) && s.stoppers[k].pc != Cancelling
  }

  lemma StepStops(s: Server, a: Action, l: nat)
    requires Enabled(s, a) && CancelsObeyed(s)
    ensures StoppedBy(Apply(s, a), l) <==> StoppedBy(s, l) || (a.StopCancels? && s.stoppers[a.caller].took == Some(l))
  {
    var s' := Apply(s, a);
    assert forall k | 0 <= k < |s.stoppers| ::
        s'.stoppers[k].took == s.stoppers[k].took && (s.stoppers[k].pc != Cancelling ==> s'.stoppers[k].pc != Cancelling);
  }

  lemma StepCancels(s: Server, a: Action, l: nat)
    requires Enabled(s, a) && CancelsObeyed(s)
    ensures Cancelled(Apply(s, a), l)
       <==> Cancelled(s, l) || a == ContextDone(l) || (a.StopCancels? && s.stoppers[a.caller].took == Some(l))
  {
  }

  lemma {:induction false} RunCancels(s: Server, actions: seq<Action>, l: nat)
    requires CanRun(s, actions) && CancelsObeyed(s)
    ensures StoppedBy(s, l) ==> StoppedBy(RunAll(s, actions), l)
    ensures Cancelled(RunAll(s, actions), l) <==> Cancelled(s, l) || ContextDone(l) in actions || StoppedBy(RunAll(s, actions), l)
    decreases |actions|
  {
    if actions != [] {
      StepStops(s, actions[0], l);
      StepCancels(s, actions[0], l);
      StepKeepsCancelsObeyed(s, actions[0]);
      RunCancels(Apply(s, actions[0]), actions[1..], l);
      assert actions == [actions[0]] + actions[1..];
    }
  }

  /**
   After any run, restarts included, a loop is told to end exactly if its context ended or a caller of
   Stop that took its cancel function has called it; a loop that has exited was told to, and one in its
   select that has been told can exit, as can no other.
   */
  lemma LoopsEndWhenTold(actions: seq<Action>, l: nat)
    requires CanRun(FRESH, actions) && l < |RunAll(FRESH, actions).loops|
    ensures var s := RunAll(FRESH, actions);
            var told := ContextDone(l) in actions || StoppedBy(s, l);
            && (s.loops[l].cancelled <==> told)
            && (s.loops[l].pc == Exited ==> told)
            && (s.loops[l].pc == Selecting && s.closes < 2 ==> (Enabled(s, Exit(l)) <==> told))
  {
    RunCancels(FRESH, actions, l);
    RunKeepsCancelsObeyed(FRESH, actions);
  }

  // ----- What the loop starts -----

  lemma {:induction false} LaunchesRunAll(s: Server, l: nat, name: string)
    requires s.closes < 2 && l < |s.loops| && s.loops[l].pc.Launching? && s.loops[l].pc.names != []
    requires name in s.loops[l].pc.names || name in s.core.running
    ensures var launches := Launches(l, |s.loops[l].pc.names|);
            CanRun(s, launches) && name in RunAll(s, launches).core.running
    decreases |s.loops[l].pc.names|
  {
    var names := s.loops[l].pc.names;
    var s' := Apply(s, Launch(l));
    var launches := Launches(l, |names|);
    assert launches[0] == Launch(l) && launches[1..] == Launches(l, |names| - 1);
    LaunchesReachSelect(s, l);
    assert name == names[0] || name in names[1..] || name in s.core.running;
    if names[1..] != [] {
      LaunchesRunAll(s', l, name);
    } else {
      assert launches[1..] == [];
    }
  }

  /**
   A tick leads, by the loop's own next steps, to each of the ticker's tasks running, started now or
   still running from before; and a Start that makes a loop leads to the initial tasks running.
   */
  lemma TasksAreStarted(s: Server, l: nat, ticker: Ticker, name: string)
    requires s.closes < 2
    ensures LoopAt(s, l, Selecting) && name in TasksOf(ticker) ==>
              var s' := Apply(s, Tick(l, ticker));
              var launches := Launches(l, |TasksOf(ticker)|);
              CanRun(s', launches) && name in RunAll(s', launches).core.running && LoopAt(RunAll(s', launches), l, Selecting)
    ensures s.core.cancel.None? && name in INITIAL_TASKS ==>
              var s' := Apply(s, Start);
              var launches := Launches(|s.loops|, |INITIAL_TASKS|);
              CanRun(s', launches) && name in RunAll(s', launches).core.running
  {
    if LoopAt(s, l, Selecting) && name in TasksOf(ticker) {
      LaunchesRunAll(Apply(s, Tick(l, ticker)), l, name);
      LaunchesReachSelect(Apply(s, Tick(l, ticker)), l);
    }
    if s.core.cancel.None? && name in INITIAL_TASKS {
      LaunchesRunAll(Apply(s, Start), |s.loops|, name);
    }
  }
}
