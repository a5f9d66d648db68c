/** The in-process worker pool: submitters, workers started one by one, and shutdown, in every interleaving. */
module WorkerPool {

  type JobNo = nat
  type WorkerNo = nat

  // The pool a server starts: twice as many workers as processors, at least four, and a buffer twice that.
  datatype Config = Config(workerCount: nat, buffer: nat)

  method StartWorkerPool(cpuCount: nat) returns (config: Config)
    ensures config.workerCount >= 4 && config.workerCount >= 2 * cpuCount
    ensures config.workerCount == 4 || config.workerCount == 2 * cpuCount
    ensures config.buffer == 2 * config.workerCount
  {
    var workerCount := cpuCount * 2;
    if workerCount < 4 {
      workerCount := 4;
    }
    var buffer := workerCount * 2;
    return Config(workerCount, buffer);
  }

  /**
   Jobs are numbered in the order in which the channel accepted them. `spawned` workers were added to the wait group;
   the worker w of them is idle unless it runs a job or has exited.
   */
  datatype State = State(
    submitted: nat,
    pending: seq<JobNo>,
    running: map<WorkerNo, JobNo>,
    finished: set<JobNo>,
    spawned: nat,
    exited: set<WorkerNo>,
    closed: bool,
    waited: bool)

  datatype Action =
    | Submit
    | Spawn                    // one turn of Start's loop
    | Dequeue(worker: WorkerNo)
    | Finish(worker: WorkerNo) // the job ends, with or without an error
    | Exit(worker: WorkerNo)
    | Close                    // Shutdown closes the channel
    | WaitReturns              // the wait group is at zero, so Shutdown leaves by its done branch

  const EMPTY := State(0, [], map[], {}, 0, {}, false, false)

  predicate IsIdle(s: State, w: WorkerNo) {
    w < s.spawned && w !in s.exited && w !in s.running
  }

  predicate Enabled(config: Config, s: State, a: Action) {
    match a
    case Submit => !s.closed && |s.pending| < config.buffer
    case Spawn => s.spawned < config.workerCount
    case Dequeue(w) => IsIdle(s, w) && s.pending != []
    case Finish(w) => w in s.running
    case Exit(w) => IsIdle(s, w) && s.closed && s.pending == []
    case Close => !s.closed
    case WaitReturns => s.closed && !s.waited && |s.exited| == s.spawned
  }

  function Next(config: Config, s: State, a: Action): State
    requires Enabled(config, s, a)
  {
    match a
    case Submit => s.(submitted := s.submitted + 1, pending := s.pending + [s.submitted])
    case Spawn => s.(spawned := s.spawned + 1)
    case Dequeue(w) => s.(running := s.running[w := s.pending[0]], pending := s.pending[1..])
    case Finish(w) => s.(finished := s.finished + {s.running[w]}, running := s.running - {w})
    case Exit(w) => s.(exited := s.exited + {w})
    case Close => s.(closed := true)
    case WaitReturns => s.(waited := true)
  }

  predicate Legal(config: Config, s: State, acts: seq<Action>)
    decreases |acts|
  {
    acts == [] || (Enabled(config, s, acts[0]) && Legal(config, Next(config, s, acts[0]), acts[1..]))
  }

  function Run(config: Config, s: State, acts: seq<Action>): State
    requires Legal(config, s, acts)
    decreases |acts|
  {
    if acts == [] then s else Run(config, Next(config, s, acts[0]), acts[1..])
  }

  // The jobs taken from the channel so far.
  function Dequeued(s: State): int {
    s.submitted - |s.pending|
  }

  /**
   The channel holds the latest submissions in order, so jobs leave it in submission order; those that left it are
   split between the running ones, each on one worker, and the finished ones.
   */
  predicate Inv(s: State) {
    && 0 <= Dequeued(s)
    && (forall i | 0 <= i < |s.pending| :: s.pending[i] == Dequeued(s) + i)
    && (forall job | 0 <= job < Dequeued(s) :: job in s.finished || job in s.running.Values)
    && (forall job | job in s.finished :: job < Dequeued(s) && job !in s.running.Values)
    && (forall w | w in s.running :: s.running[w] < Dequeued(s) && w < s.spawned && w !in s.exited)
    && (forall v, w | v in s.running && w in s.running && v != w :: s.running[v] != s.running[w])
    && (forall w | w in s.exited :: w < s.spawned)
    && (s.exited != {} ==> s.closed && s.pending == [])
  }

  lemma DequeueInv(config: Config, s: State, w: WorkerNo)
    requires Inv(s) && Enabled(config, s, Dequeue(w))
    ensures Inv(Next(config, s, Dequeue(w)))
  {
    var t := Next(config, s, Dequeue(w));
    forall job | 0 <= job < Dequeued(t)
      ensures job in t.finished || job in t.running.Values
    {
      if job == Dequeued(s) {
        assert t.running[w] == job;
      } else if job !in s.finished {
        var v :| v in s.running && s.running[v] == job;
        assert t.running[v] == job;
      }
    }
  }

  lemma FinishInv(config: Config, s: State, w: WorkerNo)
    requires Inv(s) && Enabled(config, s, Finish(w))
    ensures Inv(Next(config, s, Finish(w)))
  {
    var t := Next(config, s, Finish(w));
    forall job | 0 <= job < Dequeued(t)
      ensures job in t.finished || job in t.running.Values
    {
      if job !in t.finished {
        var v :| v in s.running && s.running[v] == job;
        assert v != w && t.running[v] == job;
      }
    }
  }

  lemma NextInv(config: Config, s: State, a: Action)
    requires Inv(s) && Enabled(config, s, a)
    ensures Inv(Next(config, s, a))
  {
    match a
    case Dequeue(w) => DequeueInv(config, s, w);
    case Finish(w) => FinishInv(config, s, w);
    case _ => assert Next(config, s, a).running == s.running;
  }

  lemma {:induction false} RunInv(config: Config, s: State, acts: seq<Action>)
    requires Inv(s) && Legal(config, s, acts)
    ensures Inv(Run(config, s, acts))
    decreases |acts|
  {
    if acts != [] {
      NextInv(config, s, acts[0]);
      RunInv(config, Next(config, s, acts[0]), acts[1..]);
    }
  }

  predicate IsRunning(s: State, job: JobNo) {
    exists w :: w in s.running && s.running[w] == job
  }

  /**
   In every reachable state each submitted job is in exactly one of three places, and on at most one worker; no job
   is anywhere that was not submitted.
   */
  lemma EachJobInOnePlace(config: Config, acts: seq<Action>, job: JobNo)
    requires Legal(config, EMPTY, acts)
    ensures var s := Run(config, EMPTY, acts);
      && (job < s.submitted <==> job in s.pending || IsRunning(s, job) || job in s.finished)
      && !(job in s.pending && IsRunning(s, job))
      && !(job in s.pending && job in s.finished)
      && !(IsRunning(s, job) && job in s.finished)
      && (forall v, w | v in s.running && w in s.running && s.running[v] == job && s.running[w] == job :: v == w)
      && (forall i, j | 0 <= i < j < |s.pending| :: s.pending[i] != s.pending[j])
  {
    var s := Run(config, EMPTY, acts);
    RunInv(config, EMPTY, acts);
    if Dequeued(s) <= job < s.submitted {
      assert s.pending[job - Dequeued(s)] == job;
    }
    if job < Dequeued(s) && job !in s.finished {
      assert job in s.running.Values;
      assert IsRunning(s, job);
    }
  }

  // The channel never holds more jobs than the buffer, and the pool never has more workers than configured.
  predicate IsBounded(config: Config, s: State) {
    |s.pending| <= config.buffer && s.spawned <= config.workerCount
  }

  lemma {:induction false} StaysBounded(config: Config, s: State, acts: seq<Action>)
    requires IsBounded(config, s) && Legal(config, s, acts)
    ensures IsBounded(config, Run(config, s, acts))
    decreases |acts|
  {
    if acts != [] {
      StaysBounded(config, Next(config, s, acts[0]), acts[1..]);
    }
  }

  // Jobs are accepted exactly while the pool is open and the buffer has room, and an idle worker takes any that waits.
  lemma WhatIsEnabled(config: Config, acts: seq<Action>, w: WorkerNo)
    requires Legal(config, EMPTY, acts)
    ensures var s := Run(config, EMPTY, acts);
            && |s.pending| <= config.buffer
            && (Enabled(config, s, Submit) <==> !s.closed && |s.pending| < config.buffer)
            && (Enabled(config, s, Dequeue(w)) <==>
                  s.pending != [] && w < s.spawned && w !in s.exited && w !in s.running)
            && (Enabled(config, s, Exit(w)) ==> s.closed && s.pending == [])
  {
    StaysBounded(config, EMPTY, acts);
  }

  // ----- Order -----

  // The jobs that a run takes from the channel, in order.
  function Taken(config: Config, s: State, acts: seq<Action>): seq<JobNo>
    requires Legal(config, s, acts)
    decreases |acts|
  {
    if acts == [] then []
    else (if acts[0].Dequeue? then [s.pending[0]] else []) + Taken(config, Next(config, s, acts[0]), acts[1..])
  }

  lemma {:induction false} TakenInOrder(config: Config, s: State, acts: seq<Action>)
    requires Inv(s) && Legal(config, s, acts)
    ensures |Taken(config, s, acts)| == Dequeued(Run(config, s, acts)) - Dequeued(s)
    ensures forall i | 0 <= i < |Taken(config, s, acts)| :: Taken(config, s, acts)[i] == Dequeued(s) + i
    decreases |acts|
  {
    if acts != [] {
      NextInv(config, s, acts[0]);
      TakenInOrder(config, Next(config, s, acts[0]), acts[1..]);
    }
  }

  // Jobs leave the channel in the order in which they were submitted, none skipped and none twice.
  lemma DequeueOrderIsSubmissionOrder(config: Config, acts: seq<Action>)
    requires Legal(config, EMPTY, acts)
    ensures forall i | 0 <= i < |Taken(config, EMPTY, acts)| :: Taken(config, EMPTY, acts)[i] == i
    ensures |Taken(config, EMPTY, acts)| + |Run(config, EMPTY, acts).pending| == Run(config, EMPTY, acts).submitted
  {
    TakenInOrder(config, EMPTY, acts);
  }

  // ----- Shutdown -----

  predicate Drained(s: State) {
    s.pending == [] && s.running == map[]
  }

  lemma {:induction false} BoundedCount(ws: set<WorkerNo>, n: nat)
    requires forall w | w in ws :: w < n
    ensures |ws| <= n
    decreases n
  {
    if n == 0 {
      assert ws == {};
    } else {
      BoundedCount(ws - {n - 1}, n - 1);
      assert ws <= (ws - {n - 1}) + {n - 1};
    }
  }

  lemma AllExited(s: State)
    requires Inv(s) && |s.exited| == s.spawned
    ensures s.running == map[]
  {
    if s.running != map[] {
      var w :| w in s.running;
      BoundedCount(s.exited + {w}, s.spawned);
    }
  }

  /**
   When Shutdown leaves by its done branch, nothing is pending or running, with one exception: no worker had been
   started yet and jobs were waiting.
   */
  lemma ShutdownDrainsIff(config: Config, s: State)
    requires Inv(s) && Enabled(config, s, WaitReturns)
    ensures Drained(s) <==> s.spawned > 0 || s.pending == []
  {
    AllExited(s);
  }

  // If Start has completed for a pool with workers, the done branch means drained, and the pool stays drained.
  lemma ShutdownAfterStart(config: Config, acts: seq<Action>, later: seq<Action>)
    requires config.workerCount > 0
    requires Legal(config, EMPTY, acts) && Enabled(config, Run(config, EMPTY, acts), WaitReturns)
    requires Run(config, EMPTY, acts).spawned == config.workerCount
    requires Legal(config, Run(config, EMPTY, acts), later)
    ensures Drained(Run(config, EMPTY, acts))
    ensures Drained(Run(config, Run(config, EMPTY, acts), later))
    ensures forall job: JobNo | job < Run(config, EMPTY, acts).submitted :: job in Run(config, EMPTY, acts).finished
  {
    var s := Run(config, EMPTY, acts);
    RunInv(config, EMPTY, acts);
    ShutdownDrainsIff(config, s);
    StaysDrained(config, s, later);
    assert s.running.Values == {};
    assert Dequeued(s) == s.submitted;
  }

  lemma {:induction false} StaysDrained(config: Config, s: State, acts: seq<Action>)
    requires Inv(s) && Legal(config, s, acts) && s.closed && Drained(s)
    ensures Drained(Run(config, s, acts))
    decreases |acts|
  {
    if acts != [] {
      NextInv(config, s, acts[0]);
      StaysDrained(config, Next(config, s, acts[0]), acts[1..]);
    }
  }

  // Start runs in its own goroutine, so the exception is reachable: Shutdown may report done over a waiting job.
  lemma EarlyShutdownLosesSight(config: Config)
    requires config.buffer > 0
    ensures Legal(config, EMPTY, [Submit, Close, WaitReturns])
    ensures var s := Run(config, EMPTY, [Submit, Close, WaitReturns]); s.waited && s.pending == [0]
  {
    var s1 := Next(config, EMPTY, Submit);
    var s2 := Next(config, s1, Close);
    var s3 := Next(config, s2, WaitReturns);
    var rest: seq<Action> := [];
    assert [WaitReturns][1..] == rest && Legal(config, s3, rest);
    assert [Close, WaitReturns][1..] == [WaitReturns];
    assert Legal(config, s2, [WaitReturns]) && Run(config, s2, [WaitReturns]) == s3;
    assert [Submit, Close, WaitReturns][1..] == [Close, WaitReturns];
    assert Legal(config, s1, [Close, WaitReturns]) && Run(config, s1, [Close, WaitReturns]) == s3;
  }
}
