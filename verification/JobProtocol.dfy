/**
 The asynchronous job protocol: any number of handlers, started by at-least-once delivery, race on the ledger
 while a sweeper deletes stale claims and processes crash. One action is one atomic statement of the serialised
 writer, one outcome of a job's execution, a crash, or the passing of time; a run is any sequence of enabled actions.
 */
module JobProtocol {
  import opened Ledger

  type ExecId = nat

  datatype Phase = Executing | Failed | Succeeded(result: string)

  // A handler between winning its claim and having written, or given up writing, the end of it.
  datatype Executor = Executor(job: JobId, claimedAt: nat, phase: Phase)

  /**
   The field `owner` is a history variable: the program stores no owner, it names the executor whose insert
   made the row that is present. `started` counts the executors ever started.
   */
  datatype State = State(
    now: nat,
    rows: Rows,
    owner: map<JobId, ExecId>,
    live: map<ExecId, Executor>,
    started: nat)

  datatype Action =
    | Tick(nanos: nat)
    | Deliver(job: JobId)             // a delivery reaches its claiming insert
    | ClaimTimeout(job: JobId)        // the insert is not written; the handler reports an error
    | ExecOk(exec: ExecId, result: string)
    | ExecFail(exec: ExecId)
    | Release(exec: ExecId)           // the failed handler's delete
    | ReleaseTimeout(exec: ExecId)    // that delete is not written
    | Complete(exec: ExecId)          // the successful handler's update
    | CompleteTimeout(exec: ExecId)   // that update is not written
    | Sweep
    | Crash(execs: set<ExecId>)

  predicate Enabled(s: State, a: Action) {
    match a
    case Tick(_) => true
    case Deliver(_) => true
    case ClaimTimeout(_) => true
    // A result is marshalled JSON text, which is never empty.
    case ExecOk(e, result) => e in s.live && s.live[e].phase == Executing && result != ""
    case ExecFail(e) => e in s.live && s.live[e].phase == Executing
    case Release(e) => e in s.live && s.live[e].phase == Failed
    case ReleaseTimeout(e) => e in s.live && s.live[e].phase == Failed
    case Complete(e) => e in s.live && s.live[e].phase.Succeeded?
    case CompleteTimeout(e) => e in s.live && s.live[e].phase.Succeeded?
    case Sweep => true
    case Crash(execs) => execs <= s.live.Keys
  }

  function Owners(owner: map<JobId, ExecId>, rows: Rows): map<JobId, ExecId> {
    map id | id in owner && id in rows :: owner[id]
  }

  function Next(s: State, a: Action): State
    requires Enabled(s, a)
  {
    match a
    case Tick(nanos) => s.(now := s.now + nanos)
    case Deliver(job) =>
      var rows := InsertIfAbsent(s.rows, job, "", Unix(s.now));
      if job in s.rows then s.(rows := rows)
      else s.(rows := rows,
              owner := s.owner[job := s.started],
              live := s.live[s.started := Executor(job, s.now, Executing)],
              started := s.started + 1)
    case ClaimTimeout(_) => s
    case ExecOk(e, result) => s.(live := s.live[e := s.live[e].(phase := Succeeded(result))])
    case ExecFail(e) => s.(live := s.live[e := s.live[e].(phase := Failed)])
    case Release(e) =>
      var rows := DeleteClaim(s.rows, s.live[e].job);
      s.(rows := rows, owner := Owners(s.owner, rows), live := s.live - {e})
    case ReleaseTimeout(e) => s.(live := s.live - {e})
    case Complete(e) =>
      s.(rows := UpdateResult(s.rows, s.live[e].job, s.live[e].phase.result), live := s.live - {e})
    case CompleteTimeout(e) => s.(live := s.live - {e})
    case Sweep =>
      var rows := DeleteStale(s.rows, Unix(s.now));
      s.(rows := rows, owner := Owners(s.owner, rows))
    case Crash(execs) => s.(live := s.live - execs)
  }

  predicate Legal(s: State, acts: seq<Action>)
    decreases |acts|
  {
    acts == [] || (Enabled(s, acts[0]) && Legal(Next(s, acts[0]), acts[1..]))
  }

  function Run(s: State, acts: seq<Action>): State
    requires Legal(s, acts)
    decreases |acts|
  {
    if acts == [] then s else Run(Next(s, acts[0]), acts[1..])
  }

  // What holds of every state, whatever the timing.
  predicate WellFormed(s: State) {
    && s.owner.Keys == s.rows.Keys
    && (forall e | e in s.live :: e < s.started && s.live[e].claimedAt <= s.now && s.live[e].phase != Succeeded(""))
    && (forall job | job in s.owner :: s.owner[job] < s.started)
    && (forall job | job in s.owner && s.owner[job] in s.live ::
          s.live[s.owner[job]].job == job && s.rows[job].createdAt == Unix(s.live[s.owner[job]].claimedAt))
  }

  // A server start: nothing executes; the ledger may hold rows left by an earlier process.
  predicate Initial(s: State) {
    WellFormed(s) && s.live == map[]
  }

  // Executor e still owns the claim it made.
  predicate OwnsClaim(s: State, e: ExecId) {
    e in s.live && IsClaim(s.rows, s.live[e].job) && s.live[e].job in s.owner && s.owner[s.live[e].job] == e
  }

  predicate ExclusiveFor(s: State, job: JobId) {
    forall e | e in s.live && s.live[e].job == job :: OwnsClaim(s, e)
  }

  predicate Exclusive(s: State) {
    forall e | e in s.live :: OwnsClaim(s, e)
  }

  predicate Overlap(s: State, job: JobId, e1: ExecId, e2: ExecId) {
    e1 in s.live && e2 in s.live && e1 != e2 && s.live[e1].job == job && s.live[e2].job == job
  }

  // The timing assumption: no live executor is older than the sweeper's limit.
  predicate Timely(s: State) {
    forall e | e in s.live :: s.now - s.live[e].claimedAt <= CLAIM_TIMEOUT_SECONDS * NANOS_PER_SECOND
  }

  predicate TimelyRun(s: State, acts: seq<Action>)
    requires Legal(s, acts)
    decreases |acts|
  {
    Timely(s) && (acts != [] ==> TimelyRun(Next(s, acts[0]), acts[1..]))
  }

  // ----- Counting what a run did to one job's row -----

  datatype Effect = Claimed | Released | Swept | Written

  // Action a, taken in s, has this effect on the job's row.
  predicate Has(effect: Effect, s: State, a: Action, job: JobId)
    requires Enabled(s, a)
  {
    match effect
    case Claimed => a == Deliver(job) && job !in s.rows
    case Released => a.Release? && s.live[a.exec].job == job && IsClaim(s.rows, job)
    case Swept => a.Sweep? && job in s.rows && IsStale(s.rows[job], Unix(s.now))
    case Written => a.Complete? && s.live[a.exec].job == job && job in s.rows
  }

  function Count(effect: Effect, s: State, acts: seq<Action>, job: JobId): nat
    requires Legal(s, acts)
    decreases |acts|
  {
    if acts == [] then 0
    else (if Has(effect, s, acts[0], job) then 1 else 0) + Count(effect, Next(s, acts[0]), acts[1..], job)
  }

  function Present(s: State, job: JobId): nat {
    if job in s.rows then 1 else 0
  }

  // ----- Runs and their prefixes -----

  lemma {:induction false} PrefixIsLegal(s: State, acts: seq<Action>, i: nat)
    requires Legal(s, acts) && i <= |acts|
    ensures Legal(s, acts[..i])
    ensures i < |acts| ==> Enabled(Run(s, acts[..i]), acts[i])
    decreases |acts|
  {
    if i > 0 {
      PrefixIsLegal(Next(s, acts[0]), acts[1..], i - 1);
      assert acts[..i][1..] == acts[1..][..i - 1];
    }
  }

  // The state just before the i-th action.
  function StateAt(s: State, acts: seq<Action>, i: nat): State
    requires Legal(s, acts) && i <= |acts|
  {
    PrefixIsLegal(s, acts, i);
    Run(s, acts[..i])
  }

  lemma {:induction false} StateAtStep(s: State, acts: seq<Action>, i: nat)
    requires Legal(s, acts) && 0 < i <= |acts|
    ensures StateAt(s, acts, i) == StateAt(Next(s, acts[0]), acts[1..], i - 1)
  {
    assert acts[..i][1..] == acts[1..][..i - 1];
    PrefixIsLegal(s, acts, i);
  }

  lemma {:induction false} RunConcat(s: State, first: seq<Action>, second: seq<Action>)
    requires Legal(s, first) && Legal(Run(s, first), second)
    ensures Legal(s, first + second)
    ensures Run(s, first + second) == Run(Run(s, first), second)
    decreases |first|
  {
    if first == [] {
      assert first + second == second;
    } else {
      RunConcat(Next(s, first[0]), first[1..], second);
      assert (first + second)[1..] == first[1..] + second;
    }
  }

  // ----- What every action keeps -----

  lemma NextWellFormed(s: State, a: Action)
    requires WellFormed(s) && Enabled(s, a)
    ensures WellFormed(Next(s, a))
  {
  }

  lemma {:induction false} RunWellFormed(s: State, acts: seq<Action>)
    requires WellFormed(s) && Legal(s, acts)
    ensures WellFormed(Run(s, acts))
    decreases |acts|
  {
    if acts != [] {
      NextWellFormed(s, acts[0]);
      RunWellFormed(Next(s, acts[0]), acts[1..]);
    }
  }

  /**
   Every claim ever won is still there, was released, or was swept: whatever the interleaving and the timing,
   and whatever the state the run starts from.
   */
  lemma {:induction false} LedgerConservation(s: State, acts: seq<Action>, job: JobId)
    requires Legal(s, acts)
    ensures Present(s, job) + Count(Claimed, s, acts, job)
         == Count(Released, s, acts, job) + Count(Swept, s, acts, job) + Present(Run(s, acts), job)
    decreases |acts|
  {
    if acts != [] {
      LedgerConservation(Next(s, acts[0]), acts[1..], job);
    }
  }

  // The action starts an execution of this job.
  predicate Starts(s: State, a: Action, job: JobId)
    requires Enabled(s, a)
  {
    exists e :: e in Next(s, a).live && e !in s.live && Next(s, a).live[e].job == job
  }

  function Executions(s: State, acts: seq<Action>, job: JobId): nat
    requires Legal(s, acts)
    decreases |acts|
  {
    if acts == [] then 0
    else (if Starts(s, acts[0], job) then 1 else 0) + Executions(Next(s, acts[0]), acts[1..], job)
  }

  // Executions start exactly where claims are won.
  lemma {:induction false} ExecutionsAreClaims(s: State, acts: seq<Action>, job: JobId)
    requires WellFormed(s) && Legal(s, acts)
    ensures Executions(s, acts, job) == Count(Claimed, s, acts, job)
    decreases |acts|
  {
    if acts != [] {
      NextWellFormed(s, acts[0]);
      ExecutionsAreClaims(Next(s, acts[0]), acts[1..], job);
      if Has(Claimed, s, acts[0], job) {
        assert s.started in Next(s, acts[0]).live && s.started !in s.live;
      }
    }
  }

  lemma ExecutionsBounded(s: State, acts: seq<Action>, job: JobId)
    requires WellFormed(s) && Legal(s, acts)
    ensures Executions(s, acts, job) <= 1 + Count(Released, s, acts, job) + Count(Swept, s, acts, job)
  {
    ExecutionsAreClaims(s, acts, job);
    LedgerConservation(s, acts, job);
  }

  // ----- A completed job is absorbing -----

  lemma {:induction false} CompletedAbsorbs(s: State, acts: seq<Action>, job: JobId)
    requires WellFormed(s) && Legal(s, acts) && IsCompleted(s.rows, job)
    ensures IsCompleted(Run(s, acts).rows, job)
    ensures Count(Claimed, s, acts, job) == 0 && Executions(s, acts, job) == 0
    ensures Count(Released, s, acts, job) == 0
    ensures Count(Swept, s, acts, job) == 0
    ensures forall e | e in Run(s, acts).live && Run(s, acts).live[e].job == job :: e in s.live && s.live[e].job == job
    decreases |acts|
  {
    if acts != [] {
      NextWellFormed(s, acts[0]);
      CompletedAbsorbs(Next(s, acts[0]), acts[1..], job);
      assert !Starts(s, acts[0], job);
    }
  }

  // ----- Mutual exclusion under the timing assumption -----

  // A sweep takes a live claim of this job.
  predicate SweepsLiveClaim(s: State, a: Action, job: JobId) {
    && a.Sweep?
    && job in s.rows
    && IsStale(s.rows[job], Unix(s.now))
    && exists e :: e in s.live && s.live[e].job == job
  }

  lemma ExclusiveForStep(s: State, a: Action, job: JobId)
    requires WellFormed(s) && Enabled(s, a) && ExclusiveFor(s, job)
    requires !SweepsLiveClaim(s, a, job)
    ensures ExclusiveFor(Next(s, a), job)
  {
    var t := Next(s, a);
    forall e | e in t.live && t.live[e].job == job
      ensures OwnsClaim(t, e)
    {
      if e in s.live {
        assert OwnsClaim(s, e);
      }
    }
  }

  // Whole seconds round in the sweeper's favour: a claim it may delete is strictly older than the limit.
  lemma StaleIsOverdue(claimedAt: nat, now: nat)
    requires claimedAt <= now
    ensures Unix(claimedAt) < Unix(now) - CLAIM_TIMEOUT_SECONDS
            ==> now - claimedAt > CLAIM_TIMEOUT_SECONDS * NANOS_PER_SECOND
    ensures now - claimedAt >= (CLAIM_TIMEOUT_SECONDS + 1) * NANOS_PER_SECOND
            ==> Unix(claimedAt) < Unix(now) - CLAIM_TIMEOUT_SECONDS
  {
  }

  lemma TimelySweepSparesLive(s: State, a: Action, job: JobId)
    requires WellFormed(s) && Timely(s) && ExclusiveFor(s, job)
    ensures !SweepsLiveClaim(s, a, job)
  {
    if SweepsLiveClaim(s, a, job) {
      var e :| e in s.live && s.live[e].job == job;
      assert OwnsClaim(s, e);
      StaleIsOverdue(s.live[e].claimedAt, s.now);
    }
  }

  lemma ExclusiveStep(s: State, a: Action)
    requires WellFormed(s) && Enabled(s, a) && Exclusive(s) && Timely(s)
    ensures Exclusive(Next(s, a))
  {
    var t := Next(s, a);
    forall e | e in t.live
      ensures OwnsClaim(t, e)
    {
      var job := t.live[e].job;
      TimelySweepSparesLive(s, a, job);
      ExclusiveForStep(s, a, job);
    }
  }

  lemma OwnersDoNotOverlap(s: State, job: JobId, e1: ExecId, e2: ExecId)
    requires ExclusiveFor(s, job)
    ensures !Overlap(s, job, e1, e2)
  {
    if e1 in s.live && e2 in s.live && s.live[e1].job == job && s.live[e2].job == job {
      assert OwnsClaim(s, e1) && OwnsClaim(s, e2);
    }
  }

  /**
   If no executor outlives the limit, then in every state of the run each live executor owns its claim, so no two
   live executors share a job.
   */
  lemma {:induction false} MutualExclusion(s: State, acts: seq<Action>)
    requires WellFormed(s) && Exclusive(s) && Legal(s, acts) && TimelyRun(s, acts)
    ensures Exclusive(Run(s, acts))
    ensures forall job, e1, e2 :: !Overlap(Run(s, acts), job, e1, e2)
    decreases |acts|
  {
    if acts != [] {
      NextWellFormed(s, acts[0]);
      ExclusiveStep(s, acts[0]);
      MutualExclusion(Next(s, acts[0]), acts[1..]);
    } else {
      forall job, e1, e2
        ensures !Overlap(s, job, e1, e2)
      {
        OwnersDoNotOverlap(s, job, e1, e2);
      }
    }
  }

  lemma {:induction false} TimelyPrefix(s: State, acts: seq<Action>, i: nat)
    requires Legal(s, acts) && TimelyRun(s, acts) && i <= |acts|
    ensures Legal(s, acts[..i]) && TimelyRun(s, acts[..i])
    decreases |acts|
  {
    PrefixIsLegal(s, acts, i);
    if i > 0 {
      TimelyPrefix(Next(s, acts[0]), acts[1..], i - 1);
      assert acts[..i][1..] == acts[1..][..i - 1];
    }
  }

  // Under the same assumption, every release and every completion meets the writer's own claim, still unresolved.
  lemma WritersMeetTheirOwnClaim(s: State, acts: seq<Action>, i: nat)
    requires WellFormed(s) && Exclusive(s) && Legal(s, acts) && TimelyRun(s, acts)
    requires i < |acts| && (acts[i].Release? || acts[i].Complete?)
    ensures OwnsClaim(StateAt(s, acts, i), acts[i].exec)
  {
    PrefixIsLegal(s, acts, i);
    TimelyPrefix(s, acts, i);
    MutualExclusion(s, acts[..i]);
  }

  // Under the same assumption, a result is written at most once, and never over an earlier one.
  lemma {:induction false} ResultWrittenOnce(s: State, acts: seq<Action>, job: JobId)
    requires WellFormed(s) && Exclusive(s) && Legal(s, acts) && TimelyRun(s, acts)
    ensures Count(Written, s, acts, job) + (if IsCompleted(s.rows, job) then 1 else 0)
         == (if IsCompleted(Run(s, acts).rows, job) then 1 else 0)
    decreases |acts|
  {
    if acts != [] {
      var a := acts[0];
      NextWellFormed(s, a);
      ExclusiveStep(s, a);
      ResultWrittenOnce(Next(s, a), acts[1..], job);
      if a.Complete? {
        assert OwnsClaim(s, a.exec);
      }
    }
  }

  lemma ExclusiveResultStable(s: State, acts: seq<Action>, job: JobId)
    requires WellFormed(s) && Exclusive(s) && Legal(s, acts) && IsCompleted(s.rows, job)
    ensures job in Run(s, acts).rows && Run(s, acts).rows[job] == s.rows[job]
  {
    forall e | e in s.live
      ensures s.live[e].job != job
    {
      assert OwnsClaim(s, e);
    }
    QuietResultStable(s, acts, job);
  }

  lemma {:induction false} QuietResultStable(s: State, acts: seq<Action>, job: JobId)
    requires WellFormed(s) && Legal(s, acts) && IsCompleted(s.rows, job)
    requires forall e | e in s.live :: s.live[e].job != job
    ensures job in Run(s, acts).rows && Run(s, acts).rows[job] == s.rows[job]
    decreases |acts|
  {
    if acts != [] {
      NextWellFormed(s, acts[0]);
      QuietResultStable(Next(s, acts[0]), acts[1..], job);
    }
  }

  /**
   Once get_job_result has answered with a final result, at any point of a run that kept the assumption up to that
   point, it answers with the same result ever after.
   */
  lemma FinalAnswerStable(s: State, acts: seq<Action>, i: nat, j: nat, job: JobId)
    requires WellFormed(s) && Exclusive(s) && Legal(s, acts) && i <= j <= |acts|
    requires Legal(s, acts[..i]) && TimelyRun(s, acts[..i])
    requires Lookup(StateAt(s, acts, i).rows, job) != ""
    ensures Lookup(StateAt(s, acts, j).rows, job) == Lookup(StateAt(s, acts, i).rows, job)
  {
    var t := StateAt(s, acts, i);
    MutualExclusion(s, acts[..i]);
    RunWellFormed(s, acts[..i]);
    SuffixRun(s, acts, i, j);
    ExclusiveResultStable(t, acts[i..j], job);
    CompletedAbsorbs(t, acts[i..j], job);
  }

  lemma {:induction false} SuffixRun(s: State, acts: seq<Action>, i: nat, j: nat)
    requires Legal(s, acts) && i <= j <= |acts|
    ensures Legal(StateAt(s, acts, i), acts[i..j])
    ensures StateAt(s, acts, j) == Run(StateAt(s, acts, i), acts[i..j])
    decreases |acts|
  {
    PrefixIsLegal(s, acts, j);
    if i == 0 {
      assert acts[..0] == [];
      assert acts[0..j] == acts[..j];
    } else {
      SuffixRun(Next(s, acts[0]), acts[1..], i - 1, j - 1);
      StateAtStep(s, acts, i);
      StateAtStep(s, acts, j);
      SliceOfTail(acts, i, j);
    }
  }

  lemma SliceOfTail(acts: seq<Action>, i: nat, j: nat)
    requires 0 < i <= j <= |acts|
    ensures acts[i..j] == acts[1..][i - 1..j - 1]
  {
    var tail := acts[1..];
    assert forall k | 0 <= k < j - i :: acts[i..j][k] == tail[i - 1..j - 1][k];
  }

  // ----- Without the timing assumption -----

  // A sweep that deletes the claim of the job's only live executor e, which is older than the limit.
  predicate LateSweep(s: State, a: Action, job: JobId, e: ExecId) {
    && a.Sweep? && Has(Swept, s, a, job)
    && OwnsClaim(s, e) && s.live[e].job == job
    && (forall x | x in s.live && s.live[x].job == job :: x == e)
    && s.now - s.live[e].claimedAt > CLAIM_TIMEOUT_SECONDS * NANOS_PER_SECOND
  }

  /**
   A live executor whose claim is gone, resolved or replaced lost it to the sweeper: earlier in the run there was
   a late sweep of that job.
   */
  lemma {:induction false} DisownedNeedsLateSweep(s: State, acts: seq<Action>, job: JobId, x: ExecId)
    returns (i: nat, e: ExecId)
    requires WellFormed(s) && ExclusiveFor(s, job) && Legal(s, acts)
    requires x in Run(s, acts).live && Run(s, acts).live[x].job == job && !OwnsClaim(Run(s, acts), x)
    ensures i < |acts| && LateSweep(StateAt(s, acts, i), acts[i], job, e)
    decreases |acts|
  {
    if SweepsLiveClaim(s, acts[0], job) {
      e :| e in s.live && s.live[e].job == job;
      i := 0;
      assert acts[..0] == [];
      assert OwnsClaim(s, e);
      StaleIsOverdue(s.live[e].claimedAt, s.now);
      forall y | y in s.live && s.live[y].job == job
        ensures y == e
      {
        assert OwnsClaim(s, y);
      }
    } else {
      NextWellFormed(s, acts[0]);
      ExclusiveForStep(s, acts[0], job);
      i, e := DisownedNeedsLateSweep(Next(s, acts[0]), acts[1..], job, x);
      i := i + 1;
      StateAtStep(s, acts, i);
    }
  }

  // Two live executors of one job are therefore always the work of a late sweep.
  lemma OverlapNeedsLateSweep(s: State, acts: seq<Action>, job: JobId, e1: ExecId, e2: ExecId)
    returns (i: nat, e: ExecId)
    requires WellFormed(s) && ExclusiveFor(s, job) && Legal(s, acts)
    requires Overlap(Run(s, acts), job, e1, e2)
    ensures i < |acts| && LateSweep(StateAt(s, acts, i), acts[i], job, e)
  {
    var t := Run(s, acts);
    if OwnsClaim(t, e1) {
      i, e := DisownedNeedsLateSweep(s, acts, job, e2);
    } else {
      i, e := DisownedNeedsLateSweep(s, acts, job, e1);
    }
  }

  predicate LateSweepAt(s: State, acts: seq<Action>, i: nat, job: JobId)
    requires Legal(s, acts) && i < |acts|
  {
    exists e :: e in StateAt(s, acts, i).live && LateSweep(StateAt(s, acts, i), acts[i], job, e)
  }

  lemma LateSweepDisowns(s: State, acts: seq<Action>, i: nat, job: JobId)
    requires Legal(s, acts) && i < |acts| && LateSweepAt(s, acts, i, job)
    ensures !ExclusiveFor(StateAt(s, acts, i + 1), job)
  {
    var t := StateAt(s, acts, i);
    var e :| e in t.live && LateSweep(t, acts[i], job, e);
    NextStateAt(s, acts, i);
    assert e in Next(t, acts[i]).live && !OwnsClaim(Next(t, acts[i]), e);
  }

  lemma DisownedAt(s: State, acts: seq<Action>, i: nat, job: JobId) returns (j: nat)
    requires WellFormed(s) && ExclusiveFor(s, job) && Legal(s, acts)
    requires i <= |acts| && !ExclusiveFor(StateAt(s, acts, i), job)
    ensures j < i && LateSweepAt(s, acts, j, job)
  {
    PrefixIsLegal(s, acts, i);
    var t := StateAt(s, acts, i);
    var x :| x in t.live && t.live[x].job == job && !OwnsClaim(t, x);
    var e;
    j, e := DisownedNeedsLateSweep(s, acts[..i], job, x);
    assert acts[..i][..j] == acts[..j] && acts[..i][j] == acts[j];
    assert LateSweep(StateAt(s, acts, j), acts[j], job, e);
  }

  /**
   Over any run, whatever its timing, every live executor of the job owns its claim in every state if and only if no
   action of the run is a late sweep of that job.
   */
  lemma ExclusiveThroughoutIff(s: State, acts: seq<Action>, job: JobId)
    requires WellFormed(s) && ExclusiveFor(s, job) && Legal(s, acts)
    ensures (forall i: nat | i <= |acts| :: ExclusiveFor(StateAt(s, acts, i), job))
       <==> forall i: nat | i < |acts| :: !LateSweepAt(s, acts, i, job)
  {
    if i: nat :| i < |acts| && LateSweepAt(s, acts, i, job) {
      LateSweepDisowns(s, acts, i, job);
    }
    if i: nat :| i <= |acts| && !ExclusiveFor(StateAt(s, acts, i), job) {
      var j := DisownedAt(s, acts, i, job);
    }
  }

  lemma NextStateAt(s: State, acts: seq<Action>, i: nat)
    requires Legal(s, acts) && i < |acts|
    ensures Enabled(StateAt(s, acts, i), acts[i])
    ensures StateAt(s, acts, i + 1) == Next(StateAt(s, acts, i), acts[i])
  {
    PrefixIsLegal(s, acts, i);
    SuffixRun(s, acts, i, i + 1);
    var step := [acts[i]];
    assert acts[i..i + 1] == step && step[1..] == [];
  }

  /**
   The exact condition for a sweep to cost a job its exclusion: another delivery right after it starts a second live
   executor if and only if the first one is live and its claim is old enough for the sweeper's guard.
   */
  lemma SweepLosesExclusionIff(s: State, job: JobId)
    requires WellFormed(s) && Exclusive(s)
    ensures Legal(s, [Sweep, Deliver(job)])
    ensures (exists e1, e2 :: Overlap(Run(s, [Sweep, Deliver(job)]), job, e1, e2))
       <==> exists e :: e in s.live && s.live[e].job == job
                        && Unix(s.live[e].claimedAt) < Unix(s.now) - CLAIM_TIMEOUT_SECONDS
  {
    RunTwo(s, Sweep, Deliver(job));
    var swept := Next(s, Sweep);
    var t := Next(swept, Deliver(job));
    if e :| e in s.live && s.live[e].job == job
            && Unix(s.live[e].claimedAt) < Unix(s.now) - CLAIM_TIMEOUT_SECONDS {
      assert OwnsClaim(s, e);
      assert Overlap(t, job, e, s.started);
    } else {
      assert !SweepsLiveClaim(s, Sweep, job) by {
        forall e | e in s.live && s.live[e].job == job
          ensures !IsStale(s.rows[job], Unix(s.now))
        {
          assert OwnsClaim(s, e);
        }
      }
      NextWellFormed(s, Sweep);
      ExclusiveForStep(s, Sweep, job);
      ExclusiveForStep(swept, Deliver(job), job);
      forall e1, e2
        ensures !Overlap(t, job, e1, e2)
      {
        OwnersDoNotOverlap(t, job, e1, e2);
      }
    }
  }

  // The state of a fresh server with an empty ledger.
  const FRESH := State(0, map[], map[], map[], 0)

  const OVERRUN := [Deliver("job"), Tick(601 * NANOS_PER_SECOND), Sweep, Deliver("job")]

  const FIRST_RESULT := [ExecOk(0, "a"), Complete(0)]

  const SECOND_RESULT := [ExecOk(1, "b"), Complete(1)]

  lemma RunTwo(s: State, a: Action, b: Action)
    requires Enabled(s, a) && Enabled(Next(s, a), b)
    ensures Legal(s, [a, b]) && Run(s, [a, b]) == Next(Next(s, a), b)
  {
    var rest := [b];
    assert [a, b][1..] == rest && rest[1..] == [];
    assert Legal(Next(s, a), rest) && Run(Next(s, a), rest) == Next(Next(s, a), b);
  }

  // The limit in nanoseconds: a claim of ten minutes survives the sweep, one of ten minutes and a second does not.
  lemma SweepLimit(nanos: nat)
    ensures Legal(FRESH, [Deliver("job"), Tick(nanos)] + [Sweep])
    ensures nanos <= 600_000_000_000 ==> "job" in Run(FRESH, [Deliver("job"), Tick(nanos)] + [Sweep]).rows
    ensures nanos >= 601_000_000_000 ==> "job" !in Run(FRESH, [Deliver("job"), Tick(nanos)] + [Sweep]).rows
  {
    RunTwo(FRESH, Deliver("job"), Tick(nanos));
    var s := Run(FRESH, [Deliver("job"), Tick(nanos)]);
    assert s.rows == map["job" := Row("", 0)] && s.now == nanos;
    var last := [Sweep];
    assert last[1..] == [] && Legal(Next(s, Sweep), last[1..]);
    RunConcat(FRESH, [Deliver("job"), Tick(nanos)], last);
    assert Run(s, last) == Next(s, Sweep);
  }

  // One second over the limit is enough to lose mutual exclusion, and then a final answer changes.
  lemma OverrunBreaksExclusion()
    ensures Initial(FRESH) && Legal(FRESH, OVERRUN)
    ensures var s := Run(FRESH, OVERRUN);
      && Overlap(s, "job", 0, 1)
      && Legal(s, FIRST_RESULT)
      && var t := Run(s, FIRST_RESULT);
      && Lookup(t.rows, "job") == "a"
      && Legal(t, SECOND_RESULT)
      && Lookup(Run(t, SECOND_RESULT).rows, "job") == "b"
  {
    var s1 := Next(FRESH, Deliver("job"));
    var s2 := Next(s1, Tick(601 * NANOS_PER_SECOND));
    var s3 := Next(s2, Sweep);
    assert s3.rows == map[];
    var s4 := Next(s3, Deliver("job"));
    RunTwo(FRESH, Deliver("job"), Tick(601 * NANOS_PER_SECOND));
    RunTwo(s2, Sweep, Deliver("job"));
    RunConcat(FRESH, [Deliver("job"), Tick(601 * NANOS_PER_SECOND)], [Sweep, Deliver("job")]);
    assert OVERRUN == [Deliver("job"), Tick(601 * NANOS_PER_SECOND)] + [Sweep, Deliver("job")];
    RunTwo(s4, ExecOk(0, "a"), Complete(0));
    RunTwo(Run(s4, FIRST_RESULT), ExecOk(1, "b"), Complete(1));
  }

  // Nothing the job's live executors may still write differs from the recorded result.
  predicate Settled(s: State, job: JobId) {
    && IsCompleted(s.rows, job)
    && forall e | e in s.live && s.live[e].job == job ::
         s.live[e].phase == Failed || s.live[e].phase == Succeeded(s.rows[job].result)
  }

  lemma {:induction false} SettledStable(s: State, acts: seq<Action>, job: JobId)
    requires WellFormed(s) && Legal(s, acts) && Settled(s, job)
    ensures Lookup(Run(s, acts).rows, job) == Lookup(s.rows, job)
    decreases |acts|
  {
    if acts != [] {
      NextWellFormed(s, acts[0]);
      SettledStable(Next(s, acts[0]), acts[1..], job);
    }
  }

  // A continuation in which an executor that is not settled replaces the recorded result.
  lemma UnsettledChanges(s: State, job: JobId) returns (acts: seq<Action>)
    requires WellFormed(s) && IsCompleted(s.rows, job) && !Settled(s, job)
    ensures Legal(s, acts) && Lookup(Run(s, acts).rows, job) != Lookup(s.rows, job)
  {
    var e :| e in s.live && s.live[e].job == job
             && s.live[e].phase != Failed && s.live[e].phase != Succeeded(s.rows[job].result);
    if s.live[e].phase.Succeeded? {
      acts := [Complete(e)];
      assert Legal(Next(s, acts[0]), acts[1..]);
    } else {
      var other := s.rows[job].result + "x";
      acts := [ExecOk(e, other), Complete(e)];
      var t := Next(s, acts[0]);
      assert acts[1..] == [Complete(e)];
      assert Legal(Next(t, acts[1]), acts[1..][1..]);
      assert Legal(t, acts[1..]);
      assert Run(t, acts[1..]) == Next(t, acts[1]);
    }
  }

  // The exact condition, with no timing assumption, for a final answer never to change.
  lemma FinalAnswerStableIff(s: State, job: JobId)
    requires WellFormed(s) && IsCompleted(s.rows, job)
    ensures Settled(s, job)
       <==> forall acts | Legal(s, acts) :: Lookup(Run(s, acts).rows, job) == Lookup(s.rows, job)
  {
    if Settled(s, job) {
      forall acts | Legal(s, acts)
        ensures Lookup(Run(s, acts).rows, job) == Lookup(s.rows, job)
      {
        SettledStable(s, acts, job);
      }
    } else {
      var acts := UnsettledChanges(s, job);
    }
  }
}
