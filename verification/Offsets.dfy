/** What marking a message as consumed says about the job it carried. */
module Offsets {
  import opened Ledger
  import opened Outcomes
  import opened Retry
  import opened Consumer
  import opened HeavyOps
  import P = JobProtocol

  /**
   The documented promise about a marked message: its operation was executed successfully, by one of these calls or
   by an earlier delivery that recorded the result, or the message is on the dead-letter topic.
   */
  predicate IsDurable(rows: Rows, id: JobId, parses: bool, env: nat -> Attempt, calls: nat, ok: bool, dlqDown: bool) {
    || IsCompleted(rows, id)
    || (exists k: nat :: k < calls && CallAt(rows, id, parses, env, k).RanOk?)
    || (!ok && !dlqDown)
  }

  // Whenever an attempt may execute the operation, the operation fails.
  predicate NeverSucceeds(env: nat -> Attempt, maxRetries: int) {
    forall k: nat | k <= Budget(maxRetries) :: env(k).claimWritten ==> env(k).exec.Failure?
  }

  lemma SuccessIsLast(rows: Rows, id: JobId, parses: bool, env: nat -> Attempt, maxRetries: int, calls: nat, ok: bool)
    requires Stopped(rows, id, parses, env, maxRetries, calls, ok)
    ensures (exists k: nat :: k < calls && CallAt(rows, id, parses, env, k).RanOk?)
       <==> ok && CallAt(rows, id, parses, env, calls - 1).RanOk?
  {
    forall k: nat | k < calls && CallAt(rows, id, parses, env, k).RanOk?
      ensures k == calls - 1
    {
      assert !Errs(rows, id, parses, env, k);
    }
  }

  // The exact condition for every call of the loop to fail.
  lemma GivesUpIff(rows: Rows, id: JobId, env: nat -> Attempt, maxRetries: int, calls: nat, ok: bool)
    requires Stopped(rows, id, true, env, maxRetries, calls, ok)
    ensures !ok <==> if id in rows then !ReachesLedger(env, maxRetries)
                     else NeverSucceeds(env, maxRetries) && !LeavesClaimForRetry(env, maxRetries)
  {
    FalseAcknowledgementIff(rows, id, env, maxRetries, calls, ok);
    if id in rows {
      FoundIff(rows, id, env, maxRetries, calls, ok);
    } else if !ok {
      forall k: nat | k <= Budget(maxRetries) && env(k).claimWritten
        ensures env(k).exec.Failure?
      {
        assert Errs(rows, id, true, env, k);
      }
    }
  }

  // The surroundings make a marked message neither executed nor dead-lettered.
  ghost predicate MarksInVain(rows: Rows, id: JobId, parses: bool, env: nat -> Attempt, maxRetries: int,
                              dlqDown: bool)
  {
    if IsCompleted(rows, id) then false
    else if !parses then dlqDown
    else if id in rows then ReachesLedger(env, maxRetries) || dlqDown
    else LeavesClaimForRetry(env, maxRetries) || (NeverSucceeds(env, maxRetries) && dlqDown)
  }

  /**
   The exact condition, from any ledger and in terms of the surroundings alone, for a marked message of a heavy
   operation to be neither executed nor dead-lettered. A claim without a result is met, left by an earlier delivery
   that died or by an attempt of this one, and taken for an execution; or nothing can succeed, or the payload is
   rejected, while the dead-letter topic cannot be reached.
   */
  lemma MarkedInVainIff(rows: Rows, id: JobId, parses: bool, env: nat -> Attempt, maxRetries: int, calls: nat,
                        ok: bool, dlqDown: bool)
    requires Stopped(rows, id, parses, env, maxRetries, calls, ok)
    ensures !IsDurable(rows, id, parses, env, calls, ok, dlqDown)
       <==> MarksInVain(rows, id, parses, env, maxRetries, dlqDown)
  {
    SuccessIsLast(rows, id, parses, env, maxRetries, calls, ok);
    if parses {
      FalseAcknowledgementIff(rows, id, env, maxRetries, calls, ok);
      GivesUpIff(rows, id, env, maxRetries, calls, ok);
    } else {
      UnparseableNeverRuns(rows, id, env, calls - 1);
      assert Errs(rows, id, false, env, calls - 1);
    }
  }

  // The consumer's fate for the message, which it marks in any case, is decided by the same loop.
  lemma FateOfHeavyOp(registered: set<Topic>, surroundings: Surroundings, i: nat, m: Message, rows: Rows, id: JobId,
                      parses: bool, env: nat -> Attempt, maxRetries: int, calls: nat, ok: bool)
    requires m.topic in registered && Stopped(rows, id, parses, env, maxRetries, calls, ok)
    requires forall k: nat :: surroundings.fails(i, k) == Errs(rows, id, parses, env, k)
    ensures FateOf(registered, maxRetries, surroundings, i, m)
         == if ok then Handled else if surroundings.dlqDown(i) then DlqError else DeadLettered
  {
    assert surroundings.fails(i, calls - 1) == Errs(rows, id, parses, env, calls - 1);
  }

  // ----- Messages marked in vain -----

  // A handler claims the job and dies with it; the redelivery finds the claim and acknowledges without executing.
  lemma RedeliveredAfterCrash(maxRetries: int)
    ensures P.Legal(P.FRESH, [P.Deliver("job"), P.Crash({0})])
    ensures var s := P.Run(P.FRESH, [P.Deliver("job"), P.Crash({0})]);
            && s.live == map[] && IsClaim(s.rows, "job")
            && Stopped(s.rows, "job", true, WillingEnvironment(), maxRetries, 1, true)
            && !IsDurable(s.rows, "job", true, WillingEnvironment(), 1, true, false)
  {
    P.RunTwo(P.FRESH, P.Deliver("job"), P.Crash({0}));
    var s := P.Run(P.FRESH, [P.Deliver("job"), P.Crash({0})]);
    assert s.rows == map["job" := Row("", 0)];
    assert CallAt(s.rows, "job", true, WillingEnvironment(), 0) == Lost;
    assert !Errs(s.rows, "job", true, WillingEnvironment(), 0);
  }

  // Every write is made and every execution would succeed.
  function WillingEnvironment(): nat -> Attempt {
    (k: nat) => Attempt(true, Success("ok"), true, 10)
  }

  // The first execution fails, its claim is not deleted, and the second attempt takes the claim for an execution.
  lemma AcknowledgedInVain(maxRetries: int)
    requires maxRetries >= 1
    ensures var env := (k: nat) => Attempt(true, Failure, k > 0, 0);
            && LeavesClaimForRetry(env, maxRetries)
            && Stopped(map[], "job", true, env, maxRetries, 2, true)
            && !IsDurable(map[], "job", true, env, 2, true, false)
  {
    var env := (k: nat) => Attempt(true, Failure, k > 0, 0);
    var rows: Rows := map[];
    assert CallAt(rows, "job", true, env, 0) == RanAndFailed(false);
    assert Errs(rows, "job", true, env, 0);
    assert RowsBefore(rows, "job", true, env, 1) == map["job" := Row("", 0)];
    assert CallAt(rows, "job", true, env, 1) == Lost;
    assert Abandons(env(0)) && env(1).claimWritten;
  }

  function FailingEnvironment(): nat -> Attempt {
    (k: nat) => Attempt(true, Failure, true, 0)
  }

  lemma {:induction false} FailsEveryTime(k: nat)
    ensures RowsBefore(map[], "job", true, FailingEnvironment(), k) == map[]
    ensures Errs(map[], "job", true, FailingEnvironment(), k)
  {
    if k > 0 {
      FailsEveryTime(k - 1);
    }
  }

  // Whatever the limit, every attempt fails, and so does the dead-letter send.
  lemma DroppedInVain(maxRetries: int)
    ensures Stopped(map[], "job", true, FailingEnvironment(), maxRetries, Budget(maxRetries) + 1, false)
    ensures !IsDurable(map[], "job", true, FailingEnvironment(), Budget(maxRetries) + 1, false, true)
  {
    forall k: nat
      ensures Errs(map[], "job", true, FailingEnvironment(), k)
    {
      FailsEveryTime(k);
    }
    SuccessIsLast(map[], "job", true, FailingEnvironment(), maxRetries, Budget(maxRetries) + 1, false);
  }
}
