/** The job handler over the ledger, and what the retry loop makes of it. */
module HeavyOps {
  import opened Ledger
  import opened LedgerStore
  import opened Outcomes
  import opened Retry

  // A result is marshalled JSON text, which is never empty.
  type ResultText = s: string | s != "" witness "null"

  /**
   What the surroundings do to one call of the handler: whether the claiming insert is written, how the operation
   ends, whether the closing delete or update is written, and the clock in seconds.
   */
  datatype Attempt = Attempt(claimWritten: bool, exec: Result<ResultText>, endWritten: bool, unixNow: nat)

  datatype Call =
    | Unparseable                // the payload does not parse, or names no table
    | ClaimFailed                // the claiming insert was not written
    | Lost                       // a row for the job exists already
    | RanAndFailed(released: bool)
    | RanOk(completed: bool)

  // The calls the handler answers with an error; the others acknowledge the message.
  predicate IsError(call: Call) {
    call.Unparseable? || call.ClaimFailed? || call.RanAndFailed?
  }

  function CallOf(rows: Rows, id: JobId, parses: bool, a: Attempt): Call {
    if !parses then Unparseable
    else if !a.claimWritten then ClaimFailed
    else if id in rows then Lost
    else if a.exec.Failure? then RanAndFailed(a.endWritten)
    else RanOk(a.endWritten)
  }

  function RowsAfter(rows: Rows, id: JobId, parses: bool, a: Attempt): Rows {
    var call := CallOf(rows, id, parses, a);
    if call == RanOk(true) then rows[id := Row(a.exec.value, a.unixNow)]
    else if call == RanOk(false) || call == RanAndFailed(false) then rows[id := Row("", a.unixNow)]
    else rows
  }

  // Every call sends at most one notification.
  function Notifications(call: Call): nat {
    if call.ClaimFailed? || call.Lost? then 0 else 1
  }

  method ProcessHeavyOp(store: Store, id: JobId, parses: bool, a: Attempt)
    returns (failed: bool, notified: nat, ran: bool)
    modifies store
    ensures var call := CallOf(old(store.rows), id, parses, a);
      && failed == IsError(call)
      && notified == Notifications(call)
      && ran == (call.RanAndFailed? || call.RanOk?)
    ensures store.rows == RowsAfter(old(store.rows), id, parses, a)
    ensures failed <==> !parses || !a.claimWritten || (id !in old(store.rows) && a.exec.Failure?)
    ensures notified == if parses && (!a.claimWritten || id in old(store.rows)) then 0 else 1
    ensures ran <==> parses && a.claimWritten && id !in old(store.rows)
    ensures !ran || (a.exec.Failure? && a.endWritten) ==> store.rows == old(store.rows)
    ensures ran && a.exec.Failure? && !a.endWritten ==> store.rows == old(store.rows)[id := Row("", a.unixNow)]
    ensures ran && a.exec.Success? ==>
      store.rows == old(store.rows)[id := Row(if a.endWritten then a.exec.value else "", a.unixNow)]
  {
    if !parses {
      return true, 1, false;
    }
    var claimed := store.AddProcessedOp(id, "", a.unixNow, a.claimWritten);
    if claimed.Failure? {
      return true, 0, false;
    }
    if !claimed.value {
      return false, 0, false;
    }
    match a.exec {
      case Failure =>
        // A delete that is not written is only logged.
        var _ := store.DeleteClaimedOp(id, a.endWritten);
        assert a.endWritten ==> store.rows == old(store.rows);
        return true, 1, true;
      case Success(result) =>
        var _ := store.UpdateProcessedOpResult(id, result, a.endWritten);
        return false, 1, true;
    }
  }

  // The in-process queue's handler: the same ledger protocol. It reports an unparseable payload only to its caller.
  method ProcessHeavyOpForQueue(store: Store, id: JobId, parses: bool, a: Attempt) returns (failed: bool, recorded: nat)
    modifies store
    ensures var call := CallOf(old(store.rows), id, parses, a);
      && failed == IsError(call)
      && recorded == if call.RanAndFailed? || call.RanOk? then 1 else 0
    ensures store.rows == RowsAfter(old(store.rows), id, parses, a)
    ensures failed <==> !parses || !a.claimWritten || (id !in old(store.rows) && a.exec.Failure?)
    ensures recorded == if parses && a.claimWritten && id !in old(store.rows) then 1 else 0
    ensures recorded == 0 || (a.exec.Failure? && a.endWritten) ==> store.rows == old(store.rows)
    ensures recorded == 1 && a.exec.Failure? && !a.endWritten ==>
      store.rows == old(store.rows)[id := Row("", a.unixNow)]
    ensures recorded == 1 && a.exec.Success? ==>
      store.rows == old(store.rows)[id := Row(if a.endWritten then a.exec.value else "", a.unixNow)]
  {
    if !parses {
      return true, 0;
    }
    var claimed := store.AddProcessedOp(id, "", a.unixNow, a.claimWritten);
    if claimed.Failure? {
      return true, 0;
    }
    if !claimed.value {
      return false, 0;
    }
    match a.exec {
      case Failure =>
        var _ := store.DeleteClaimedOp(id, a.endWritten);
        assert a.endWritten ==> store.rows == old(store.rows);
        return true, 1;
      case Success(result) =>
        var _ := store.UpdateProcessedOpResult(id, result, a.endWritten);
        return false, 1;
    }
  }

  // ----- The retry loop around the handler, with nobody else using the job's row -----

  function RowsBefore(rows: Rows, id: JobId, parses: bool, env: nat -> Attempt, k: nat): Rows {
    if k == 0 then rows else RowsAfter(RowsBefore(rows, id, parses, env, k - 1), id, parses, env(k - 1))
  }

  function CallAt(rows: Rows, id: JobId, parses: bool, env: nat -> Attempt, k: nat): Call {
    CallOf(RowsBefore(rows, id, parses, env, k), id, parses, env(k))
  }

  predicate Errs(rows: Rows, id: JobId, parses: bool, env: nat -> Attempt, k: nat) {
    IsError(CallAt(rows, id, parses, env, k))
  }

  function Handler(rows: Rows, id: JobId, parses: bool, env: nat -> Attempt): nat -> bool {
    (k: nat) => Errs(rows, id, parses, env, k)
  }

  // Stops for the handler, spelled out.
  ghost predicate Stopped(rows: Rows, id: JobId, parses: bool, env: nat -> Attempt, maxRetries: int,
                          calls: nat, ok: bool) {
    && 1 <= calls <= Budget(maxRetries) + 1
    && (forall k: nat | k < calls - 1 :: Errs(rows, id, parses, env, k))
    && (ok <==> !Errs(rows, id, parses, env, calls - 1))
    && (!ok ==> calls == Budget(maxRetries) + 1)
  }

  lemma StoppedIsStops(rows: Rows, id: JobId, parses: bool, env: nat -> Attempt, maxRetries: int,
                       calls: nat, ok: bool)
    ensures Stopped(rows, id, parses, env, maxRetries, calls, ok)
       <==> Stops(Handler(rows, id, parses, env), maxRetries, calls, ok)
  {
    var fails := Handler(rows, id, parses, env);
    assert forall k: nat :: fails(k) == Errs(rows, id, parses, env, k);
  }

  // How many of the first n attempts are rejected or executed: those send a notification.
  function TellCount(rows: Rows, id: JobId, parses: bool, env: nat -> Attempt, n: nat): (count: nat)
    ensures count <= n
    ensures !parses ==> count == n
  {
    if n == 0 then 0
    else
      var tells := parses ==> env(n - 1).claimWritten && id !in RowsBefore(rows, id, parses, env, n - 1);
      TellCount(rows, id, parses, env, n - 1) + if tells then 1 else 0
  }

  // If every write is made for a fresh job, every attempt tells.
  lemma {:induction false} AllTell(rows: Rows, id: JobId, env: nat -> Attempt, maxRetries: int, calls: nat, ok: bool,
                                   n: nat)
    requires n <= calls && Stopped(rows, id, true, env, maxRetries, calls, ok)
    ensures id !in rows && WritesSucceed(env, maxRetries) ==> TellCount(rows, id, true, env, n) == n
  {
    if n > 0 && id !in rows && WritesSucceed(env, maxRetries) {
      AllTell(rows, id, env, maxRetries, calls, ok, n - 1);
      UndisturbedCall(rows, id, env, maxRetries, calls, ok, n - 1);
      assert env(n - 1).claimWritten;
    }
  }

  // Every ledger write of every attempt is made.
  ghost predicate WritesSucceed(env: nat -> Attempt, maxRetries: int) {
    forall k: nat | k <= Budget(maxRetries) :: env(k).claimWritten && env(k).endWritten
  }

  // The loop run on the store itself: the retry loop with ProcessHeavyOp as its handler.
  method RetryHeavyOp(store: Store, id: JobId, parses: bool, env: nat -> Attempt, maxRetries: int)
    returns (ok: bool, calls: nat, notified: nat)
    modifies store
    ensures Stopped(old(store.rows), id, parses, env, maxRetries, calls, ok)
    ensures store.rows == RowsBefore(old(store.rows), id, parses, env, calls)
    ensures calls <= if maxRetries < 0 then 1 else maxRetries + 1
    ensures notified == TellCount(old(store.rows), id, parses, env, calls)
    ensures !parses ==> notified == calls
    ensures parses && id !in old(store.rows) && WritesSucceed(env, maxRetries) ==> notified == calls
  {
    var retry: nat := 0;
    notified := 0;
    while true
      invariant 0 <= retry <= Budget(maxRetries)
      invariant IsAfter(old(store.rows), id, parses, env, retry, store.rows, notified)
      decreases Budget(maxRetries) - retry
    {
      ghost var before := store.rows;
      var failed, sent, ran := ProcessHeavyOp(store, id, parses, env(retry));
      OneMore(old(store.rows), id, parses, env, maxRetries, retry, before, notified);
      notified := notified + sent;
      if !failed || retry >= maxRetries {
        return !failed, retry + 1, notified;
      }
      retry := retry + 1;
    }
  }

  // The first n attempts all failed, left these rows and sent this many notifications.
  ghost predicate IsAfter(rows: Rows, id: JobId, parses: bool, env: nat -> Attempt, n: nat, now: Rows, notified: nat) {
    && (forall k: nat | k < n :: Errs(rows, id, parses, env, k))
    && now == RowsBefore(rows, id, parses, env, n) && notified == TellCount(rows, id, parses, env, n)
  }

  lemma OneMore(rows: Rows, id: JobId, parses: bool, env: nat -> Attempt, maxRetries: int, n: nat, now: Rows,
                notified: nat)
    requires n <= Budget(maxRetries) && IsAfter(rows, id, parses, env, n, now, notified)
    ensures var call := CallOf(now, id, parses, env(n));
            var next, sent := RowsAfter(now, id, parses, env(n)), notified + Notifications(call);
            && next == RowsBefore(rows, id, parses, env, n + 1) && sent == TellCount(rows, id, parses, env, n + 1)
            && (IsError(call) ==> IsAfter(rows, id, parses, env, n + 1, next, sent))
            && (!IsError(call) || n >= maxRetries ==>
                  && Stopped(rows, id, parses, env, maxRetries, n + 1, !IsError(call))
                  && (parses && id !in rows && WritesSucceed(env, maxRetries) ==> sent == n + 1))
  {
    var call := CallOf(now, id, parses, env(n));
    assert call == CallAt(rows, id, parses, env, n) && IsError(call) == Errs(rows, id, parses, env, n);
    if !IsError(call) || n >= maxRetries {
      assert Stopped(rows, id, parses, env, maxRetries, n + 1, !IsError(call));
      if parses {
        AllTell(rows, id, env, maxRetries, n + 1, !IsError(call), n + 1);
      }
    }
  }

  predicate Abandons(a: Attempt) {
    a.claimWritten && a.exec.Failure? && !a.endWritten
  }

  // A call that leaves a claim behind makes every later call find it, until one loses to it.
  lemma {:induction false} ClaimLingers(rows: Rows, id: JobId, env: nat -> Attempt, i: nat, k: nat)
    requires i < k && CallAt(rows, id, true, env, i) == RanAndFailed(false)
    requires forall j: nat | i < j < k :: Errs(rows, id, true, env, j)
    ensures id in RowsBefore(rows, id, true, env, k)
    decreases k
  {
    if i < k - 1 {
      ClaimLingers(rows, id, env, i, k - 1);
    }
  }

  // While every call errs, the row is there exactly if an earlier call left its claim behind.
  lemma {:induction false} WhoLeftTheClaim(rows: Rows, id: JobId, env: nat -> Attempt, k: nat) returns (i: nat)
    requires id !in rows && id in RowsBefore(rows, id, true, env, k)
    requires forall j: nat | j < k :: Errs(rows, id, true, env, j)
    ensures i < k && CallAt(rows, id, true, env, i) == RanAndFailed(false)
  {
    if id in RowsBefore(rows, id, true, env, k - 1) {
      i := WhoLeftTheClaim(rows, id, env, k - 1);
    } else {
      i := k - 1;
      assert Errs(rows, id, true, env, i);
    }
  }

  lemma CleanFailure(rows: Rows, id: JobId, parses: bool, a: Attempt)
    requires IsError(CallOf(rows, id, parses, a)) && (parses ==> a.endWritten)
    ensures RowsAfter(rows, id, parses, a) == rows
  {
  }

  // Without a claim left behind, failed calls leave the ledger as it was.
  lemma {:induction false} FailuresLeaveNothing(rows: Rows, id: JobId, parses: bool, env: nat -> Attempt, k: nat)
    requires id !in rows
    requires forall j: nat {:trigger Errs(rows, id, parses, env, j)} | j < k ::
               Errs(rows, id, parses, env, j) && (parses ==> env(j).endWritten)
    ensures RowsBefore(rows, id, parses, env, k) == rows
  {
    if k > 0 {
      FailuresLeaveNothing(rows, id, parses, env, k - 1);
      assert Errs(rows, id, parses, env, k - 1);
      CleanFailure(rows, id, parses, env(k - 1));
    }
  }

  // With every write succeeding, each call of the loop finds the ledger as the loop found it.
  lemma UndisturbedCall(rows: Rows, id: JobId, env: nat -> Attempt, maxRetries: int, calls: nat, ok: bool, k: nat)
    requires id !in rows
    requires Stopped(rows, id, true, env, maxRetries, calls, ok) && k < calls
    requires forall j: nat | j <= Budget(maxRetries) :: env(j).claimWritten && env(j).endWritten
    ensures RowsBefore(rows, id, true, env, k) == rows
    ensures CallAt(rows, id, true, env, k) == if env(k).exec.Failure? then RanAndFailed(true) else RanOk(true)
    ensures k < calls - 1 ==> env(k).exec.Failure?
    ensures k == calls - 1 ==> (ok <==> env(k).exec.Success?)
  {
    FailuresLeaveNothing(rows, id, true, env, k);
    assert k < calls - 1 ==> Errs(rows, id, true, env, k);
  }

  lemma EarlierCallsFailed(rows: Rows, id: JobId, env: nat -> Attempt, maxRetries: int, calls: nat, ok: bool)
    requires id !in rows
    requires Stopped(rows, id, true, env, maxRetries, calls, ok)
    requires forall j: nat | j <= Budget(maxRetries) :: env(j).claimWritten && env(j).endWritten
    ensures forall k: nat | k < calls - 1 :: CallAt(rows, id, true, env, k) == RanAndFailed(true)
    ensures forall k: nat | k < calls - 1 :: env(k).exec.Failure?
  {
    forall k: nat | k < calls - 1
      ensures CallAt(rows, id, true, env, k) == RanAndFailed(true) && env(k).exec.Failure?
    {
      UndisturbedCall(rows, id, env, maxRetries, calls, ok, k);
    }
  }

  /**
   With every ledger write succeeding, nobody else using the job's row and no such row at the start, the message is
   acknowledged exactly when one of the at most maxRetries + 1 executions succeeds; that one is the last, it is the
   only success, and its result is in the ledger. Otherwise every execution failed and the ledger is unchanged.
   */
  lemma AcknowledgedIffExecuted(rows: Rows, id: JobId, env: nat -> Attempt, maxRetries: int, calls: nat, ok: bool)
    requires id !in rows
    requires Stopped(rows, id, true, env, maxRetries, calls, ok)
    requires forall k: nat | k <= Budget(maxRetries) :: env(k).claimWritten && env(k).endWritten
    ensures ok <==> exists k: nat :: k <= Budget(maxRetries) && env(k).exec.Success?
    ensures forall k: nat | k < calls - 1 :: CallAt(rows, id, true, env, k) == RanAndFailed(true)
    ensures CallAt(rows, id, true, env, calls - 1) == if ok then RanOk(true) else RanAndFailed(true)
    ensures RowsBefore(rows, id, true, env, calls) ==
            if ok then rows[id := Row(env(calls - 1).exec.value, env(calls - 1).unixNow)] else rows
  {
    var last := calls - 1;
    UndisturbedCall(rows, id, env, maxRetries, calls, ok, last);
    assert RowsBefore(rows, id, true, env, calls) == RowsAfter(rows, id, true, env(last));
    EarlierCallsFailed(rows, id, env, maxRetries, calls, ok);
    assert ok ==> env(last).exec.Success?;
    assert !ok ==> last == Budget(maxRetries);
  }

  // A payload that does not parse is never run and never touches the ledger.
  lemma {:induction false} UnparseableNeverRuns(rows: Rows, id: JobId, env: nat -> Attempt, k: nat)
    ensures CallAt(rows, id, false, env, k) == Unparseable
    ensures RowsBefore(rows, id, false, env, k) == rows
  {
    if k > 0 {
      UnparseableNeverRuns(rows, id, env, k - 1);
    }
  }

  /**
   The surroundings make the loop acknowledge a job that never succeeded: some failed execution, with no
   successful one before it, could not delete its claim, and a later attempt within the budget got far enough to
   find that claim.
   */
  ghost predicate LeavesClaimForRetry(env: nat -> Attempt, maxRetries: int) {
    exists i: nat, j: nat :: i < j <= Budget(maxRetries) && Abandons(env(i)) && env(j).claimWritten
      && forall k: nat | k < i :: env(k).claimWritten ==> env(k).exec.Failure?
  }

  // Some attempt within the budget gets as far as the ledger.
  ghost predicate ReachesLedger(env: nat -> Attempt, maxRetries: int) {
    exists j: nat :: j <= Budget(maxRetries) && env(j).claimWritten
  }

  // A row that is there, a claim or a completed job, is left alone by every call.
  lemma {:induction false} RowStays(rows: Rows, id: JobId, parses: bool, env: nat -> Attempt, k: nat)
    requires id in rows
    ensures RowsBefore(rows, id, parses, env, k) == rows
  {
    if k > 0 {
      RowStays(rows, id, parses, env, k - 1);
    }
  }

  /**
   From any ledger and with arbitrary write failures, the exact condition for a message to be acknowledged although
   no execution succeeded: a row was there at the start and some attempt finds it, or one of the attempts leaves its
   claim to a later one.
   */
  lemma FalseAcknowledgementIff(rows: Rows, id: JobId, env: nat -> Attempt, maxRetries: int, calls: nat, ok: bool)
    requires Stopped(rows, id, true, env, maxRetries, calls, ok)
    ensures (ok && !CallAt(rows, id, true, env, calls - 1).RanOk?)
       <==> if id in rows then ReachesLedger(env, maxRetries) else LeavesClaimForRetry(env, maxRetries)
  {
    if id in rows {
      FoundIff(rows, id, env, maxRetries, calls, ok);
    } else {
      LeftBehindIff(rows, id, env, maxRetries, calls, ok);
    }
  }

  // With a row at the start nothing runs, and the first attempt to reach the ledger acknowledges.
  lemma FoundIff(rows: Rows, id: JobId, env: nat -> Attempt, maxRetries: int, calls: nat, ok: bool)
    requires id in rows
    requires Stopped(rows, id, true, env, maxRetries, calls, ok)
    ensures !CallAt(rows, id, true, env, calls - 1).RanOk?
    ensures ok <==> ReachesLedger(env, maxRetries)
  {
    RowStays(rows, id, true, env, calls - 1);
    if ok {
      assert env(calls - 1).claimWritten;
    }
    if j: nat :| j <= Budget(maxRetries) && env(j).claimWritten {
      RowStays(rows, id, true, env, j);
      assert !Errs(rows, id, true, env, j);
    }
  }

  lemma LeftBehindIff(rows: Rows, id: JobId, env: nat -> Attempt, maxRetries: int, calls: nat, ok: bool)
    requires id !in rows
    requires Stopped(rows, id, true, env, maxRetries, calls, ok)
    ensures (ok && !CallAt(rows, id, true, env, calls - 1).RanOk?) <==> LeavesClaimForRetry(env, maxRetries)
  {
    var last := calls - 1;
    if ok && !CallAt(rows, id, true, env, last).RanOk? {
      assert !Errs(rows, id, true, env, last);
      assert CallAt(rows, id, true, env, last) == Lost;
      var i := WhoLeftTheClaim(rows, id, env, last);
      forall k: nat | k < i && env(k).claimWritten
        ensures env(k).exec.Failure?
      {
        assert Errs(rows, id, true, env, k);
      }
      assert Abandons(env(i)) && env(last).claimWritten;
    }
    if LeavesClaimForRetry(env, maxRetries) {
      var i: nat, j: nat :| i < j <= Budget(maxRetries) && Abandons(env(i)) && env(j).claimWritten
        && forall k: nat | k < i :: env(k).claimWritten ==> env(k).exec.Failure?;
      AbandonedIsFound(rows, id, env, maxRetries, calls, ok, i, j);
    }
  }

  lemma AbandonedIsFound(rows: Rows, id: JobId, env: nat -> Attempt, maxRetries: int, calls: nat, ok: bool,
                         i: nat, j: nat)
    requires Stopped(rows, id, true, env, maxRetries, calls, ok)
    requires i < j <= Budget(maxRetries) && Abandons(env(i)) && env(j).claimWritten
    requires forall k: nat | k < i :: env(k).claimWritten ==> env(k).exec.Failure?
    ensures ok && !CallAt(rows, id, true, env, calls - 1).RanOk?
  {
    var last := calls - 1;
    if i < last {
      assert Errs(rows, id, true, env, i);
      assert CallAt(rows, id, true, env, i) == RanAndFailed(false);
      if j <= last {
        ClaimLingers(rows, id, env, i, j);
        assert CallAt(rows, id, true, env, j) == Lost;
        assert !Errs(rows, id, true, env, j);
      } else {
        ClaimLingers(rows, id, env, i, last);
      }
    } else {
      // The loop stopped no later than attempt i, before any success, so it must have lost a claim.
      assert !Errs(rows, id, true, env, last);
    }
  }
}
