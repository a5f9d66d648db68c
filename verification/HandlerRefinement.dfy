/** One undisturbed call of the handler is one run of the job protocol. */
module HandlerRefinement {
  import opened Ledger
  import opened JobProtocol
  import H = HeavyOps

  // The protocol actions of a call whose executor, if one starts, is e.
  function ActionsOf(call: H.Call, id: JobId, a: H.Attempt, e: ExecId): seq<Action>
    requires call.RanOk? ==> a.exec.Success?
  {
    match call
    case Unparseable => []
    case ClaimFailed => [ClaimTimeout(id)]
    case Lost => [Deliver(id)]
    case RanAndFailed(released) =>
      [Deliver(id), ExecFail(e)] + [if released then Release(e) else ReleaseTimeout(e)]
    case RanOk(completed) =>
      [Deliver(id), ExecOk(e, a.exec.value)] + [if completed then Complete(e) else CompleteTimeout(e)]
  }

  lemma RunOne(s: State, a: Action)
    requires Enabled(s, a)
    ensures Legal(s, [a]) && Run(s, [a]) == Next(s, a)
  {
    var rest: seq<Action> := [];
    assert [a][1..] == rest;
    assert Legal(Next(s, a), rest) && Run(Next(s, a), rest) == Next(s, a);
  }

  /**
   The handler's effect on the ledger is that of its protocol actions, it leaves no executor behind, and it makes
   exactly as many claims as it starts executions.
   */
  lemma HandlerRefinesProtocol(s: State, id: JobId, parses: bool, a: H.Attempt)
    requires WellFormed(s) && a.unixNow == Unix(s.now)
    ensures var call := H.CallOf(s.rows, id, parses, a);
            var acts := ActionsOf(call, id, a, s.started);
            && Legal(s, acts)
            && Run(s, acts).rows == H.RowsAfter(s.rows, id, parses, a)
            && Run(s, acts).live == s.live
            && Run(s, acts).started == s.started + if call.RanAndFailed? || call.RanOk? then 1 else 0
  {
    var call := H.CallOf(s.rows, id, parses, a);
    var e := s.started;
    match call
    case Unparseable =>
    case ClaimFailed => RunOne(s, ClaimTimeout(id));
    case Lost => RunOne(s, Deliver(id));
    case RanAndFailed(released) => FailedCall(s, id, a);
    case RanOk(completed) => SucceededCall(s, id, a);
  }

  lemma RunThree(s: State, id: JobId, b: Action, c: Action)
    requires WellFormed(s) && id !in s.rows
    requires Enabled(Next(s, Deliver(id)), b) && Enabled(Next(Next(s, Deliver(id)), b), c)
    ensures Legal(s, [Deliver(id), b] + [c])
    ensures Run(s, [Deliver(id), b] + [c]) == Next(Next(Next(s, Deliver(id)), b), c)
  {
    RunTwo(s, Deliver(id), b);
    RunOne(Next(Next(s, Deliver(id)), b), c);
    RunConcat(s, [Deliver(id), b], [c]);
  }

  // The state once the new executor has claimed the job, and once its execution has ended.
  function Claimed(s: State, id: JobId, phase: Phase): State {
    s.(rows := s.rows[id := Row("", Unix(s.now))], owner := s.owner[id := s.started],
       live := s.live[s.started := Executor(id, s.now, phase)], started := s.started + 1)
  }

  lemma ClaimAndEnd(s: State, id: JobId, b: Action, phase: Phase)
    requires WellFormed(s) && id !in s.rows
    requires (b == ExecFail(s.started) && phase == Failed)
          || (b.ExecOk? && b.exec == s.started && b.result != "" && phase == Succeeded(b.result))
    ensures Next(s, Deliver(id)) == Claimed(s, id, Executing)
    ensures Enabled(Next(s, Deliver(id)), b)
    ensures Next(Next(s, Deliver(id)), b) == Claimed(s, id, phase)
  {
    var before, after := Claimed(s, id, Executing), Claimed(s, id, phase);
    assert before.live[s.started := Executor(id, s.now, phase)] == after.live;
  }

  lemma FailedCall(s: State, id: JobId, a: H.Attempt)
    requires WellFormed(s) && a.unixNow == Unix(s.now)
    requires H.CallOf(s.rows, id, true, a).RanAndFailed?
    ensures var acts := ActionsOf(H.CallOf(s.rows, id, true, a), id, a, s.started);
            && Legal(s, acts)
            && Run(s, acts).rows == H.RowsAfter(s.rows, id, true, a)
            && Run(s, acts).live == s.live && Run(s, acts).started == s.started + 1
  {
    var e := s.started;
    ClaimAndEnd(s, id, ExecFail(e), Failed);
    RunThree(s, id, ExecFail(e), if a.endWritten then Release(e) else ReleaseTimeout(e));
    assert Claimed(s, id, Failed).live - {e} == s.live;
  }

  lemma SucceededCall(s: State, id: JobId, a: H.Attempt)
    requires WellFormed(s) && a.unixNow == Unix(s.now)
    requires H.CallOf(s.rows, id, true, a).RanOk?
    ensures var acts := ActionsOf(H.CallOf(s.rows, id, true, a), id, a, s.started);
            && Legal(s, acts)
            && Run(s, acts).rows == H.RowsAfter(s.rows, id, true, a)
            && Run(s, acts).live == s.live && Run(s, acts).started == s.started + 1
  {
    var e, result := s.started, a.exec.value;
    ClaimAndEnd(s, id, ExecOk(e, result), Succeeded(result));
    RunThree(s, id, ExecOk(e, result), if a.endWritten then Complete(e) else CompleteTimeout(e));
    assert Claimed(s, id, Succeeded(result)).live - {e} == s.live;
  }
}
