/** The serialised store writer: callers, the bounded channel, and the one writer that retries and replies. */
module StoreWriter {

  type OpId = nat

  // One execution of a statement. Only Applied changes the database.
  datatype Attempt = Applied | Busy | Failed

  const MAX_TRIES: nat := 10
  const CHANNEL_CAPACITY: nat := 100

  // The writer stops at the first outcome that is not busy, or at the tenth try.
  predicate Done(tries: seq<Attempt>) {
    tries != [] && (tries[|tries| - 1] != Busy || |tries| >= MAX_TRIES)
  }

  predicate AllBusyButLast(tries: seq<Attempt>) {
    forall i | 0 <= i < |tries| - 1 :: tries[i] == Busy
  }

  // What the writer's inner loop may have done to one operation.
  predicate WellTried(tries: seq<Attempt>) {
    1 <= |tries| <= MAX_TRIES && Done(tries) && AllBusyButLast(tries)
  }

  // The milliseconds slept before try number n.
  function SleptMillis(n: nat): nat {
    if n == 0 then 0 else SleptMillis(n - 1) + 50 * n
  }

  // The inner loop, for a statement whose i-th execution ends as outcome(i).
  method ExecuteWithRetry(outcome: nat -> Attempt) returns (result: Attempt, tries: seq<Attempt>, slept: nat)
    ensures WellTried(tries) && result == tries[|tries| - 1]
    ensures forall i | 0 <= i < |tries| :: tries[i] == outcome(i)
    ensures slept == SleptMillis(|tries| - 1) <= 2250
    ensures 1 <= |tries| <= 10 && (result == Busy ==> |tries| == 10)
    ensures forall i | 0 <= i < |tries| - 1 :: outcome(i) == Busy
    ensures (forall i: nat | i < 9 :: outcome(i) == Busy) ==> result == outcome(9)
    ensures slept == 25 * (|tries| - 1) * |tries|
  {
    tries, slept := [], 0;
    result := Busy;
    assert SleptMillis(9) == 2250;
    for i := 0 to 10
      invariant i == |tries| && (forall j | 0 <= j < i :: tries[j] == outcome(j) == Busy)
      invariant i < 10
      invariant slept == SleptMillis(i)
    {
      result := outcome(i);
      tries := tries + [result];
      if result == Busy && i < 9 {
        slept := slept + 50 * (i + 1);
        continue;
      }
      SleptMonotone(i, 9);
      SleptIs(i);
      break;
    }
  }

  // The waits of 50, 100, 150 and so on milliseconds add up to this.
  lemma {:induction false} SleptIs(n: nat)
    ensures SleptMillis(n) == 25 * n * (n + 1)
  {
    if n > 0 {
      SleptIs(n - 1);
    }
  }

  lemma {:induction false} SleptMonotone(m: nat, n: nat)
    requires m <= n
    ensures SleptMillis(m) <= SleptMillis(n)
    decreases n
  {
    if m < n {
      SleptMonotone(m, n - 1);
    }
  }

  // ----- All interleavings -----

  // A synchronous caller waits for the reply; an asynchronous one leaves a reply channel with room for it.
  datatype Kind = Sync | Async

  datatype Caller =
    | Waiting(kind: Kind)      // trying to put its operation on the channel
    | TimedOut                 // told "write channel timeout", or dropped
    | Enqueued(kind: Kind)
    | Answered(result: Attempt)

  datatype Writer = Idle | Working(op: OpId, tries: seq<Attempt>)

  datatype Record = Record(op: OpId, tries: seq<Attempt>)

  /**
   `applied` stands for the database: the operations applied to it, in order. `accepted` (operations ever enqueued,
   in order), `finished` and `replies` are histories.
   */
  datatype State = State(
    callers: map<OpId, Caller>,
    channel: seq<OpId>,
    writer: Writer,
    applied: seq<OpId>,
    accepted: seq<OpId>,
    finished: seq<Record>,
    replies: seq<Record>)

  datatype Action =
    | Call(op: OpId, kind: Kind)
    | Enqueue(op: OpId)
    | GiveUp(op: OpId)
    | Take
    | Try(outcome: Attempt)
    | Reply

  const START := State(map[], [], Idle, [], [], [], [])

  // A reply can be delivered: a synchronous caller is waiting for it; an asynchronous one left a channel with room
  // for a single reply.
  predicate CanReceive(s: State, op: OpId) {
    op in s.callers && s.callers[op].Enqueued? && (s.callers[op].kind.Sync? || op !in Ops(s.replies))
  }

  predicate Enabled(s: State, a: Action) {
    match a
    case Call(op, _) => op !in s.callers
    case Enqueue(op) => op in s.callers && s.callers[op].Waiting? && |s.channel| < CHANNEL_CAPACITY
    case GiveUp(op) => op in s.callers && s.callers[op].Waiting?
    case Take => s.writer.Idle? && s.channel != []
    case Try(_) => s.writer.Working? && !Done(s.writer.tries)
    case Reply => s.writer.Working? && Done(s.writer.tries) && CanReceive(s, s.writer.op)
  }

  function Next(s: State, a: Action): State
    requires Enabled(s, a)
  {
    match a
    case Call(op, kind) => s.(callers := s.callers[op := Waiting(kind)])
    case Enqueue(op) =>
      s.(callers := s.callers[op := Enqueued(s.callers[op].kind)],
         channel := s.channel + [op], accepted := s.accepted + [op])
    case GiveUp(op) => s.(callers := s.callers[op := TimedOut])
    case Take => s.(writer := Working(s.channel[0], []), channel := s.channel[1..])
    case Try(outcome) =>
      s.(writer := Working(s.writer.op, s.writer.tries + [outcome]),
         applied := if outcome == Applied then s.applied + [s.writer.op] else s.applied)
    case Reply =>
      var record := Record(s.writer.op, s.writer.tries);
      s.(callers := s.callers[s.writer.op := Answered(Last(s.writer.tries))], writer := Idle,
         finished := s.finished + [record], replies := s.replies + [record])
  }

  function Last(tries: seq<Attempt>): Attempt
    requires tries != []
  {
    tries[|tries| - 1]
  }

  predicate Legal(s: State, acts: seq<Action>)
    decreases |acts|
  {
    acts == [] || (Enabled(s, acts[0]) && Legal(Next(s, acts[0]), acts[1..]))
  }

  function Run(s: State, acts: seq<Action>): State
    requires Legal(s, acts)
    decreases |acts|
  {
    if acts == [] then s else Run(Next(s, acts[0]), acts[1..])
  }

  // ----- What every interleaving keeps -----

  function Ops(records: seq<Record>): seq<OpId> {
    seq(|records|, i requires 0 <= i < |records| => records[i].op)
  }

  function InFlight(w: Writer): seq<OpId> {
    if w.Idle? then [] else [w.op]
  }

  // The operations, in order, whose last try was applied.
  function AppliedOps(records: seq<Record>): seq<OpId> {
    if records == [] then []
    else
      var last := records[|records| - 1];
      AppliedOps(records[..|records| - 1])
        + if last.tries != [] && Last(last.tries) == Applied then [last.op] else []
  }

  predicate NoDuplicates(ops: seq<OpId>) {
    forall i, j | 0 <= i < j < |ops| :: ops[i] != ops[j]
  }

  function WithCurrent(s: State): seq<Record> {
    if s.writer.Idle? then s.finished else s.finished + [Record(s.writer.op, s.writer.tries)]
  }

  /**
   The operations take effect in the order in which they were accepted; each finished one was tried properly and was
   answered once, with its last outcome.
   */
  ghost predicate Inv(s: State) {
    HistoryMatches(s) && CallersMatch(s)
  }

  // The accepted operations are the finished ones, then the one in flight, then those on the channel.
  predicate InOrder(s: State) {
    s.accepted == Ops(s.finished) + InFlight(s.writer) + s.channel
  }

  predicate HistoryMatches(s: State) {
    && InOrder(s)
    && s.applied == AppliedOps(WithCurrent(s))
    && s.replies == s.finished
    && |s.channel| <= CHANNEL_CAPACITY
    && (forall r | r in s.finished :: WellTried(r.tries))
    && (s.writer.Working? ==>
          |s.writer.tries| <= MAX_TRIES && AllBusyButLast(s.writer.tries))
  }

  // Accepted and not yet answered.
  predicate InProgress(s: State, op: OpId) {
    (s.writer.Working? && s.writer.op == op) || op in s.channel
  }

  predicate WasAnswered(s: State, op: OpId, result: Attempt) {
    exists r :: r in s.finished && r.op == op && r.tries != [] && Last(r.tries) == result
  }

  ghost predicate CallersMatch(s: State) {
    && NoDuplicates(s.accepted)
    && (forall op | op in s.accepted :: op in s.callers)
    && (forall op | op in s.callers :: op in s.accepted <==> s.callers[op].Enqueued? || s.callers[op].Answered?)
    && (forall op | op in s.callers && s.callers[op].Enqueued? :: InProgress(s, op))
    && (forall op | InProgress(s, op) :: op in s.callers && s.callers[op].Enqueued?)
    && (forall op | op in s.callers && s.callers[op].Answered? :: WasAnswered(s, op, s.callers[op].result))
  }

  lemma AppliedSnoc(records: seq<Record>, r: Record)
    ensures AppliedOps(records + [r])
         == AppliedOps(records) + if r.tries != [] && Last(r.tries) == Applied then [r.op] else []
  {
    assert (records + [r])[..|records|] == records;
  }

  lemma StartInv()
    ensures Inv(START)
  {
  }

  lemma EnqueueKeepsCallers(s: State, op: OpId)
    requires CallersMatch(s) && Enabled(s, Enqueue(op))
    ensures CallersMatch(Next(s, Enqueue(op)))
  {
    var t := Next(s, Enqueue(op));
    assert op !in s.accepted;
    assert forall x, result | WasAnswered(s, x, result) :: WasAnswered(t, x, result);
    assert forall x :: InProgress(t, x) <==> InProgress(s, x) || x == op;
  }

  lemma OthersKeepCallers(s: State, a: Action)
    requires CallersMatch(s) && Enabled(s, a) && (a.Call? || a.GiveUp?)
    ensures CallersMatch(Next(s, a))
  {
    var t := Next(s, a);
    assert a.op !in s.accepted && !InProgress(s, a.op);
    assert forall op, result | WasAnswered(s, op, result) :: WasAnswered(t, op, result);
    assert forall op :: InProgress(t, op) <==> InProgress(s, op);
  }

  lemma CallerStep(s: State, a: Action)
    requires Inv(s) && Enabled(s, a) && (a.Call? || a.GiveUp? || a.Enqueue?)
    ensures Inv(Next(s, a))
  {
    var t := Next(s, a);
    if !a.Enqueue? {
      OthersKeepCallers(s, a);
    } else {
      EnqueueKeepsCallers(s, a.op);
      assert t.accepted == Ops(t.finished) + InFlight(t.writer) + t.channel;
    }
  }

  lemma TakeKeepsHistory(s: State)
    requires HistoryMatches(s) && Enabled(s, Take)
    ensures HistoryMatches(Next(s, Take))
  {
    var t := Next(s, Take);
    assert t.accepted == Ops(t.finished) + InFlight(t.writer) + t.channel;
    AppliedSnoc(s.finished, Record(t.writer.op, []));
  }

  lemma TakeStep(s: State)
    requires Inv(s) && Enabled(s, Take)
    ensures Inv(Next(s, Take))
  {
    TakeKeepsHistory(s);
    var t := Next(s, Take);
    assert forall op :: InProgress(t, op) <==> InProgress(s, op);
    assert forall op, result | WasAnswered(s, op, result) :: WasAnswered(t, op, result);
  }

  lemma TryKeepsCallers(s: State, outcome: Attempt)
    requires Inv(s) && Enabled(s, Try(outcome))
    ensures CallersMatch(Next(s, Try(outcome)))
  {
    var t := Next(s, Try(outcome));
    assert forall op :: InProgress(t, op) <==> InProgress(s, op);
    assert forall op, result | WasAnswered(s, op, result) :: WasAnswered(t, op, result);
  }

  lemma TryKeepsHistory(s: State, outcome: Attempt)
    requires HistoryMatches(s) && Enabled(s, Try(outcome))
    ensures HistoryMatches(Next(s, Try(outcome)))
  {
    var t := Next(s, Try(outcome));
    AppliedSnoc(s.finished, Record(s.writer.op, s.writer.tries));
    AppliedSnoc(t.finished, Record(t.writer.op, t.writer.tries));
    var tries := s.writer.tries;
    assert tries != [] ==> Last(tries) == Busy;
    assert Last(t.writer.tries) == outcome;
  }

  lemma TryStep(s: State, outcome: Attempt)
    requires Inv(s) && Enabled(s, Try(outcome))
    ensures Inv(Next(s, Try(outcome)))
  {
    TryKeepsCallers(s, outcome);
    TryKeepsHistory(s, outcome);
  }

  lemma ReplyKeepsCallers(s: State)
    requires CallersMatch(s) && Enabled(s, Reply)
    requires s.writer.op !in s.channel
    ensures CallersMatch(Next(s, Reply))
  {
    var t := Next(s, Reply);
    var op := s.writer.op;
    assert t.finished[|s.finished|] == Record(op, s.writer.tries);
    assert WasAnswered(t, op, Last(s.writer.tries));
    forall x, result | WasAnswered(s, x, result)
      ensures WasAnswered(t, x, result)
    {
    }
    assert InProgress(s, op);
    assert forall x :: InProgress(t, x) <==> InProgress(s, x) && x != op;
  }

  lemma CurrentNotRepeated(s: State)
    requires InOrder(s) && NoDuplicates(s.accepted) && s.writer.Working?
    ensures s.writer.op !in Ops(s.finished) && s.writer.op !in s.channel
  {
    NotRepeated(Ops(s.finished), InFlight(s.writer), s.channel, s.writer.op);
  }

  lemma NotRepeated(a: seq<OpId>, one: seq<OpId>, b: seq<OpId>, op: OpId)
    requires one == [op] && NoDuplicates(a + one + b)
    ensures op !in a && op !in b
  {
    var all := a + one + b;
    assert all[|a|] == op;
    forall j | 0 <= j < |b|
      ensures b[j] != op
    {
      assert all[|a| + 1 + j] == b[j];
    }
    forall j | 0 <= j < |a|
      ensures a[j] != op
    {
      assert all[j] == a[j];
    }
  }

  lemma ReplyKeepsOrder(s: State)
    requires InOrder(s) && Enabled(s, Reply)
    ensures InOrder(Next(s, Reply)) && WithCurrent(Next(s, Reply)) == WithCurrent(s)
  {
    assert Ops(Next(s, Reply).finished) == Ops(s.finished) + [s.writer.op];
  }

  lemma ReplyKeepsHistory(s: State)
    requires HistoryMatches(s) && Enabled(s, Reply)
    ensures HistoryMatches(Next(s, Reply))
  {
    ReplyKeepsOrder(s);
  }

  lemma ReplyStep(s: State)
    requires Inv(s) && Enabled(s, Reply)
    ensures Inv(Next(s, Reply))
  {
    CurrentNotRepeated(s);
    ReplyKeepsCallers(s);
    ReplyKeepsHistory(s);
  }

  lemma StepInv(s: State, a: Action)
    requires Inv(s) && Enabled(s, a)
    ensures Inv(Next(s, a))
  {
    match a {
      case Take => TakeStep(s);
      case Try(outcome) => TryStep(s, outcome);
      case Reply => ReplyStep(s);
      case _ => CallerStep(s, a);
    }
  }

  lemma {:induction false} RunInv(s: State, acts: seq<Action>)
    requires Inv(s) && Legal(s, acts)
    ensures Inv(Run(s, acts))
    decreases |acts|
  {
    if acts != [] {
      StepInv(s, acts[0]);
      RunInv(Next(s, acts[0]), acts[1..]);
    }
  }

  // ----- What callers can rely on -----

  // The operations of `ops`, in order, that are among the chosen ones.
  function Select(ops: seq<OpId>, chosen: seq<OpId>): seq<OpId> {
    if ops == [] then []
    else
      Select(ops[..|ops| - 1], chosen) + if ops[|ops| - 1] in chosen then [ops[|ops| - 1]] else []
  }

  lemma {:induction false} SelectNone(ops: seq<OpId>, more: seq<OpId>, chosen: seq<OpId>)
    requires forall op | op in more :: op !in chosen
    ensures Select(ops + more, chosen) == Select(ops, chosen)
  {
    if more == [] {
      assert ops + more == ops;
    } else {
      SelectNone(ops, more[..|more| - 1], chosen);
      assert (ops + more)[..|ops + more| - 1] == ops + more[..|more| - 1];
      assert more[|more| - 1] in more;
    }
  }

  lemma {:induction false} SelectExtra(ops: seq<OpId>, chosen: seq<OpId>, extra: OpId)
    requires extra !in ops
    ensures Select(ops, chosen + [extra]) == Select(ops, chosen)
  {
    if ops != [] {
      SelectExtra(ops[..|ops| - 1], chosen, extra);
    }
  }

  lemma {:induction false} AppliedAmong(records: seq<Record>)
    ensures forall op | op in AppliedOps(records) :: op in Ops(records)
  {
    if records != [] {
      var init, last := records[..|records| - 1], records[|records| - 1];
      AppliedAmong(init);
      assert Ops(records) == Ops(init) + [last.op];
    }
  }

  lemma {:induction false} AppliedIsSelected(records: seq<Record>)
    requires NoDuplicates(Ops(records))
    ensures Select(Ops(records), AppliedOps(records)) == AppliedOps(records)
  {
    if records != [] {
      var init, last := records[..|records| - 1], records[|records| - 1];
      assert Ops(records) == Ops(init) + [last.op];
      assert Ops(records)[..|records| - 1] == Ops(init);
      assert forall i | 0 <= i < |init| :: Ops(init)[i] == Ops(records)[i] != Ops(records)[|init|];
      assert last.op !in Ops(init);
      AppliedIsSelected(init);
      AppliedAmong(init);
      SelectExtra(Ops(init), AppliedOps(init), last.op);
      if last.tries != [] && Last(last.tries) == Applied {
        assert AppliedOps(records) == AppliedOps(init) + [last.op];
      } else {
        assert AppliedOps(records) == AppliedOps(init);
      }
    }
  }

  lemma NotInBoth(a: seq<OpId>, b: seq<OpId>)
    requires NoDuplicates(a + b)
    ensures forall op | op in b :: op !in a
  {
    forall i, j | 0 <= i < |a| && 0 <= j < |b|
      ensures a[i] != b[j]
    {
      assert (a + b)[i] != (a + b)[|a| + j];
    }
  }

  lemma Separated(s: State)
    requires HistoryMatches(s) && NoDuplicates(s.accepted)
    ensures NoDuplicates(Ops(WithCurrent(s))) && s.accepted == Ops(WithCurrent(s)) + s.channel
    ensures forall op | op in s.channel :: op !in s.applied
    ensures forall op | op in s.applied :: op in s.accepted
  {
    var records := WithCurrent(s);
    assert s.accepted == Ops(records) + s.channel;
    forall i, j | 0 <= i < j < |records|
      ensures Ops(records)[i] != Ops(records)[j]
    {
      assert s.accepted[i] != s.accepted[j];
    }
    AppliedAmong(records);
    NotInBoth(Ops(records), s.channel);
  }

  /**
   The database sees a subsequence of the operations in the order in which the channel accepted them, whoever
   called and however the callers, the writer and the timeouts interleave.
   */
  lemma WritesLinearise(acts: seq<Action>)
    requires Legal(START, acts)
    ensures var t := Run(START, acts);
            NoDuplicates(t.accepted) && t.applied == Select(t.accepted, t.applied)
  {
    var t := Run(START, acts);
    StartInv();
    RunInv(START, acts);
    Separated(t);
    AppliedIsSelected(WithCurrent(t));
    SelectNone(Ops(WithCurrent(t)), t.channel, t.applied);
  }

  // A caller told that it timed out has changed nothing, now or later.
  lemma {:induction false} TimedOutHasNoEffect(s: State, acts: seq<Action>, op: OpId)
    requires Inv(s) && Legal(s, acts) && op in s.callers && s.callers[op].TimedOut?
    ensures op !in Run(s, acts).accepted && op !in Run(s, acts).applied
    decreases |acts|
  {
    if acts == [] {
      Separated(s);
    } else {
      StepInv(s, acts[0]);
      TimedOutHasNoEffect(Next(s, acts[0]), acts[1..], op);
    }
  }

  lemma {:induction false} AppliedMeans(records: seq<Record>, r: Record)
    requires NoDuplicates(Ops(records)) && r in records && r.tries != []
    ensures r.op in AppliedOps(records) <==> Last(r.tries) == Applied
    ensures forall x | x in records && x.op == r.op :: x == r
  {
    var init, last := records[..|records| - 1], records[|records| - 1];
    assert Ops(records) == Ops(init) + [last.op];
    forall i | 0 <= i < |init|
      ensures Ops(init)[i] == Ops(records)[i] != last.op
    {
      assert Ops(records)[|init|] == last.op;
    }
    AppliedAmong(init);
    if r in init {
      AppliedMeans(init, r);
      var i :| 0 <= i < |init| && init[i] == r;
      assert Ops(init)[i] == r.op;
    } else {
      forall x | x in init
        ensures x.op != r.op
      {
        var i :| 0 <= i < |init| && init[i] == x;
        assert Ops(init)[i] == x.op;
      }
      assert r.op !in Ops(init);
    }
  }

  /**
   An answered operation was tried between one and ten times up to its first outcome that is not busy, was replied to
   once, was told the last outcome, and is in the database exactly if that outcome says so.
   */
  lemma AnswersAreTrue(s: State, op: OpId) returns (r: Record)
    requires Inv(s) && op in s.callers && s.callers[op].Answered?
    ensures r in s.replies && r.op == op && (forall x | x in s.replies && x.op == op :: x == r)
    ensures NoDuplicates(Ops(s.replies))
    ensures WellTried(r.tries) && s.callers[op].result == Last(r.tries)
    ensures 1 <= |r.tries| <= 10 && (forall i | 0 <= i < |r.tries| - 1 :: r.tries[i] == Busy)
    ensures s.callers[op].result == Busy ==> |r.tries| == 10
    ensures op in s.applied <==> s.callers[op].result == Applied
  {
    r :| r in s.finished && r.op == op && r.tries != [] && Last(r.tries) == s.callers[op].result;
    var records := WithCurrent(s);
    Separated(s);
    forall i, j | 0 <= i < j < |s.finished|
      ensures Ops(s.finished)[i] != Ops(s.finished)[j]
    {
      assert Ops(records)[i] != Ops(records)[j];
    }
    assert r in records;
    AppliedMeans(records, r);
  }

  // The channel holds a hundred operations, no fewer and no more.
  lemma ChannelHoldsHundred(s: State, op: OpId)
    requires Inv(s) && op in s.callers && s.callers[op].Waiting?
    ensures |s.channel| <= 100 && (Enabled(s, Enqueue(op)) <==> |s.channel| < 100)
    ensures Enabled(s, GiveUp(op))
  {
  }

  // The writer can always take its next step: it never waits for a reply to be collected.
  lemma WriterNeverBlocks(s: State)
    requires Inv(s) && (s.writer.Working? || s.channel != [])
    ensures Enabled(s, Take) || Enabled(s, Reply) || forall outcome :: Enabled(s, Try(outcome))
  {
    if s.writer.Working? {
      assert InProgress(s, s.writer.op);
      CanDeliver(s);
      assert Done(s.writer.tries) ==> Enabled(s, Reply);
    }
  }

  lemma CanDeliver(s: State)
    requires InOrder(s) && NoDuplicates(s.accepted) && s.replies == s.finished && s.writer.Working?
    requires s.writer.op in s.callers && s.callers[s.writer.op].Enqueued?
    ensures CanReceive(s, s.writer.op)
  {
    CurrentNotRepeated(s);
  }

  // An operation answered before another is called comes before it in the order of effect.
  lemma {:induction false} AcceptedGrows(s: State, acts: seq<Action>)
    requires Legal(s, acts)
    ensures s.accepted <= Run(s, acts).accepted
    decreases |acts|
  {
    if acts != [] {
      AcceptedGrows(Next(s, acts[0]), acts[1..]);
    }
  }

  lemma RealTimeOrder(s: State, acts: seq<Action>, early: OpId, late: OpId)
    returns (i: nat, j: nat)
    requires Inv(s) && Legal(s, acts)
    requires early in s.callers && s.callers[early].Answered? && late !in s.callers
    requires late in Run(s, acts).accepted
    ensures i < j < |Run(s, acts).accepted|
    ensures Run(s, acts).accepted[i] == early && Run(s, acts).accepted[j] == late
  {
    AcceptedGrows(s, acts);
    assert early in s.accepted && late !in s.accepted;
    i :| 0 <= i < |s.accepted| && s.accepted[i] == early;
    j :| 0 <= j < |Run(s, acts).accepted| && Run(s, acts).accepted[j] == late;
    assert forall x | 0 <= x < |s.accepted| :: Run(s, acts).accepted[x] in s.accepted;
  }
}
