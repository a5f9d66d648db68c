/** Which messages can give rise to which: the handler table and the cascade started by one heavy operation. */
module Cascade {
  import opened Ledger
  import opened LedgerStore
  import opened Retry
  import opened Consumer
  import opened Outcomes
  import N = Notifications
  import D = DeadLetters
  import H = HeavyOps

  datatype Handler = HeavyOp | Notification | DeadLetterQueue

  // The topics are configured by name and may coincide.
  datatype Topics = Topics(heavyOps: Topic, notifications: Topic, dlq: Topic)

  // Handlers are registered in this order, so a later registration replaces an earlier one on the same topic.
  method RegisterHandlers(topics: Topics) returns (table: map<Topic, Handler>)
    ensures table == HandlerTable(topics)
    ensures table.Keys == {topics.heavyOps, topics.notifications, topics.dlq}
    ensures table[topics.dlq] == DeadLetterQueue
    ensures topics.notifications != topics.dlq ==> table[topics.notifications] == Notification
    ensures topics.heavyOps !in {topics.notifications, topics.dlq} ==> table[topics.heavyOps] == HeavyOp
  {
    table := map[];
    table := table[topics.heavyOps := HeavyOp];
    table := table[topics.notifications := Notification];
    table := table[topics.dlq := DeadLetterQueue];
  }

  function HandlerTable(topics: Topics): map<Topic, Handler> {
    map[topics.heavyOps := HeavyOp][topics.notifications := Notification][topics.dlq := DeadLetterQueue]
  }

  function Repeat(topic: Topic, n: nat): seq<Topic> {
    seq(n, _ => topic)
  }

  /**
   The messages that consuming one message on a topic can send, retries included. A heavy operation sends at most
   one notification for each handler call; the other two handlers send nothing; when every call fails the message
   itself goes to the dead-letter topic; the dead-letter handler never answers with an error. `fragile` says that the
   notification handler may fail.
   */
  predicate MaySend(topics: Topics, maxRetries: int, fragile: bool, topic: Topic, sent: seq<Topic>) {
    var table := HandlerTable(topics);
    if topic !in table then sent == []
    else match table[topic]
      case HeavyOp =>
        exists n: nat :: n <= Budget(maxRetries) + 1
          && (sent == Repeat(topics.notifications, n) || sent == Repeat(topics.notifications, n) + [topics.dlq])
      case Notification => sent == [] || (fragile && sent == [topics.dlq])
      case DeadLetterQueue => sent == []
  }

  // Consuming a heavy operation, retries included, sends no more than that.
  method ConsumeHeavyOp(store: Store, topics: Topics, id: JobId, parses: bool, env: nat -> H.Attempt, maxRetries: int,
                        dlqDown: bool) returns (sent: seq<Topic>)
    modifies store
    ensures HandlerTable(topics)[topics.heavyOps] == HeavyOp ==>
      MaySend(topics, maxRetries, false, topics.heavyOps, sent)
    ensures parses && id !in old(store.rows) && H.WritesSucceed(env, maxRetries) ==>
      exists calls: nat, ok: bool ::
        && H.Stopped(old(store.rows), id, true, env, maxRetries, calls, ok)
        && sent == Repeat(topics.notifications, calls) + if ok || dlqDown then [] else [topics.dlq]
    ensures topics.dlq != topics.notifications ==>
      (topics.dlq in sent <==>
       !dlqDown && forall k: nat | k <= Budget(maxRetries) :: H.Errs(old(store.rows), id, parses, env, k))
  {
    var ok, calls, notified := H.RetryHeavyOp(store, id, parses, env, maxRetries);
    sent := Repeat(topics.notifications, notified);
    assert forall x | x in sent :: x == topics.notifications;
    if !ok && !dlqDown {
      sent := sent + [topics.dlq];
    }
    assert Repeat(topics.notifications, notified) + [] == Repeat(topics.notifications, notified);
  }

  // The consumer's own send for a message of this fate; the other two handlers send nothing themselves.
  function LettersSent(topics: Topics, fate: Fate): seq<Topic> {
    if fate.DeadLettered? then [topics.dlq] else []
  }

  // Consuming a message on the notifications topic sends no more than that, and nothing if its payload decodes.
  lemma ConsumedNotificationSends(topics: Topics, maxRetries: int, env: Surroundings, i: nat, m: Message,
                                  payload: Option<N.Json>)
    requires m.topic == topics.notifications != topics.dlq
    requires forall k: nat :: env.fails(i, k) == N.NotificationFails(payload)
    ensures var fate := FateOf(HandlerTable(topics).Keys, maxRetries, env, i, m);
            && MaySend(topics, maxRetries, N.NotificationFails(payload), m.topic, LettersSent(topics, fate))
            && (fate.Handled? <==> !N.NotificationFails(payload))
  {
    assert env.fails(i, 0) == N.NotificationFails(payload);
  }

  // Consuming a dead letter sends nothing: its handler returns without an error, unless it panics.
  lemma ConsumedDeadLetterSends(topics: Topics, maxRetries: int, env: Surroundings, i: nat, m: Message,
                                letter: D.Letter)
    requires m.topic == topics.dlq && !D.IsPoison(letter)
    requires forall k: nat :: env.fails(i, k) == (D.OutcomeOf(letter) == D.Returned(true))
    ensures var fate := FateOf(HandlerTable(topics).Keys, maxRetries, env, i, m);
            fate.Handled? && MaySend(topics, maxRetries, false, m.topic, LettersSent(topics, fate))
  {
    assert env.fails(i, 0) == (D.OutcomeOf(letter) == D.Returned(true));
  }

  // Consuming the pending message number `index` sends these messages.
  datatype Step = Step(index: nat, sent: seq<Topic>)

  // No message is redelivered: each pending message is consumed once, in any order.
  predicate IsCascade(topics: Topics, maxRetries: int, fragile: bool, pending: seq<Topic>, steps: seq<Step>)
    decreases |steps|
  {
    steps == [] ||
    (&& steps[0].index < |pending|
     && MaySend(topics, maxRetries, fragile, pending[steps[0].index], steps[0].sent)
     && IsCascade(topics, maxRetries, fragile, After(pending, steps[0]), steps[1..]))
  }

  function After(pending: seq<Topic>, step: Step): seq<Topic>
    requires step.index < |pending|
  {
    pending[..step.index] + pending[step.index + 1..] + step.sent
  }

  function Sent(steps: seq<Step>): nat {
    if steps == [] then 0 else |steps[0].sent| + Sent(steps[1..])
  }

  // The most messages that one message on this topic can still cause.
  function Credit(topics: Topics, maxRetries: int, fragile: bool, topic: Topic): nat {
    var table := HandlerTable(topics);
    if topic !in table then 0
    else match table[topic]
      case HeavyOp => Budget(maxRetries) + 2 + if fragile then Budget(maxRetries) + 1 else 0
      case Notification => if fragile then 1 else 0
      case DeadLetterQueue => 0
  }

  function TotalCredit(topics: Topics, maxRetries: int, fragile: bool, pending: seq<Topic>): nat {
    if pending == [] then 0
    else Credit(topics, maxRetries, fragile, pending[0]) + TotalCredit(topics, maxRetries, fragile, pending[1..])
  }

  lemma {:induction false} TotalCreditConcat(topics: Topics, maxRetries: int, fragile: bool,
                                             a: seq<Topic>, b: seq<Topic>)
    ensures TotalCredit(topics, maxRetries, fragile, a + b)
         == TotalCredit(topics, maxRetries, fragile, a) + TotalCredit(topics, maxRetries, fragile, b)
  {
    if a == [] {
      assert a + b == b;
    } else {
      TotalCreditConcat(topics, maxRetries, fragile, a[1..], b);
      assert (a + b)[1..] == a[1..] + b;
    }
  }

  lemma {:induction false} RepeatCredit(topics: Topics, maxRetries: int, fragile: bool, topic: Topic, n: nat)
    ensures TotalCredit(topics, maxRetries, fragile, Repeat(topic, n)) == n * Credit(topics, maxRetries, fragile, topic)
  {
    if n > 0 {
      RepeatCredit(topics, maxRetries, fragile, topic, n - 1);
      assert Repeat(topic, n)[1..] == Repeat(topic, n - 1);
    }
  }

  // Each message sent, and whatever it may still cause, is paid for by the message consumed.
  lemma SendingIsPaidFor(topics: Topics, maxRetries: int, fragile: bool, topic: Topic, sent: seq<Topic>)
    requires MaySend(topics, maxRetries, fragile, topic, sent)
    ensures |sent| + TotalCredit(topics, maxRetries, fragile, sent) <= Credit(topics, maxRetries, fragile, topic)
  {
    var table := HandlerTable(topics);
    var dead := [topics.dlq];
    assert dead[1..] == [] && TotalCredit(topics, maxRetries, fragile, dead) == 0;
    if topic in table && table[topic] == HeavyOp {
      var n: nat :| n <= Budget(maxRetries) + 1
        && (sent == Repeat(topics.notifications, n) || sent == Repeat(topics.notifications, n) + dead);
      var each := Credit(topics, maxRetries, fragile, topics.notifications);
      assert each <= if fragile then 1 else 0;
      NotificationCredit(topics, maxRetries, fragile, n);
      TotalCreditConcat(topics, maxRetries, fragile, Repeat(topics.notifications, n), dead);
    }
  }

  lemma NotificationCredit(topics: Topics, maxRetries: int, fragile: bool, n: nat)
    requires Credit(topics, maxRetries, fragile, topics.notifications) <= if fragile then 1 else 0
    ensures TotalCredit(topics, maxRetries, fragile, Repeat(topics.notifications, n)) <= if fragile then n else 0
  {
    RepeatCredit(topics, maxRetries, fragile, topics.notifications, n);
    if Credit(topics, maxRetries, fragile, topics.notifications) == 0 {
      assert n * 0 == 0;
    } else {
      assert n * 1 == n;
    }
  }

  lemma {:induction false} CascadeIsPaidFor(topics: Topics, maxRetries: int, fragile: bool, pending: seq<Topic>,
                                            steps: seq<Step>)
    requires IsCascade(topics, maxRetries, fragile, pending, steps)
    ensures Sent(steps) <= TotalCredit(topics, maxRetries, fragile, pending)
    ensures |steps| <= |pending| + Sent(steps)
    decreases |steps|
  {
    if steps != [] {
      var step := steps[0];
      CascadeIsPaidFor(topics, maxRetries, fragile, After(pending, step), steps[1..]);
      SendingIsPaidFor(topics, maxRetries, fragile, pending[step.index], step.sent);
      CreditAfter(topics, maxRetries, fragile, pending, step);
    }
  }

  lemma CreditAfter(topics: Topics, maxRetries: int, fragile: bool, pending: seq<Topic>, step: Step)
    requires step.index < |pending|
    ensures TotalCredit(topics, maxRetries, fragile, After(pending, step))
              + Credit(topics, maxRetries, fragile, pending[step.index])
         == TotalCredit(topics, maxRetries, fragile, pending) + TotalCredit(topics, maxRetries, fragile, step.sent)
  {
    var before, rest := pending[..step.index], pending[step.index + 1..];
    assert pending == before + ([pending[step.index]] + rest);
    TotalCreditConcat(topics, maxRetries, fragile, before, [pending[step.index]] + rest);
    TotalCreditConcat(topics, maxRetries, fragile, before, rest);
    TotalCreditConcat(topics, maxRetries, fragile, before + rest, step.sent);
    assert ([pending[step.index]] + rest)[1..] == rest;
  }

  /**
   Without redelivery one heavy-operation message causes at most 2 * (maxRetries + 1) + 1 further messages, so the
   cascade ends, however the three topics are named and in whatever order their messages are consumed.
   */
  lemma HeavyOpCascadeEnds(topics: Topics, maxRetries: int, steps: seq<Step>)
    requires IsCascade(topics, maxRetries, true, [topics.heavyOps], steps)
    ensures Sent(steps) <= 2 * (Budget(maxRetries) + 1) + 1
    ensures |steps| <= 2 * (Budget(maxRetries) + 1) + 2
  {
    var pending := [topics.heavyOps];
    CascadeIsPaidFor(topics, maxRetries, true, pending, steps);
    assert pending[1..] == [];
    assert TotalCredit(topics, maxRetries, true, pending) == Credit(topics, maxRetries, true, topics.heavyOps);
  }

  // Notifications that the program sends always decode, so with topics of their own they are never dead-lettered, and
  // about half the messages remain.
  lemma SoundCascadeEnds(topics: Topics, maxRetries: int, steps: seq<Step>)
    requires topics.heavyOps != topics.notifications
    requires IsCascade(topics, maxRetries, false, [topics.heavyOps], steps)
    ensures Sent(steps) <= Budget(maxRetries) + 2
  {
    var pending := [topics.heavyOps];
    CascadeIsPaidFor(topics, maxRetries, false, pending, steps);
    assert pending[1..] == [];
    assert TotalCredit(topics, maxRetries, false, pending) == Credit(topics, maxRetries, false, topics.heavyOps);
  }

  // ----- The bound is reached -----

  function DrainSteps(topics: Topics, notifications: nat, dead: nat): seq<Step> {
    if notifications > 0 then [Step(0, [topics.dlq])] + DrainSteps(topics, notifications - 1, dead + 1)
    else seq(dead, _ => Step(0, []))
  }

  lemma AfterOneNotification(topics: Topics, notifications: nat, dead: nat)
    requires notifications > 0
    ensures After(Repeat(topics.notifications, notifications) + Repeat(topics.dlq, dead), Step(0, [topics.dlq]))
         == Repeat(topics.notifications, notifications - 1) + Repeat(topics.dlq, dead + 1)
  {
  }

  // Every notification left fails and is dead-lettered; every dead letter is consumed silently.
  lemma {:induction false} DrainIsCascade(topics: Topics, maxRetries: int, dead: nat, notifications: nat)
    requires topics.notifications != topics.dlq
    ensures IsCascade(topics, maxRetries, true, Repeat(topics.notifications, notifications) + Repeat(topics.dlq, dead),
                      DrainSteps(topics, notifications, dead))
    ensures Sent(DrainSteps(topics, notifications, dead)) == notifications
    decreases notifications, dead
  {
    var pending := Repeat(topics.notifications, notifications) + Repeat(topics.dlq, dead);
    var steps := DrainSteps(topics, notifications, dead);
    if notifications > 0 {
      DrainIsCascade(topics, maxRetries, dead + 1, notifications - 1);
      assert steps[1..] == DrainSteps(topics, notifications - 1, dead + 1);
      AfterOneNotification(topics, notifications, dead);
    } else if dead > 0 {
      DrainIsCascade(topics, maxRetries, dead - 1, 0);
      assert steps[1..] == DrainSteps(topics, 0, dead - 1);
      assert After(pending, steps[0]) == Repeat(topics.notifications, 0) + Repeat(topics.dlq, dead - 1);
    }
  }

  // With distinct topics the bound is attained, so it cannot be lowered.
  lemma BoundIsAttained(topics: Topics, maxRetries: int) returns (steps: seq<Step>)
    requires topics.heavyOps != topics.notifications && topics.heavyOps != topics.dlq
    requires topics.notifications != topics.dlq
    ensures IsCascade(topics, maxRetries, true, [topics.heavyOps], steps)
    ensures Sent(steps) == 2 * (Budget(maxRetries) + 1) + 1
  {
    var n := Budget(maxRetries) + 1;
    var sent := Repeat(topics.notifications, n) + [topics.dlq];
    steps := [Step(0, sent)] + DrainSteps(topics, n, 1);
    DrainIsCascade(topics, maxRetries, 1, n);
    assert steps[1..] == DrainSteps(topics, n, 1);
    assert Repeat(topics.dlq, 1) == [topics.dlq];
    assert After([topics.heavyOps], steps[0]) == Repeat(topics.notifications, n) + Repeat(topics.dlq, 1);
    assert MaySend(topics, maxRetries, true, topics.heavyOps, sent);
  }
}
