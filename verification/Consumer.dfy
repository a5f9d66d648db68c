/** The Kafka consumer's claim loop: handling, dead-lettering and offset marking of every pulled message. */
module Consumer {
  import opened Retry

  type Topic = string

  datatype Message = Message(topic: Topic, key: string, value: string)

  // What the loop's select receives.
  datatype Event = ContextDone | ChannelClosed | Pulled(message: Message)

  datatype Exit = Cancelled | Closed | DlqFailure | StillWaiting

  // The metric label under which a pulled message is counted.
  datatype Fate = Unhandled | Handled | DeadLettered | DlqError

  datatype DeadLetter = DeadLetter(key: string, originalPayload: string, originalTopic: Topic, retryCount: int)

  // The messages pulled before the feed first ends.
  function Messages(feed: seq<Event>): seq<Message> {
    if feed == [] || !feed[0].Pulled? then [] else [feed[0].message] + Messages(feed[1..])
  }

  /**
   How the surroundings answer: fails(i, k) for the k-th handler call on the i-th pulled message, and dlqDown(i) for
   the dead-letter send of that message.
   */
  datatype Surroundings = Surroundings(fails: (nat, nat) -> bool, dlqDown: nat -> bool)

  function FateOf(registered: set<Topic>, maxRetries: int, env: Surroundings, i: nat, m: Message): Fate {
    if m.topic !in registered then Unhandled
    else if exists k: nat :: k <= Budget(maxRetries) && !env.fails(i, k) then Handled
    else if env.dlqDown(i) then DlqError
    else DeadLettered
  }

  function Fates(registered: set<Topic>, maxRetries: int, env: Surroundings, ms: seq<Message>): seq<Fate> {
    seq(|ms|, i requires 0 <= i < |ms| => FateOf(registered, maxRetries, env, i, ms[i]))
  }

  // onComplete is called for the messages that were handled or dead-lettered.
  function ReportedKey(m: Message, fate: Fate): seq<string> {
    if fate.Handled? || fate.DeadLettered? then [m.key] else []
  }

  function ReportedLetter(m: Message, fate: Fate, maxRetries: int): seq<DeadLetter> {
    if fate.DeadLettered? then [DeadLetter(m.key, m.value, m.topic, maxRetries)] else []
  }

  function CompletedKeys(ms: seq<Message>, fates: seq<Fate>): seq<string>
    requires |ms| == |fates|
  {
    if ms == [] then []
    else
      var last := |ms| - 1;
      CompletedKeys(ms[..last], fates[..last]) + ReportedKey(ms[last], fates[last])
  }

  function DeadLetters(ms: seq<Message>, fates: seq<Fate>, maxRetries: int): seq<DeadLetter>
    requires |ms| == |fates|
  {
    if ms == [] then []
    else
      var last := |ms| - 1;
      DeadLetters(ms[..last], fates[..last], maxRetries) + ReportedLetter(ms[last], fates[last], maxRetries)
  }

  class ConsumerSession {
    const registered: set<Topic>
    const retry: RetryConfig
    // Whether SetOnComplete was called.
    const reportsCompletion: bool

    var marked: seq<Message>
    var fates: seq<Fate>
    var completed: seq<string>
    var deadLetters: seq<DeadLetter>

    constructor (registered: set<Topic>, retry: RetryConfig, reportsCompletion: bool)
      ensures this.registered == registered && this.retry == retry && this.reportsCompletion == reportsCompletion
      ensures marked == [] && fates == [] && completed == [] && deadLetters == []
    {
      this.registered, this.retry, this.reportsCompletion := registered, retry, reportsCompletion;
      marked, fates, completed, deadLetters := [], [], [], [];
    }

    // The loop's body for the i-th pulled message.
    method Consume(m: Message, i: nat, env: Surroundings) returns (fate: Fate)
      modifies this
      ensures fate == FateOf(registered, retry.maxRetries, env, i, m)
      ensures marked == old(marked) + [m]
      ensures fates == old(fates) + [fate]
      ensures completed == old(completed) + if reportsCompletion then ReportedKey(m, fate) else []
      ensures deadLetters == old(deadLetters) + ReportedLetter(m, fate, retry.maxRetries)
      ensures fate.Unhandled? <==> m.topic !in registered
      ensures fate.Handled? <==>
        m.topic in registered && exists k: nat :: (k == 0 || k <= retry.maxRetries) && !env.fails(i, k)
      ensures fate.DlqError? <==> !fate.Unhandled? && !fate.Handled? && env.dlqDown(i)
      ensures deadLetters == old(deadLetters)
                + if fate.DeadLettered? then [DeadLetter(m.key, m.value, m.topic, retry.maxRetries)] else []
      ensures completed == old(completed)
                + if reportsCompletion && (fate.Handled? || fate.DeadLettered?) then [m.key] else []
    {
      if m.topic !in registered {
        marked := marked + [m];
        fates := fates + [Unhandled];
        return Unhandled;
      }
      fate := Handled;
      var handler := (k: nat) => env.fails(i, k);
      var ok, _, _ := ProcessWithRetry(handler, retry);
      assert forall k: nat :: handler(k) == env.fails(i, k);
      if !ok {
        var letter := DeadLetter(m.key, m.value, m.topic, retry.maxRetries);
        if env.dlqDown(i) {
          fates := fates + [DlqError];
          marked := marked + [m];
          return DlqError;
        }
        deadLetters := deadLetters + [letter];
        fate := DeadLettered;
      }
      fates := fates + [fate];
      if reportsCompletion {
        completed := completed + [m.key];
      }
      marked := marked + [m];
    }

    // The session's records are those of exactly these messages.
    ghost predicate AccountsFor(env: Surroundings, ms: seq<Message>)
      reads this
    {
      && marked == ms
      && fates == Fates(registered, retry.maxRetries, env, ms)
      && completed == (if reportsCompletion then CompletedKeys(ms, fates) else [])
      && deadLetters == DeadLetters(ms, fates, retry.maxRetries)
    }

    // The letters and the completed keys belong to the messages at these positions.
    ghost predicate RecordsMatch(ms: seq<Message>, lettersOf: seq<nat>, completedOf: seq<nat>)
      reads this
    {
      && LettersMatch(deadLetters, lettersOf, ms, fates, retry.maxRetries)
      && (reportsCompletion ==> KeysMatch(completed, completedOf, ms, fates))
      && (!reportsCompletion ==> completed == [] && completedOf == [])
    }

    // The loop's body keeps the accounts.
    method ConsumeNext(m: Message, env: Surroundings, ghost ms: seq<Message>) returns (fate: Fate)
      requires AccountsFor(env, ms)
      modifies this
      ensures AccountsFor(env, ms + [m]) && fates == old(fates) + [fate]
      ensures fate == FateOf(registered, retry.maxRetries, env, |ms|, m)
    {
      Snoc(registered, retry.maxRetries, env, ms, m);
      fate := Consume(m, |marked|, env);
    }

    lemma RecordsAre(env: Surroundings, ms: seq<Message>) returns (lettersOf: seq<nat>, completedOf: seq<nat>)
      requires AccountsFor(env, ms)
      ensures RecordsMatch(ms, lettersOf, completedOf)
    {
      lettersOf := LettersAre(ms, fates, retry.maxRetries);
      completedOf := [];
      if reportsCompletion {
        completedOf := KeysAre(ms, fates);
      }
    }

    /**
     Every message pulled is marked once, in order, and has exactly one fate, the one its handler calls and its
     dead-letter send determine. The loop ends early only at a failed dead-letter send.
     */
    method ConsumeClaim(feed: seq<Event>, env: Surroundings)
      returns (exit: Exit, ghost pulled: seq<Message>, ghost lettersOf: seq<nat>, ghost completedOf: seq<nat>)
      requires AccountsFor(env, [])
      modifies this
      ensures marked == pulled && RecordsMatch(pulled, lettersOf, completedOf)
      ensures pulled <= Messages(feed)
      ensures AccountsFor(env, pulled)
      ensures forall i | 0 <= i < |fates| :: fates[i].DlqError? <==> exit.DlqFailure? && i == |fates| - 1
      ensures exit.DlqFailure? ==> pulled != []
      ensures !exit.DlqFailure? ==> pulled == Messages(feed)
      ensures exit.StillWaiting? ==> |pulled| == |feed|
      ensures exit.Cancelled? ==> |pulled| < |feed| && feed[|pulled|].ContextDone?
      ensures exit.Closed? ==> |pulled| < |feed| && feed[|pulled|].ChannelClosed?
    {
      pulled, lettersOf, completedOf := [], [], [];
      var i := 0;
      while i < |feed|
        invariant |pulled| == i <= |feed|
        invariant forall j | 0 <= j < i :: feed[j].Pulled? && pulled[j] == feed[j].message
        invariant AccountsFor(env, pulled)
        invariant forall j | 0 <= j < i :: !fates[j].DlqError?
      {
        if !feed[i].Pulled? {
          MessagesPrefix(feed, i, pulled);
          lettersOf, completedOf := RecordsAre(env, pulled);
          return if feed[i].ContextDone? then Cancelled else Closed, pulled, lettersOf, completedOf;
        }
        var m := feed[i].message;
        var fate := ConsumeNext(m, env, pulled);
        pulled := pulled + [m];
        i := i + 1;
        if fate.DlqError? {
          MessagesPrefix(feed, i, pulled);
          lettersOf, completedOf := RecordsAre(env, pulled);
          return DlqFailure, pulled, lettersOf, completedOf;
        }
      }
      MessagesPrefix(feed, i, pulled);
      lettersOf, completedOf := RecordsAre(env, pulled);
      return StillWaiting, pulled, lettersOf, completedOf;
    }
  }

  predicate IsWanted(fate: Fate, handledToo: bool) {
    fate.DeadLettered? || (handledToo && fate.Handled?)
  }

  function WantedCount(fates: seq<Fate>, handledToo: bool): nat {
    if fates == [] then 0
    else WantedCount(fates[..|fates| - 1], handledToo) + if IsWanted(fates[|fates| - 1], handledToo) then 1 else 0
  }

  // The positions of the dead-lettered messages, and of the handled ones if they are wanted too: all, and in order.
  predicate ArePositions(at: seq<nat>, fates: seq<Fate>, handledToo: bool) {
    && |at| == WantedCount(fates, handledToo)
    && (forall j, k | 0 <= j < k < |at| :: at[j] < at[k])
    && (forall k | 0 <= k < |at| :: at[k] < |fates| && IsWanted(fates[at[k]], handledToo))
  }

  function AddPosition(at: seq<nat>, fates: seq<Fate>, fate: Fate, handledToo: bool): (more: seq<nat>)
    requires ArePositions(at, fates, handledToo)
    ensures ArePositions(more, fates + [fate], handledToo)
  {
    PositionsGrow(at, fates, fate, handledToo);
    if IsWanted(fate, handledToo) then at + [|fates|] else at
  }

  lemma PositionsGrow(at: seq<nat>, fates: seq<Fate>, fate: Fate, handledToo: bool)
    requires ArePositions(at, fates, handledToo)
    ensures ArePositions(if IsWanted(fate, handledToo) then at + [|fates|] else at, fates + [fate], handledToo)
  {
    assert (fates + [fate])[..|fates|] == fates;
  }

  // The letters, in order, of the dead-lettered messages, which stand at these positions.
  predicate LettersMatch(letters: seq<DeadLetter>, at: seq<nat>, ms: seq<Message>, fates: seq<Fate>, maxRetries: int) {
    && |ms| == |fates| && |at| == |letters| && ArePositions(at, fates, false)
    && forall k | 0 <= k < |letters| ::
         letters[k] == DeadLetter(ms[at[k]].key, ms[at[k]].value, ms[at[k]].topic, maxRetries)
  }

  // The keys, in order, of the handled and dead-lettered messages, which stand at these positions.
  predicate KeysMatch(keys: seq<string>, at: seq<nat>, ms: seq<Message>, fates: seq<Fate>) {
    && |ms| == |fates| && |at| == |keys| && ArePositions(at, fates, true)
    && forall k | 0 <= k < |keys| :: keys[k] == ms[at[k]].key
  }

  lemma AddLetter(letters: seq<DeadLetter>, at: seq<nat>, ms: seq<Message>, fates: seq<Fate>, maxRetries: int,
                  m: Message, fate: Fate)
    requires LettersMatch(letters, at, ms, fates, maxRetries)
    ensures LettersMatch(letters + ReportedLetter(m, fate, maxRetries), AddPosition(at, fates, fate, false),
                         ms + [m], fates + [fate], maxRetries)
  {
  }

  lemma AddKey(keys: seq<string>, at: seq<nat>, ms: seq<Message>, fates: seq<Fate>, m: Message, fate: Fate)
    requires KeysMatch(keys, at, ms, fates)
    ensures KeysMatch(keys + ReportedKey(m, fate), AddPosition(at, fates, fate, true), ms + [m], fates + [fate])
  {
  }

  lemma {:induction false} LettersAre(ms: seq<Message>, fates: seq<Fate>, maxRetries: int) returns (at: seq<nat>)
    requires |ms| == |fates|
    ensures LettersMatch(DeadLetters(ms, fates, maxRetries), at, ms, fates, maxRetries)
  {
    at := [];
    if ms != [] {
      var last := |ms| - 1;
      var before := LettersAre(ms[..last], fates[..last], maxRetries);
      AddLetter(DeadLetters(ms[..last], fates[..last], maxRetries), before, ms[..last], fates[..last], maxRetries,
                ms[last], fates[last]);
      at := AddPosition(before, fates[..last], fates[last], false);
      assert ms[..last] + [ms[last]] == ms && fates[..last] + [fates[last]] == fates;
    }
  }

  lemma {:induction false} KeysAre(ms: seq<Message>, fates: seq<Fate>) returns (at: seq<nat>)
    requires |ms| == |fates|
    ensures KeysMatch(CompletedKeys(ms, fates), at, ms, fates)
  {
    at := [];
    if ms != [] {
      var last := |ms| - 1;
      var before := KeysAre(ms[..last], fates[..last]);
      AddKey(CompletedKeys(ms[..last], fates[..last]), before, ms[..last], fates[..last], ms[last], fates[last]);
      at := AddPosition(before, fates[..last], fates[last], true);
      assert ms[..last] + [ms[last]] == ms && fates[..last] + [fates[last]] == fates;
    }
  }

  lemma {:induction false} MessagesPrefix(feed: seq<Event>, i: nat, pulled: seq<Message>)
    requires |pulled| == i <= |feed|
    requires forall j | 0 <= j < i :: feed[j].Pulled? && pulled[j] == feed[j].message
    ensures pulled <= Messages(feed)
    ensures (i == |feed| || !feed[i].Pulled?) ==> pulled == Messages(feed)
  {
    if i > 0 {
      MessagesPrefix(feed[1..], i - 1, pulled[1..]);
      assert pulled == [pulled[0]] + pulled[1..];
    }
  }

  lemma Snoc(registered: set<Topic>, maxRetries: int, env: Surroundings, ms: seq<Message>, m: Message)
    ensures var before := Fates(registered, maxRetries, env, ms);
            var fate := FateOf(registered, maxRetries, env, |ms|, m);
            && Fates(registered, maxRetries, env, ms + [m]) == before + [fate]
            && CompletedKeys(ms + [m], before + [fate]) == CompletedKeys(ms, before) + ReportedKey(m, fate)
            && DeadLetters(ms + [m], before + [fate], maxRetries)
               == DeadLetters(ms, before, maxRetries) + ReportedLetter(m, fate, maxRetries)
  {
    var before := Fates(registered, maxRetries, env, ms);
    var fate := FateOf(registered, maxRetries, env, |ms|, m);
    assert (ms + [m])[..|ms|] == ms && (before + [fate])[..|ms|] == before;
  }
}
