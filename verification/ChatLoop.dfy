/** The chat's bounded tool loop and the translation of its conversation for the model's interface. */
module ChatLoop {
  import opened Outcomes
  import opened Text

  datatype ToolCall = ToolCall(id: string, name: string, arguments: string)
  datatype ToolResult = ToolResult(toolCallId: string, displayName: string, result: string, isError: bool)

  datatype Message = Message(role: string, content: string, toolCalls: seq<ToolCall>, toolResults: seq<ToolResult>)

  datatype Role = Assistant | User

  datatype Block =
    | ToolUseBlock(id: string, arguments: string, name: string)
    | ToolResultBlock(toolUseId: string, text: string, isError: bool)
    | TextBlock(text: string)

  datatype MessageParam = MessageParam(role: Role, blocks: seq<Block>)

  function UseBlocks(calls: seq<ToolCall>): seq<Block> {
    seq(|calls|, i requires 0 <= i < |calls| => ToolUseBlock(calls[i].id, calls[i].arguments, calls[i].name))
  }

  function ResultBlocks(results: seq<ToolResult>): seq<Block> {
    seq(|results|, i requires 0 <= i < |results| =>
      ToolResultBlock(results[i].toolCallId, results[i].result, results[i].isError))
  }

  // A message becomes one message parameter, or none if it is blank and carries nothing else.
  function TranslateOne(m: Message): seq<MessageParam> {
    if m.role == "assistant" && m.toolCalls != [] then
      [MessageParam(Assistant, UseBlocks(m.toolCalls) + if IsBlank(m.content) then [] else [TextBlock(m.content)])]
    else if m.role == "user" && m.toolResults != [] then
      // Its text, if any, is dropped.
      [MessageParam(User, ResultBlocks(m.toolResults))]
    else if !IsBlank(m.content) then
      [MessageParam(if m.role == "assistant" then Assistant else User, [TextBlock(m.content)])]
    else []
  }

  function Translate(messages: seq<Message>): seq<MessageParam> {
    if messages == [] then []
    else Translate(messages[..|messages| - 1]) + TranslateOne(messages[|messages| - 1])
  }

  method ConstructMessages(messages: seq<Message>) returns (result: seq<MessageParam>)
    ensures result == Translate(messages)
  {
    result := [];
    for i := 0 to |messages|
      invariant result == Translate(messages[..i])
    {
      var m := messages[i];
      assert messages[..i + 1][..i] == messages[..i];
      if m.role == "assistant" && |m.toolCalls| > 0 {
        var content: seq<Block> := [];
        for j := 0 to |m.toolCalls|
          invariant content == UseBlocks(m.toolCalls)[..j]
        {
          content := content + [ToolUseBlock(m.toolCalls[j].id, m.toolCalls[j].arguments, m.toolCalls[j].name)];
        }
        assert content == UseBlocks(m.toolCalls) == UseBlocks(m.toolCalls) + [];
        if !IsBlank(m.content) {
          content := content + [TextBlock(m.content)];
        }
        result := result + [MessageParam(Assistant, content)];
      } else if m.role == "user" && |m.toolResults| > 0 {
        var content: seq<Block> := [];
        for j := 0 to |m.toolResults|
          invariant content == ResultBlocks(m.toolResults)[..j]
        {
          var r := m.toolResults[j];
          content := content + [ToolResultBlock(r.toolCallId, r.result, r.isError)];
        }
        assert content == ResultBlocks(m.toolResults);
        result := result + [MessageParam(User, content)];
      } else if !IsBlank(m.content) {
        var role := if m.role == "assistant" then Assistant else User;
        result := result + [MessageParam(role, [TextBlock(m.content)])];
      } else {
        assert result == result + TranslateOne(m);
      }
    }
    assert messages[..|messages|] == messages;
  }

  // Each message adds its own translation to that of the messages before it.
  lemma TranslateSnoc(messages: seq<Message>, m: Message)
    ensures Translate(messages + [m]) == Translate(messages) + Translate([m])
  {
    var none: seq<Message> := [];
    assert (messages + [m])[..|messages|] == messages && [m][..0] == none;
  }

  // A message without tools is sent under its own role and text, unless it is blank.
  lemma PlainMessageIsSent(m: Message)
    requires m.toolCalls == [] && m.toolResults == []
    ensures IsBlank(m.content) ==> Translate([m]) == []
    ensures !IsBlank(m.content) && m.role == "assistant" ==>
      Translate([m]) == [MessageParam(Assistant, [TextBlock(m.content)])]
    ensures !IsBlank(m.content) && m.role != "assistant" ==>
      Translate([m]) == [MessageParam(User, [TextBlock(m.content)])]
  {
    var none: seq<Message> := [];
    assert [m][..0] == none;
  }

  // A message with calls keeps its text, after the calls; a message with results loses it.
  lemma ToolMessagesAreSent(m: Message)
    ensures m.role == "assistant" && m.toolCalls != [] ==>
      |Translate([m])| == 1 && Translate([m])[0].role == Assistant
      && Translate([m])[0].blocks[|m.toolCalls|..] == if IsBlank(m.content) then [] else [TextBlock(m.content)]
    ensures m.role == "user" && m.toolResults != [] ==>
      |Translate([m])| == 1 && Translate([m])[0].role == User
      && Translate([m])[0].blocks == ResultBlocks(m.toolResults)
  {
    var none: seq<Message> := [];
    assert [m][..0] == none;
  }

  // ----- Well-formed conversations -----

  function UseIds(blocks: seq<Block>): seq<string> {
    if blocks == [] then []
    else
      UseIds(blocks[..|blocks| - 1])
        + if blocks[|blocks| - 1].ToolUseBlock? then [blocks[|blocks| - 1].id] else []
  }

  function ResultIds(blocks: seq<Block>): seq<string> {
    if blocks == [] then []
    else
      ResultIds(blocks[..|blocks| - 1])
        + if blocks[|blocks| - 1].ToolResultBlock? then [blocks[|blocks| - 1].toolUseId] else []
  }

  /**
   Every message that uses tools is immediately followed by a user message with the results of exactly those uses, in
   the same order, and results appear nowhere else.
   */
  predicate IsPaired(conversation: seq<MessageParam>) {
    && (forall i | 0 <= i < |conversation| && UseIds(conversation[i].blocks) != [] ::
          && conversation[i].role == Assistant
          && i + 1 < |conversation| && conversation[i + 1].role == User
          && ResultIds(conversation[i + 1].blocks) == UseIds(conversation[i].blocks))
    && (forall i | 0 <= i < |conversation| && ResultIds(conversation[i].blocks) != [] ::
          i > 0 && UseIds(conversation[i - 1].blocks) != [])
  }

  lemma {:induction false} UseBlockIds(calls: seq<ToolCall>)
    ensures |UseIds(UseBlocks(calls))| == |calls| && ResultIds(UseBlocks(calls)) == []
    ensures forall i | 0 <= i < |calls| :: UseIds(UseBlocks(calls))[i] == calls[i].id
  {
    if calls != [] {
      var init := calls[..|calls| - 1];
      UseBlockIds(init);
      assert UseBlocks(calls)[..|calls| - 1] == UseBlocks(init);
    }
  }

  lemma {:induction false} ResultBlockIds(results: seq<ToolResult>)
    ensures |ResultIds(ResultBlocks(results))| == |results| && UseIds(ResultBlocks(results)) == []
    ensures forall i | 0 <= i < |results| :: ResultIds(ResultBlocks(results))[i] == results[i].toolCallId
  {
    if results != [] {
      var init := results[..|results| - 1];
      ResultBlockIds(init);
      assert ResultBlocks(results)[..|results| - 1] == ResultBlocks(init);
    }
  }

  // The messages of the stored history carry text only.
  predicate IsPlain(messages: seq<Message>) {
    forall i | 0 <= i < |messages| :: messages[i].toolCalls == [] && messages[i].toolResults == []
  }

  predicate HasNoIds(conversation: seq<MessageParam>) {
    forall i | 0 <= i < |conversation| ::
      UseIds(conversation[i].blocks) == [] && ResultIds(conversation[i].blocks) == []
  }

  lemma {:induction false} PlainHistoryIsPaired(messages: seq<Message>)
    requires IsPlain(messages)
    ensures IsPaired(Translate(messages)) && HasNoIds(Translate(messages))
  {
    if messages != [] {
      var init, m := messages[..|messages| - 1], messages[|messages| - 1];
      PlainHistoryIsPaired(init);
      PlainHasNoIds(m);
      NoIdsAppended(Translate(init), TranslateOne(m));
    }
  }

  lemma NoIdsAppended(a: seq<MessageParam>, b: seq<MessageParam>)
    requires HasNoIds(a) && HasNoIds(b)
    ensures HasNoIds(a + b) && IsPaired(a + b)
  {
  }

  lemma PlainHasNoIds(m: Message)
    requires m.toolCalls == [] && m.toolResults == []
    ensures HasNoIds(TranslateOne(m))
  {
    TextHasNoIds(m.content);
  }

  lemma TextHasNoIds(text: string)
    ensures UseIds([TextBlock(text)]) == [] && ResultIds([TextBlock(text)]) == []
  {
    var blocks: seq<Block>, none: seq<Block> := [TextBlock(text)], [];
    assert |blocks| == 1 && blocks[0].TextBlock?;
    assert blocks[..|blocks| - 1] == none;
  }

  // ----- The loop -----

  const MAX_ITERATIONS: nat := 10

  // The result of every call, an error text for those that fail, under the call's own ID.
  method FetchToolResults(calls: seq<ToolCall>, run: nat -> Result<string>) returns (results: seq<ToolResult>)
    ensures |results| == |calls|
    ensures forall i | 0 <= i < |calls| ::
      && results[i].toolCallId == calls[i].id && results[i].displayName == calls[i].name
      && results[i].isError == run(i).Failure?
      && (run(i).Success? ==> results[i].result == run(i).value)
  {
    results := [];
    for i := 0 to |calls|
      invariant |results| == i
      invariant forall j | 0 <= j < i ::
        && results[j].toolCallId == calls[j].id && results[j].displayName == calls[j].name
        && results[j].isError == run(j).Failure?
        && (run(j).Success? ==> results[j].result == run(j).value)
    {
      var output := run(i);
      var text := if output.Failure? then "Error" else output.value;
      results := results + [ToolResult(calls[i].id, calls[i].name, text, output.Failure?)];
    }
  }

  // One turn of the loop: the model's tool calls and what came of them become the conversation's next two messages.
  predicate IsTurn(before: seq<MessageParam>, calls: seq<ToolCall>, run: (nat, nat) -> Result<string>, turn: nat,
                   after: seq<MessageParam>)
  {
    && |after| == |before| + 2 && before <= after
    && AreCalls(after[|before|], calls) && AreResults(after[|before| + 1], calls, run, turn)
  }

  // The assistant's message makes these calls, in order.
  predicate AreCalls(m: MessageParam, calls: seq<ToolCall>) {
    && m.role == Assistant && |m.blocks| == |calls|
    && forall i | 0 <= i < |calls| ::
         m.blocks[i] == ToolUseBlock(calls[i].id, calls[i].arguments, calls[i].name)
  }

  // The user's message has the results of these calls, in order: the text of a success, an error mark on a failure.
  predicate AreResults(m: MessageParam, calls: seq<ToolCall>, run: (nat, nat) -> Result<string>, turn: nat) {
    && m.role == User && |m.blocks| == |calls|
    && forall i {:trigger m.blocks[i]} | 0 <= i < |calls| ::
         && m.blocks[i].ToolResultBlock? && m.blocks[i].toolUseId == calls[i].id
         && m.blocks[i].isError == run(turn, i).Failure?
         && (run(turn, i).Success? ==> m.blocks[i].text == run(turn, i).value)
  }

  lemma CallIds(m: MessageParam, calls: seq<ToolCall>)
    requires AreCalls(m, calls)
    ensures |UseIds(m.blocks)| == |calls| && ResultIds(m.blocks) == []
    ensures forall i | 0 <= i < |calls| :: UseIds(m.blocks)[i] == calls[i].id
  {
    assert m.blocks == UseBlocks(calls);
    UseBlockIds(calls);
  }

  lemma ResultIdsAre(m: MessageParam, calls: seq<ToolCall>, run: (nat, nat) -> Result<string>, turn: nat)
    requires AreResults(m, calls, run, turn)
    ensures |ResultIds(m.blocks)| == |calls| && UseIds(m.blocks) == []
    ensures forall i | 0 <= i < |calls| :: ResultIds(m.blocks)[i] == calls[i].id
  {
    var results := seq(|calls|, i requires 0 <= i < |calls| =>
      ToolResult(calls[i].id, "", m.blocks[i].text, m.blocks[i].isError));
    assert m.blocks == ResultBlocks(results);
    ResultBlockIds(results);
  }

  lemma TurnIsPaired(before: seq<MessageParam>, calls: seq<ToolCall>, run: (nat, nat) -> Result<string>, turn: nat,
                     after: seq<MessageParam>)
    requires IsPaired(before) && IsTurn(before, calls, run, turn, after) && calls != []
    ensures IsPaired(after)
  {
    var use, result := after[|before|], after[|before| + 1];
    CallIds(use, calls);
    ResultIdsAre(result, calls, run, turn);
    assert UseIds(use.blocks) == ResultIds(result.blocks);
    PairAppended(before, use, result);
    assert after == before + [use, result];
  }

  lemma PairAppended(before: seq<MessageParam>, use: MessageParam, result: MessageParam)
    requires IsPaired(before) && use.role == Assistant && result.role == User
    requires UseIds(use.blocks) != [] && ResultIds(use.blocks) == [] && UseIds(result.blocks) == []
    requires ResultIds(result.blocks) == UseIds(use.blocks)
    ensures IsPaired(before + [use, result])
  {
    var after := before + [use, result];
    forall i | 0 <= i < |after| && UseIds(after[i].blocks) != []
      ensures after[i].role == Assistant && i + 1 < |after| && after[i + 1].role == User
      ensures ResultIds(after[i + 1].blocks) == UseIds(after[i].blocks)
    {
      if i < |before| {
        assert after[i] == before[i] && i + 1 < |before| && after[i + 1] == before[i + 1];
      }
    }
    forall i | 0 <= i < |after| && ResultIds(after[i].blocks) != []
      ensures i > 0 && UseIds(after[i - 1].blocks) != []
    {
      if i < |before| {
        assert after[i] == before[i] && i > 0 && after[i - 1] == before[i - 1];
      }
    }
  }

  // These are the results of running the calls of this turn.
  predicate WereRun(results: seq<ToolResult>, calls: seq<ToolCall>, run: (nat, nat) -> Result<string>, turn: nat) {
    && |results| == |calls|
    && forall i {:trigger results[i]} | 0 <= i < |calls| ::
         && results[i].toolCallId == calls[i].id && results[i].isError == run(turn, i).Failure?
         && (run(turn, i).Success? ==> results[i].result == run(turn, i).value)
  }

  lemma TurnTranslated(messages: seq<Message>, calls: seq<ToolCall>, results: seq<ToolResult>,
                       run: (nat, nat) -> Result<string>, turn: nat)
    requires calls != [] && WereRun(results, calls, run, turn)
    ensures IsTurn(Translate(messages), calls, run, turn,
                   Translate(messages + [Message("assistant", "", calls, [])] + [Message("user", "", [], results)]))
  {
    var asked := messages + [Message("assistant", "", calls, [])];
    var answered := asked + [Message("user", "", [], results)];
    assert asked[..|messages|] == messages && answered[..|asked|] == asked;
    assert UseBlocks(calls) + [] == UseBlocks(calls);
    assert AreCalls(MessageParam(Assistant, UseBlocks(calls)), calls);
    assert AreResults(MessageParam(User, ResultBlocks(results)), calls, run, turn);
  }

  // What the model does with a conversation: an error, or tool calls, none meaning that it is done.
  type Model = (nat, seq<MessageParam>) -> Result<seq<ToolCall>>

  // The conversations of successive requests: each is well formed and extends the one before it by the turn that the
  // model asked for there.
  predicate AreTurns(model: Model, run: (nat, nat) -> Result<string>, start: seq<MessageParam>,
                     sent: seq<seq<MessageParam>>)
  {
    && sent != [] && sent[0] == start
    && (forall k | 0 <= k < |sent| :: IsPaired(sent[k]))
    && (forall k: nat {:trigger sent[k]} | k < |sent| - 1 ::
          IsTurnOf(model(k, sent[k]), run, k, sent[k], sent[k + 1]))
  }

  predicate IsTurnOf(answer: Result<seq<ToolCall>>, run: (nat, nat) -> Result<string>, turn: nat,
                     before: seq<MessageParam>, after: seq<MessageParam>)
  {
    answer.Success? && answer.value != [] && IsTurn(before, answer.value, run, turn, after)
  }

  lemma AddTurn(model: Model, run: (nat, nat) -> Result<string>, start: seq<MessageParam>,
                sent: seq<seq<MessageParam>>, next: seq<MessageParam>)
    requires AreTurns(model, run, start, sent)
    requires IsTurnOf(model(|sent| - 1, sent[|sent| - 1]), run, |sent| - 1, sent[|sent| - 1], next)
    ensures AreTurns(model, run, start, sent + [next])
  {
    TurnIsPaired(sent[|sent| - 1], model(|sent| - 1, sent[|sent| - 1]).value, run, |sent| - 1, next);
  }

  lemma NextTurn(model: Model, run: (nat, nat) -> Result<string>, history: seq<Message>, messages: seq<Message>,
                 calls: seq<ToolCall>, results: seq<ToolResult>, sent: seq<seq<MessageParam>>)
    requires sent != [] && sent[|sent| - 1] == Translate(messages)
    requires AreTurns(model, run, Translate(history), sent)
    requires calls != [] && model(|sent| - 1, Translate(messages)) == Success(calls)
    requires WereRun(results, calls, run, |sent| - 1)
    ensures var next := messages + [Message("assistant", "", calls, [])] + [Message("user", "", [], results)];
            AreTurns(model, run, Translate(history), sent + [Translate(next)])
  {
    TurnTranslated(messages, calls, results, run, |sent| - 1);
    AddTurn(model, run, Translate(history), sent,
            Translate(messages + [Message("assistant", "", calls, [])] + [Message("user", "", [], results)]));
  }

  /**
   `model` answers the k-th request, which carries the conversation so far; `run(k, i)` executes the i-th call of turn
   k. Whatever they do, there are at most ten requests, each carries a well-formed conversation, and each extends the
   one before it by one turn. Ten turns end the chat without an error, as if the model were done.
   */
  method GenerateChat(history: seq<Message>, model: Model, run: (nat, nat) -> Result<string>)
    returns (ok: bool, sent: seq<seq<MessageParam>>)
    requires IsPaired(Translate(history))
    ensures |sent| <= 10
    ensures AreTurns(model, run, Translate(history), sent)
    ensures ok <==> model(|sent| - 1, sent[|sent| - 1]).Success?
    ensures ok && model(|sent| - 1, sent[|sent| - 1]).value != [] ==> |sent| == 10
  {
    var messages := history;
    sent := [];
    for i := 0 to MAX_ITERATIONS
      invariant |sent| == i
      invariant AreTurns(model, run, Translate(history), sent + [Translate(messages)])
    {
      var params := ConstructMessages(messages);
      sent := sent + [params];
      var toolCalls := model(i, params);
      if toolCalls.Failure? {
        return false, sent;
      }
      var calls := toolCalls.value;
      if |calls| == 0 {
        return true, sent;
      }
      var results := FetchToolResults(calls, (j: nat) => run(i, j));
      assert WereRun(results, calls, run, i);
      NextTurn(model, run, history, messages, calls, results, sent);
      messages := messages + [Message("assistant", "", calls, [])];
      messages := messages + [Message("user", "", [], results)];
    }
    DropLast(model, run, Translate(history), sent, Translate(messages));
    return true, sent;
  }

  lemma DropLast(model: Model, run: (nat, nat) -> Result<string>, start: seq<MessageParam>,
                 sent: seq<seq<MessageParam>>, last: seq<MessageParam>)
    requires sent != [] && AreTurns(model, run, start, sent + [last])
    ensures AreTurns(model, run, start, sent) && model(|sent| - 1, sent[|sent| - 1]).Success?
  {
    var all := sent + [last];
    assert IsTurnOf(model(|sent| - 1, all[|sent| - 1]), run, |sent| - 1, all[|sent| - 1], all[|sent|]);
    forall k | 0 <= k < |sent|
      ensures IsPaired(sent[k])
    {
      assert all[k] == sent[k];
    }
    forall k: nat | k < |sent| - 1
      ensures IsTurnOf(model(k, sent[k]), run, k, sent[k], sent[k + 1])
    {
      assert all[k] == sent[k] && all[k + 1] == sent[k + 1];
    }
  }
}
