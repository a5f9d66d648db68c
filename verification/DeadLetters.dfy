/** The dead-letter handler: what becomes of a dead letter, and which messages bring the handler down. */
module DeadLetters {
  import opened Ledger
  import opened Outcomes
  import opened Notifications
  import opened Retry
  import C = Consumer
  import H = HeavyOps

  datatype JobPayload = JobPayload(input: map<string, Json>, operation: string)
  function DecodeJob(json: Json): Result<JobPayload> {
    if !json.JObject? then (if json.JNull? then Success(JobPayload(map[], "")) else Failure)
    else
      var operation := TextField(json.fields, "operation");
      if operation.Failure? then Failure
      else if "input" !in json.fields || json.fields["input"].JNull? then Success(JobPayload(map[], operation.value))
      else if json.fields["input"].JObject? then Success(JobPayload(json.fields["input"].fields, operation.value))
      else Failure
  }

  // The check a heavy operation's payload must pass; the program also requires it to be JSON at all.
  predicate ParsePayloadAccepts(json: Json) {
    && DecodeJob(json).Success?
    && "tableName" in DecodeJob(json).value.input
    && DecodeJob(json).value.input["tableName"].JText?
  }

  datatype DeadLetterReport =
    | Report(tableName: string, operation: string, retryCount: int, jobId: string)
    | Panic   // an unchecked type assertion fails

  // The field a letter's table name is read from.
  function TableField(input: map<string, Json>): Option<Json> {
    if "tableName" in input then Some(input["tableName"])
    else if "TableName" in input then Some(input["TableName"])
    else None
  }

  // The payload decodes as a job whose table name is there but is not text.
  predicate HasUntextualTable(json: Json) {
    DecodeJob(json).Success?
    && var field := TableField(DecodeJob(json).value.input);
    field.Some? && !field.value.JText?
  }

  /**
   What the dead-letter handler makes of a letter; `original` is the failed message's payload, None when the letter
   or that payload is not JSON.
   */
  method ParseDLQPayload(letter: Option<int>, original: Option<Json>) returns (report: DeadLetterReport)
    ensures report == ReportOf(letter, original)
    ensures letter.None? ==> report == Report("unknown", "unknown", 0, "")
    ensures letter.Some? && original.None? ==> report == Report("unknown", "unknown", letter.value, "")
    ensures report.Report? && letter.Some? ==> report.retryCount == letter.value
    ensures letter.Some? && original.Some? && DecodeJob(original.value).Failure?
            && DecodeNotification(original.value).Failure? ==>
      report == Report("unknown", "unknown", letter.value, "")
  {
    var tableName, operation, jobId := "unknown", "unknown", "";
    if letter.None? {
      return Report(tableName, operation, 0, jobId);
    }
    var retryCount := letter.value;
    if original.None? {
      return Report(tableName, operation, retryCount, jobId);
    }
    var job := DecodeJob(original.value);
    if job.Success? {
      var input := job.value.input;
      if "tableName" in input {
        if !input["tableName"].JText? {
          return Panic;
        }
        tableName := input["tableName"].text;
      } else if "TableName" in input {
        if !input["TableName"].JText? {
          return Panic;
        }
        tableName := input["TableName"].text;
      }
      operation := job.value.operation;
      return Report(tableName, operation, retryCount, jobId);
    }
    var notification := DecodeNotification(original.value);
    if notification.Success? {
      tableName := notification.value.table;
      operation := notification.value.operation;
      jobId := notification.value.jobId;
    }
    return Report(tableName, operation, retryCount, jobId);
  }

  function ReportOf(letter: Option<int>, original: Option<Json>): DeadLetterReport {
    if letter.None? then Report("unknown", "unknown", 0, "")
    else if original.None? then Report("unknown", "unknown", letter.value, "")
    else
      var job, notification := DecodeJob(original.value), DecodeNotification(original.value);
      if job.Success? then
        match TableField(job.value.input)
        case None => Report("unknown", job.value.operation, letter.value, "")
        case Some(JText(name)) => Report(name, job.value.operation, letter.value, "")
        case Some(_) => Panic
      else if notification.Success? then
        Report(notification.value.table, notification.value.operation, letter.value, notification.value.jobId)
      else Report("unknown", "unknown", letter.value, "")
  }

  /**
   A letter as the consumer wrote it: `json` is the failed message's payload, None if that is no JSON. `decodes` says
   whether the letter itself is one.
   */
  datatype Letter = Letter(key: string, decodes: bool, retryCount: int, json: Option<Json>)

  function HeaderOf(letter: Letter): Option<int> {
    if letter.decodes then Some(letter.retryCount) else None
  }

  predicate IsPoison(letter: Letter) {
    letter.decodes && letter.json.Some? && HasUntextualTable(letter.json.value)
  }

  function LetterFor(json: Json, key: string, maxRetries: int): Letter {
    Letter(key, true, maxRetries, Some(json))
  }

  lemma PanicsIff(letter: Letter)
    ensures ReportOf(HeaderOf(letter), letter.json) == Panic <==> IsPoison(letter)
  {
  }

  // How a handler call ends.
  datatype Outcome = Returned(failed: bool) | Panicked

  function OutcomeOf(letter: Letter): Outcome {
    if IsPoison(letter) then Panicked else Returned(false)
  }

  /**
   `timestamp` and `message` are those of the notification about the letter. The handler never answers with an
   error: it panics, or it hands on the report's notification, which always decodes, under the letter's own key.
   */
  method ProcessDLQ(dedup: Deduplicator, letter: Letter, message: string, timestamp: nat, now: nat)
    returns (outcome: Outcome, passedOn: bool)
    modifies dedup
    ensures outcome == OutcomeOf(letter)
    ensures outcome == if letter.decodes && letter.json.Some? && HasUntextualTable(letter.json.value) then Panicked
                       else Returned(false)
    ensures outcome.Panicked? ==> dedup.stored == old(dedup.stored)
    ensures !outcome.Panicked? ==>
      var report := ReportOf(HeaderOf(letter), letter.json);
      && report.Report?
      && var notified := NotificationKey(report.tableName, report.operation, letter.key);
      && passedOn == (notified !in old(dedup.stored))
      && dedup.stored == After(old(dedup.stored), Arrive(notified), now)
  {
    PanicsIff(letter);
    var report := ParseDLQPayload(HeaderOf(letter), letter.json);
    if report.Panic? {
      return Panicked, false;
    }
    NotificationRoundTrip("DLQ Message", report.jobId, report.tableName, "error", report.operation, message,
                          letter.key, timestamp);
    var notification := Encode("DLQ Message", report.jobId, report.tableName, "error", report.operation, message,
                               letter.key, timestamp);
    // The notification handler's own answer is ignored.
    var failed;
    failed, passedOn := ProcessNotification(dedup, Some(notification), now);
    return Returned(false), passedOn;
  }

  // ----- From a message to a panic -----

  /**
   End to end: a heavy operation's message is dead-lettered and then brings the handler down if and only if its table
   name is there but is not text and the dead-letter topic can be reached, whatever the ledger and the environment do.
   */
  lemma HeavyOpPanicsIff(json: Json, retries: int, rows: Rows, id: JobId, env: nat -> H.Attempt, maxRetries: int,
                         calls: nat, ok: bool, dlqDown: bool)
    requires H.Stopped(rows, id, ParsePayloadAccepts(json), env, maxRetries, calls, ok)
    ensures !ok && !dlqDown && ReportOf(Some(retries), Some(json)) == Panic <==> !dlqDown && HasUntextualTable(json)
  {
    PanicsIff(LetterFor(json, id, retries));
    if HasUntextualTable(json) {
      assert !ParsePayloadAccepts(json);
      H.UnparseableNeverRuns(rows, id, env, calls - 1);
      assert H.Errs(rows, id, false, env, calls - 1);
    }
  }

  // Handling a notification fails the same way on every attempt.
  function NotificationHandler(payload: Option<Json>): nat -> bool {
    (k: nat) => NotificationFails(payload)
  }

  // The same for a message on the notifications topic: it must also fail there.
  lemma NotificationPanicsIff(json: Json, retries: int, maxRetries: int, calls: nat, ok: bool, dlqDown: bool)
    requires Stops(NotificationHandler(Some(json)), maxRetries, calls, ok)
    ensures !ok && !dlqDown && ReportOf(Some(retries), Some(json)) == Panic
       <==> !dlqDown && DecodeNotification(json).Failure? && HasUntextualTable(json)
  {
    PanicsIff(LetterFor(json, "", retries));
    assert NotificationHandler(Some(json))(calls - 1) == DecodeNotification(json).Failure?;
  }

  /**
   A dead letter from the notifications topic is never reported under the job it names, although the handler has a
   branch for it: that branch wants the very decoding that failed before.
   */
  lemma DeadNotificationHasNoJob(json: Json, retries: int, maxRetries: int, calls: nat)
    requires Stops(NotificationHandler(Some(json)), maxRetries, calls, false)
    ensures var report := ReportOf(Some(retries), Some(json));
            report.Panic? || (report.jobId == "" && (DecodeJob(json).Failure? ==> report.tableName == "unknown"))
  {
    assert NotificationHandler(Some(json))(calls - 1) == DecodeNotification(json).Failure?;
  }

  // A notification that the program sent is handled at the first attempt, so it is never dead-lettered.
  lemma SentNotificationIsHandled(title: string, jobId: string, table: string, severity: string, operation: string,
                                  message: string, inputHash: string, timestamp: nat, maxRetries: int, calls: nat,
                                  ok: bool)
    requires Stops(NotificationHandler(Some(Encode(title, jobId, table, severity, operation, message, inputHash,
                                                   timestamp))), maxRetries, calls, ok)
    ensures ok && calls == 1
  {
    var json := Encode(title, jobId, table, severity, operation, message, inputHash, timestamp);
    NotificationRoundTrip(title, jobId, table, severity, operation, message, inputHash, timestamp);
    assert !NotificationHandler(Some(json))(0) && !NotificationHandler(Some(json))(calls - 1);
  }

  // Put on another topic, it decodes as a job without input and is not reported under its own table or job either.
  lemma DeadNotificationIsReportedAsUnknown(title: string, jobId: string, table: string, severity: string,
                                            operation: string, message: string, inputHash: string, timestamp: nat,
                                            retries: int)
    ensures ReportOf(Some(retries),
                     Some(Encode(title, jobId, table, severity, operation, message, inputHash, timestamp)))
         == Report("unknown", operation, retries, "")
  {
    var fields := Encode(title, jobId, table, severity, operation, message, inputHash, timestamp).fields;
    assert "input" !in fields;
  }

  // The payload that the gateway enqueues for a tool call.
  function EncodeJob(input: map<string, Json>, operation: string, userRole: Option<string>): Json {
    var fields := map["input" := JObject(input), "operation" := JText(operation)];
    JObject(if userRole.Some? then fields["user_role" := JText(userRole.value)] else fields)
  }

  // An enqueued call that names its table is accepted, and a dead letter about it is reported under table and tool.
  lemma DeadJobIsReported(input: map<string, Json>, operation: string, userRole: Option<string>, table: string,
                          retries: int)
    requires "tableName" in input && input["tableName"] == JText(table)
    ensures ParsePayloadAccepts(EncodeJob(input, operation, userRole))
    ensures ReportOf(Some(retries), Some(EncodeJob(input, operation, userRole)))
         == Report(table, operation, retries, "")
  {
    assert DecodeJob(EncodeJob(input, operation, userRole)) == Success(JobPayload(input, operation));
  }

  // Only the field tableName lets a call through; a letter falls back on TableName, and on "unknown" without either.
  lemma OtherTableFields(input: map<string, Json>, operation: string, table: string, retries: int)
    requires "tableName" !in input
    ensures !ParsePayloadAccepts(EncodeJob(input, operation, None))
    ensures "TableName" in input && input["TableName"] == JText(table) ==>
      ReportOf(Some(retries), Some(EncodeJob(input, operation, None))) == Report(table, operation, retries, "")
    ensures "TableName" !in input ==>
      ReportOf(Some(retries), Some(EncodeJob(input, operation, None))) == Report("unknown", operation, retries, "")
  {
    assert DecodeJob(EncodeJob(input, operation, None)) == Success(JobPayload(input, operation));
  }

  // A payload that decodes as a notification but not as a job is reported under its own table and job.
  lemma NotificationBranch(title: string, jobId: string, table: string, severity: string, operation: string,
                           message: string, inputHash: string, timestamp: nat, retries: int)
    ensures var sent := Encode(title, jobId, table, severity, operation, message, inputHash, timestamp);
            var json := JObject(sent.fields["input" := JNumber(1)]);
            ReportOf(Some(retries), Some(json)) == Report(table, operation, retries, jobId)
  {
    var fields := Encode(title, jobId, table, severity, operation, message, inputHash, timestamp).fields;
    var json := JObject(fields["input" := JNumber(1)]);
    assert DecodeJob(json).Failure?;
    forall name | name in TEXT_FIELDS
      ensures TextField(json.fields, name).Success?
    {
      assert name in fields && json.fields[name] == fields[name];
    }
  }

  // A heavy operation with a numeric table name: rejected, dead-lettered, and then a panic.
  const UNTEXTUAL := JObject(map["operation" := JText("batch_put_items"),
                                 "input" := JObject(map["tableName" := JNumber(7)])])

  lemma UntextualPanics(rows: Rows, id: JobId, env: nat -> H.Attempt, maxRetries: int, retries: int)
    ensures HasUntextualTable(UNTEXTUAL) && !ParsePayloadAccepts(UNTEXTUAL)
    ensures H.Stopped(rows, id, false, env, maxRetries, Budget(maxRetries) + 1, false)
    ensures ReportOf(Some(retries), Some(UNTEXTUAL)) == Panic
  {
    forall k: nat
      ensures H.Errs(rows, id, false, env, k)
    {
      H.UnparseableNeverRuns(rows, id, env, k);
    }
    var input: map<string, Json> := map["tableName" := JNumber(7)];
    assert UNTEXTUAL.fields["input"] == JObject(input) && UNTEXTUAL.fields["operation"].JText?;
    assert DecodeJob(UNTEXTUAL) == Success(JobPayload(input, "batch_put_items"));
  }

  // ----- A letter that panics blocks its topic -----

  // The index of the first letter that panics, their number if none does.
  function FirstPoison(letters: seq<Letter>): (n: nat)
    ensures n <= |letters|
    ensures forall i | 0 <= i < n :: !IsPoison(letters[i])
    ensures n < |letters| ==> IsPoison(letters[n])
  {
    if letters == [] || IsPoison(letters[0]) then 0 else 1 + FirstPoison(letters[1..])
  }

  lemma {:induction false} FirstPoisonIsFirst(letters: seq<Letter>, n: nat)
    requires n < |letters| && IsPoison(letters[n]) && forall i | 0 <= i < n :: !IsPoison(letters[i])
    ensures FirstPoison(letters) == n
  {
    if n > 0 {
      assert !IsPoison(letters[0]);
      FirstPoisonIsFirst(letters[1..], n - 1);
    }
  }

  /**
   One life of the process, whose consumer starts at the committed offset with no notification stored. The offset
   after each letter is marked only once its handler has returned, and nothing catches a panic.
   */
  method ConsumeLetters(letters: seq<Letter>, committed: nat, clock: nat -> nat) returns (marked: nat, crashed: bool)
    requires committed <= FirstPoison(letters)
    ensures marked == FirstPoison(letters)
    ensures crashed <==> exists i :: 0 <= i < |letters| && IsPoison(letters[i])
  {
    var dedup := new Deduplicator();
    marked := committed;
    while marked < |letters|
      invariant committed <= marked <= FirstPoison(letters)
    {
      var letter := letters[marked];
      var outcome, _ := ProcessDLQ(dedup, letter, "", 0, clock(marked));
      if outcome.Panicked? {
        FirstPoisonIsFirst(letters, marked);
        return marked, true;
      }
      marked := marked + 1;
    }
    return marked, false;
  }

  /**
   However often the process is restarted, and however much of what it marked was committed when it died, it never
   marks the first letter that panics, and with such a letter it always ends in a crash again; without one it handles
   all letters.
   */
  method RestartForEver(letters: seq<Letter>, start: nat, restarts: nat, commits: nat -> nat, clock: nat -> nat)
    returns (marked: nat, crashed: bool)
    requires start <= FirstPoison(letters)
    ensures marked == FirstPoison(letters)
    ensures crashed <==> exists i :: 0 <= i < |letters| && IsPoison(letters[i])
  {
    var committed: nat := start;
    marked, crashed := ConsumeLetters(letters, committed, clock);
    for life := 0 to restarts
      invariant committed <= marked == FirstPoison(letters)
      invariant crashed <==> exists i :: 0 <= i < |letters| && IsPoison(letters[i])
    {
      // Commits only move forward, and only to what was marked.
      if committed <= commits(life) <= marked {
        committed := commits(life);
      }
      marked, crashed := ConsumeLetters(letters, committed, clock);
    }
  }

  // The letters written for these heavy operations: all that are rejected, and the accepted ones that were given up.
  function LettersFor(payloads: seq<Json>, gaveUp: seq<bool>, key: string, maxRetries: int): seq<Letter>
    requires |gaveUp| == |payloads|
  {
    if payloads == [] then []
    else (if ParsePayloadAccepts(payloads[0]) && !gaveUp[0] then [] else [LetterFor(payloads[0], key, maxRetries)])
         + LettersFor(payloads[1..], gaveUp[1..], key, maxRetries)
  }

  // They block the topic exactly if one of the operations has a table name that is not text, whichever were given up.
  lemma {:induction false} HeavyOpsBlockIff(payloads: seq<Json>, gaveUp: seq<bool>, key: string, maxRetries: int)
    requires |gaveUp| == |payloads|
    ensures FirstPoison(LettersFor(payloads, gaveUp, key, maxRetries))
              < |LettersFor(payloads, gaveUp, key, maxRetries)|
       <==> AnyUntextual(payloads)
  {
    if payloads != [] {
      var head, rest := payloads[0], LettersFor(payloads[1..], gaveUp[1..], key, maxRetries);
      HeavyOpsBlockIff(payloads[1..], gaveUp[1..], key, maxRetries);
      UntextualInFront(payloads);
      if ParsePayloadAccepts(head) && !gaveUp[0] {
        assert LettersFor(payloads, gaveUp, key, maxRetries) == rest;
      } else {
        PoisonInFront(LetterFor(head, key, maxRetries), rest);
      }
    }
  }

  predicate AnyUntextual(payloads: seq<Json>) {
    exists i :: 0 <= i < |payloads| && HasUntextualTable(payloads[i])
  }

  lemma UntextualInFront(payloads: seq<Json>)
    requires payloads != []
    ensures AnyUntextual(payloads) <==> HasUntextualTable(payloads[0]) || AnyUntextual(payloads[1..])
  {
    if i :| 0 <= i < |payloads| && HasUntextualTable(payloads[i]) && i > 0 {
      assert payloads[1..][i - 1] == payloads[i];
    }
  }

  lemma PoisonInFront(letter: Letter, rest: seq<Letter>)
    ensures FirstPoison([letter] + rest) == if IsPoison(letter) then 0 else 1 + FirstPoison(rest)
  {
    assert ([letter] + rest)[1..] == rest;
  }

  // ----- The letters that the consumer writes -----

  // A letter as the handler reads it; `parse` gives the JSON that a payload's text stands for.
  function ReadLetter(letter: C.DeadLetter, parse: string -> Option<Json>): Letter {
    Letter(letter.key, true, letter.retryCount, parse(letter.originalPayload))
  }

  // The letter about a heavy operation's message is the one that its payload, key and limit make.
  lemma WrittenLetterIsRead(m: C.Message, maxRetries: int, parse: string -> Option<Json>)
    requires parse(m.value).Some?
    ensures C.ReportedLetter(m, C.DeadLettered, maxRetries) == [C.DeadLetter(m.key, m.value, m.topic, maxRetries)]
    ensures ReadLetter(C.ReportedLetter(m, C.DeadLettered, maxRetries)[0], parse)
         == LetterFor(parse(m.value).value, m.key, maxRetries)
  {
  }

  function ReadLetters(letters: seq<C.DeadLetter>, parse: string -> Option<Json>): seq<Letter> {
    seq(|letters|, k requires 0 <= k < |letters| => ReadLetter(letters[k], parse))
  }

  /**
   The letters of a consumer session, `at` being the positions of their messages, block the dead-letter topic if and
   only if the payload of one of those messages names a table that is not text.
   */
  lemma SessionBlocksIff(letters: seq<C.DeadLetter>, at: seq<nat>, ms: seq<C.Message>, fates: seq<C.Fate>,
                         maxRetries: int, parse: string -> Option<Json>)
    requires C.LettersMatch(letters, at, ms, fates, maxRetries)
    ensures FirstPoison(ReadLetters(letters, parse)) < |letters|
       <==> exists k :: 0 <= k < |at| && parse(ms[at[k]].value).Some?
                        && HasUntextualTable(parse(ms[at[k]].value).value)
  {
    var read := ReadLetters(letters, parse);
    forall k | 0 <= k < |at|
      ensures IsPoison(read[k])
         <==> parse(ms[at[k]].value).Some? && HasUntextualTable(parse(ms[at[k]].value).value)
    {
      assert letters[k].originalPayload == ms[at[k]].value;
    }
  }
}
