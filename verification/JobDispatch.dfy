/** What the worker runs for a job, and that the tools that are queued are the ones it can run. */
module JobDispatch {
  import opened Outcomes
  import R = RiskGate

  datatype JobHandler = BatchPut | BatchDelete | CreateTable | IngestDocument

  // How a handler ends: an error, a result that is marked as an error, or a result.
  datatype Ending = Errored | ErrorResult | Answered(result: string)

  /**
   `parses` and `inputParses` say whether the payload and the input within it decode, `run` how each handler ends.
   `ran` is the handler that was called, if any.
   */
  method ExecuteJobOp(parses: bool, operation: string, inputParses: bool, run: JobHandler -> Ending)
    returns (outcome: Result<string>, ran: Option<JobHandler>)
    ensures ran == if parses && inputParses then HandlerOf(operation) else None
    ensures operation !in {"batch_put_items", "batch_delete_items", "create_optimized_table", "ingest_document"} ==>
      outcome.Failure? && ran.None?
    ensures outcome.Success? <==> ran.Some? && run(ran.value).Answered?
    ensures outcome.Success? ==> outcome.value == run(ran.value).result
  {
    if !parses {
      return Failure, None;
    }
    match operation {
      case "batch_put_items" =>
        ran := if inputParses then Some(BatchPut) else None;
      case "batch_delete_items" =>
        ran := if inputParses then Some(BatchDelete) else None;
      case "create_optimized_table" =>
        ran := if inputParses then Some(CreateTable) else None;
      case "ingest_document" =>
        ran := if inputParses then Some(IngestDocument) else None;
      case _ =>
        ran := None;
    }
    if ran.None? {
      return Failure, ran;
    }
    var ending := run(ran.value);
    outcome := if ending.Answered? then Success(ending.result) else Failure;
  }

  function HandlerOf(operation: string): Option<JobHandler> {
    match operation
    case "batch_put_items" => Some(BatchPut)
    case "batch_delete_items" => Some(BatchDelete)
    case "create_optimized_table" => Some(CreateTable)
    case "ingest_document" => Some(IngestDocument)
    case _ => None
  }

  // A tool's calls become jobs if and only if the worker has a case for it, and each case is for a tool of its own.
  lemma QueuedIffExecutable(tool: string, other: string)
    ensures R.IsLargeOperation(tool) <==> HandlerOf(tool).Some?
    ensures HandlerOf(tool).Some? && HandlerOf(tool) == HandlerOf(other) ==> tool == other
  {
  }

  // The names of the cases.
  lemma HandlerNames()
    ensures HandlerOf("batch_put_items") == Some(BatchPut) && HandlerOf("batch_delete_items") == Some(BatchDelete)
    ensures HandlerOf("create_optimized_table") == Some(CreateTable)
    ensures HandlerOf("ingest_document") == Some(IngestDocument)
  {
  }
}
