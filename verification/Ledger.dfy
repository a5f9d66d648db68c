/**
 The table processed_ops_by_job as a value, and the five SQL statements that touch it.
 A row with an empty result is a claim; a row with a non-empty result is a completed job.
 */
module Ledger {

  type JobId = string

  const NANOS_PER_SECOND: nat := 1_000_000_000
  // The sweeper's limit: ten minutes.
  const CLAIM_TIMEOUT_SECONDS: nat := 600

  // created_at is in whole seconds; the clock ticks in nanoseconds.
  function Unix(nanos: nat): nat {
    nanos / NANOS_PER_SECOND
  }

  datatype Row = Row(result: string, createdAt: nat)

  type Rows = map<JobId, Row>

  predicate IsClaim(rows: Rows, id: JobId) {
    id in rows && rows[id].result == ""
  }

  predicate IsCompleted(rows: Rows, id: JobId) {
    id in rows && rows[id].result != ""
  }

  predicate IsStale(row: Row, unixNow: nat) {
    row.result == "" && row.createdAt < unixNow - CLAIM_TIMEOUT_SECONDS
  }

  // INSERT ... ON CONFLICT(job_id) DO NOTHING
  function InsertIfAbsent(rows: Rows, id: JobId, result: string, unixNow: nat): Rows {
    if id in rows then rows else rows[id := Row(result, unixNow)]
  }

  // UPDATE ... SET result_json = ? WHERE job_id = ?   (no guard on the old result)
  function UpdateResult(rows: Rows, id: JobId, result: string): Rows {
    if id in rows then rows[id := rows[id].(result := result)] else rows
  }

  // DELETE ... WHERE job_id = ? AND result_json = ''
  function DeleteClaim(rows: Rows, id: JobId): Rows {
    if IsClaim(rows, id) then rows - {id} else rows
  }

  // DELETE ... WHERE result_json = '' AND created_at < ?
  function DeleteStale(rows: Rows, unixNow: nat): Rows {
    map id | id in rows && !IsStale(rows[id], unixNow) :: rows[id]
  }

  // SELECT result_json ... WHERE job_id = ?; no row reads as the empty string
  function Lookup(rows: Rows, id: JobId): string {
    if id in rows then rows[id].result else ""
  }
}
