/** The store's ledger methods, each one statement sent through the serialised writer. */
module LedgerStore {
  import opened Ledger
  import opened Outcomes

  datatype JobAnswer = NotFound | Pending | Finished(result: string) | Undecodable

  /**
   The parameter `written` says whether the writer ran the statement without an error. When it did not
   (full channel, or a database error) the statement has no effect.
   */
  class Store {
    var rows: Rows

    constructor (initial: Rows)
      ensures rows == initial
    {
      rows := initial;
    }

    method AddProcessedOp(id: JobId, result: string, unixNow: nat, written: bool) returns (inserted: Result<bool>)
      modifies this
      ensures inserted == if written then Success(id !in old(rows)) else Failure
      ensures rows == if written then InsertIfAbsent(old(rows), id, result, unixNow) else old(rows)
      ensures rows == if written && id !in old(rows) then old(rows)[id := Row(result, unixNow)] else old(rows)
    {
      if !written {
        return Failure;
      }
      var affected := 0;
      if id !in rows {
        rows := rows[id := Row(result, unixNow)];
        affected := 1;
      }
      if affected == 1 {
        return Success(true);
      }
      return Success(false);
    }

    method UpdateProcessedOpResult(id: JobId, result: string, written: bool) returns (updated: Result<bool>)
      modifies this
      ensures updated == if written then Success(id in old(rows)) else Failure
      ensures rows == if written then UpdateResult(old(rows), id, result) else old(rows)
      ensures rows == if written && id in old(rows) then old(rows)[id := Row(result, old(rows)[id].createdAt)]
                      else old(rows)
    {
      if !written {
        return Failure;
      }
      var affected := 0;
      if id in rows {
        rows := rows[id := rows[id].(result := result)];
        affected := 1;
      }
      if affected == 1 {
        return Success(true);
      }
      return Success(false);
    }

    method DeleteClaimedOp(id: JobId, written: bool) returns (deleted: Result<bool>)
      modifies this
      ensures deleted == if written then Success(id in old(rows) && old(rows)[id].result == "") else Failure
      ensures rows == if written then DeleteClaim(old(rows), id) else old(rows)
      ensures rows == if deleted == Success(true) then old(rows) - {id} else old(rows)
    {
      if !written {
        return Failure;
      }
      var affected := 0;
      if id in rows && rows[id].result == "" {
        rows := rows - {id};
        affected := 1;
      }
      if affected >= 1 {
        return Success(true);
      }
      return Success(false);
    }

    // The sweep deletes row by row, in no particular order, and reports how many it deleted.
    method DeleteStaleClaimedOps(unixNow: nat, written: bool) returns (count: Result<nat>)
      modifies this
      ensures count == if written then Success(|old(rows)| - |rows|) else Failure
      ensures rows == if written then DeleteStale(old(rows), unixNow) else old(rows)
      ensures written ==> forall id | id in old(rows) ::
        id in rows <==> old(rows)[id].result != "" || old(rows)[id].createdAt + 600 >= unixNow
      ensures forall id | id in rows :: id in old(rows) && rows[id] == old(rows)[id]
    {
      if !written {
        return Failure;
      }
      var affected := 0;
      var unseen := rows.Keys;
      while unseen != {}
        invariant unseen <= rows.Keys <= old(rows).Keys
        invariant forall id | id in old(rows) && id !in unseen :: id in rows <==> !IsStale(old(rows)[id], unixNow)
        invariant forall id | id in rows :: rows[id] == old(rows)[id]
        invariant affected + |rows| == |old(rows)|
        decreases |unseen|
      {
        var id :| id in unseen;
        unseen := unseen - {id};
        if rows[id].result == "" && rows[id].createdAt < unixNow - CLAIM_TIMEOUT_SECONDS {
          ghost var before := rows.Keys;
          rows := rows - {id};
          assert rows.Keys == before - {id};
          affected := affected + 1;
        }
      }
      assert rows == DeleteStale(old(rows), unixNow);
      return Success(affected);
    }

    method GetProcessedOpResult(id: JobId, readable: bool) returns (result: Result<string>)
      ensures result == if readable then Success(Lookup(rows, id)) else Failure
      ensures readable ==> result == Success(if id in rows then rows[id].result else "")
    {
      if !readable {
        return Failure;
      }
      if id in rows {
        return Success(rows[id].result);
      }
      return Success("");
    }

    /**
     The get_job_result tool: an empty result reads as "still being processed", even when no such job exists. A stored
     text that does not decode is answered with an error; `decodes` says which texts do.
     */
    method GetJobResult(id: JobId, readable: bool, decodes: string -> bool) returns (answer: JobAnswer)
      ensures answer.NotFound? <==> !readable
      ensures answer.Finished? <==> readable && IsCompleted(rows, id) && decodes(rows[id].result)
      ensures answer.Finished? ==> answer.result == rows[id].result
      ensures answer.Undecodable? <==> readable && IsCompleted(rows, id) && !decodes(rows[id].result)
    {
      var result := GetProcessedOpResult(id, readable);
      if result.Failure? {
        return NotFound;
      }
      if result.value == "" {
        return Pending;
      }
      if !decodes(result.value) {
        return Undecodable;
      }
      return Finished(result.value);
    }
  }
}
