/** Chunked, retried batch writes over a service that may leave any part of a request unprocessed. */
module BatchWrite {
  import opened Outcomes
  import opened SizeEstimate

  const BATCH_SIZE: nat := 25

  // The handlers build no request that is neither a put nor a delete.
  type Write = w: WriteRequest | !w.EmptyRequest? witness DeleteRequest(map[])

  type Key = Item
  type Table = map<Key, Item>

  // ----- What writes mean -----

  // The primary key of the item a write is about: its key attributes.
  function KeyOf(attributes: set<Bytes>, w: Write): Key {
    var body := if w.PutRequest? then w.item else w.key;
    map a | a in attributes && a in body :: body[a]
  }

  function Apply(attributes: set<Bytes>, t: Table, w: Write): Table {
    if w.PutRequest? then t[KeyOf(attributes, w) := w.item] else t - {KeyOf(attributes, w)}
  }

  // One by one, in order.
  function ApplyAll(attributes: set<Bytes>, t: Table, ws: seq<Write>): Table {
    if ws == [] then t
    else Apply(attributes, ApplyAll(attributes, t, ws[..|ws| - 1]), ws[|ws| - 1])
  }

  predicate DistinctKeys(attributes: set<Bytes>, ws: seq<Write>) {
    forall i, j | 0 <= i < j < |ws| :: KeyOf(attributes, ws[i]) != KeyOf(attributes, ws[j])
  }

  function Lookup(t: Table, k: Key): Option<Item> {
    if k in t then Some(t[k]) else None
  }

  function Written(w: Write): Option<Item> {
    if w.PutRequest? then Some(w.item) else None
  }

  lemma {:induction false} ApplyAllConcat(attributes: set<Bytes>, t: Table, a: seq<Write>, b: seq<Write>)
    ensures ApplyAll(attributes, t, a + b) == ApplyAll(attributes, ApplyAll(attributes, t, a), b)
  {
    if b == [] {
      assert a + b == a;
    } else {
      ApplyAllConcat(attributes, t, a, b[..|b| - 1]);
      assert (a + b)[..|a + b| - 1] == a + b[..|b| - 1];
    }
  }

  lemma ApplyAllSnoc(attributes: set<Bytes>, t: Table, ws: seq<Write>, w: Write)
    ensures ApplyAll(attributes, t, ws + [w]) == Apply(attributes, ApplyAll(attributes, t, ws), w)
  {
    assert (ws + [w])[..|ws|] == ws;
  }

  // With distinct keys, each key ends up as its only write says, and every other key as it was.
  lemma {:induction false} DistinctLookup(attributes: set<Bytes>, t: Table, ws: seq<Write>, k: Key)
    requires DistinctKeys(attributes, ws)
    ensures forall w | w in ws && KeyOf(attributes, w) == k :: Lookup(ApplyAll(attributes, t, ws), k) == Written(w)
    ensures (forall w | w in ws :: KeyOf(attributes, w) != k) ==> Lookup(ApplyAll(attributes, t, ws), k) == Lookup(t, k)
  {
    if ws != [] {
      var init, last := ws[..|ws| - 1], ws[|ws| - 1];
      DistinctLookup(attributes, t, init, k);
      assert forall w :: w in ws <==> w in init || w == last;
    }
  }

  lemma TablesEqual(t: Table, u: Table)
    requires forall k :: Lookup(t, k) == Lookup(u, k)
    ensures t == u
  {
    assert forall k :: k in t <==> Lookup(t, k).Some?;
    assert forall k :: k in u <==> Lookup(u, k).Some?;
    forall k | k in t
      ensures k in u && t[k] == u[k]
    {
      assert Lookup(t, k) == Lookup(u, k);
    }
  }

  // Writes with distinct keys commute: only which writes are applied matters.
  lemma OrderDoesNotMatter(attributes: set<Bytes>, t: Table, a: seq<Write>, b: seq<Write>)
    requires DistinctKeys(attributes, a) && DistinctKeys(attributes, b)
    requires forall w :: w in a <==> w in b
    ensures ApplyAll(attributes, t, a) == ApplyAll(attributes, t, b)
  {
    forall k
      ensures Lookup(ApplyAll(attributes, t, a), k) == Lookup(ApplyAll(attributes, t, b), k)
    {
      DistinctLookup(attributes, t, a, k);
      DistinctLookup(attributes, t, b, k);
      if exists w :: w in a && KeyOf(attributes, w) == k {
        var w :| w in a && KeyOf(attributes, w) == k;
        assert w in b;
      }
    }
    TablesEqual(ApplyAll(attributes, t, a), ApplyAll(attributes, t, b));
  }

  // ----- Which writes were kept -----

  function Keep(ws: seq<Write>, kept: seq<bool>): seq<Write>
    requires |kept| == |ws|
  {
    if ws == [] then []
    else (if kept[0] then [ws[0]] else []) + Keep(ws[1..], kept[1..])
  }

  function Count(kept: seq<bool>, value: bool): nat {
    if kept == [] then 0 else (if kept[0] == value then 1 else 0) + Count(kept[1..], value)
  }

  lemma {:induction false} CountsCover(kept: seq<bool>)
    ensures Count(kept, true) + Count(kept, false) == |kept|
  {
    if kept != [] {
      CountsCover(kept[1..]);
    }
  }

  lemma {:induction false} KeepConcat(a: seq<Write>, m: seq<bool>, b: seq<Write>, n: seq<bool>)
    requires |a| == |m| && |b| == |n|
    ensures Keep(a + b, m + n) == Keep(a, m) + Keep(b, n)
  {
    if a == [] {
      assert a + b == b && m + n == n;
    } else {
      KeepConcat(a[1..], m[1..], b, n);
      var first: seq<Write> := if m[0] then [a[0]] else [];
      assert (a + b)[1..] == a[1..] + b && (m + n)[1..] == m[1..] + n;
      assert Keep(a + b, m + n) == first + (Keep(a[1..], m[1..]) + Keep(b, n));
      assert Keep(a, m) == first + Keep(a[1..], m[1..]);
    }
  }

  lemma {:induction false} CountConcat(m: seq<bool>, n: seq<bool>, value: bool)
    ensures Count(m + n, value) == Count(m, value) + Count(n, value)
  {
    if m == [] {
      assert m + n == n;
    } else {
      CountConcat(m[1..], n, value);
      assert (m + n)[1..] == m[1..] + n;
    }
  }

  // The writes of a request that are not among those left over.
  function Mask(ws: seq<Write>, left: seq<Write>): seq<bool> {
    seq(|ws|, i requires 0 <= i < |ws| => ws[i] !in left)
  }

  lemma {:induction false} MaskMembers(attributes: set<Bytes>, ws: seq<Write>, left: seq<Write>)
    requires DistinctKeys(attributes, ws)
    ensures forall w :: w in Keep(ws, Mask(ws, left)) <==> w in ws && w !in left
    ensures DistinctKeys(attributes, Keep(ws, Mask(ws, left)))
  {
    if ws != [] {
      MaskMembers(attributes, ws[1..], left);
      var rest := Keep(ws[1..], Mask(ws, left)[1..]);
      assert Mask(ws, left)[1..] == Mask(ws[1..], left);
      forall w | w in rest
        ensures KeyOf(attributes, w) != KeyOf(attributes, ws[0])
      {
        assert w in ws[1..];
      }
    }
  }

  function Within(ws: seq<Write>, left: seq<Write>): seq<Write> {
    if ws == [] then [] else (if ws[0] in left then [ws[0]] else []) + Within(ws[1..], left)
  }

  lemma {:induction false} WithinCount(ws: seq<Write>, left: seq<Write>)
    ensures |Within(ws, left)| == Count(Mask(ws, left), false)
  {
    if ws != [] {
      WithinCount(ws[1..], left);
      assert Mask(ws, left)[1..] == Mask(ws[1..], left);
    }
  }

  lemma {:induction false} WithinMultiplicity(ws: seq<Write>, left: seq<Write>, w: Write)
    requires multiset(ws)[w] <= 1
    ensures multiset(Within(ws, left))[w] == if w in ws && w in left then 1 else 0
  {
    if ws != [] {
      assert ws == [ws[0]] + ws[1..];
      assert w in ws[1..] <==> multiset(ws[1..])[w] > 0;
      WithinMultiplicity(ws[1..], left, w);
    }
  }

  lemma MaskCount(ws: seq<Write>, left: seq<Write>)
    requires forall w | w in ws :: multiset(ws)[w] == 1
    requires multiset(left) <= multiset(ws)
    ensures Count(Mask(ws, left), false) == |left|
  {
    forall w: Write
      ensures multiset(Within(ws, left))[w] == multiset(left)[w]
    {
      assert w in ws <==> multiset(ws)[w] > 0;
      assert w in left <==> multiset(left)[w] > 0;
      WithinMultiplicity(ws, left, w);
    }
    assert multiset(Within(ws, left)) == multiset(left);
    assert |left| == |multiset(left)| == |multiset(Within(ws, left))|;
    WithinCount(ws, left);
  }

  lemma PairCounts(ws: seq<Write>, i: nat, j: nat)
    requires i < j < |ws| && ws[i] == ws[j]
    ensures multiset(ws)[ws[i]] >= 2
  {
    assert ws == ws[..i] + [ws[i]] + ws[i + 1..j] + [ws[j]] + ws[j + 1..];
  }

  lemma DistinctParts(attributes: set<Bytes>, ws: seq<Write>, part: seq<Write>)
    requires DistinctKeys(attributes, ws) && multiset(part) <= multiset(ws)
    ensures DistinctKeys(attributes, part)
    ensures forall w | w in ws :: multiset(ws)[w] == 1
  {
    forall w | w in ws
      ensures multiset(ws)[w] == 1
    {
      OccursOnce(attributes, ws, w);
    }
    forall w | w in part
      ensures w in ws
    {
      assert w in multiset(part);
    }
    forall i, j | 0 <= i < j < |part|
      ensures KeyOf(attributes, part[i]) != KeyOf(attributes, part[j])
    {
      var a, b := part[i], part[j];
      if a == b {
        PairCounts(part, i, j);
      } else {
        var x :| 0 <= x < |ws| && ws[x] == a;
        var y :| 0 <= y < |ws| && ws[y] == b;
      }
    }
  }

  lemma {:induction false} OccursOnce(attributes: set<Bytes>, ws: seq<Write>, w: Write)
    requires DistinctKeys(attributes, ws) && w in ws
    ensures multiset(ws)[w] == 1
  {
    var init, last := ws[..|ws| - 1], ws[|ws| - 1];
    assert ws == init + [last];
    if w in init {
      OccursOnce(attributes, init, w);
      var i :| 0 <= i < |init| && init[i] == w;
      assert KeyOf(attributes, ws[i]) != KeyOf(attributes, ws[|ws| - 1]);
    } else {
      assert w !in multiset(init);
    }
  }

  /**
   Within one request: if `done` was applied in some order and `left` was not, the table is as if the request's
   writes outside `left` had been applied in their original order.
   */
  lemma RequestRefines(attributes: set<Bytes>, t: Table, ws: seq<Write>, done: seq<Write>, left: seq<Write>)
    requires DistinctKeys(attributes, ws)
    requires multiset(done) + multiset(left) == multiset(ws)
    ensures ApplyAll(attributes, t, done) == ApplyAll(attributes, t, Keep(ws, Mask(ws, left)))
    ensures Count(Mask(ws, left), false) == |left|
  {
    DistinctParts(attributes, ws, done);
    DistinctParts(attributes, ws, left);
    MaskMembers(attributes, ws, left);
    forall w
      ensures w in done <==> w in ws && w !in left
    {
      assert w in done <==> multiset(done)[w] > 0;
      assert w in left <==> multiset(left)[w] > 0;
      assert w in ws <==> multiset(ws)[w] > 0;
    }
    OrderDoesNotMatter(attributes, t, done, Keep(ws, Mask(ws, left)));
    MaskCount(ws, left);
  }

  // ----- Aborted and partial runs, and running again -----

  // Some of these writes, in some order and any number of times, turned t into u.
  ghost predicate PartialRun(attributes: set<Bytes>, t: Table, ws: seq<Write>, u: Table) {
    exists applied: seq<Write> :: (forall w | w in applied :: w in ws) && u == ApplyAll(attributes, t, applied)
  }

  ghost predicate AgreeOutside(t: Table, u: Table, keys: set<Key>) {
    forall k | k !in keys :: Lookup(t, k) == Lookup(u, k)
  }

  function Keys(attributes: set<Bytes>, ws: seq<Write>): set<Key> {
    set w | w in ws :: KeyOf(attributes, w)
  }

  lemma {:induction false} ApplyAllAgrees(attributes: set<Bytes>, t: Table, u: Table, keys: set<Key>, ws: seq<Write>)
    requires AgreeOutside(t, u, keys)
    ensures AgreeOutside(ApplyAll(attributes, t, ws), ApplyAll(attributes, u, ws), keys - Keys(attributes, ws))
  {
    if ws != [] {
      var init, last := ws[..|ws| - 1], ws[|ws| - 1];
      ApplyAllAgrees(attributes, t, u, keys, init);
      assert Keys(attributes, ws) == Keys(attributes, init) + {KeyOf(attributes, last)};
      forall k | k !in keys - Keys(attributes, ws)
        ensures Lookup(ApplyAll(attributes, t, ws), k) == Lookup(ApplyAll(attributes, u, ws), k)
      {
        assert k != KeyOf(attributes, last) ==> k !in keys - Keys(attributes, init);
      }
    }
  }

  lemma {:induction false} ApplyAllFrame(attributes: set<Bytes>, t: Table, ws: seq<Write>, keys: set<Key>)
    requires Keys(attributes, ws) <= keys
    ensures AgreeOutside(t, ApplyAll(attributes, t, ws), keys)
  {
    if ws != [] {
      var init, last := ws[..|ws| - 1], ws[|ws| - 1];
      assert Keys(attributes, ws) == Keys(attributes, init) + {KeyOf(attributes, last)};
      ApplyAllFrame(attributes, t, init, keys);
    }
  }

  // A clean run after a partial one gives what a clean run would have given in the first place.
  lemma CleanRunRepairs(attributes: set<Bytes>, t: Table, ws: seq<Write>, u: Table)
    requires PartialRun(attributes, t, ws, u)
    ensures ApplyAll(attributes, u, ws) == ApplyAll(attributes, t, ws)
  {
    var applied: seq<Write> :| (forall w | w in applied :: w in ws) && u == ApplyAll(attributes, t, applied);
    var keys := Keys(attributes, ws);
    ApplyAllFrame(attributes, t, applied, keys);
    ApplyAllAgrees(attributes, t, u, keys, ws);
    TablesEqual(ApplyAll(attributes, u, ws), ApplyAll(attributes, t, ws));
  }

  lemma PartialRunsCompose(attributes: set<Bytes>, t: Table, ws: seq<Write>, u: Table, v: Table)
    requires PartialRun(attributes, t, ws, u) && PartialRun(attributes, u, ws, v)
    ensures PartialRun(attributes, t, ws, v)
  {
    var first: seq<Write> :| (forall w | w in first :: w in ws) && u == ApplyAll(attributes, t, first);
    var second: seq<Write> :| (forall w | w in second :: w in ws) && v == ApplyAll(attributes, u, second);
    ApplyAllConcat(attributes, t, first, second);
    assert forall w | w in first + second :: w in ws;
  }

  // ----- The service -----

  /**
   The table as the service keeps it. A request without an error is valid and leaves any part of itself
   unprocessed; a request answered with an error may still have had any part of itself applied.
   */
  class DynamoTable {
    const attributes: set<Bytes>
    var items: Table
    // The number of requests received.
    ghost var calls: nat
    // Of these, the number answered with an error.
    ghost var errors: nat

    method BatchWriteItem(requests: seq<Write>) returns (unprocessed: Result<seq<Write>>, ghost processed: seq<Write>)
      modifies this
      ensures unprocessed.Success? ==> 0 < |requests| <= 25 && DistinctKeys(attributes, requests)
      ensures multiset(processed) <= multiset(requests)
      ensures unprocessed.Success? ==> multiset(processed) + multiset(unprocessed.value) == multiset(requests)
      ensures items == ApplyAll(attributes, old(items), processed)
      ensures calls == old(calls) + 1
      ensures errors == old(errors) + if unprocessed.Failure? then 1 else 0
    {
      calls := calls + 1;
      processed := [];
      if |requests| == 0 || |requests| > 25 || !DistinctKeys(attributes, requests) {
        errors := errors + 1;
        return Failure, processed;
      }
      var left: seq<Write> := [];
      for i := 0 to |requests|
        invariant multiset(processed) + multiset(left) == multiset(requests[..i])
        invariant items == ApplyAll(attributes, old(items), processed)
        invariant calls == old(calls) + 1 && errors == old(errors)
      {
        var throttled: bool := *;
        if throttled {
          left := left + [requests[i]];
        } else {
          items := Apply(attributes, items, requests[i]);
          ApplyAllSnoc(attributes, old(items), processed, requests[i]);
          processed := processed + [requests[i]];
        }
        assert requests[..i + 1] == requests[..i] + [requests[i]];
      }
      assert requests[..|requests|] == requests;
      var failed: bool := *;
      if failed {
        errors := errors + 1;
        return Failure, processed;
      }
      return Success(left), processed;
    }
  }

  // ----- The loops -----

  // Up to three calls for one chunk.
  method WriteChunk(table: DynamoTable, chunk: seq<Write>) returns (unprocessed: Result<nat>, ghost kept: seq<bool>)
    modifies table
    ensures unprocessed.Success? ==>
      && |kept| == |chunk|
      && table.items == ApplyAll(table.attributes, old(table.items), Keep(chunk, kept))
      && unprocessed.value == Count(kept, false)
    ensures unprocessed.Failure? ==> PartialRun(table.attributes, old(table.items), chunk, table.items)
    ensures old(table.calls) < table.calls <= old(table.calls) + 3
    ensures unprocessed.Success? && unprocessed.value > 0 ==> table.calls == old(table.calls) + 3
    ensures table.errors == old(table.errors) + if unprocessed.Failure? then 1 else 0
  {
    var total := 0;
    var input := chunk;
    kept := [];
    ghost var done, left := [], chunk;
    for i := 0 to 3
      invariant i == 0 || DistinctKeys(table.attributes, chunk)
      invariant i < 3 ==> input == left
      invariant i == 0 ==> left == chunk
      invariant IsSplit(table.attributes, old(table.items), table.items, chunk, done, left)
      invariant total == if i == 3 then |left| else 0
      invariant table.calls == old(table.calls) + i && table.errors == old(table.errors)
    {
      ghost var before := table.items;
      var answer, processed := table.BatchWriteItem(input);
      ghost var rest := if answer.Success? then answer.value else [];
      SplitFurther(table.attributes, old(table.items), before, table.items, chunk, done, left, processed, rest);
      done := done + processed;
      if answer.Failure? {
        return Failure, kept;
      }
      left := answer.value;
      if |answer.value| > 0 {
        if i == 2 {
          total := total + |answer.value|;
        } else {
          input := answer.value;
        }
      } else {
        break;
      }
    }
    RequestRefines(table.attributes, old(table.items), chunk, done, left);
    kept := Mask(chunk, left);
    return Success(total), kept;
  }

  // Of the chunk, `done` was applied, in some order, and `left` was not.
  predicate IsSplit(attributes: set<Bytes>, t: Table, u: Table, chunk: seq<Write>, done: seq<Write>, left: seq<Write>) {
    multiset(done) + multiset(left) == multiset(chunk) && u == ApplyAll(attributes, t, done)
  }

  lemma SplitFurther(attributes: set<Bytes>, t: Table, u: Table, v: Table, chunk: seq<Write>, done: seq<Write>,
                     left: seq<Write>, processed: seq<Write>, rest: seq<Write>)
    requires IsSplit(attributes, t, u, chunk, done, left)
    requires multiset(processed) <= multiset(left) && v == ApplyAll(attributes, u, processed)
    ensures PartialRun(attributes, t, chunk, v)
    ensures multiset(processed) + multiset(rest) == multiset(left) ==>
      IsSplit(attributes, t, v, chunk, done + processed, rest)
  {
    ApplyAllConcat(attributes, t, done, processed);
    forall w | w in done + processed
      ensures w in chunk
    {
      assert w in multiset(done) || w in multiset(processed);
      assert w in multiset(chunk);
    }
  }

  datatype WriteError = ServiceError | SizeError(check: BatchCheck)

  datatype WriteAnswer = WriteOk(unprocessed: nat) | WriteErr(error: WriteError)

  /**
   Chunk by chunk. A run without an error leaves the table as if the writes that were not finally left over had been
   applied one by one in their original order, and counts the others. The batch size error never occurs.
   */
  method WriteAll(table: DynamoTable, writes: seq<Write>) returns (answer: WriteAnswer, ghost kept: seq<bool>)
    modifies table
    ensures answer.WriteOk? ==>
      && |kept| == |writes|
      && table.items == ApplyAll(table.attributes, old(table.items), Keep(writes, kept))
      && answer.unprocessed == Count(kept, false)
    ensures answer.WriteErr? ==> PartialRun(table.attributes, old(table.items), writes, table.items)
    ensures answer.WriteErr? && answer.error.SizeError? ==> answer.error.check == ItemTooLarge
    ensures answer == WriteErr(ServiceError) <==> table.errors == old(table.errors) + 1
    ensures answer != WriteErr(ServiceError) ==> table.errors == old(table.errors)
    ensures answer.WriteErr? && answer.error.SizeError? ==> exists w :: w in writes && RequestSize(w) > 409600
    ensures answer.WriteOk? ==>
      old(table.calls) + (|writes| + 24) / 25 <= table.calls <= old(table.calls) + 3 * ((|writes| + 24) / 25)
  {
    var total := 0;
    kept := [];
    var start := 0;
    ghost var rounds := 0;
    while start < |writes|
      invariant |kept| == (if start <= |writes| then start else |writes|)
      invariant IsWritten(table.attributes, old(table.items), table.items, writes, kept, total)
      invariant table.errors == old(table.errors)
      invariant start == 25 * rounds < |writes| + 25
      invariant old(table.calls) + rounds <= table.calls <= old(table.calls) + 3 * rounds
    {
      var end := start + BATCH_SIZE;
      if end > |writes| {
        end := |writes|;
      }
      var chunk := writes[start..end];
      ghost var before := table.items;
      var check := ValidateBatchSize(chunk);
      if check != Fits {
        BatchErrorUnreachableIff(|chunk|);
        NothingRan(table.attributes, before, chunk);
        AbortedAt(table.attributes, old(table.items), before, before, writes, kept, total, end);
        TooLargeAmong(writes, start, end);
        return WriteErr(SizeError(check)), kept;
      }
      var unprocessed, keptHere := WriteChunk(table, chunk);
      if unprocessed.Failure? {
        AbortedAt(table.attributes, old(table.items), before, table.items, writes, kept, total, end);
        return WriteErr(ServiceError), kept;
      }
      WrittenFurther(table.attributes, old(table.items), before, table.items, writes, kept, total, end, keptHere);
      total := total + unprocessed.value;
      kept := kept + keptHere;
      start, rounds := start + BATCH_SIZE, rounds + 1;
    }
    assert writes[..|kept|] == writes;
    return WriteOk(total), kept;
  }

  lemma TooLargeAmong(writes: seq<Write>, start: nat, end: nat)
    requires start <= end <= |writes| && !EachFits(writes[start..end])
    ensures exists w :: w in writes && RequestSize(w) > 409600
  {
    var i :| 0 <= i < end - start && RequestSize(writes[start..end][i]) > MAX_INDIVIDUAL_SIZE;
    assert writes[start..end][i] in writes;
  }

  lemma {:induction false} KeepMembers(ws: seq<Write>, kept: seq<bool>)
    requires |kept| == |ws|
    ensures forall w | w in Keep(ws, kept) :: w in ws
  {
    if ws != [] {
      KeepMembers(ws[1..], kept[1..]);
    }
  }

  // The table is what the kept ones of the first |kept| writes make of it, and `count` of those were not kept.
  predicate IsWritten(attributes: set<Bytes>, t: Table, u: Table, writes: seq<Write>, kept: seq<bool>, count: nat) {
    |kept| <= |writes| && u == ApplyAll(attributes, t, Keep(writes[..|kept|], kept)) && count == Count(kept, false)
  }

  lemma WrittenFurther(attributes: set<Bytes>, t: Table, u: Table, v: Table, writes: seq<Write>, kept: seq<bool>,
                       count: nat, end: nat, keptHere: seq<bool>)
    requires IsWritten(attributes, t, u, writes, kept, count) && |kept| <= end <= |writes|
    requires |keptHere| == end - |kept| && v == ApplyAll(attributes, u, Keep(writes[|kept|..end], keptHere))
    ensures IsWritten(attributes, t, v, writes, kept + keptHere, count + Count(keptHere, false))
  {
    var before, chunk := writes[..|kept|], writes[|kept|..end];
    assert writes[..end] == before + chunk;
    KeepConcat(before, kept, chunk, keptHere);
    CountConcat(kept, keptHere, false);
    ApplyAllConcat(attributes, t, Keep(before, kept), Keep(chunk, keptHere));
  }

  lemma AbortedAt(attributes: set<Bytes>, t: Table, u: Table, v: Table, writes: seq<Write>, kept: seq<bool>,
                  count: nat, end: nat)
    requires IsWritten(attributes, t, u, writes, kept, count) && |kept| <= end <= |writes|
    requires PartialRun(attributes, u, writes[|kept|..end], v)
    ensures PartialRun(attributes, t, writes, v)
  {
    var first := Keep(writes[..|kept|], kept);
    KeepMembers(writes[..|kept|], kept);
    var second: seq<Write> :|
      (forall w | w in second :: w in writes[|kept|..end]) && v == ApplyAll(attributes, u, second);
    ApplyAllConcat(attributes, t, first, second);
    assert forall w | w in first + second :: w in writes;
  }

  // ----- The handlers -----

  // An item or key as it arrives, a JSON object.
  type RawItem = string

  /**
   What becomes of an item before it is written: password hashing, marshalling and schema validation give the item to
   write, or None when one of them fails. Hashing is a fixed function here.
   */
  type Preparation = RawItem -> Option<Item>

  function Accepted(raw: seq<RawItem>, prepare: Preparation): seq<Write> {
    if raw == [] then []
    else
      var last := prepare(raw[|raw| - 1]);
      Accepted(raw[..|raw| - 1], prepare) + if last.Some? then [PutRequest(last.value)] else []
  }

  function Refused(raw: seq<RawItem>, prepare: Preparation): seq<RawItem> {
    if raw == [] then []
    else Refused(raw[..|raw| - 1], prepare) + if prepare(raw[|raw| - 1]).None? then [raw[|raw| - 1]] else []
  }

  lemma {:induction false} AcceptedOrRefused(raw: seq<RawItem>, prepare: Preparation)
    ensures |Accepted(raw, prepare)| + |Refused(raw, prepare)| == |raw|
  {
    if raw != [] {
      AcceptedOrRefused(raw[..|raw| - 1], prepare);
    }
  }

  lemma {:induction false} RefusedMeans(raw: seq<RawItem>, prepare: Preparation)
    ensures forall x :: x in Refused(raw, prepare) <==> x in raw && prepare(x).None?
  {
    if raw != [] {
      RefusedMeans(raw[..|raw| - 1], prepare);
    }
  }

  function Deletions(keys: seq<Item>): seq<Write> {
    seq(|keys|, i requires 0 <= i < |keys| => DeleteRequest(keys[i]))
  }

  // ----- What the writes do to a key of the table -----

  lemma KeyIs(attributes: set<Bytes>, item: Item)
    ensures KeyOf(attributes, PutRequest(item)) == map a | a in attributes && a in item :: item[a]
    ensures KeyOf(attributes, DeleteRequest(item)) == map a | a in attributes && a in item :: item[a]
  {
  }

  // The i-th item is prepared and no later prepared item has its key.
  predicate IsLastOfItsKey(attributes: set<Bytes>, raw: seq<RawItem>, prepare: Preparation, i: nat) {
    && i < |raw| && prepare(raw[i]).Some?
    && forall j | i < j < |raw| && prepare(raw[j]).Some? ::
         KeyOf(attributes, PutRequest(prepare(raw[j]).value)) != KeyOf(attributes, PutRequest(prepare(raw[i]).value))
  }

  lemma {:induction false} PutLands(attributes: set<Bytes>, t: Table, raw: seq<RawItem>, prepare: Preparation, i: nat)
    requires IsLastOfItsKey(attributes, raw, prepare, i)
    ensures var item := prepare(raw[i]).value;
            Lookup(ApplyAll(attributes, t, Accepted(raw, prepare)), KeyOf(attributes, PutRequest(item))) == Some(item)
  {
    var init, last := raw[..|raw| - 1], prepare(raw[|raw| - 1]);
    if last.Some? {
      ApplyAllSnoc(attributes, t, Accepted(init, prepare), PutRequest(last.value));
    } else {
      assert Accepted(raw, prepare) == Accepted(init, prepare);
    }
    if i < |raw| - 1 {
      PutLands(attributes, t, init, prepare, i);
    }
  }

  // After all accepted items were put one by one, each key holds the last item put under it.
  lemma PutsLand(attributes: set<Bytes>, t: Table, raw: seq<RawItem>, prepare: Preparation)
    ensures forall i: nat | IsLastOfItsKey(attributes, raw, prepare, i) ::
      var item := prepare(raw[i]).value;
      var key := map a | a in attributes && a in item :: item[a];
      Lookup(ApplyAll(attributes, t, Accepted(raw, prepare)), key) == Some(item)
  {
    forall i: nat | IsLastOfItsKey(attributes, raw, prepare, i)
      ensures var item := prepare(raw[i]).value;
              var key := map a | a in attributes && a in item :: item[a];
              Lookup(ApplyAll(attributes, t, Accepted(raw, prepare)), key) == Some(item)
    {
      KeyIs(attributes, prepare(raw[i]).value);
      PutLands(attributes, t, raw, prepare, i);
    }
  }

  lemma {:induction false} DeletionLands(attributes: set<Bytes>, t: Table, keys: seq<Item>, i: nat)
    requires i < |keys|
    ensures KeyOf(attributes, DeleteRequest(keys[i])) !in ApplyAll(attributes, t, Deletions(keys))
  {
    var init, last := keys[..|keys| - 1], keys[|keys| - 1];
    assert Deletions(keys) == Deletions(init) + [DeleteRequest(last)];
    ApplyAllSnoc(attributes, t, Deletions(init), DeleteRequest(last));
    if i < |keys| - 1 {
      DeletionLands(attributes, t, init, i);
    }
  }

  lemma DeletionsLand(attributes: set<Bytes>, t: Table, keys: seq<Item>)
    ensures forall i | 0 <= i < |keys| ::
      (map a | a in attributes && a in keys[i] :: keys[i][a]) !in ApplyAll(attributes, t, Deletions(keys))
  {
    forall i | 0 <= i < |keys|
      ensures (map a | a in attributes && a in keys[i] :: keys[i][a]) !in ApplyAll(attributes, t, Deletions(keys))
    {
      KeyIs(attributes, keys[i]);
      DeletionLands(attributes, t, keys, i);
    }
  }

  // Even an aborted run leaves alone the keys that none of its writes is about.
  lemma PartialRunFrame(attributes: set<Bytes>, t: Table, ws: seq<Write>, u: Table)
    requires PartialRun(attributes, t, ws, u)
    ensures forall k | (forall w | w in ws :: KeyOf(attributes, w) != k) :: Lookup(u, k) == Lookup(t, k)
  {
    var applied: seq<Write> :| (forall w | w in applied :: w in ws) && u == ApplyAll(attributes, t, applied);
    var keys := Keys(attributes, ws);
    ApplyAllFrame(attributes, t, applied, keys);
  }

  lemma {:induction false} AcceptedAre(raw: seq<RawItem>, prepare: Preparation)
    ensures forall w | w in Accepted(raw, prepare) ::
      w.PutRequest? && exists i :: 0 <= i < |raw| && prepare(raw[i]) == Some(w.item)
  {
    if raw != [] {
      var init := raw[..|raw| - 1];
      AcceptedAre(init, prepare);
      forall w | w in Accepted(raw, prepare)
        ensures w.PutRequest? && exists i :: 0 <= i < |raw| && prepare(raw[i]) == Some(w.item)
      {
        if w in Accepted(init, prepare) {
          var i :| 0 <= i < |init| && prepare(init[i]) == Some(w.item);
          assert raw[i] == init[i];
        } else {
          assert prepare(raw[|raw| - 1]) == Some(w.item);
        }
      }
    }
  }

  // What the caller is told.
  datatype Reply = Rejected | Report(succeeded: int, unprocessed: nat, failed: seq<RawItem>)

  /**
   `allowed` says whether the table passed the protection checks. On a report, every requested item is counted once,
   the successes are exactly the writes in the table, and the table is the sequential application of those.
   */
  method BatchPutItems(table: DynamoTable, allowed: bool, raw: seq<RawItem>, prepare: Preparation)
    returns (reply: Reply, ghost kept: seq<bool>)
    modifies table
    ensures !allowed || raw == [] ==> reply.Rejected? && table.items == old(table.items)
    ensures reply.Report? && reply.unprocessed == 0 ==> forall i: nat |
      IsLastOfItsKey(table.attributes, raw, prepare, i) ::
        var item := prepare(raw[i]).value;
        var key := map a | a in table.attributes && a in item :: item[a];
        Lookup(table.items, key) == Some(item)
    ensures forall k | (forall i | 0 <= i < |raw| && prepare(raw[i]).Some? ::
                          KeyOf(table.attributes, PutRequest(prepare(raw[i]).value)) != k) ::
      Lookup(table.items, k) == Lookup(old(table.items), k)
    ensures reply.Report? ==> forall x :: x in reply.failed <==> x in raw && prepare(x).None?
    ensures reply.Rejected? ==>
      || !allowed || raw == [] || table.errors > old(table.errors)
      || exists i :: 0 <= i < |raw| && prepare(raw[i]).Some? && ItemSize(prepare(raw[i]).value) > 409600
    ensures reply.Report? ==> table.errors == old(table.errors)
    ensures reply.Report? ==>
      && |kept| == |Accepted(raw, prepare)|
      && table.items == ApplyAll(table.attributes, old(table.items), Keep(Accepted(raw, prepare), kept))
      && reply.succeeded == Count(kept, true)
      && reply.unprocessed == Count(kept, false)
      && reply.failed == Refused(raw, prepare)
      && reply.succeeded + reply.unprocessed + |reply.failed| == |raw|
    ensures PartialRun(table.attributes, old(table.items), Accepted(raw, prepare), table.items)
  {
    kept := [];
    NothingRan(table.attributes, table.items, Accepted(raw, prepare));
    if !allowed || |raw| == 0 {
      return Rejected, kept;
    }
    var items: seq<Write> := [];
    var failed: seq<RawItem> := [];
    for i := 0 to |raw|
      invariant items == Accepted(raw[..i], prepare)
      invariant failed == Refused(raw[..i], prepare)
    {
      assert raw[..i + 1][..i] == raw[..i];
      var prepared := prepare(raw[i]);
      if prepared.None? {
        failed := failed + [raw[i]];
        continue;
      }
      items := items + [PutRequest(prepared.value)];
    }
    assert raw[..|raw|] == raw;
    ghost var before := table.items;
    var answer, keptWrites := WriteAll(table, items);
    if answer.WriteErr? {
      PutsLeaveAlone(table.attributes, before, raw, prepare, table.items);
      TooLargePrepared(raw, prepare);
      return Rejected, kept;
    }
    kept := keptWrites;
    Reported(table.attributes, before, raw, prepare, kept, table.items);
    return Report(|raw| - answer.unprocessed - |failed|, answer.unprocessed, failed), kept;
  }

  lemma PutsLeaveAlone(attributes: set<Bytes>, t: Table, raw: seq<RawItem>, prepare: Preparation, u: Table)
    requires PartialRun(attributes, t, Accepted(raw, prepare), u)
    ensures forall k | (forall i | 0 <= i < |raw| && prepare(raw[i]).Some? ::
                          KeyOf(attributes, PutRequest(prepare(raw[i]).value)) != k) :: Lookup(u, k) == Lookup(t, k)
  {
    AcceptedAre(raw, prepare);
    PartialRunFrame(attributes, t, Accepted(raw, prepare), u);
  }

  lemma TooLargePrepared(raw: seq<RawItem>, prepare: Preparation)
    ensures (exists w :: w in Accepted(raw, prepare) && RequestSize(w) > 409600) ==>
      exists i :: 0 <= i < |raw| && prepare(raw[i]).Some? && ItemSize(prepare(raw[i]).value) > 409600
  {
    AcceptedAre(raw, prepare);
  }

  // What a report may claim once the kept ones of the accepted writes were applied.
  lemma Reported(attributes: set<Bytes>, t: Table, raw: seq<RawItem>, prepare: Preparation, kept: seq<bool>, u: Table)
    requires |kept| == |Accepted(raw, prepare)|
    requires u == ApplyAll(attributes, t, Keep(Accepted(raw, prepare), kept))
    ensures PartialRun(attributes, t, Accepted(raw, prepare), u)
    ensures |raw| == Count(kept, true) + Count(kept, false) + |Refused(raw, prepare)|
    ensures forall x :: x in Refused(raw, prepare) <==> x in raw && prepare(x).None?
    ensures forall k | (forall i | 0 <= i < |raw| && prepare(raw[i]).Some? ::
                          KeyOf(attributes, PutRequest(prepare(raw[i]).value)) != k) :: Lookup(u, k) == Lookup(t, k)
    ensures Count(kept, false) == 0 ==> forall i: nat | IsLastOfItsKey(attributes, raw, prepare, i) ::
      var item := prepare(raw[i]).value;
      var key := map a | a in attributes && a in item :: item[a];
      Lookup(u, key) == Some(item)
  {
    KeepMembers(Accepted(raw, prepare), kept);
    CountsCover(kept);
    AcceptedOrRefused(raw, prepare);
    RefusedMeans(raw, prepare);
    PutsLeaveAlone(attributes, t, raw, prepare, u);
    if Count(kept, false) == 0 {
      AllKept(Accepted(raw, prepare), kept);
      PutsLand(attributes, t, raw, prepare);
    }
  }

  // A key that cannot be marshalled rejects the whole request before anything is written.
  method BatchDeleteItems(table: DynamoTable, allowed: bool, raw: seq<RawItem>, marshal: Preparation)
    returns (reply: Reply, ghost keys: seq<Item>, ghost kept: seq<bool>)
    modifies table
    ensures !allowed || raw == [] ==> reply.Rejected? && table.items == old(table.items)
    ensures (exists key :: key in raw && marshal(key).None?) ==> reply.Rejected? && table.items == old(table.items)
    ensures reply.Report? && reply.unprocessed == 0 ==> forall i | 0 <= i < |raw| && marshal(raw[i]).Some? ::
        var deleted := marshal(raw[i]).value;
        (map a | a in table.attributes && a in deleted :: deleted[a]) !in table.items
    ensures forall k | (forall i | 0 <= i < |raw| && marshal(raw[i]).Some? ::
                          KeyOf(table.attributes, DeleteRequest(marshal(raw[i]).value)) != k) ::
      Lookup(table.items, k) == Lookup(old(table.items), k)
    ensures reply.Rejected? ==>
      || !allowed || raw == [] || table.errors > old(table.errors)
      || (exists i :: 0 <= i < |raw| && marshal(raw[i]).None?)
      || exists i :: 0 <= i < |raw| && marshal(raw[i]).Some? && ItemSize(marshal(raw[i]).value) > 409600
    ensures reply.Report? ==> table.errors == old(table.errors)
    ensures reply.Report? ==>
      && |keys| == |raw| && (forall i | 0 <= i < |raw| :: marshal(raw[i]) == Some(keys[i]))
      && |kept| == |raw|
      && table.items == ApplyAll(table.attributes, old(table.items), Keep(Deletions(keys), kept))
      && reply.succeeded == Count(kept, true)
      && reply.unprocessed == Count(kept, false)
      && reply.failed == []
      && reply.succeeded + reply.unprocessed == |raw|
    ensures PartialRun(table.attributes, old(table.items), Deletions(keys), table.items)
    ensures forall key | key in keys :: exists i :: 0 <= i < |raw| && marshal(raw[i]) == Some(key)
  {
    keys, kept := [], [];
    NothingRan(table.attributes, table.items, Deletions(keys));
    if !allowed || |raw| == 0 {
      return Rejected, keys, kept;
    }
    var items: seq<Write> := [];
    for i := 0 to |raw|
      invariant |keys| == i && forall j | 0 <= j < i :: marshal(raw[j]) == Some(keys[j])
      invariant items == Deletions(keys)
      invariant table.items == old(table.items) && table.errors == old(table.errors)
    {
      var prepared := marshal(raw[i]);
      if prepared.None? {
        NothingRan(table.attributes, table.items, Deletions(keys));
        return Rejected, keys, kept;
      }
      items := items + [DeleteRequest(prepared.value)];
      keys := keys + [prepared.value];
    }
    ghost var before := table.items;
    var answer, keptWrites := WriteAll(table, items);
    if answer.WriteErr? {
      DeletionsLeaveAlone(table.attributes, before, keys, table.items);
      return Rejected, keys, kept;
    }
    kept := keptWrites;
    ReportedDeletions(table.attributes, before, keys, kept, table.items);
    return Report(|raw| - answer.unprocessed, answer.unprocessed, []), keys, kept;
  }

  lemma DeletionsLeaveAlone(attributes: set<Bytes>, t: Table, keys: seq<Item>, u: Table)
    requires PartialRun(attributes, t, Deletions(keys), u)
    ensures forall k | (forall i | 0 <= i < |keys| :: KeyOf(attributes, DeleteRequest(keys[i])) != k) ::
      Lookup(u, k) == Lookup(t, k)
    ensures forall w | w in Deletions(keys) :: exists i :: 0 <= i < |keys| && RequestSize(w) == ItemSize(keys[i])
  {
    PartialRunFrame(attributes, t, Deletions(keys), u);
  }

  lemma ReportedDeletions(attributes: set<Bytes>, t: Table, keys: seq<Item>, kept: seq<bool>, u: Table)
    requires |kept| == |keys| && u == ApplyAll(attributes, t, Keep(Deletions(keys), kept))
    ensures PartialRun(attributes, t, Deletions(keys), u)
    ensures |keys| == Count(kept, true) + Count(kept, false)
    ensures forall k | (forall i | 0 <= i < |keys| :: KeyOf(attributes, DeleteRequest(keys[i])) != k) ::
      Lookup(u, k) == Lookup(t, k)
    ensures Count(kept, false) == 0 ==> forall i | 0 <= i < |keys| ::
      (map a | a in attributes && a in keys[i] :: keys[i][a]) !in u
  {
    KeepMembers(Deletions(keys), kept);
    CountsCover(kept);
    DeletionsLeaveAlone(attributes, t, keys, u);
    if Count(kept, false) == 0 {
      AllKept(Deletions(keys), kept);
      DeletionsLand(attributes, t, keys);
    }
  }

  lemma NothingRan(attributes: set<Bytes>, t: Table, ws: seq<Write>)
    ensures PartialRun(attributes, t, ws, t)
  {
    var none: seq<Write> := [];
    assert t == ApplyAll(attributes, t, none);
  }

  /**
   Redelivery converges: after any number of runs of the same batch, each clean, throttled or aborted anywhere, a
   last run that reports nothing left over leaves the table a single clean run would have left.
   */
  method RedeliverPut(table: DynamoTable, runs: nat, raw: seq<RawItem>, prepare: Preparation) returns (last: Reply)
    modifies table
    ensures last.Report? && last.unprocessed == 0 ==>
      table.items == ApplyAll(table.attributes, old(table.items), Accepted(raw, prepare))
    ensures last.Report? && last.unprocessed == 0 ==> forall i: nat |
      IsLastOfItsKey(table.attributes, raw, prepare, i) ::
        var item := prepare(raw[i]).value;
        var key := map a | a in table.attributes && a in item :: item[a];
        Lookup(table.items, key) == Some(item)
  {
    ghost var writes := Accepted(raw, prepare);
    NothingRan(table.attributes, table.items, writes);
    for run := 0 to runs
      invariant PartialRun(table.attributes, old(table.items), writes, table.items)
    {
      ghost var before := table.items;
      var _, _ := BatchPutItems(table, true, raw, prepare);
      PartialRunsCompose(table.attributes, old(table.items), writes, before, table.items);
    }
    CleanRunRepairs(table.attributes, old(table.items), writes, table.items);
    ghost var kept;
    last, kept := BatchPutItems(table, true, raw, prepare);
    if last.Report? && last.unprocessed == 0 {
      AllKept(writes, kept);
      PutsLand(table.attributes, old(table.items), raw, prepare);
    }
  }

  // The same for deletions, whose keys are fixed by the payload.
  method RedeliverDelete(table: DynamoTable, runs: nat, raw: seq<RawItem>, marshal: Preparation, ghost keys: seq<Item>)
    returns (last: Reply)
    requires |keys| == |raw| && forall i | 0 <= i < |raw| :: marshal(raw[i]) == Some(keys[i])
    modifies table
    ensures last.Report? && last.unprocessed == 0 ==>
      table.items == ApplyAll(table.attributes, old(table.items), Deletions(keys))
    ensures last.Report? && last.unprocessed == 0 ==> forall i | 0 <= i < |keys| ::
      (map a | a in table.attributes && a in keys[i] :: keys[i][a]) !in table.items
  {
    ghost var writes := Deletions(keys);
    NothingRan(table.attributes, table.items, writes);
    for run := 0 to runs
      invariant PartialRun(table.attributes, old(table.items), writes, table.items)
    {
      ghost var before := table.items;
      var _, ran, _ := BatchDeleteItems(table, true, raw, marshal);
      forall key | key in ran
        ensures key in keys
      {
        var i :| 0 <= i < |raw| && marshal(raw[i]) == Some(key);
        assert keys[i] == key;
      }
      DeletionsMembers(ran, keys);
      PartialRunWidens(table.attributes, before, Deletions(ran), writes, table.items);
      PartialRunsCompose(table.attributes, old(table.items), writes, before, table.items);
    }
    CleanRunRepairs(table.attributes, old(table.items), writes, table.items);
    ghost var ran, kept;
    last, ran, kept := BatchDeleteItems(table, true, raw, marshal);
    if last.Report? && last.unprocessed == 0 {
      assert ran == keys;
      AllKept(Deletions(ran), kept);
      DeletionsLand(table.attributes, old(table.items), keys);
    }
  }

  lemma DeletionsMembers(some: seq<Item>, keys: seq<Item>)
    requires forall key | key in some :: key in keys
    ensures forall w | w in Deletions(some) :: w in Deletions(keys)
  {
    forall i | 0 <= i < |some|
      ensures DeleteRequest(some[i]) in Deletions(keys)
    {
      assert some[i] in keys;
      var j :| 0 <= j < |keys| && keys[j] == some[i];
      assert Deletions(keys)[j] == DeleteRequest(some[i]);
    }
  }

  lemma PartialRunWidens(attributes: set<Bytes>, t: Table, ws: seq<Write>, more: seq<Write>, u: Table)
    requires PartialRun(attributes, t, ws, u) && forall w | w in ws :: w in more
    ensures PartialRun(attributes, t, more, u)
  {
  }

  lemma {:induction false} AllKept(ws: seq<Write>, kept: seq<bool>)
    requires |kept| == |ws| && Count(kept, false) == 0
    ensures Keep(ws, kept) == ws
  {
    if ws != [] {
      AllKept(ws[1..], kept[1..]);
    }
  }
}
