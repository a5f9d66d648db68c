/** Chunked, retried batch reads over a service that may leave any part of a request unprocessed. */
module BatchGet {
  import opened Outcomes
  import opened SizeEstimate
  import opened BatchWrite

  datatype Hit = Hit(key: Key, item: Item)

  function HitKeys(hits: seq<Hit>): seq<Key> {
    seq(|hits|, i requires 0 <= i < |hits| => hits[i].key)
  }

  predicate Distinct<T(==)>(xs: seq<T>) {
    forall i, j | 0 <= i < j < |xs| :: xs[i] != xs[j]
  }

  // These hits are in the table as returned, and these keys are not in it.
  predicate Truthful(table: Table, hits: seq<Hit>, absent: seq<Key>) {
    && (forall hit | hit in hits :: hit.key in table && table[hit.key] == hit.item)
    && (forall key | key in absent :: key !in table)
  }

  // Every requested key, as often as it was requested, is returned, absent or failed.
  predicate Accounts(requested: seq<Key>, hits: seq<Hit>, absent: seq<Key>, failed: seq<Key>) {
    multiset(HitKeys(hits)) + multiset(absent) + multiset(failed) == multiset(requested)
  }

  datatype Response = Response(hits: seq<Hit>, unprocessed: seq<Key>)

  /**
   The service over a table that nobody writes to during the read. A request without an error has distinct keys; each
   is returned, found absent, or left unprocessed, as the service likes.
   */
  class ReadService {
    const table: Table
    // The number of requests received.
    ghost var calls: nat
    // Of these, the number answered with an error.
    ghost var errors: nat

    constructor (table: Table)
      ensures this.table == table && calls == errors == 0
    {
      this.table := table;
      calls, errors := 0, 0;
    }

    method BatchGetItem(keys: seq<Key>) returns (response: Result<Response>, ghost absent: seq<Key>)
      modifies this
      ensures calls == old(calls) + 1
      ensures errors == old(errors) + if response.Failure? then 1 else 0
      ensures response.Success? ==>
        && keys != [] && Distinct(keys)
        && IsRead(table, keys, response.value.hits, absent, response.value.unprocessed)
    {
      calls := calls + 1;
      absent := [];
      if |keys| == 0 || !Distinct(keys) {
        errors := errors + 1;
        return Failure, absent;
      }
      var hits: seq<Hit>, left: seq<Key> := [], [];
      for i := 0 to |keys|
        invariant IsRead(table, keys[..i], hits, absent, left)
        invariant calls == old(calls) + 1 && errors == old(errors)
      {
        var key := keys[i];
        var throttled: bool := *;
        ReadOneMore(table, keys, i, hits, absent, left);
        if throttled {
          left := left + [key];
        } else if key in table {
          hits := hits + [Hit(key, table[key])];
        } else {
          absent := absent + [key];
        }
      }
      assert keys[..|keys|] == keys;
      var failed: bool := *;
      if failed {
        errors := errors + 1;
        return Failure, absent;
      }
      return Success(Response(hits, left)), absent;
    }
  }

  // One more key keeps the accounts, whatever becomes of it.
  lemma AccountsSnoc(keys: seq<Key>, i: nat, hits: seq<Hit>, absent: seq<Key>, left: seq<Key>)
    requires i < |keys| && Accounts(keys[..i], hits, absent, left)
    ensures Accounts(keys[..i + 1], hits, absent, left + [keys[i]])
    ensures Accounts(keys[..i + 1], hits, absent + [keys[i]], left)
    ensures forall item :: Accounts(keys[..i + 1], hits + [Hit(keys[i], item)], absent, left)
  {
    assert keys[..i + 1] == keys[..i] + [keys[i]];
    assert forall item :: HitKeys(hits + [Hit(keys[i], item)]) == HitKeys(hits) + [keys[i]];
  }

  lemma AccountsJoin(a: seq<Key>, aHits: seq<Hit>, aAbsent: seq<Key>, aFailed: seq<Key>,
                     b: seq<Key>, bHits: seq<Hit>, bAbsent: seq<Key>, bFailed: seq<Key>)
    requires Accounts(a, aHits, aAbsent, aFailed) && Accounts(b, bHits, bAbsent, bFailed)
    ensures Accounts(a + b, aHits + bHits, aAbsent + bAbsent, aFailed + bFailed)
  {
    assert HitKeys(aHits + bHits) == HitKeys(aHits) + HitKeys(bHits);
  }

  // What a request for these keys may have read.
  predicate IsRead(table: Table, keys: seq<Key>, hits: seq<Hit>, absent: seq<Key>, failed: seq<Key>) {
    Truthful(table, hits, absent) && Accounts(keys, hits, absent, failed)
  }

  // Other keys are requested next.
  lemma ReadOn(table: Table, a: seq<Key>, aHits: seq<Hit>, aAbsent: seq<Key>, aFailed: seq<Key>,
               b: seq<Key>, bHits: seq<Hit>, bAbsent: seq<Key>, bFailed: seq<Key>)
    requires IsRead(table, a, aHits, aAbsent, aFailed) && IsRead(table, b, bHits, bAbsent, bFailed)
    ensures IsRead(table, a + b, aHits + bHits, aAbsent + bAbsent, aFailed + bFailed)
  {
    TruthfulJoin(table, aHits, aAbsent, bHits, bAbsent);
    AccountsJoin(a, aHits, aAbsent, aFailed, b, bHits, bAbsent, bFailed);
  }

  lemma AccountsResubmit(a: seq<Key>, aHits: seq<Hit>, aAbsent: seq<Key>, left: seq<Key>,
                         bHits: seq<Hit>, bAbsent: seq<Key>, bLeft: seq<Key>)
    requires Accounts(a, aHits, aAbsent, left) && Accounts(left, bHits, bAbsent, bLeft)
    ensures Accounts(a, aHits + bHits, aAbsent + bAbsent, bLeft)
  {
    assert HitKeys(aHits + bHits) == HitKeys(aHits) + HitKeys(bHits);
  }

  lemma TruthfulJoin(table: Table, aHits: seq<Hit>, aAbsent: seq<Key>, bHits: seq<Hit>, bAbsent: seq<Key>)
    requires Truthful(table, aHits, aAbsent) && Truthful(table, bHits, bAbsent)
    ensures Truthful(table, aHits + bHits, aAbsent + bAbsent)
  {
  }

  // What was left unprocessed is requested again.
  lemma ReadAgain(table: Table, a: seq<Key>, aHits: seq<Hit>, aAbsent: seq<Key>, left: seq<Key>,
                  bHits: seq<Hit>, bAbsent: seq<Key>, bLeft: seq<Key>)
    requires IsRead(table, a, aHits, aAbsent, left) && IsRead(table, left, bHits, bAbsent, bLeft)
    ensures IsRead(table, a, aHits + bHits, aAbsent + bAbsent, bLeft)
  {
    TruthfulJoin(table, aHits, aAbsent, bHits, bAbsent);
    AccountsResubmit(a, aHits, aAbsent, left, bHits, bAbsent, bLeft);
  }

  // One more key is read, whatever becomes of it.
  lemma ReadOneMore(table: Table, keys: seq<Key>, i: nat, hits: seq<Hit>, absent: seq<Key>, left: seq<Key>)
    requires i < |keys| && IsRead(table, keys[..i], hits, absent, left)
    ensures IsRead(table, keys[..i + 1], hits, absent, left + [keys[i]])
    ensures keys[i] !in table ==> IsRead(table, keys[..i + 1], hits, absent + [keys[i]], left)
    ensures keys[i] in table ==> IsRead(table, keys[..i + 1], hits + [Hit(keys[i], table[keys[i]])], absent, left)
  {
    AccountsSnoc(keys, i, hits, absent, left);
  }

  // Up to three calls for one chunk; the response's unprocessed keys are those left after the third.
  method ReadChunk(service: ReadService, chunk: seq<Key>) returns (read: Result<Response>, ghost absent: seq<Key>)
    modifies service
    ensures read.Success? ==>
      && Distinct(chunk)
      && IsRead(service.table, chunk, read.value.hits, absent, read.value.unprocessed)
    ensures old(service.calls) < service.calls <= old(service.calls) + 3
    ensures read.Success? && read.value.unprocessed != [] ==> service.calls == old(service.calls) + 3
    ensures service.errors == old(service.errors) + if read.Failure? then 1 else 0
  {
    var hits: seq<Hit>, failed: seq<Key>, input := [], [], chunk;
    absent := [];
    ghost var left := chunk;
    assert HitKeys(hits) == [];
    for i := 0 to 3
      invariant input == left
      invariant Distinct(chunk) || (i == 0 && input == chunk)
      invariant IsRead(service.table, chunk, hits, absent, left)
      invariant failed == if i == 3 then left else []
      invariant service.calls == old(service.calls) + i && service.errors == old(service.errors)
    {
      var response, absentHere := service.BatchGetItem(input);
      if response.Failure? {
        return Failure, absent;
      }
      ReadAgain(service.table, chunk, hits, absent, left,
                response.value.hits, absentHere, response.value.unprocessed);
      hits := hits + response.value.hits;
      absent := absent + absentHere;
      left := response.value.unprocessed;
      if |response.value.unprocessed| > 0 {
        input := response.value.unprocessed;
        if i == 2 {
          failed := failed + response.value.unprocessed;
        }
      } else {
        break;
      }
    }
    return Success(Response(hits, failed)), absent;
  }

  // The first occurrence of every element, in order.
  function Dedup(raw: seq<RawItem>): seq<RawItem> {
    if raw == [] then []
    else
      var init, last := raw[..|raw| - 1], raw[|raw| - 1];
      Dedup(init) + if last in init then [] else [last]
  }

  lemma {:induction false} DedupMeans(raw: seq<RawItem>)
    ensures Distinct(Dedup(raw))
    ensures forall x :: x in Dedup(raw) <==> x in raw
  {
    if raw != [] {
      DedupMeans(raw[..|raw| - 1]);
    }
  }

  // Keys of the same chunk are different.
  predicate DistinctInChunks(keys: seq<Key>) {
    forall i, j | 0 <= i < j < |keys| && i / BATCH_SIZE == j / BATCH_SIZE :: keys[i] != keys[j]
  }

  lemma AddDistinctChunk(keys: seq<Key>, chunk: seq<Key>)
    requires |keys| % BATCH_SIZE == 0 && DistinctInChunks(keys) && Distinct(chunk)
    ensures DistinctInChunks(keys + chunk)
  {
    forall i, j | 0 <= i < j < |keys + chunk| && i / BATCH_SIZE == j / BATCH_SIZE
      ensures (keys + chunk)[i] != (keys + chunk)[j]
    {
      if i >= |keys| {
        assert chunk[i - |keys|] != chunk[j - |keys|];
      }
    }
  }

  datatype ReadReply = ReadRejected | ReadReport(hits: seq<Hit>, failed: seq<Key>)

  // The keys for the requested texts, each text once.
  predicate AreKeysOf(keys: seq<Key>, raw: seq<RawItem>, marshal: Preparation) {
    |keys| == |Dedup(raw)| && forall i | 0 <= i < |keys| :: marshal(Dedup(raw)[i]) == Some(keys[i])
  }

  // What a report for these keys can be.
  predicate IsReport(table: Table, keys: seq<Key>, hits: seq<Hit>, absent: seq<Key>, failed: seq<Key>) {
    DistinctInChunks(keys) && IsRead(table, keys, hits, absent, failed)
  }

  /**
   On a report, the distinct requested keys are exactly the returned ones, the ones found absent and the ones listed
   as failed, and every returned item is the table's. Key texts that differ may stand for the same key; the service
   refuses such keys only when they fall into the same chunk.
   */
  method BatchGetItems(service: ReadService, raw: seq<RawItem>, marshal: Preparation)
    returns (reply: ReadReply, ghost keys: seq<Key>, ghost absent: seq<Key>)
    modifies service
    ensures reply.ReadRejected? <==>
      raw == [] || (exists key :: key in raw && marshal(key).None?) || service.errors > old(service.errors)
    ensures raw == [] || (exists key :: key in raw && marshal(key).None?) ==> service.calls == old(service.calls)
    ensures reply.ReadReport? ==>
      AreKeysOf(keys, raw, marshal) && IsReport(service.table, keys, reply.hits, absent, reply.failed)
  {
    keys, absent := [], [];
    if |raw| == 0 {
      return ReadRejected, keys, absent;
    }
    var avKeys: seq<Key> := [];
    var seen: set<RawItem> := {};
    for i := 0 to |raw|
      invariant forall x :: x in seen <==> x in raw[..i]
      invariant |avKeys| == |Dedup(raw[..i])|
      invariant forall j | 0 <= j < |avKeys| :: marshal(Dedup(raw[..i])[j]) == Some(avKeys[j])
      invariant forall x | x in seen :: marshal(x).Some?
    {
      assert raw[..i + 1][..i] == raw[..i];
      if raw[i] in seen {
        continue;
      }
      seen := seen + {raw[i]};
      var marshalled := marshal(raw[i]);
      if marshalled.None? {
        return ReadRejected, keys, absent;
      }
      avKeys := avKeys + [marshalled.value];
    }
    assert raw[..|raw|] == raw;
    keys := avKeys;
    reply, absent := ReadAll(service, avKeys);
  }

  // All keys, chunk by chunk.
  method ReadAll(service: ReadService, keys: seq<Key>) returns (reply: ReadReply, ghost absent: seq<Key>)
    modifies service
    ensures reply.ReadReport? ==> IsReport(service.table, keys, reply.hits, absent, reply.failed)
    ensures reply.ReadRejected? <==> service.errors > old(service.errors)
    ensures reply.ReadReport? ==>
      old(service.calls) + (|keys| + 24) / 25 <= service.calls <= old(service.calls) + 3 * ((|keys| + 24) / 25)
  {
    var hits: seq<Hit>, failed: seq<Key> := [], [];
    absent := [];
    var start := 0;
    ghost var rounds := 0;
    assert HitKeys(hits) == [];
    while start < |keys|
      invariant start == 25 * rounds < |keys| + 25
      invariant service.errors == old(service.errors)
      invariant old(service.calls) + rounds <= service.calls <= old(service.calls) + 3 * rounds
      invariant DistinctInChunks(keys[..if start <= |keys| then start else |keys|])
      invariant IsRead(service.table, keys[..if start <= |keys| then start else |keys|], hits, absent, failed)
    {
      var end := start + BATCH_SIZE;
      if end > |keys| {
        end := |keys|;
      }
      var chunk := keys[start..end];
      var read, absentHere := ReadChunk(service, chunk);
      if read.Failure? {
        return ReadRejected, absent;
      }
      ReadOn(service.table, keys[..start], hits, absent, failed,
             chunk, read.value.hits, absentHere, read.value.unprocessed);
      assert keys[..end] == keys[..start] + chunk;
      AddDistinctChunk(keys[..start], chunk);
      hits := hits + read.value.hits;
      absent := absent + absentHere;
      failed := failed + read.value.unprocessed;
      start, rounds := start + BATCH_SIZE, rounds + 1;
    }
    assert keys[..|keys|] == keys;
    return ReadReport(hits, failed), absent;
  }

  /**
   As often as a key was requested and did not fail, it is returned if the table holds it, and found absent if not; so
   a key requested once ends in exactly one of the three groups.
   */
  lemma EachKeyOnce(table: Table, keys: seq<Key>, hits: seq<Hit>, absent: seq<Key>, failed: seq<Key>, key: Key)
    requires IsRead(table, keys, hits, absent, failed)
    ensures multiset(failed)[key] <= multiset(keys)[key]
    ensures multiset(HitKeys(hits))[key] == if key in table then multiset(keys)[key] - multiset(failed)[key] else 0
    ensures multiset(absent)[key] == if key in table then 0 else multiset(keys)[key] - multiset(failed)[key]
  {
    assert multiset(HitKeys(hits))[key] + multiset(absent)[key] + multiset(failed)[key] == multiset(keys)[key];
    assert key in absent <==> multiset(absent)[key] > 0;
    if key in HitKeys(hits) {
      var i :| 0 <= i < |hits| && HitKeys(hits)[i] == key;
      assert hits[i] in hits;
    }
  }

  // In one report no item comes twice if and only if no key of the table is left standing twice.
  lemma NoItemTwiceIff(table: Table, keys: seq<Key>, hits: seq<Hit>, absent: seq<Key>, failed: seq<Key>)
    requires IsRead(table, keys, hits, absent, failed)
    ensures Distinct(HitKeys(hits))
       <==> forall key | key in table :: multiset(keys)[key] <= 1 + multiset(failed)[key]
  {
    DistinctIffOnce(HitKeys(hits));
    forall key
      ensures multiset(HitKeys(hits))[key] <= 1
         <==> key in table ==> multiset(keys)[key] <= 1 + multiset(failed)[key]
    {
      EachKeyOnce(table, keys, hits, absent, failed, key);
    }
  }

  // The report in which nothing fails.
  lemma {:induction false} FullReport(table: Table, keys: seq<Key>) returns (hits: seq<Hit>, absent: seq<Key>)
    ensures IsRead(table, keys, hits, absent, [])
  {
    hits, absent := [], [];
    if keys == [] {
      assert HitKeys(hits) == [];
    } else {
      var key, rest := keys[0], keys[1..];
      var restHits, restAbsent := FullReport(table, rest);
      if key in table {
        hits := [Hit(key, table[key])];
        assert HitKeys(hits) == [key];
      } else {
        absent := [key];
        assert HitKeys(hits) == [];
      }
      ReadOn(table, [key], hits, absent, [], rest, restHits, restAbsent, []);
      assert keys == [key] + rest;
      hits, absent := hits + restHits, absent + restAbsent;
      var none: seq<Key> := [];
      assert none + none == none;
    }
  }

  /**
   The exact condition, in terms of the request alone, for no report to return an item twice: no key of the table
   stands behind two of the texts, or two such texts fall into one chunk, so that there is no report.
   */
  lemma ItemsComeOnceIff(table: Table, keys: seq<Key>)
    ensures (forall hits, absent, failed | IsReport(table, keys, hits, absent, failed) :: Distinct(HitKeys(hits)))
       <==> !DistinctInChunks(keys) || forall key | key in table :: multiset(keys)[key] <= 1
  {
    forall hits, absent, failed | IsReport(table, keys, hits, absent, failed)
      ensures (forall key | key in table :: multiset(keys)[key] <= 1) ==> Distinct(HitKeys(hits))
    {
      NoItemTwiceIff(table, keys, hits, absent, failed);
    }
    var hits, absent := FullReport(table, keys);
    NoItemTwiceIff(table, keys, hits, absent, []);
    if DistinctInChunks(keys) {
      assert IsReport(table, keys, hits, absent, []);
    }
  }

  lemma DistinctIffOnce(keys: seq<Key>)
    ensures Distinct(keys) <==> forall key :: multiset(keys)[key] <= 1
  {
    forall key | Distinct(keys)
      ensures multiset(keys)[key] <= 1
    {
      if key in keys {
        DistinctOnce(keys, key);
      }
    }
    if i, j :| 0 <= i < j < |keys| && keys[i] == keys[j] {
      RepeatedTwiceAt(keys, i, j);
    }
  }

  lemma RepeatedTwice(a: seq<Key>, b: seq<Key>, key: Key)
    requires key in a && key in b
    ensures multiset(a + b)[key] >= 2
  {
    assert key in multiset(a) && key in multiset(b);
  }

  // ----- A request whose report returns an item twice -----

  // The texts 0, 1, 11, 111 and so on.
  function NumberText(n: nat): RawItem {
    if n == 0 then "0" else seq(n, _ => '1')
  }

  // Keys with one numeric attribute; 0 and -0 are the same number.
  function NumberKey(text: RawItem): Option<Item> {
    Some(map[[1] := N(if text == "-0" then Ascii("0") else Ascii(text))])
  }

  function Ascii(text: string): Bytes {
    seq(|text|, i requires 0 <= i < |text| => if text[i] == '0' then 0x30 else 0x31)
  }

  function OtherTexts(): seq<RawItem> {
    seq(BATCH_SIZE - 1, i requires i >= 0 => NumberText(i + 1))
  }

  // The text 0, enough others to fill the chunk, and the text -0.
  function RepeatingTexts(): (raw: seq<RawItem>)
    ensures |raw| == BATCH_SIZE + 1
  {
    ["0"] + OtherTexts() + ["-0"]
  }

  function RepeatingKeys(): (keys: seq<Key>)
    ensures |keys| == BATCH_SIZE + 1
  {
    seq(BATCH_SIZE + 1, i requires 0 <= i < BATCH_SIZE + 1 => NumberKey(RepeatingTexts()[i]).value)
  }

  lemma NumberKeyIs(n: nat)
    ensures NumberText(n) != "-0" && NumberKey(NumberText(n)).value == map[[1] := N(Ascii(NumberText(n)))]
    ensures n == 0 ==> Ascii(NumberText(n)) == [0x30]
    ensures n > 0 ==> |Ascii(NumberText(n))| == n && Ascii(NumberText(n))[0] == 0x31
  {
    assert n > 0 ==> NumberText(n)[0] == '1';
  }

  lemma NumbersDiffer(m: nat, n: nat)
    requires m < n
    ensures NumberText(m) != NumberText(n)
    ensures NumberKey(NumberText(m)) != NumberKey(NumberText(n))
  {
    var name: Bytes := [1];
    NumberKeyIs(m);
    NumberKeyIs(n);
    var left, right := Ascii(NumberText(m)), Ascii(NumberText(n));
    assert left != right;
    assert NumberKey(NumberText(m)).value[name] == N(left) && NumberKey(NumberText(n)).value[name] == N(right);
  }

  lemma RepeatingTextAt(i: nat)
    requires i <= BATCH_SIZE
    ensures RepeatingTexts()[i] == if i < BATCH_SIZE then NumberText(i) else "-0"
  {
  }

  lemma RepeatingTextsDiffer(i: nat, j: nat)
    requires i < j <= BATCH_SIZE
    ensures RepeatingTexts()[i] != RepeatingTexts()[j]
    ensures j < BATCH_SIZE ==> RepeatingKeys()[i] != RepeatingKeys()[j]
  {
    RepeatingTextAt(i);
    RepeatingTextAt(j);
    if j < BATCH_SIZE {
      NumbersDiffer(i, j);
    } else {
      NumberKeyIs(i);
    }
  }

  lemma RepeatingTextsAreDistinct()
    ensures Distinct(RepeatingTexts())
  {
    forall i, j | 0 <= i < j < |RepeatingTexts()|
      ensures RepeatingTexts()[i] != RepeatingTexts()[j]
    {
      RepeatingTextsDiffer(i, j);
    }
  }

  lemma RepeatingKeysRepeat()
    ensures DistinctInChunks(RepeatingKeys())
    ensures RepeatingKeys()[0] == RepeatingKeys()[BATCH_SIZE] == NumberKey("0").value
  {
    forall i, j | 0 <= i < j < |RepeatingKeys()| && i / BATCH_SIZE == j / BATCH_SIZE
      ensures RepeatingKeys()[i] != RepeatingKeys()[j]
    {
      assert j < BATCH_SIZE;
      RepeatingTextsDiffer(i, j);
    }
    RepeatingTextAt(0);
    RepeatingTextAt(BATCH_SIZE);
  }

  lemma {:induction false} DedupOfDistinct(raw: seq<RawItem>)
    requires Distinct(raw)
    ensures Dedup(raw) == raw
  {
    if raw != [] {
      var init, last := raw[..|raw| - 1], raw[|raw| - 1];
      assert raw == init + [last];
      DistinctSplit(init, last);
      DedupOfDistinct(init);
    }
  }

  lemma DistinctSplit(init: seq<RawItem>, last: RawItem)
    requires Distinct(init + [last])
    ensures Distinct(init) && last !in init
  {
    var all := init + [last];
    assert forall i | 0 <= i < |init| :: init[i] == all[i] != all[|init|];
  }

  lemma RepeatedTwiceAt(keys: seq<Key>, i: nat, j: nat)
    requires i < j < |keys| && keys[i] == keys[j]
    ensures multiset(keys)[keys[i]] >= 2
  {
    RepeatedTwice(keys[..j], keys[j..], keys[j]);
    assert keys == keys[..j] + keys[j..];
    assert keys[..j][i] == keys[j];
  }

  // 26 texts, all different, for which there is a report that returns the item under the number 0 twice.
  lemma ItemReturnedTwice(table: Table)
    requires NumberKey("0").value in table
    ensures AreKeysOf(RepeatingKeys(), RepeatingTexts(), NumberKey)
    ensures exists hits, absent, failed ::
              IsReport(table, RepeatingKeys(), hits, absent, failed) && !Distinct(HitKeys(hits))
  {
    var raw, keys := RepeatingTexts(), RepeatingKeys();
    RepeatingTextsAreDistinct();
    RepeatingKeysRepeat();
    DedupOfDistinct(raw);
    RepeatedTwiceAt(keys, 0, BATCH_SIZE);
    ItemsComeOnceIff(table, keys);
  }

  lemma {:induction false} DistinctOnce(keys: seq<Key>, key: Key)
    requires Distinct(keys) && key in keys
    ensures multiset(keys)[key] == 1
  {
    var init, last := keys[..|keys| - 1], keys[|keys| - 1];
    assert keys == init + [last];
    if key in init {
      DistinctOnce(init, key);
    } else {
      assert key !in multiset(init);
    }
  }
}
