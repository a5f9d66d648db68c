/** The guardrail's item size estimate and the batch size check built on it. */
module SizeEstimate {

  type Bytes = seq<bv8>

  datatype AttributeValue =
    | S(text: Bytes)
    | N(digits: Bytes)
    | B(data: Bytes)
    | BOOL(truth: bool)
    | NULL(isNull: bool)
    | SS(texts: seq<Bytes>)
    | NS(numbers: seq<Bytes>)
    | BS(blobs: seq<Bytes>)
    | L(elements: seq<AttributeValue>)
    | M(fields: map<Bytes, AttributeValue>)
    | Unknown   // a union member the client library does not know

  type Item = map<Bytes, AttributeValue>

  // ----- The size as a function -----

  function TotalLength(pieces: seq<Bytes>): nat {
    if pieces == [] then 0 else |pieces[0]| + TotalLength(pieces[1..])
  }

  ghost function ValueSize(v: AttributeValue): nat
    decreases v, 1, 0
  {
    match v
    case S(text) => |text|
    case N(digits) => |digits|
    case B(data) => |data|
    case BOOL(_) => 1
    case NULL(_) => 1
    case SS(texts) => TotalLength(texts)
    case NS(numbers) => TotalLength(numbers)
    case BS(blobs) => TotalLength(blobs)
    case L(elements) => ListSize(elements)
    case M(fields) => FieldsSize(v, fields.Keys)
    case Unknown => 0
  }

  ghost function ListSize(vs: seq<AttributeValue>): nat
    decreases vs, 0, 0
  {
    if vs == [] then 0 else ValueSize(vs[0]) + ListSize(vs[1..])
  }

  // The part of a map value's size that is due to these of its keys, taken in some order.
  ghost function FieldsSize(v: AttributeValue, keys: set<Bytes>): nat
    requires v.M? && keys <= v.fields.Keys
    decreases v, 0, |keys|
  {
    if keys == {} then 0
    else
      var k :| k in keys;
      |k| + ValueSize(v.fields[k]) + FieldsSize(v, keys - {k})
  }

  ghost function ItemSize(item: Item): nat {
    FieldsSize(M(item), item.Keys)
  }

  // Any key may come first.
  lemma {:induction false} TakeKey(v: AttributeValue, keys: set<Bytes>, k: Bytes)
    requires v.M? && keys <= v.fields.Keys && k in keys
    ensures FieldsSize(v, keys) == |k| + ValueSize(v.fields[k]) + FieldsSize(v, keys - {k})
    decreases |keys|
  {
    var first :| first in keys && FieldsSize(v, keys)
      == |first| + ValueSize(v.fields[first]) + FieldsSize(v, keys - {first});
    if first != k {
      TakeKey(v, keys - {first}, k);
      TakeKey(v, keys - {k}, first);
      assert keys - {first} - {k} == keys - {k} - {first};
    }
  }

  lemma {:induction false} ListSizeSnoc(vs: seq<AttributeValue>, v: AttributeValue)
    ensures ListSize(vs + [v]) == ListSize(vs) + ValueSize(v)
  {
    if vs == [] {
      assert [v][1..] == [];
    } else {
      ListSizeSnoc(vs[1..], v);
      assert (vs + [v])[1..] == vs[1..] + [v];
    }
  }

  lemma {:induction false} TotalLengthConcat(a: seq<Bytes>, b: seq<Bytes>)
    ensures TotalLength(a + b) == TotalLength(a) + TotalLength(b)
  {
    if a == [] {
      assert a + b == b;
    } else {
      TotalLengthConcat(a[1..], b);
      assert (a + b)[1..] == a[1..] + b;
    }
  }

  // ----- The estimator's loops, over maps in whatever order they are walked -----

  method CalculateSize(key: Bytes, value: AttributeValue) returns (size: nat)
    ensures size == |key| + ValueSize(value)
    ensures value.S? ==> size == |key| + |value.text|
    ensures value.N? ==> size == |key| + |value.digits|
    ensures value.B? ==> size == |key| + |value.data|
    ensures value.BOOL? || value.NULL? ==> size == |key| + 1
    ensures value.Unknown? ==> size == |key|
    decreases value, 1
  {
    size := |key|;
    match value {
      case S(text) => size := size + |text|;
      case N(digits) => size := size + |digits|;
      case B(data) => size := size + |data|;
      case BOOL(_) => size := size + 1;
      case NULL(_) => size := size + 1;
      case SS(texts) => var sum := SumLengths(texts); size := size + sum;
      case NS(numbers) => var sum := SumLengths(numbers); size := size + sum;
      case BS(blobs) => var sum := SumLengths(blobs); size := size + sum;
      case L(elements) =>
        for i := 0 to |elements|
          invariant size == |key| + ListSize(elements[..i])
        {
          var elementSize := CalculateSize([], elements[i]);
          size := size + elementSize;
          ListSizeSnoc(elements[..i], elements[i]);
          assert elements[..i + 1] == elements[..i] + [elements[i]];
        }
        assert elements[..|elements|] == elements;
      case M(fields) =>
        var nested := GetEstimatedSize(fields, value);
        size := size + nested;
      case Unknown =>
    }
  }

  method SumLengths(pieces: seq<Bytes>) returns (size: nat)
    ensures size == TotalLength(pieces)
  {
    size := 0;
    for i := 0 to |pieces|
      invariant size == TotalLength(pieces[..i])
    {
      size := size + |pieces[i]|;
      TotalLengthConcat(pieces[..i], [pieces[i]]);
      assert pieces[..i + 1] == pieces[..i] + [pieces[i]];
      assert [pieces[i]][1..] == [];
    }
    assert pieces[..|pieces|] == pieces;
  }

  method GetEstimatedSize(item: Item, ghost whole: AttributeValue) returns (size: nat)
    requires whole == M(item)
    ensures size == ItemSize(item)
    decreases whole, 0
  {
    size := 0;
    var keys := item.Keys;
    while keys != {}
      invariant keys <= item.Keys
      invariant size + FieldsSize(whole, keys) == ItemSize(item)
      decreases |keys|
    {
      var key :| key in keys;
      var fieldSize := CalculateSize(key, item[key]);
      size := size + fieldSize;
      TakeKey(whole, keys, key);
      keys := keys - {key};
    }
  }

  // ----- An independent reading: walk the value in any order and add up the pieces met -----

  function Concat(parts: seq<seq<Bytes>>): seq<Bytes> {
    if parts == [] then [] else parts[0] + Concat(parts[1..])
  }

  predicate Enumerates(order: seq<Bytes>, keys: set<Bytes>) {
    (set k | k in order) == keys && forall i, j | 0 <= i < j < |order| :: order[i] != order[j]
  }

  /**
   The pieces, keys and leaves, met by some walk of the value: a list is walked in order, a map in any order of its
   keys, chosen anew at every level.
   */
  ghost predicate IsWalk(v: AttributeValue, pieces: seq<Bytes>)
    decreases v, 1
  {
    match v
    case S(text) => pieces == [text]
    case N(digits) => pieces == [digits]
    case B(data) => pieces == [data]
    case BOOL(b) => pieces == [[if b then 1 else 0]]
    case NULL(b) => pieces == [[if b then 1 else 0]]
    case SS(texts) => pieces == texts
    case NS(numbers) => pieces == numbers
    case BS(blobs) => pieces == blobs
    case L(elements) =>
      exists parts: seq<seq<Bytes>> ::
        |parts| == |elements| && (forall i | 0 <= i < |parts| :: IsWalk(elements[i], parts[i]))
        && pieces == Concat(parts)
    case M(fields) =>
      exists order: seq<Bytes>, parts: seq<seq<Bytes>> ::
        Enumerates(order, fields.Keys) && AreFieldWalks(v, order, parts) && pieces == order + Concat(parts)
    case Unknown => pieces == []
  }

  // These parts are walks of the fields under these keys.
  ghost predicate AreFieldWalks(v: AttributeValue, order: seq<Bytes>, parts: seq<seq<Bytes>>)
    requires v.M?
    decreases v, 0
  {
    |parts| == |order| && forall i | 0 <= i < |parts| :: order[i] in v.fields && IsWalk(v.fields[order[i]], parts[i])
  }

  // Every walk, whatever the orders chosen, adds up to the estimate.
  lemma {:induction false} WalkAddsUp(v: AttributeValue, pieces: seq<Bytes>)
    requires IsWalk(v, pieces)
    ensures TotalLength(pieces) == ValueSize(v)
    decreases v, 1
  {
    match v
    case L(_) => ListWalkAddsUp(v, pieces);
    case M(_) => MapWalkAddsUp(v, pieces);
    case _ =>
  }

  lemma {:induction false} ListWalkAddsUp(v: AttributeValue, pieces: seq<Bytes>)
    requires v.L? && IsWalk(v, pieces)
    ensures TotalLength(pieces) == ValueSize(v)
    decreases v, 0
  {
    var parts: seq<seq<Bytes>> :| |parts| == |v.elements|
      && (forall i | 0 <= i < |parts| :: IsWalk(v.elements[i], parts[i])) && pieces == Concat(parts);
    forall i | 0 <= i < |parts|
      ensures TotalLength(parts[i]) == ValueSize(v.elements[i])
    {
      WalkAddsUp(v.elements[i], parts[i]);
    }
    ListParts(v.elements, parts);
  }

  lemma {:induction false} MapWalkAddsUp(v: AttributeValue, pieces: seq<Bytes>)
    requires v.M? && IsWalk(v, pieces)
    ensures TotalLength(pieces) == ValueSize(v)
    decreases v, 0, 1
  {
    var order: seq<Bytes>, parts: seq<seq<Bytes>> :|
      Enumerates(order, v.fields.Keys) && AreFieldWalks(v, order, parts) && pieces == order + Concat(parts);
    FieldWalksAddUp(v, order, parts);
    FieldParts(v, v.fields.Keys, order, parts);
    TotalLengthConcat(order, Concat(parts));
  }

  lemma {:induction false} FieldWalksAddUp(v: AttributeValue, order: seq<Bytes>, parts: seq<seq<Bytes>>)
    requires v.M? && AreFieldWalks(v, order, parts)
    ensures HaveSizes(v, order, parts)
    decreases v, 0, 0
  {
    forall i | 0 <= i < |parts|
      ensures TotalLength(parts[i]) == ValueSize(v.fields[order[i]])
    {
      WalkAddsUp(v.fields[order[i]], parts[i]);
    }
  }

  // These parts are as long as the fields under these keys are large.
  ghost predicate HaveSizes(v: AttributeValue, order: seq<Bytes>, parts: seq<seq<Bytes>>)
    requires v.M?
  {
    |parts| == |order|
    && forall i | 0 <= i < |parts| :: order[i] in v.fields && TotalLength(parts[i]) == ValueSize(v.fields[order[i]])
  }

  lemma {:induction false} ListParts(vs: seq<AttributeValue>, parts: seq<seq<Bytes>>)
    requires |parts| == |vs| && forall i | 0 <= i < |parts| :: TotalLength(parts[i]) == ValueSize(vs[i])
    ensures TotalLength(Concat(parts)) == ListSize(vs)
  {
    if parts != [] {
      ListParts(vs[1..], parts[1..]);
      TotalLengthConcat(parts[0], Concat(parts[1..]));
    }
  }

  lemma EnumeratesTail(k: Bytes, rest: seq<Bytes>, keys: set<Bytes>)
    requires Enumerates([k] + rest, keys)
    ensures k in keys && Enumerates(rest, keys - {k})
  {
    var order := [k] + rest;
    assert forall i | 0 <= i < |rest| :: rest[i] == order[i + 1] != order[0];
    assert forall x :: x in order <==> x == k || x in rest;
  }

  lemma EnumeratesCons(k: Bytes, rest: seq<Bytes>, keys: set<Bytes>)
    requires k in keys && Enumerates(rest, keys - {k})
    ensures Enumerates([k] + rest, keys)
  {
    var order := [k] + rest;
    assert k !in rest;
    assert (set x | x in order) == {k} + (set x | x in rest);
  }

  lemma {:induction false} FieldParts(v: AttributeValue, keys: set<Bytes>, order: seq<Bytes>, parts: seq<seq<Bytes>>)
    requires v.M? && keys <= v.fields.Keys && Enumerates(order, keys) && HaveSizes(v, order, parts)
    ensures TotalLength(order) + TotalLength(Concat(parts)) == FieldsSize(v, keys)
    decreases |order|
  {
    if order == [] {
      assert keys == {};
    } else {
      var k, rest := order[0], order[1..];
      assert order == [k] + rest;
      EnumeratesTail(k, rest, keys);
      TakeKey(v, keys, k);
      FieldParts(v, keys - {k}, rest, parts[1..]);
      TotalLengthConcat(parts[0], Concat(parts[1..]));
    }
  }

  // Every value can be walked.
  lemma {:induction false} WalkExists(v: AttributeValue) returns (pieces: seq<Bytes>)
    ensures IsWalk(v, pieces)
    decreases v, 1, 0
  {
    match v
    case S(text) => pieces := [text];
    case N(digits) => pieces := [digits];
    case B(data) => pieces := [data];
    case BOOL(b) => pieces := [[if b then 1 else 0]];
    case NULL(b) => pieces := [[if b then 1 else 0]];
    case SS(texts) => pieces := texts;
    case NS(numbers) => pieces := numbers;
    case BS(blobs) => pieces := blobs;
    case L(elements) =>
      var parts := ListWalks(elements);
      pieces := Concat(parts);
    case M(fields) =>
      var order, parts := FieldWalks(v, fields.Keys);
      pieces := order + Concat(parts);
    case Unknown => pieces := [];
  }

  lemma {:induction false} ListWalks(vs: seq<AttributeValue>) returns (parts: seq<seq<Bytes>>)
    ensures |parts| == |vs| && forall i | 0 <= i < |parts| :: IsWalk(vs[i], parts[i])
    decreases vs, 0, 0
  {
    parts := [];
    if vs != [] {
      var first := WalkExists(vs[0]);
      var rest := ListWalks(vs[1..]);
      parts := [first] + rest;
    }
  }

  lemma FieldWalksCons(v: AttributeValue, k: Bytes, first: seq<Bytes>, order: seq<Bytes>, parts: seq<seq<Bytes>>)
    requires v.M? && k in v.fields && IsWalk(v.fields[k], first) && AreFieldWalks(v, order, parts)
    ensures AreFieldWalks(v, [k] + order, [first] + parts)
  {
  }

  lemma {:induction false} FieldWalks(v: AttributeValue, keys: set<Bytes>)
    returns (order: seq<Bytes>, parts: seq<seq<Bytes>>)
    requires v.M? && keys <= v.fields.Keys
    ensures Enumerates(order, keys) && AreFieldWalks(v, order, parts)
    decreases v, 0, |keys|
  {
    order, parts := [], [];
    if keys != {} {
      var k :| k in keys;
      var first := WalkExists(v.fields[k]);
      var restOrder, rest := FieldWalks(v, keys - {k});
      EnumeratesCons(k, restOrder, keys);
      FieldWalksCons(v, k, first, restOrder, rest);
      order, parts := [k] + restOrder, [first] + rest;
    }
  }

  // ----- Additivity -----

  lemma {:induction false} FieldsSizeCongruent(v: AttributeValue, w: AttributeValue, keys: set<Bytes>)
    requires v.M? && w.M? && keys <= v.fields.Keys && keys <= w.fields.Keys
    requires forall k | k in keys :: v.fields[k] == w.fields[k]
    ensures FieldsSize(v, keys) == FieldsSize(w, keys)
    decreases |keys|
  {
    if keys != {} {
      var k :| k in keys;
      TakeKey(v, keys, k);
      TakeKey(w, keys, k);
      FieldsSizeCongruent(v, w, keys - {k});
    }
  }

  lemma {:induction false} FieldsSizeUnion(v: AttributeValue, a: set<Bytes>, b: set<Bytes>)
    requires v.M? && a !! b && a + b <= v.fields.Keys
    ensures FieldsSize(v, a + b) == FieldsSize(v, a) + FieldsSize(v, b)
    decreases |a|
  {
    if a == {} {
      assert a + b == b;
    } else {
      var k :| k in a;
      TakeKey(v, a + b, k);
      TakeKey(v, a, k);
      assert a + b - {k} == (a - {k}) + b;
      FieldsSizeUnion(v, a - {k}, b);
    }
  }

  lemma SizeIsAdditive(a: Item, b: Item)
    requires a.Keys !! b.Keys
    ensures ItemSize(a + b) == ItemSize(a) + ItemSize(b)
  {
    assert (a + b).Keys == a.Keys + b.Keys;
    FieldsSizeUnion(M(a + b), a.Keys, b.Keys);
    FieldsSizeCongruent(M(a + b), M(a), a.Keys);
    FieldsSizeCongruent(M(a + b), M(b), b.Keys);
  }

  // ----- The batch check -----

  const MAX_INDIVIDUAL_SIZE: nat := 400 * 1024
  const MAX_BATCH_SIZE: nat := 16 * 1024 * 1024

  datatype WriteRequest = PutRequest(item: Item) | DeleteRequest(key: Item) | EmptyRequest

  datatype BatchCheck = Fits | ItemTooLarge | BatchTooLarge

  ghost function RequestSize(request: WriteRequest): nat {
    match request
    case PutRequest(item) => ItemSize(item)
    case DeleteRequest(key) => ItemSize(key)
    case EmptyRequest => 0
  }

  ghost function BatchSize(requests: seq<WriteRequest>): nat {
    if requests == [] then 0 else BatchSize(requests[..|requests| - 1]) + RequestSize(requests[|requests| - 1])
  }

  ghost predicate EachFits(requests: seq<WriteRequest>) {
    forall i | 0 <= i < |requests| :: RequestSize(requests[i]) <= MAX_INDIVIDUAL_SIZE
  }

  ghost function CheckOf(requests: seq<WriteRequest>): BatchCheck {
    if !EachFits(requests) then ItemTooLarge
    else if BatchSize(requests) > MAX_BATCH_SIZE then BatchTooLarge
    else Fits
  }

  method ValidateBatchSize(requests: seq<WriteRequest>) returns (check: BatchCheck)
    ensures check == CheckOf(requests)
    ensures check == ItemTooLarge <==> exists i :: 0 <= i < |requests| && RequestSize(requests[i]) > 409600
    ensures check == BatchTooLarge <==> check != ItemTooLarge && BatchSize(requests) > 16777216
  {
    var batchSize := 0;
    for i := 0 to |requests|
      invariant batchSize == BatchSize(requests[..i])
      invariant EachFits(requests[..i])
    {
      var size := 0;
      match requests[i] {
        case PutRequest(item) => size := GetEstimatedSize(item, M(item));
        case DeleteRequest(key) => size := GetEstimatedSize(key, M(key));
        case EmptyRequest =>
      }
      if size > MAX_INDIVIDUAL_SIZE {
        return ItemTooLarge;
      }
      batchSize := batchSize + size;
      assert requests[..i + 1][..i] == requests[..i];
    }
    assert requests[..|requests|] == requests;
    if batchSize > MAX_BATCH_SIZE {
      return BatchTooLarge;
    }
    return Fits;
  }

  lemma {:induction false} BatchSizeBound(requests: seq<WriteRequest>)
    requires EachFits(requests)
    ensures BatchSize(requests) <= |requests| * MAX_INDIVIDUAL_SIZE
  {
    if requests != [] {
      BatchSizeBound(requests[..|requests| - 1]);
    }
  }

  // The number of requests below which the batch limit cannot be what fails.
  const MAX_SAFE_REQUESTS: nat := 40

  // An item of n bytes.
  function ItemOf(n: nat): Item
    requires n > 0
  {
    map[[1] := B(seq(n - 1, _ => 0))]
  }

  lemma ItemOfSize(n: nat)
    requires n > 0
    ensures ItemSize(ItemOf(n)) == n
  {
    var item := ItemOf(n);
    var key: Bytes := [1];
    assert item.Keys == {key};
    TakeKey(M(item), {key}, key);
    assert {key} - {key} == {};
  }

  // The individual limit is 409600 bytes, that many being allowed, for puts and deletions alike.
  lemma LimitIsExact(n: nat)
    requires n > 0
    ensures n <= 409600 <==> CheckOf([PutRequest(ItemOf(n))]) == Fits
    ensures n <= 409600 <==> CheckOf([DeleteRequest(ItemOf(n))]) == Fits
  {
    ItemOfSize(n);
    OneRequest(PutRequest(ItemOf(n)));
    OneRequest(DeleteRequest(ItemOf(n)));
  }

  lemma OneRequest(request: WriteRequest)
    ensures BatchSize([request]) == RequestSize(request)
    ensures EachFits([request]) <==> RequestSize(request) <= MAX_INDIVIDUAL_SIZE
  {
    var one, none: seq<WriteRequest> := [request], [];
    assert one[..|one| - 1] == none;
    assert one[0] == request;
  }

  // Among n copies of a request of exactly the individual limit.
  function FullItem(): Item {
    ItemOf(MAX_INDIVIDUAL_SIZE)
  }

  lemma {:induction false} FullBatchSize(n: nat)
    ensures var requests := seq(n, _ => PutRequest(FullItem()));
            EachFits(requests) && BatchSize(requests) == n * MAX_INDIVIDUAL_SIZE
  {
    ItemOfSize(MAX_INDIVIDUAL_SIZE);
    if n > 0 {
      FullBatchSize(n - 1);
      var requests := seq(n, _ => PutRequest(FullItem()));
      assert requests[..n - 1] == seq(n - 1, _ => PutRequest(FullItem()));
    }
  }

  // The 16 MB error is out of reach for batches of n requests exactly when n is at most 40.
  lemma BatchErrorUnreachableIff(n: nat)
    ensures n <= MAX_SAFE_REQUESTS
       <==> forall requests: seq<WriteRequest> | |requests| == n :: CheckOf(requests) != BatchTooLarge
  {
    if n <= MAX_SAFE_REQUESTS {
      forall requests: seq<WriteRequest> | |requests| == n
        ensures CheckOf(requests) != BatchTooLarge
      {
        if EachFits(requests) {
          BatchSizeBound(requests);
        }
      }
    } else {
      FullBatchSize(n);
      var requests := seq(n, _ => PutRequest(FullItem()));
      assert |requests| == n && CheckOf(requests) == BatchTooLarge;
    }
  }
}
