/** From risk findings to reasons, to a level, to a call that is blocked or let through. */
module RiskGate {
  import opened Outcomes
  import opened SizeEstimate
  import opened Text

  datatype RiskLevel = Low | Medium | High | Critical

  function Rank(level: RiskLevel): nat {
    match level
    case Low => 0
    case Medium => 1
    case High => 2
    case Critical => 3
  }

  // The two fields of an assessment that the gate reads.
  datatype Assessment = Assessment(level: RiskLevel, reason: string)

  // strings.Join(reasons, "; ")
  function Join(reasons: seq<string>): string {
    if reasons == [] then ""
    else if |reasons| == 1 then reasons[0]
    else reasons[0] + "; " + Join(reasons[1..])
  }

  function GetRiskLevel(reasons: seq<string>): RiskLevel {
    if |reasons| >= 2 then High else if |reasons| > 0 then Medium else Low
  }

  // One reason is medium, two are high.
  lemma LevelsByCount(reasons: seq<string>)
    ensures |reasons| == 0 ==> GetRiskLevel(reasons) == Low
    ensures |reasons| == 1 ==> GetRiskLevel(reasons) == Medium
    ensures |reasons| >= 2 ==> GetRiskLevel(reasons) == High
  {
  }

  predicate NamesProtection(reason: string) {
    Contains(reason, "readonly") || Contains(reason, "protectedTable")
  }

  predicate AnyNamesProtection(reasons: seq<string>) {
    exists i :: 0 <= i < |reasons| && NamesProtection(reasons[i])
  }

  function EscalatedLevel(reasons: seq<string>): RiskLevel {
    if AnyNamesProtection(reasons) then High else GetRiskLevel(reasons)
  }

  lemma ProtectionStaysNamed(a: seq<string>, b: seq<string>)
    requires AnyNamesProtection(a) || AnyNamesProtection(b)
    ensures AnyNamesProtection(a + b)
  {
    if i :| 0 <= i < |a| && NamesProtection(a[i]) {
      assert (a + b)[i] == a[i];
    } else {
      var j :| 0 <= j < |b| && NamesProtection(b[j]);
      assert (a + b)[|a| + j] == b[j];
    }
  }

  method EscalatedRiskLevel(reasons: seq<string>) returns (level: RiskLevel)
    ensures level == EscalatedLevel(reasons)
    ensures level == High <==>
      |reasons| >= 2 || exists i :: 0 <= i < |reasons|
                          && (Contains(reasons[i], "readonly") || Contains(reasons[i], "protectedTable"))
    ensures level == Low <==> reasons == []
  {
    level := GetRiskLevel(reasons);
    for i := 0 to |reasons|
      invariant level == GetRiskLevel(reasons)
      invariant forall j | 0 <= j < i :: !NamesProtection(reasons[j])
    {
      if NamesProtection(reasons[i]) {
        level := High;
        break;
      }
    }
  }

  // An added reason, wherever it is added, never lowers either level; escalation never goes below the base level.
  lemma AddingReasonNeverLowers(before: seq<string>, reason: string, after: seq<string>)
    ensures Rank(GetRiskLevel(before + after)) <= Rank(GetRiskLevel(before + [reason] + after))
    ensures Rank(EscalatedLevel(before + after)) <= Rank(EscalatedLevel(before + [reason] + after))
    ensures Rank(GetRiskLevel(before + after)) <= Rank(EscalatedLevel(before + after)) <= Rank(High)
  {
    var less, more := before + after, before + [reason] + after;
    if AnyNamesProtection(less) {
      var i :| 0 <= i < |less| && NamesProtection(less[i]);
      var j := if i < |before| then i else i + 1;
      assert more[j] == less[i];
    }
  }

  // The joined text is empty for no reason at all and for a single empty one, and for nothing else.
  lemma JoinEmptyIff(reasons: seq<string>)
    ensures Join(reasons) == "" <==> reasons == [] || reasons == [""]
  {
    if |reasons| >= 2 {
      assert Join(reasons)[|reasons[0]|] == ';';
    } else if |reasons| == 1 {
      assert reasons == [reasons[0]];
    }
  }

  // ----- The analyzers -----

  datatype Protection = Protection(readOnly: bool, isProtected: bool)

  // What the guardrail finds out about one item.
  datatype ItemFacts = ItemFacts(size: nat, schemaError: Option<string>, sensitive: seq<string>, pii: seq<string>)

  datatype KeyEntry = KeyEntry(attributeName: Option<string>, keyType: Option<string>)
  datatype AttributeEntry = AttributeEntry(attributeName: Option<string>, attributeType: Option<string>)
  datatype GsiEntry = GsiEntry(partitionKey: Option<string>, projectionType: Option<string>)

  datatype TableFacts = TableFacts(sizeBytes: nat, provisioned: bool)

  /**
   The requests with an analyzer of their own, with what parsing, marshalling and reading the database gave them: a
   Failure is an error of that step. A key of a batch delete comes with the estimated size of the item it names, 0 if
   there is none, and `db` is None without a database.
   */
  datatype Request =
    | ScanTable(table: Result<Option<TableFacts>>)
    | BatchDeleteItems(protection: Protection, keys: seq<Result<nat>>, db: Option<DbReads>)
    | BatchGetItems(keySizes: seq<Result<nat>>)
    | BatchPutItems(protection: Protection, items: seq<Result<ItemFacts>>)
    | DeleteOne(protection: Protection)
    | UpdateTable(protection: Protection, readCapacity: Option<real>, writeCapacity: Option<real>)
    | PutItem(protection: Protection, fieldCount: nat, item: Result<ItemFacts>)
    | UpdateItem(protection: Protection, values: Result<ItemFacts>, currentPii: Result<seq<string>>,
                 currentSize: Result<Option<nat>>, expression: string)
    | CreateTable(keySchema: seq<KeyEntry>, attributes: seq<AttributeEntry>, gsis: seq<GsiEntry>)
    | OtherTool

  // The configuration's loader replaces a count that is not positive.
  type Positive = n: int | n > 0 witness 1

  datatype Thresholds = Thresholds(
    tableSizeMB: real, scanCostUSD: real, batchDeleteCount: int, batchGetCount: Positive, batchPutCount: int,
    updateExpressionDepth: int, maxThroughputIncrease: int, isHotKey: string -> bool)

  /**
   How the database answers the reads of a batch delete's analysis: whether the k-th request fails, and whether the
   item of the i-th key comes back. What a request leaves unprocessed does not.
   */
  datatype DbReads = DbReads(fails: nat -> bool, served: nat -> bool)

  function Ceiling(size: nat, page: nat): nat
    requires page > 0
  {
    (size + page - 1) / page
  }

  function ToMB(bytes: nat): real {
    bytes as real / 1048576.0
  }

  // Eventually consistent reads of the whole table at 0.125 dollars a million.
  function ReadCost(table: TableFacts): real {
    if table.provisioned then 0.0
    else Ceiling(table.sizeBytes, 4096) as real * 0.5 * 0.125 / 1000000.0
  }

  function WriteUnits(size: nat): nat {
    if Ceiling(size, 1024) < 1 then 1 else Ceiling(size, 1024)
  }

  // Twice the read units of an eventually consistent read, which come in halves.
  function HalfReadUnits(size: nat): nat {
    if Ceiling(size, 4096) < 1 then 1 else Ceiling(size, 4096)
  }

  // Started kilobytes are charged in full, one unit at least; reads are charged by started pages of four kilobytes.
  lemma UnitsAreStartedPages(size: nat, n: nat)
    requires n >= 1
    ensures (n - 1) * 1024 < size <= n * 1024 ==> WriteUnits(size) == n
    ensures (n - 1) * 4096 < size <= n * 4096 ==> HalfReadUnits(size) == n
    ensures WriteUnits(0) == HalfReadUnits(0) == 1
  {
  }

  // A scan of n full pages costs n times half of 0.125 millionths of a dollar, unless the table is provisioned.
  lemma ScanPrice(n: nat)
    ensures ReadCost(TableFacts(n * 4096, false)) == n as real * 0.0000000625
    ensures n > 0 ==> ReadCost(TableFacts(n * 4096 - 4095, false)) == n as real * 0.0000000625
    ensures ReadCost(TableFacts(n, true)) == 0.0
    ensures ToMB(n * 1048576) == n as real
  {
    assert Ceiling(n * 4096, 4096) == n;
    assert n > 0 ==> Ceiling(n * 4096 - 4095, 4096) == n;
  }

  function Sum(f: nat -> nat, sizes: seq<nat>): nat {
    if sizes == [] then 0 else Sum(f, sizes[..|sizes| - 1]) + f(sizes[|sizes| - 1])
  }

  function Same(size: nat): nat {
    size
  }

  // The sizes of the items that came back.
  function FoundSize(sizes: seq<nat>, served: nat -> bool): nat {
    if sizes == [] then 0
    else
      var last := |sizes| - 1;
      FoundSize(sizes[..last], served) + if served(last) then sizes[last] else 0
  }

  // The k-th request is made, and fails.
  predicate FailsAt(fails: nat -> bool, k: nat, chunk: Positive, keyCount: nat) {
    k * chunk < keyCount && fails(k)
  }

  predicate ReadFails(db: Option<DbReads>, chunk: Positive, keyCount: nat) {
    db.Some? && exists k: nat :: k <= keyCount && FailsAt(db.value.fails, k, chunk, keyCount)
  }

  function FoundTotal(sizes: seq<nat>, db: Option<DbReads>): nat {
    if db.None? then 0 else FoundSize(sizes, db.value.served)
  }

  // The requests' chunks do not matter to the total.
  method GetBatchFromDB(sizes: seq<nat>, chunk: Positive, db: Option<DbReads>) returns (total: Result<nat>)
    ensures total.Failure? <==> ReadFails(db, chunk, |sizes|)
    ensures total.Success? ==> total.value == FoundTotal(sizes, db)
  {
    if db.None? {
      return Success(0);
    }
    var size, i := 0, 0;
    var k: nat := 0;
    while i < |sizes|
      invariant i == k * chunk && k <= i
      invariant forall j: nat | j < k :: !db.value.fails(j)
      invariant size == FoundSize(sizes[..if i < |sizes| then i else |sizes|], db.value.served)
    {
      var end := i + chunk;
      if end > |sizes| {
        end := |sizes|;
      }
      if db.value.fails(k) {
        assert FailsAt(db.value.fails, k, chunk, |sizes|);
        return Failure;
      }
      for j := i to end
        invariant size == FoundSize(sizes[..j], db.value.served)
      {
        assert sizes[..j + 1][..j] == sizes[..j];
        if db.value.served(j) {
          size := size + sizes[j];
        }
      }
      i := i + chunk;
      k := k + 1;
    }
    NoRequestAfter(k, chunk, |sizes|);
    assert sizes[..|sizes|] == sizes;
    return Success(size);
  }

  lemma NoRequestAfter(k: nat, chunk: Positive, keyCount: nat)
    requires k * chunk >= keyCount
    ensures forall j: nat :: j * chunk < keyCount ==> j < k
  {
    forall j: nat | j >= k
      ensures j * chunk >= keyCount
    {
      assert (j - k) * chunk >= 0 && j * chunk == k * chunk + (j - k) * chunk;
    }
  }

  /**
   The size check never overstates what a batch delete removes, and is exact if and only if every item came back:
   keys that the database leaves unprocessed are not asked for again.
   */
  lemma {:induction false} FoundSizeIsExactIff(sizes: seq<nat>, served: nat -> bool)
    ensures FoundSize(sizes, served) <= Sum(Same, sizes)
    ensures FoundSize(sizes, served) == Sum(Same, sizes)
       <==> forall i | 0 <= i < |sizes| && sizes[i] > 0 :: served(i)
  {
    if sizes != [] {
      var last := |sizes| - 1;
      FoundSizeIsExactIff(sizes[..last], served);
      assert forall i | 0 <= i < last :: sizes[..last][i] == sizes[i];
    }
  }

  // ----- The update expression -----

  const CLAUSES := ["SET", "ADD", "REMOVE", "DELETE"]

  predicate UsesClause(expression: string, clause: string) {
    HasAt(expression, clause, 0) || Contains(expression, " " + clause)
  }

  // The clauses used, of the first n, by their index.
  function ClausesUsed(expression: string, n: nat): set<nat>
    requires n <= |CLAUSES|
  {
    set j: nat | j < n && UsesClause(expression, CLAUSES[j])
  }

  // Every further clause counts as an action, and so does every comma.
  predicate ExpressionClean(expression: string, depth: int) {
    var trimmed := Trim(expression);
    var used := ClausesUsed(trimmed, |CLAUSES|);
    used != {} && CountOf(trimmed, ',') + |used| <= depth
  }

  lemma NextClause(expression: string, j: nat)
    requires j < |CLAUSES|
    ensures |ClausesUsed(expression, j + 1)|
         == |ClausesUsed(expression, j)| + if UsesClause(expression, CLAUSES[j]) then 1 else 0
  {
    assert ClausesUsed(expression, j + 1) ==
           ClausesUsed(expression, j) + if UsesClause(expression, CLAUSES[j]) then {j} else {};
  }

  method CheckExpressionComplexity(expression: string, depth: int) returns (reason: string)
    ensures reason == "" <==> ExpressionClean(expression, depth)
    ensures reason == "" <==>
      var used := ClausesUsed(Trim(expression), 4);
      used != {} && CountOf(Trim(expression), ',') + |used| <= depth
  {
    var trimmed := Trim(expression);
    if trimmed == "" {
      return "update expression is empty";
    }
    var clauseCount := 0;
    for j := 0 to |CLAUSES|
      invariant clauseCount == |ClausesUsed(trimmed, j)|
    {
      NextClause(trimmed, j);
      if UsesClause(trimmed, CLAUSES[j]) {
        clauseCount := clauseCount + 1;
      }
    }
    if clauseCount == 0 {
      return "Invalid update expression";
    }
    // strings.Split yields one part more than there are commas.
    var actionCount := CountOf(trimmed, ',') + 1;
    actionCount := actionCount + clauseCount - 1;
    if actionCount > depth {
      return "Too many actions in the expression";
    }
    return "";
  }

  // Each of the four clauses is seen at the start and after a blank, and each comma adds an action.
  lemma ClausesAreSeen(clause: string, before: string, after: string, rest: string)
    requires clause in {"SET", "ADD", "REMOVE", "DELETE"}
    ensures ClausesUsed(clause + after, |CLAUSES|) != {}
    ensures ClausesUsed(before + " " + clause + after, |CLAUSES|) != {}
    ensures CountOf(rest + ",", ',') == CountOf(rest, ',') + 1
  {
    assert CLAUSES[0] == "SET" && CLAUSES[1] == "ADD" && CLAUSES[2] == "REMOVE" && CLAUSES[3] == "DELETE";
    var j: nat :| j < |CLAUSES| && CLAUSES[j] == clause;
    assert HasAt(clause + after, clause, 0);
    assert j in ClausesUsed(clause + after, |CLAUSES|);
    var text := before + " " + clause + after;
    assert text[|before|..|before| + 1 + |clause|] == " " + clause;
    assert HasAt(text, " " + clause, |before|);
    assert j in ClausesUsed(text, |CLAUSES|);
    assert (rest + ",")[..|rest|] == rest;
  }

  // A text without the clauses' first letters uses none of them.
  lemma NoClauseIsSeen(text: string)
    requires forall c | c in text :: c !in {'S', 'A', 'R', 'D'}
    ensures ClausesUsed(text, |CLAUSES|) == {}
  {
    assert CLAUSES[0] == "SET" && CLAUSES[1] == "ADD" && CLAUSES[2] == "REMOVE" && CLAUSES[3] == "DELETE";
    forall j: nat | j < |CLAUSES|
      ensures !UsesClause(text, CLAUSES[j])
    {
      var clause := CLAUSES[j];
      assert (" " + clause)[1] == clause[0];
      forall i: nat
        ensures !HasAt(text, clause, i) && !HasAt(text, " " + clause, i)
      {
        FoundHas(text, clause, i, 0);
        FoundHas(text, " " + clause, i, 1);
      }
    }
  }

  lemma FoundHas(text: string, part: string, i: nat, k: nat)
    requires k < |part|
    ensures HasAt(text, part, i) ==> part[k] in text
  {
    if HasAt(text, part, i) {
      assert text[i..i + |part|][k] == text[i + k];
    }
  }

  // White space around an expression never changes the finding.
  lemma PaddedExpression(before: string, expression: string, after: string, depth: int)
    requires IsBlank(before) && IsBlank(after)
    ensures ExpressionClean(before + expression + after, depth) == ExpressionClean(expression, depth)
  {
    PaddingIsTrimmed(before, expression, after);
  }

  // ----- Reasons -----

  function Successes<T>(results: seq<Result<T>>): seq<T>
    requires forall i | 0 <= i < |results| :: results[i].Success?
  {
    seq(|results|, i requires 0 <= i < |results| => results[i].value)
  }

  // The values, unless one of the steps that gave them failed.
  method Marshalled<T>(results: seq<Result<T>>) returns (values: Result<seq<T>>)
    ensures values.Failure? <==> exists i :: 0 <= i < |results| && results[i].Failure?
    ensures values.Success? ==> |values.value| == |results| && values.value == Successes(results)
  {
    var done: seq<T> := [];
    for i := 0 to |results|
      invariant |done| == i && forall j | 0 <= j < i :: results[j] == Success(done[j])
    {
      if results[i].Failure? {
        return Failure;
      }
      done := done + [results[i].value];
    }
    assert done == Successes(results);
    return Success(done);
  }

  function Sizes(items: seq<ItemFacts>): seq<nat> {
    seq(|items|, i requires 0 <= i < |items| => items[i].size)
  }

  function ProtectionReasons(p: Protection): seq<string> {
    (if p.readOnly then ["readonly table"] else [])
    + if p.isProtected then ["protectedTable table"] else []
  }

  predicate AllNonEmpty(reasons: seq<string>) {
    forall i | 0 <= i < |reasons| :: reasons[i] != ""
  }

  const PATTERNS: map<string, string> :=
    map["name" := "S", "email" := "S", "phone" := "S", "address" := "S", "timestamp" := "N", "year" := "N",
        "age" := "N", "salary" := "N", "balance" := "N"]

  predicate KeySchemaClean(schema: seq<KeyEntry>, isHotKey: string -> bool) {
    && (exists i :: 0 <= i < |schema| && schema[i].keyType == Some("HASH"))
    && (exists i :: 0 <= i < |schema| && schema[i].keyType == Some("RANGE"))
    && (forall i | 0 <= i < |schema| && schema[i].keyType == Some("HASH") && schema[i].attributeName.Some? ::
          !isHotKey(schema[i].attributeName.value))
  }

  method ValidateKeySchema(schema: seq<KeyEntry>, isHotKey: string -> bool) returns (reasons: seq<string>)
    ensures AllNonEmpty(reasons)
    ensures reasons == [] <==> KeySchemaClean(schema, isHotKey)
    ensures reasons == [] <==>
      && (exists i :: 0 <= i < |schema| && schema[i].keyType == Some("HASH"))
      && (exists i :: 0 <= i < |schema| && schema[i].keyType == Some("RANGE"))
      && !exists i :: 0 <= i < |schema| && schema[i].keyType == Some("HASH") && schema[i].attributeName.Some?
                      && isHotKey(schema[i].attributeName.value)
  {
    reasons := [];
    for i := 0 to |schema|
      invariant AllNonEmpty(reasons)
      invariant reasons == [] <==>
        forall j | 0 <= j < i && schema[j].keyType == Some("HASH") && schema[j].attributeName.Some? ::
          !isHotKey(schema[j].attributeName.value)
    {
      if schema[i].keyType.Some? && schema[i].attributeName.Some? {
        if schema[i].keyType.value == "HASH" {
          if isHotKey(schema[i].attributeName.value) {
            reasons := reasons + ["Hash key is a known hot partition key"];
          }
        }
      }
    }
    var hasSortKey, hasHashKey := false, false;
    for i := 0 to |schema|
      invariant hasHashKey <==> exists j :: 0 <= j < i && schema[j].keyType == Some("HASH")
      invariant hasSortKey <==> exists j :: 0 <= j < i && schema[j].keyType == Some("RANGE")
    {
      // A missing key type reads as the empty string, which is neither.
      if schema[i].keyType == Some("HASH") {
        hasHashKey := true;
      }
      if schema[i].keyType == Some("RANGE") {
        hasSortKey := true;
      }
    }
    if !hasHashKey {
      reasons := reasons + ["Table does not have a hash key"];
    }
    if hasHashKey && !hasSortKey {
      reasons := reasons + ["Table does not have a sort key"];
    }
  }

  predicate AttributeClean(entry: AttributeEntry) {
    entry.attributeName.Some? && entry.attributeType.Some? ==>
      var name := entry.attributeName.value;
      (name in PATTERNS ==> PATTERNS[name] == entry.attributeType.value) && Utf8Length(name) <= 100
  }

  // The names with an expected type; every other name goes with any type.
  lemma ExpectedTypes()
    ensures PATTERNS.Keys == {"name", "email", "phone", "address", "timestamp", "year", "age", "salary", "balance"}
    ensures forall name | name in {"name", "email", "phone", "address"} :: PATTERNS[name] == "S"
    ensures forall name | name in {"timestamp", "year", "age", "salary", "balance"} :: PATTERNS[name] == "N"
  {
  }

  // The limit on the name is 100 bytes.
  lemma NameLimit(name: string, attributeType: string)
    ensures Utf8Length(name) > 100 ==> !AttributeClean(AttributeEntry(Some(name), Some(attributeType)))
    ensures AttributeClean(AttributeEntry(None, Some(attributeType)))
    ensures AttributeClean(AttributeEntry(Some(name), None))
  {
  }

  method ValidateAttributeDefinitions(entries: seq<AttributeEntry>) returns (reasons: seq<string>)
    ensures AllNonEmpty(reasons)
    ensures reasons == [] <==> forall i | 0 <= i < |entries| :: AttributeClean(entries[i])
  {
    reasons := [];
    for i := 0 to |entries|
      invariant AllNonEmpty(reasons)
      invariant reasons == [] <==> forall j | 0 <= j < i :: AttributeClean(entries[j])
    {
      if entries[i].attributeName.Some? && entries[i].attributeType.Some? {
        var name := entries[i].attributeName.value;
        if name in PATTERNS && PATTERNS[name] != entries[i].attributeType.value {
          reasons := reasons + ["Attribute type doesn't match expected type"];
        }
        if Utf8Length(name) > 100 {
          reasons := reasons + ["Attribute name exceeds 100 characters limit"];
        }
      }
    }
  }

  predicate GsiClean(gsi: GsiEntry, isHotKey: string -> bool) {
    gsi.partitionKey.Some? ==> !isHotKey(gsi.partitionKey.value) && gsi.projectionType != Some("ALL")
  }

  method ValidateGsis(gsis: seq<GsiEntry>, isHotKey: string -> bool) returns (reasons: seq<string>)
    ensures AllNonEmpty(reasons)
    ensures reasons == [] <==> |gsis| <= 5 && forall i | 0 <= i < |gsis| :: GsiClean(gsis[i], isHotKey)
    ensures reasons == [] <==>
      |gsis| <= 5 && !exists i :: 0 <= i < |gsis| && gsis[i].partitionKey.Some?
                                  && (isHotKey(gsis[i].partitionKey.value) || gsis[i].projectionType == Some("ALL"))
  {
    reasons := [];
    for i := 0 to |gsis|
      invariant AllNonEmpty(reasons)
      invariant reasons == [] <==> forall j | 0 <= j < i :: GsiClean(gsis[j], isHotKey)
    {
      if gsis[i].partitionKey.None? {
        continue;
      }
      if isHotKey(gsis[i].partitionKey.value) {
        reasons := reasons + ["Global Secondary Index is a known hot partition key"];
      }
      if gsis[i].projectionType == Some("ALL") {
        reasons := reasons + ["GSI uses ProjectionType ALL"];
      }
    }
    if |gsis| > 5 {
      reasons := reasons + ["Table has more than the recommended maximum of 5 GSIs"];
    }
  }

  predicate ItemClean(item: ItemFacts) {
    item.schemaError.None? && item.sensitive == [] && item.pii == [] && item.size <= MAX_INDIVIDUAL_SIZE
  }

  // The conversion to a whole number drops the fraction, towards zero.
  function Truncate(x: real): int {
    if x >= 0.0 then x.Floor else -((-x).Floor)
  }

  lemma TruncatesTowardsZero(n: nat, fraction: real)
    requires 0.0 <= fraction < 1.0
    ensures Truncate(n as real + fraction) == n && Truncate(-(n as real + fraction)) == 0 - n
  {
  }

  function Exceeds(units: Option<real>, limit: int): bool {
    units.Some? && Truncate(units.value) > limit
  }

  // The analysis of this request ends in an error.
  predicate AnalysisFails(request: Request, limits: Thresholds) {
    match request
    case ScanTable(table) => table.Failure?
    case BatchDeleteItems(_, keys, db) =>
      (exists i :: 0 <= i < |keys| && keys[i].Failure?) || ReadFails(db, limits.batchGetCount, |keys|)
    case BatchGetItems(keySizes) => exists i :: 0 <= i < |keySizes| && keySizes[i].Failure?
    case BatchPutItems(_, items) => exists i :: 0 <= i < |items| && items[i].Failure?
    case UpdateItem(_, values, currentPii, currentSize, _) =>
      values.Failure? || currentPii.Failure?
      || (values.value.size <= MAX_INDIVIDUAL_SIZE && currentSize.Failure?)
    case _ => false
  }

  // What a request must be like for its analyzer to have nothing to say.
  predicate Clean(request: Request, limits: Thresholds)
    requires !AnalysisFails(request, limits)
  {
    match request
    case ScanTable(table) =>
      table.value.None?
      || (ToMB(table.value.value.sizeBytes) <= limits.tableSizeMB
          && (limits.scanCostUSD <= 0.0 || ReadCost(table.value.value) <= limits.scanCostUSD))
    case BatchDeleteItems(p, keys, db) =>
      && p == Protection(false, false) && |keys| <= limits.batchDeleteCount
      && FoundTotal(Successes(keys), db) <= MAX_BATCH_SIZE
    case BatchGetItems(keySizes) =>
      var sizes := Successes(keySizes);
      && |sizes| <= limits.batchGetCount
      && (sizes == [] || (Sum(Same, sizes) <= MAX_BATCH_SIZE
                          && Sum(HalfReadUnits, sizes) / 2 <= limits.maxThroughputIncrease))
    case BatchPutItems(p, results) =>
      var items := Successes(results);
      && items != [] && p == Protection(false, false)
      && (forall i | 0 <= i < |items| :: ItemClean(items[i]))
      && Sum(WriteUnits, Sizes(items)) <= limits.maxThroughputIncrease
      && |items| <= limits.batchPutCount
    case DeleteOne(p) => p == Protection(false, false)
    case UpdateTable(p, readCapacity, writeCapacity) =>
      p == Protection(false, false) && !Exceeds(readCapacity, limits.maxThroughputIncrease)
      && !Exceeds(writeCapacity, limits.maxThroughputIncrease)
    case PutItem(p, fieldCount, item) =>
      fieldCount > 0 && item.Success? && p == Protection(false, false) && ItemClean(item.value)
    case UpdateItem(p, values, currentPii, currentSize, expression) =>
      && p == Protection(false, false) && ItemClean(values.value) && currentPii.value == []
      && (currentSize.value.Some? ==> currentSize.value.value + values.value.size <= MAX_INDIVIDUAL_SIZE)
      && ExpressionClean(expression, limits.updateExpressionDepth)
    case CreateTable(keySchema, attributes, gsis) =>
      && KeySchemaClean(keySchema, limits.isHotKey)
      && (forall i | 0 <= i < |attributes| :: AttributeClean(attributes[i]))
      && |gsis| <= 5 && forall i | 0 <= i < |gsis| :: GsiClean(gsis[i], limits.isHotKey)
    case OtherTool => true
  }

  /**
   What every analyzer promises: it fails exactly when a step of it fails, its text is empty exactly for a clean
   request, a text that is not empty comes with at least the medium level, and a protected table with the high one.
   */
  predicate Faithful(request: Request, limits: Thresholds, result: Result<Assessment>) {
    && (result.Failure? <==> AnalysisFails(request, limits))
    && (result.Success? ==> (result.value.reason == "" <==> Clean(request, limits)))
    && (result.Success? && result.value.reason != "" ==> Rank(result.value.level) >= Rank(Medium))
    && (result.Success? && MeetsProtection(request) ==> result.value.level == High)
  }

  predicate IsGuarded(p: Protection) {
    p.readOnly || p.isProtected
  }

  // The analysis gets as far as the protection check, and that finds something.
  predicate MeetsProtection(request: Request) {
    match request
    case BatchDeleteItems(p, _, _) => IsGuarded(p)
    case BatchPutItems(p, items) => IsGuarded(p) && items != []
    case DeleteOne(p) => IsGuarded(p)
    case UpdateTable(p, _, _) => IsGuarded(p)
    case PutItem(p, fieldCount, item) => IsGuarded(p) && fieldCount > 0 && item.Success?
    case UpdateItem(p, _, _, _, _) => IsGuarded(p)
    case _ => false
  }

  function Assess(reasons: seq<string>, level: RiskLevel): Result<Assessment> {
    Success(Assessment(level, Join(reasons)))
  }

  // An analyzer whose reasons are never empty, and are none exactly for a clean request, keeps its promise.
  lemma FaithfulWhen(request: Request, limits: Thresholds, reasons: seq<string>, level: RiskLevel)
    requires !AnalysisFails(request, limits) && AllNonEmpty(reasons)
    requires reasons == [] <==> Clean(request, limits)
    requires Rank(level) >= Rank(GetRiskLevel(reasons))
    requires MeetsProtection(request) ==> level == High
    ensures Faithful(request, limits, Assess(reasons, level))
  {
    JoinEmptyIff(reasons);
  }

  lemma ProtectionReasonsMean(p: Protection)
    ensures AllNonEmpty(ProtectionReasons(p))
    ensures ProtectionReasons(p) == [] <==> p == Protection(false, false)
    ensures IsGuarded(p) ==> AnyNamesProtection(ProtectionReasons(p))
  {
    ProtectionTextsAreNamed();
    if IsGuarded(p) {
      assert NamesProtection(ProtectionReasons(p)[0]);
    }
  }

  lemma ProtectionTextsAreNamed()
    ensures NamesProtection("readonly table") && NamesProtection("protectedTable table")
  {
    assert HasAt("readonly table", "readonly", 0);
    assert HasAt("protectedTable table", "protectedTable", 0);
  }

  lemma ItemReasonsMean(item: ItemFacts)
    ensures AllNonEmpty(ItemReasons(item))
    ensures ItemReasons(item) == [] <==> ItemClean(item)
  {
  }

  lemma JoinedReasons(a: seq<string>, b: seq<string>)
    requires AllNonEmpty(a) && AllNonEmpty(b)
    ensures AllNonEmpty(a + b) && (a + b == [] <==> a == [] && b == [])
    ensures AnyNamesProtection(a) || AnyNamesProtection(b) ==> AnyNamesProtection(a + b)
  {
    if AnyNamesProtection(a) || AnyNamesProtection(b) {
      ProtectionStaysNamed(a, b);
    }
  }

  function Found(found: bool, text: string): seq<string> {
    if found then [text] else []
  }

  method AnalyzeScan(request: Request, limits: Thresholds) returns (result: Result<Assessment>)
    requires request.ScanTable?
    ensures Faithful(request, limits, result)
    ensures result.Failure? <==> request.table.Failure?
    ensures result.Success? ==> (result.value.reason == "" <==>
      request.table.value.Some? ==>
        var table := request.table.value.value;
        && table.sizeBytes as real / 1048576.0 <= limits.tableSizeMB
        && (limits.scanCostUSD > 0.0 ==> ReadCost(table) <= limits.scanCostUSD))
  {
    if request.table.Failure? {
      return Failure;
    }
    var reasons: seq<string> := [];
    if request.table.value.Some? {
      var table := request.table.value.value;
      if ToMB(table.sizeBytes) > limits.tableSizeMB {
        reasons := reasons + ["Table size exceeds scan threshold"];
      }
      if limits.scanCostUSD > 0.0 && ReadCost(table) > limits.scanCostUSD {
        reasons := reasons + ["Scan cost exceeds threshold"];
      }
    }
    JoinEmptyIff(reasons);
    return Assess(reasons, GetRiskLevel(reasons));
  }

  method CheckDeleteItemSize(keys: seq<Result<nat>>, db: Option<DbReads>, chunk: Positive)
    returns (reason: Result<string>)
    ensures reason.Failure? <==> (exists i :: 0 <= i < |keys| && keys[i].Failure?) || ReadFails(db, chunk, |keys|)
    ensures reason.Success? ==> (reason.value == "" <==> FoundTotal(Successes(keys), db) <= MAX_BATCH_SIZE)
  {
    var marshalled := Marshalled(keys);
    if marshalled.Failure? {
      return Failure;
    }
    var total := GetBatchFromDB(marshalled.value, chunk, db);
    if total.Failure? {
      return Failure;
    }
    return Success(if total.value > MAX_BATCH_SIZE then "Total size" else "");
  }

  // The size check's text is appended even when it is empty, so this analyzer never reports the low level.
  method AnalyzeBatchDelete(request: Request, limits: Thresholds) returns (result: Result<Assessment>)
    requires request.BatchDeleteItems?
    ensures Faithful(request, limits, result)
    ensures result.Failure? <==>
      || (exists i :: 0 <= i < |request.keys| && request.keys[i].Failure?)
      || ReadFails(request.db, limits.batchGetCount, |request.keys|)
    ensures result.Success? ==> (result.value.reason == "" <==>
      && !request.protection.readOnly && !request.protection.isProtected
      && |request.keys| <= limits.batchDeleteCount && FoundTotal(Successes(request.keys), request.db) <= 16777216)
    ensures result.Success? ==> Rank(result.value.level) >= Rank(Medium)
  {
    var reasons := ProtectionReasons(request.protection);
    ProtectionReasonsMean(request.protection);
    if |request.keys| > limits.batchDeleteCount {
      reasons := Noted(reasons, "Batch delete exceeds threshold");
    }
    var sizeReason := CheckDeleteItemSize(request.keys, request.db, limits.batchGetCount);
    if sizeReason.Failure? {
      return Failure;
    }
    ghost var checks := reasons;
    reasons := reasons + [sizeReason.value];
    if AnyNamesProtection(checks) {
      ProtectionStaysNamed(checks, [sizeReason.value]);
    }
    JoinEmptyIff(reasons);
    var level := EscalatedRiskLevel(reasons);
    return Assess(reasons, level);
  }

  // Bytes, and halves of read units, of all keys.
  method TotalSizes(sizes: seq<nat>) returns (size: nat, halves: nat)
    ensures size == Sum(Same, sizes) && halves == Sum(HalfReadUnits, sizes)
  {
    size, halves := 0, 0;
    for i := 0 to |sizes|
      invariant size == Sum(Same, sizes[..i]) && halves == Sum(HalfReadUnits, sizes[..i])
    {
      assert sizes[..i + 1][..i] == sizes[..i];
      size := size + sizes[i];
      halves := halves + HalfReadUnits(sizes[i]);
    }
    assert sizes[..|sizes|] == sizes;
  }

  method AnalyzeBatchGet(request: Request, limits: Thresholds) returns (result: Result<Assessment>)
    requires request.BatchGetItems?
    ensures Faithful(request, limits, result)
    ensures result.Failure? <==> exists i :: 0 <= i < |request.keySizes| && request.keySizes[i].Failure?
    ensures result.Success? ==> (result.value.reason == "" <==>
      && |request.keySizes| <= limits.batchGetCount
      && (request.keySizes != [] ==>
            && Sum(Same, Successes(request.keySizes)) <= 16777216
            && Sum(HalfReadUnits, Successes(request.keySizes)) / 2 <= limits.maxThroughputIncrease))
  {
    var marshalled := Marshalled(request.keySizes);
    if marshalled.Failure? {
      return Failure;
    }
    var sizes := marshalled.value;
    var reasons: seq<string> := [];
    if |sizes| > limits.batchGetCount {
      reasons := reasons + ["BatchGetItems request exceeds threshold"];
    }
    if |sizes| > 0 {
      var size, halves := TotalSizes(sizes);
      if size > MAX_BATCH_SIZE {
        reasons := reasons + ["BatchGetItems request size exceeds threshold"];
      }
      if halves / 2 > limits.maxThroughputIncrease {
        reasons := reasons + ["Total CapacityUnits for the batch exceed the limit"];
      }
    }
    FaithfulWhen(request, limits, reasons, GetRiskLevel(reasons));
    return Assess(reasons, GetRiskLevel(reasons));
  }

  method TotalWriteUnits(items: seq<ItemFacts>) returns (units: nat)
    ensures units == Sum(WriteUnits, Sizes(items))
  {
    units := 0;
    for i := 0 to |items|
      invariant units == Sum(WriteUnits, Sizes(items)[..i])
    {
      assert Sizes(items)[..i + 1][..i] == Sizes(items)[..i];
      units := units + WriteUnits(items[i].size);
    }
    assert Sizes(items)[..|items|] == Sizes(items);
  }

  method AnalyzeBatchPut(request: Request, limits: Thresholds) returns (result: Result<Assessment>)
    requires request.BatchPutItems?
    ensures Faithful(request, limits, result)
    ensures result.Failure? <==> exists i :: 0 <= i < |request.items| && request.items[i].Failure?
    ensures result.Success? ==> (result.value.reason == "" <==>
      && request.items != [] && !request.protection.readOnly && !request.protection.isProtected
      && (forall i | 0 <= i < |request.items| :: ItemClean(request.items[i].value))
      && Sum(WriteUnits, Sizes(Successes(request.items))) <= limits.maxThroughputIncrease
      && |request.items| <= limits.batchPutCount)
  {
    if |request.items| == 0 {
      return Success(Assessment(Medium, "No items to put"));
    }
    var marshalled := Marshalled(request.items);
    if marshalled.Failure? {
      return Failure;
    }
    var items := marshalled.value;
    assert forall i | 0 <= i < |items| :: request.items[i].value == items[i];
    var reasons := ProtectionReasons(request.protection);
    ProtectionReasonsMean(request.protection);
    var itemReasons := ItemListReasons(items);
    JoinedReasons(reasons, itemReasons);
    reasons := reasons + itemReasons;
    var units := TotalWriteUnits(items);
    if units > limits.maxThroughputIncrease {
      reasons := Noted(reasons, "Capacity");
    }
    if |items| > limits.batchPutCount {
      reasons := Noted(reasons, "Batch put count");
    }
    var level := EscalatedRiskLevel(reasons);
    FaithfulWhen(request, limits, reasons, level);
    return Assess(reasons, level);
  }

  // Checks 3 to 6 of a batch put: each kind of finding is reported once for the whole batch.
  method ItemListReasons(items: seq<ItemFacts>) returns (reasons: seq<string>)
    ensures AllNonEmpty(reasons)
    ensures reasons == [] <==> forall i | 0 <= i < |items| :: ItemClean(items[i])
    ensures reasons == [] <==> forall i | 0 <= i < |items| ::
      items[i].schemaError.None? && items[i].sensitive == [] && items[i].pii == [] && items[i].size <= 409600
  {
    reasons := [];
    for i := 0 to |items|
      invariant reasons == [] && forall j | 0 <= j < i :: items[j].schemaError.None?
    {
      if items[i].schemaError.Some? {
        reasons := reasons + ["Schema validation failed: " + items[i].schemaError.value];
        break;
      }
    }
    var sensitive, pii := [], [];
    for i := 0 to |items|
      invariant sensitive == [] <==> forall j | 0 <= j < i :: items[j].sensitive == []
      invariant pii == [] <==> forall j | 0 <= j < i :: items[j].pii == []
    {
      sensitive := sensitive + items[i].sensitive;
      pii := pii + items[i].pii;
    }
    if |sensitive| > 0 {
      reasons := reasons + ["Item contains sensitive fields"];
    }
    if |pii| > 0 {
      reasons := reasons + ["Item contains table-specific PII fields"];
    }
    var tooLarge := false;
    for i := 0 to |items|
      invariant !tooLarge && forall j | 0 <= j < i :: items[j].size <= MAX_INDIVIDUAL_SIZE
    {
      if items[i].size > MAX_INDIVIDUAL_SIZE {
        tooLarge := true;
        break;
      }
    }
    if tooLarge {
      reasons := reasons + ["Item size"];
    }
  }

  method AnalyzeDelete(request: Request, limits: Thresholds) returns (result: Result<Assessment>)
    requires request.DeleteOne?
    ensures Faithful(request, limits, result)
    ensures result.Success?
    ensures result.Success? ==> (result.value.reason == "" <==>
      !request.protection.readOnly && !request.protection.isProtected)
  {
    var reasons := ProtectionReasons(request.protection);
    ProtectionReasonsMean(request.protection);
    JoinEmptyIff(reasons);
    var level := EscalatedRiskLevel(reasons);
    return Assess(reasons, level);
  }

  method AnalyzeUpdateTable(request: Request, limits: Thresholds) returns (result: Result<Assessment>)
    requires request.UpdateTable?
    ensures Faithful(request, limits, result)
    ensures result.Success?
    ensures result.Success? ==> (result.value.reason == "" <==>
      && !request.protection.readOnly && !request.protection.isProtected
      && (request.readCapacity.Some? ==> Truncate(request.readCapacity.value) <= limits.maxThroughputIncrease)
      && (request.writeCapacity.Some? ==> Truncate(request.writeCapacity.value) <= limits.maxThroughputIncrease))
  {
    var reasons: seq<string> := [];
    if Exceeds(request.readCapacity, limits.maxThroughputIncrease) {
      reasons := reasons + ["Capacity"];
    }
    if Exceeds(request.writeCapacity, limits.maxThroughputIncrease) {
      reasons := reasons + ["Capacity"];
    }
    ProtectionReasonsMean(request.protection);
    JoinedReasons(reasons, ProtectionReasons(request.protection));
    reasons := reasons + ProtectionReasons(request.protection);
    JoinEmptyIff(reasons);
    var level := EscalatedRiskLevel(reasons);
    return Assess(reasons, level);
  }

  // The findings about one item, as the single-item analyzers append them.
  function ItemReasons(item: ItemFacts): seq<string> {
    Found(item.schemaError.Some?, "Schema") + Found(item.sensitive != [], "Sensitive")
    + Found(item.pii != [], "PII") + Found(item.size > MAX_INDIVIDUAL_SIZE, "Size")
  }

  method AnalyzePutItem(request: Request, limits: Thresholds) returns (result: Result<Assessment>)
    requires request.PutItem?
    ensures Faithful(request, limits, result)
    ensures result.Success?
    ensures result.Success? ==> (result.value.reason == "" <==>
      && request.fieldCount > 0 && request.item.Success?
      && !request.protection.readOnly && !request.protection.isProtected && ItemClean(request.item.value))
  {
    if request.fieldCount == 0 {
      return Success(Assessment(Medium, "Item cannot be empty"));
    }
    // Unlike the other analyzers this one turns a marshalling error into a reason.
    if request.item.Failure? {
      return Success(Assessment(Medium, "Failed to marshal item"));
    }
    var reasons := ProtectionReasons(request.protection) + ItemReasons(request.item.value);
    ProtectionReasonsMean(request.protection);
    ItemReasonsMean(request.item.value);
    JoinedReasons(ProtectionReasons(request.protection), ItemReasons(request.item.value));
    var level := EscalatedRiskLevel(reasons);
    FaithfulWhen(request, limits, reasons, level);
    return Assess(reasons, level);
  }

  // The text of a check is appended unless it is empty.
  function Noted(reasons: seq<string>, text: string): (more: seq<string>)
    requires AllNonEmpty(reasons)
    ensures AllNonEmpty(more) && (more == [] <==> reasons == [] && text == "")
    ensures AnyNamesProtection(reasons) ==> AnyNamesProtection(more)
  {
    JoinedReasons(reasons, Found(text != "", text));
    reasons + Found(text != "", text)
  }

  // The current item's size is asked for only when the payload alone is not too large.
  method CheckUpdatedItemSize(size: nat, currentSize: Result<Option<nat>>) returns (reason: Result<string>)
    ensures reason.Failure? <==> size <= 409600 && currentSize.Failure?
    ensures reason == Success("") <==>
      size <= 409600 && currentSize.Success?
      && (currentSize.value.Some? ==> currentSize.value.value + size <= 409600)
  {
    if size > MAX_INDIVIDUAL_SIZE {
      return Success("Payload size");
    }
    if currentSize.Failure? {
      return Failure;
    }
    if currentSize.value.Some? && currentSize.value.value + size > MAX_INDIVIDUAL_SIZE {
      return Success("Updated size");
    }
    return Success("");
  }

  method AnalyzeUpdateItem(request: Request, limits: Thresholds) returns (result: Result<Assessment>)
    requires request.UpdateItem?
    ensures Faithful(request, limits, result)
    ensures result.Failure? <==>
      || request.values.Failure? || request.currentPii.Failure?
      || (request.values.value.size <= 409600 && request.currentSize.Failure?)
    ensures result.Success? ==> (result.value.reason == "" <==>
      && !request.protection.readOnly && !request.protection.isProtected
      && ItemClean(request.values.value) && request.currentPii.value == []
      && (request.currentSize.value.Some? ==>
            request.currentSize.value.value + request.values.value.size <= 409600)
      && ExpressionClean(request.expression, limits.updateExpressionDepth))
  {
    if request.values.Failure? {
      return Failure;
    }
    var size := request.values.value.size;
    var reasons := ProtectionReasons(request.protection);
    if request.currentPii.Failure? {
      return Failure;
    }
    ProtectionReasonsMean(request.protection);
    ItemReasonsMean(request.values.value);
    JoinedReasons(reasons, ItemReasons(request.values.value));
    reasons := reasons + ItemReasons(request.values.value);
    reasons := Noted(reasons, if request.currentPii.value != [] then "Current PII" else "");
    var sizeReason := CheckUpdatedItemSize(size, request.currentSize);
    if sizeReason.Failure? {
      return Failure;
    }
    reasons := Noted(reasons, sizeReason.value);
    var expressionReason := CheckExpressionComplexity(request.expression, limits.updateExpressionDepth);
    reasons := Noted(reasons, expressionReason);
    var level := EscalatedRiskLevel(reasons);
    FaithfulWhen(request, limits, reasons, level);
    return Assess(reasons, level);
  }

  method AnalyzeCreateTable(request: Request, limits: Thresholds) returns (result: Result<Assessment>)
    requires request.CreateTable?
    ensures Faithful(request, limits, result)
    ensures result.Success?
    ensures result.Success? ==> (result.value.reason == "" <==>
      && KeySchemaClean(request.keySchema, limits.isHotKey)
      && (forall i | 0 <= i < |request.attributes| :: AttributeClean(request.attributes[i]))
      && |request.gsis| <= 5 && forall i | 0 <= i < |request.gsis| :: GsiClean(request.gsis[i], limits.isHotKey))
  {
    var schemaReasons := ValidateKeySchema(request.keySchema, limits.isHotKey);
    var attributeReasons := ValidateAttributeDefinitions(request.attributes);
    var gsiReasons := ValidateGsis(request.gsis, limits.isHotKey);
    var reasons := schemaReasons + attributeReasons + gsiReasons;
    JoinEmptyIff(reasons);
    return Assess(reasons, GetRiskLevel(reasons));
  }

  // The facts are those gathered for this tool; a tool outside the switch has none.
  predicate Suits(tool: string, request: Request) {
    && (request.ScanTable? <==> tool == "scan_table")
    && (request.BatchDeleteItems? <==> tool == "batch_delete_items")
    && (request.BatchGetItems? <==> tool == "batch_get_items")
    && (request.BatchPutItems? <==> tool == "batch_put_items")
    && (request.DeleteOne? <==> tool == "delete_item" || tool == "delete_table")
    && (request.UpdateTable? <==> tool == "update_table")
    && (request.PutItem? <==> tool == "put_item")
    && (request.UpdateItem? <==> tool == "update_item")
    && (request.CreateTable? <==> tool == "create_optimized_table")
  }

  // Arguments that do not parse fail the analysis of every tool that has an analyzer.
  method Analyze(tool: string, request: Request, parsed: bool, limits: Thresholds)
    returns (result: Result<Assessment>)
    requires Suits(tool, request)
    ensures request.OtherTool? || parsed ==> Faithful(request, limits, result)
    ensures !request.OtherTool? && !parsed ==> result.Failure?
  {
    if request.OtherTool? {
      return Success(Assessment(Low, ""));
    }
    if !parsed {
      return Failure;
    }
    match tool {
      case "scan_table" => result := AnalyzeScan(request, limits);
      case "batch_delete_items" => result := AnalyzeBatchDelete(request, limits);
      case "batch_get_items" => result := AnalyzeBatchGet(request, limits);
      case "batch_put_items" => result := AnalyzeBatchPut(request, limits);
      case "delete_item" => result := AnalyzeDelete(request, limits);
      case "delete_table" => result := AnalyzeDelete(request, limits);
      case "update_table" => result := AnalyzeUpdateTable(request, limits);
      case "put_item" => result := AnalyzePutItem(request, limits);
      case "update_item" => result := AnalyzeUpdateItem(request, limits);
      case _ => result := AnalyzeCreateTable(request, limits);
    }
  }

  // ----- The gate -----

  // A wrong or missing confirmation reads as false.
  method CheckRisk(confirmed: bool, tool: string, request: Request, parsed: bool, limits: Thresholds)
    returns (reason: Result<string>)
    requires Suits(tool, request)
    ensures confirmed ==> reason == Success("")
    ensures !confirmed ==> (reason == Success("") <==> LetsThrough(request, parsed, limits))
  {
    if confirmed {
      return Success("");
    }
    var assessment := Analyze(tool, request, parsed, limits);
    if assessment.Failure? {
      return Failure;
    }
    if Rank(assessment.value.level) >= Rank(Medium) {
      return Success(assessment.value.reason);
    }
    return Success("");
  }

  // Without a confirmation a call passes exactly if its analysis succeeds and finds nothing.
  predicate LetsThrough(request: Request, parsed: bool, limits: Thresholds) {
    request.OtherTool? || (parsed && !AnalysisFails(request, limits) && Clean(request, limits))
  }

  datatype Fate = Warned | Ran | QueuedOnKafka | QueuedInProcess | EnqueueFailed

  // The tools whose calls become jobs.
  predicate IsLargeOperation(tool: string) {
    tool in {"create_optimized_table", "batch_put_items", "batch_delete_items", "ingest_document"}
  }

  /**
   The call of a tool. `convertible` and `marshals` say whether the input survives its two JSON conversions, `kafka`
   whether a producer exists and, if so, whether it accepts the job.
   */
  method CallTool(tool: string, convertible: bool, confirmed: bool, request: Request, parsed: bool,
                  limits: Thresholds, marshals: bool, kafka: Option<bool>) returns (fate: Fate)
    requires Suits(tool, request)
    ensures fate != Warned <==> convertible && (confirmed || LetsThrough(request, parsed, limits))
    ensures fate != Warned ==>
      (fate == Ran <==>
       tool !in {"batch_put_items", "batch_delete_items", "create_optimized_table", "ingest_document"})
    ensures fate != Warned && fate != Ran ==>
      fate == if !marshals || kafka == Some(false) then EnqueueFailed
              else if kafka == Some(true) then QueuedOnKafka
              else QueuedInProcess
    ensures tool == "ingest_document" && convertible ==> fate != Warned
  {
    if !convertible {
      return Warned;
    }
    var reason := CheckRisk(confirmed, tool, request, parsed, limits);
    if reason.Failure? {
      return Warned;
    }
    if reason.value != "" {
      return Warned;
    }
    if IsLargeOperation(tool) {
      if !marshals {
        return EnqueueFailed;
      }
      if kafka.Some? {
        return if kafka.value then QueuedOnKafka else EnqueueFailed;
      }
      return QueuedInProcess;
    }
    return Ran;
  }

  // A finding about the table's protection, among any others, is reported as high.
  lemma ProtectionIsHigh(p: Protection, before: seq<string>, after: seq<string>)
    requires IsGuarded(p)
    ensures EscalatedLevel(before + ProtectionReasons(p) + after) == High
  {
    ProtectionReasonsMean(p);
    ProtectionStaysNamed(before, ProtectionReasons(p));
    ProtectionStaysNamed(before + ProtectionReasons(p), after);
  }
}
