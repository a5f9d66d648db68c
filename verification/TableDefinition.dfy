/** Deriving a new table's key schemas and attribute definitions from the request. */
module TableDefinition {
  import opened Outcomes

  datatype KeyType = Hash | Range
  datatype KeySchemaElement = KeySchemaElement(attributeName: string, keyType: KeyType)
  datatype AttributeDefinition = AttributeDefinition(attributeName: string, attributeType: string)

  // The request's own forms, with key types still text.
  datatype KeyArg = KeyArg(attributeName: string, keyType: string)
  datatype GsiArg = GsiArg(indexName: string, partitionKey: string, sortKey: string)
  datatype LsiArg = LsiArg(indexName: string, sortKey: string)
  datatype CreateArgs = CreateArgs(
    keySchema: seq<KeyArg>, attributeDefinitions: seq<AttributeDefinition>, gsis: seq<GsiArg>, lsis: seq<LsiArg>)

  datatype TableInput = TableInput(
    keySchema: seq<KeySchemaElement>,
    gsiKeySchemas: seq<seq<KeySchemaElement>>,
    lsiKeySchemas: seq<seq<KeySchemaElement>>,
    definitions: seq<AttributeDefinition>)

  // ----- Key schemas -----

  // Any key type other than "HASH" makes a RANGE element.
  function Element(arg: KeyArg): KeySchemaElement {
    KeySchemaElement(arg.attributeName, if arg.keyType == "HASH" then Hash else Range)
  }

  lemma HashIsHash(name: string, keyType: string)
    ensures Element(KeyArg(name, "HASH")) == KeySchemaElement(name, Hash)
    ensures keyType != "HASH" ==> Element(KeyArg(name, keyType)) == KeySchemaElement(name, Range)
  {
  }

  // The last HASH entry names the hash key; without one it is the empty string.
  function HashKeyOf(keySchema: seq<KeyArg>): string {
    if keySchema == [] then ""
    else if keySchema[|keySchema| - 1].keyType == "HASH" then keySchema[|keySchema| - 1].attributeName
    else HashKeyOf(keySchema[..|keySchema| - 1])
  }

  predicate HasHashEntry(keySchema: seq<KeyArg>) {
    exists i :: 0 <= i < |keySchema| && keySchema[i].keyType == "HASH"
  }

  lemma {:induction false} HashKeyIsAnEntry(keySchema: seq<KeyArg>)
    ensures HasHashEntry(keySchema) ==>
      exists i :: 0 <= i < |keySchema| && keySchema[i].keyType == "HASH"
        && keySchema[i].attributeName == HashKeyOf(keySchema)
    ensures !HasHashEntry(keySchema) ==> HashKeyOf(keySchema) == ""
  {
    if keySchema != [] && keySchema[|keySchema| - 1].keyType != "HASH" {
      var init := keySchema[..|keySchema| - 1];
      HashKeyIsAnEntry(init);
      assert HasHashEntry(init) <==> HasHashEntry(keySchema) by {
        if i :| 0 <= i < |keySchema| && keySchema[i].keyType == "HASH" {
          assert init[i] == keySchema[i];
        }
      }
    }
  }

  method GetKeySchema(keySchema: seq<KeyArg>) returns (elements: seq<KeySchemaElement>, hashKey: string)
    ensures |elements| == |keySchema| && forall i | 0 <= i < |elements| :: elements[i] == Element(keySchema[i])
    ensures forall i | 0 <= i < |elements| ::
      && elements[i].attributeName == keySchema[i].attributeName
      && elements[i].keyType == if keySchema[i].keyType == "HASH" then Hash else Range
    ensures hashKey == HashKeyOf(keySchema)
  {
    elements, hashKey := [], "";
    for i := 0 to |keySchema|
      invariant |elements| == i && forall j | 0 <= j < i :: elements[j] == Element(keySchema[j])
      invariant hashKey == HashKeyOf(keySchema[..i])
    {
      assert keySchema[..i + 1][..i] == keySchema[..i];
      if keySchema[i].keyType == "HASH" {
        hashKey := keySchema[i].attributeName;
        elements := elements + [KeySchemaElement(keySchema[i].attributeName, Hash)];
      } else {
        elements := elements + [KeySchemaElement(keySchema[i].attributeName, Range)];
      }
    }
    assert keySchema[..|keySchema|] == keySchema;
  }

  function GsiKeySchema(gsi: GsiArg): seq<KeySchemaElement> {
    [KeySchemaElement(gsi.partitionKey, Hash)]
      + if gsi.sortKey != "" then [KeySchemaElement(gsi.sortKey, Range)] else []
  }

  function LsiKeySchema(lsi: LsiArg, hashKey: string): seq<KeySchemaElement> {
    [KeySchemaElement(hashKey, Hash), KeySchemaElement(lsi.sortKey, Range)]
  }

  method GetGsis(gsis: seq<GsiArg>) returns (schemas: seq<seq<KeySchemaElement>>)
    ensures |schemas| == |gsis| && forall i | 0 <= i < |gsis| :: schemas[i] == GsiKeySchema(gsis[i])
    ensures forall i | 0 <= i < |gsis| ::
      && schemas[i] != [] && schemas[i][0] == KeySchemaElement(gsis[i].partitionKey, Hash)
      && schemas[i][1..] == if gsis[i].sortKey == "" then [] else [KeySchemaElement(gsis[i].sortKey, Range)]
  {
    schemas := [];
    for i := 0 to |gsis|
      invariant |schemas| == i && forall j | 0 <= j < i :: schemas[j] == GsiKeySchema(gsis[j])
    {
      var schema := [KeySchemaElement(gsis[i].partitionKey, Hash)];
      if gsis[i].sortKey != "" {
        schema := schema + [KeySchemaElement(gsis[i].sortKey, Range)];
      }
      schemas := schemas + [schema];
    }
  }

  method GetLsis(lsis: seq<LsiArg>, hashKey: string) returns (schemas: seq<seq<KeySchemaElement>>)
    ensures |schemas| == |lsis| && forall i | 0 <= i < |lsis| :: schemas[i] == LsiKeySchema(lsis[i], hashKey)
    ensures forall i | 0 <= i < |lsis| ::
      schemas[i] == [KeySchemaElement(hashKey, Hash), KeySchemaElement(lsis[i].sortKey, Range)]
  {
    schemas := [];
    for i := 0 to |lsis|
      invariant |schemas| == i && forall j | 0 <= j < i :: schemas[j] == LsiKeySchema(lsis[j], hashKey)
    {
      var schema := [KeySchemaElement(hashKey, Hash), KeySchemaElement(lsis[i].sortKey, Range)];
      schemas := schemas + [schema];
    }
  }

  // ----- Attribute definitions -----

  // The first supplied type of an attribute, S if none is supplied.
  function TypeOf(supplied: seq<AttributeDefinition>, name: string): string {
    if supplied == [] then "S"
    else if supplied[0].attributeName == name then supplied[0].attributeType
    else TypeOf(supplied[1..], name)
  }

  // It is the type of the least index that supplies the name.
  lemma {:induction false} FirstTypeCounts(supplied: seq<AttributeDefinition>, name: string, i: nat)
    requires i <= |supplied| && forall j | 0 <= j < i :: supplied[j].attributeName != name
    ensures i < |supplied| && supplied[i].attributeName == name ==>
      TypeOf(supplied, name) == supplied[i].attributeType
    ensures i == |supplied| ==> TypeOf(supplied, name) == "S"
  {
    if i > 0 {
      FirstTypeCounts(supplied[1..], name, i - 1);
    }
  }

  // Names and types in step, the name being of a definition's own attribute.
  predicate TypesAreSupplied(defs: map<string, AttributeDefinition>, supplied: seq<AttributeDefinition>) {
    forall name | name in defs :: defs[name] == AttributeDefinition(name, TypeOf(supplied, name))
  }

  ghost predicate Supplies(types: map<string, string>, supplied: seq<AttributeDefinition>) {
    forall name :: TypeOf(supplied, name) == if name in types then types[name] else "S"
  }

  method ProvidedTypes(supplied: seq<AttributeDefinition>) returns (types: map<string, string>)
    ensures Supplies(types, supplied)
  {
    types := map[];
    for i := 0 to |supplied|
      invariant forall name ::
        TypeOf(supplied, name) == if name in types then types[name] else TypeOf(supplied[i..], name)
    {
      if supplied[i].attributeName !in types {
        types := types[supplied[i].attributeName := supplied[i].attributeType];
      }
    }
  }

  // An attribute is defined once, however often it is added.
  method AddAttribute(defs: map<string, AttributeDefinition>, types: map<string, string>, name: string,
                      ghost supplied: seq<AttributeDefinition>)
    returns (result: map<string, AttributeDefinition>)
    requires Supplies(types, supplied) && TypesAreSupplied(defs, supplied)
    ensures result.Keys == defs.Keys + {name}
    ensures TypesAreSupplied(result, supplied)
  {
    if name in defs {
      return defs;
    }
    var attributeType := "S";
    if name in types {
      attributeType := types[name];
    }
    return defs[name := AttributeDefinition(name, attributeType)];
  }

  function KeyNames(keySchema: seq<KeyArg>): set<string> {
    set k | k in keySchema :: k.attributeName
  }

  function NamesOfGsi(g: GsiArg): set<string> {
    {g.partitionKey} + if g.sortKey != "" then {g.sortKey} else {}
  }

  function GsiNames(gsis: seq<GsiArg>): set<string> {
    set g, name | g in gsis && name in NamesOfGsi(g) :: name
  }

  function LsiNames(lsis: seq<LsiArg>): set<string> {
    set l | l in lsis :: l.sortKey
  }

  function DefinedNames(args: CreateArgs): set<string> {
    KeyNames(args.keySchema) + GsiNames(args.gsis) + LsiNames(args.lsis)
  }

  method CollectDefinitions(args: CreateArgs) returns (defs: map<string, AttributeDefinition>)
    ensures defs.Keys == DefinedNames(args)
    ensures TypesAreSupplied(defs, args.attributeDefinitions)
  {
    var types := ProvidedTypes(args.attributeDefinitions);
    defs := AddKeys(args.keySchema, types, args.attributeDefinitions);
    defs := AddGsis(args.gsis, defs, types, args.attributeDefinitions);
    defs := AddLsis(args.lsis, defs, types, args.attributeDefinitions);
  }

  method AddKeys(keySchema: seq<KeyArg>, types: map<string, string>, ghost supplied: seq<AttributeDefinition>)
    returns (defs: map<string, AttributeDefinition>)
    requires Supplies(types, supplied)
    ensures defs.Keys == KeyNames(keySchema) && TypesAreSupplied(defs, supplied)
  {
    defs := map[];
    for i := 0 to |keySchema|
      invariant defs.Keys == KeyNames(keySchema[..i]) && TypesAreSupplied(defs, supplied)
    {
      KeyNamesSnoc(keySchema, i);
      defs := AddAttribute(defs, types, keySchema[i].attributeName, supplied);
    }
    assert keySchema[..|keySchema|] == keySchema;
  }

  method AddGsis(gsis: seq<GsiArg>, start: map<string, AttributeDefinition>, types: map<string, string>,
                 ghost supplied: seq<AttributeDefinition>)
    returns (defs: map<string, AttributeDefinition>)
    requires Supplies(types, supplied) && TypesAreSupplied(start, supplied)
    ensures defs.Keys == start.Keys + GsiNames(gsis) && TypesAreSupplied(defs, supplied)
  {
    defs := start;
    for i := 0 to |gsis|
      invariant defs.Keys == start.Keys + GsiNames(gsis[..i]) && TypesAreSupplied(defs, supplied)
    {
      GsiNamesSnoc(gsis, i);
      defs := AddGsi(gsis[i], defs, types, supplied);
    }
    assert gsis[..|gsis|] == gsis;
  }

  // The keys of one global index.
  method AddGsi(gsi: GsiArg, start: map<string, AttributeDefinition>, types: map<string, string>,
                ghost supplied: seq<AttributeDefinition>)
    returns (defs: map<string, AttributeDefinition>)
    requires Supplies(types, supplied) && TypesAreSupplied(start, supplied)
    ensures defs.Keys == start.Keys + NamesOfGsi(gsi) && TypesAreSupplied(defs, supplied)
  {
    defs := AddAttribute(start, types, gsi.partitionKey, supplied);
    if gsi.sortKey != "" {
      defs := AddAttribute(defs, types, gsi.sortKey, supplied);
    }
  }

  method AddLsis(lsis: seq<LsiArg>, start: map<string, AttributeDefinition>, types: map<string, string>,
                 ghost supplied: seq<AttributeDefinition>)
    returns (defs: map<string, AttributeDefinition>)
    requires Supplies(types, supplied) && TypesAreSupplied(start, supplied)
    ensures defs.Keys == start.Keys + LsiNames(lsis) && TypesAreSupplied(defs, supplied)
  {
    defs := start;
    for i := 0 to |lsis|
      invariant defs.Keys == start.Keys + LsiNames(lsis[..i]) && TypesAreSupplied(defs, supplied)
    {
      LsiNamesSnoc(lsis, i);
      defs := AddAttribute(defs, types, lsis[i].sortKey, supplied);
    }
    assert lsis[..|lsis|] == lsis;
  }

  lemma KeyNamesSnoc(keySchema: seq<KeyArg>, i: nat)
    requires i < |keySchema|
    ensures KeyNames(keySchema[..i + 1]) == KeyNames(keySchema[..i]) + {keySchema[i].attributeName}
  {
    assert keySchema[..i + 1] == keySchema[..i] + [keySchema[i]];
  }

  lemma GsiNamesSnoc(gsis: seq<GsiArg>, i: nat)
    requires i < |gsis|
    ensures GsiNames(gsis[..i + 1]) == GsiNames(gsis[..i]) + NamesOfGsi(gsis[i])
  {
    assert gsis[..i + 1] == gsis[..i] + [gsis[i]];
  }

  lemma LsiNamesSnoc(lsis: seq<LsiArg>, i: nat)
    requires i < |lsis|
    ensures LsiNames(lsis[..i + 1]) == LsiNames(lsis[..i]) + {lsis[i].sortKey}
  {
    assert lsis[..i + 1] == lsis[..i] + [lsis[i]];
  }

  // The values of the map, in whatever order it is walked.
  method ListDefinitions(defs: map<string, AttributeDefinition>) returns (list: seq<AttributeDefinition>)
    requires forall name | name in defs :: defs[name].attributeName == name
    ensures forall d :: d in list <==> d.attributeName in defs && defs[d.attributeName] == d
    ensures forall i, j | 0 <= i < j < |list| :: list[i].attributeName != list[j].attributeName
  {
    list := [];
    var names := defs.Keys;
    while names != {}
      invariant names <= defs.Keys
      invariant forall d :: d in list <==>
        d.attributeName in defs && d.attributeName !in names && defs[d.attributeName] == d
      invariant forall i, j | 0 <= i < j < |list| :: list[i].attributeName != list[j].attributeName
      decreases |names|
    {
      var name :| name in names;
      assert forall i | 0 <= i < |list| :: list[i] in list;
      list := list + [defs[name]];
      names := names - {name};
    }
  }

  // ----- The table -----

  function Names(elements: seq<KeySchemaElement>): set<string> {
    set e | e in elements :: e.attributeName
  }

  // Every attribute that some key schema of the table uses.
  function UsedNames(input: TableInput): set<string> {
    Names(input.keySchema) + NamesOfAll(input.gsiKeySchemas) + NamesOfAll(input.lsiKeySchemas)
  }

  function NamesOfAll(schemas: seq<seq<KeySchemaElement>>): set<string> {
    set i, e | 0 <= i < |schemas| && e in schemas[i] :: e.attributeName
  }

  predicate IsRefused(args: CreateArgs) {
    args.lsis != [] && forall k | k in args.keySchema :: k.keyType != "RANGE"
  }

  method CreateTableInput(args: CreateArgs) returns (input: Option<TableInput>)
    ensures input.None? <==> IsRefused(args)
    ensures input.Some? ==> IsInputFor(args, input.value)
  {
    var keySchema, hashKey := GetKeySchema(args.keySchema);
    if |args.lsis| > 0 {
      var hasRangeKey := false;
      for i := 0 to |args.keySchema|
        invariant !hasRangeKey && forall j | 0 <= j < i :: args.keySchema[j].keyType != "RANGE"
      {
        if args.keySchema[i].keyType == "RANGE" {
          hasRangeKey := true;
          break;
        }
      }
      if !hasRangeKey {
        return None;
      }
    }
    var defs := CollectDefinitions(args);
    var gsis := GetGsis(args.gsis);
    var lsis := GetLsis(args.lsis, hashKey);
    var definitions := ListDefinitions(defs);
    return Some(TableInput(keySchema, gsis, lsis, definitions));
  }

  // What the request determines about the table: its key schemas, and its definitions up to their order.
  predicate IsInputFor(args: CreateArgs, input: TableInput) {
    && |input.keySchema| == |args.keySchema|
    && (forall i | 0 <= i < |args.keySchema| :: input.keySchema[i] == Element(args.keySchema[i]))
    && |input.gsiKeySchemas| == |args.gsis|
    && (forall i | 0 <= i < |args.gsis| :: input.gsiKeySchemas[i] == GsiKeySchema(args.gsis[i]))
    && |input.lsiKeySchemas| == |args.lsis|
    && (forall i | 0 <= i < |args.lsis| ::
          input.lsiKeySchemas[i] == LsiKeySchema(args.lsis[i], HashKeyOf(args.keySchema)))
    && (forall i, j | 0 <= i < j < |input.definitions| ::
          input.definitions[i].attributeName != input.definitions[j].attributeName)
    && (forall d | d in input.definitions :: d.attributeType == TypeOf(args.attributeDefinitions, d.attributeName))
    && (set d | d in input.definitions :: d.attributeName) == DefinedNames(args)
  }

  lemma UsedByKeys(args: CreateArgs, input: TableInput)
    requires IsInputFor(args, input)
    ensures Names(input.keySchema) == KeyNames(args.keySchema)
  {
    forall i | 0 <= i < |args.keySchema|
      ensures args.keySchema[i].attributeName in Names(input.keySchema)
      ensures input.keySchema[i].attributeName in KeyNames(args.keySchema)
    {
      assert input.keySchema[i] in input.keySchema && args.keySchema[i] in args.keySchema;
    }
  }

  lemma GsiElements(g: GsiArg)
    ensures Names(GsiKeySchema(g)) == NamesOfGsi(g)
  {
    var s := GsiKeySchema(g);
    assert s[0] in s && (g.sortKey != "" ==> s[1] in s);
  }

  lemma LsiElements(l: LsiArg, hashKey: string)
    ensures Names(LsiKeySchema(l, hashKey)) == {hashKey, l.sortKey}
  {
    var s := LsiKeySchema(l, hashKey);
    assert s[0] in s && s[1] in s;
  }

  lemma NameOfOne(schemas: seq<seq<KeySchemaElement>>, i: nat, name: string)
    requires i < |schemas| && name in Names(schemas[i])
    ensures name in NamesOfAll(schemas)
  {
  }

  lemma UsedByGsis(args: CreateArgs, input: TableInput)
    requires IsInputFor(args, input)
    ensures NamesOfAll(input.gsiKeySchemas) == GsiNames(args.gsis)
  {
    forall name | name in GsiNames(args.gsis)
      ensures name in NamesOfAll(input.gsiKeySchemas)
    {
      var g :| g in args.gsis && name in NamesOfGsi(g);
      var i :| 0 <= i < |args.gsis| && args.gsis[i] == g;
      GsiElements(g);
      NameOfOne(input.gsiKeySchemas, i, name);
    }
    forall name | name in NamesOfAll(input.gsiKeySchemas)
      ensures name in GsiNames(args.gsis)
    {
      var i, e :| 0 <= i < |input.gsiKeySchemas| && e in input.gsiKeySchemas[i] && e.attributeName == name;
      GsiElements(args.gsis[i]);
      assert name in Names(GsiKeySchema(args.gsis[i])) && args.gsis[i] in args.gsis;
    }
  }

  lemma LsiUses(args: CreateArgs, input: TableInput, i: nat)
    requires IsInputFor(args, input) && i < |args.lsis|
    ensures {HashKeyOf(args.keySchema), args.lsis[i].sortKey} == Names(input.lsiKeySchemas[i])
    ensures Names(input.lsiKeySchemas[i]) <= NamesOfAll(input.lsiKeySchemas)
  {
    LsiElements(args.lsis[i], HashKeyOf(args.keySchema));
    forall name | name in Names(input.lsiKeySchemas[i])
      ensures name in NamesOfAll(input.lsiKeySchemas)
    {
      NameOfOne(input.lsiKeySchemas, i, name);
    }
  }

  // Every local index uses the hash key and its own sort key.
  lemma UsedByLsis(args: CreateArgs, input: TableInput)
    requires IsInputFor(args, input)
    ensures NamesOfAll(input.lsiKeySchemas) == LsiUsedNames(args)
  {
    var used := NamesOfAll(input.lsiKeySchemas);
    forall name | name in used
      ensures name in LsiUsedNames(args)
    {
      var i, e :| 0 <= i < |input.lsiKeySchemas| && e in input.lsiKeySchemas[i] && e.attributeName == name;
      LsiUses(args, input, i);
      assert name in Names(input.lsiKeySchemas[i]) && args.lsis[i] in args.lsis;
    }
    forall name | name in LsiUsedNames(args)
      ensures name in used
    {
      var i :| 0 <= i < |args.lsis| && (args.lsis[i].sortKey == name || name == HashKeyOf(args.keySchema));
      LsiUses(args, input, i);
    }
  }

  function LsiUsedNames(args: CreateArgs): set<string> {
    LsiNames(args.lsis) + if args.lsis == [] then {} else {HashKeyOf(args.keySchema)}
  }

  /**
   The definitions name exactly the attributes the key schemas use, if and only if local indexes come with a HASH
   entry in the key schema (or the empty name, which a missing hash key leaves behind, is used elsewhere anyway).
   */
  lemma DefinesWhatItUsesIff(args: CreateArgs, input: TableInput)
    requires IsInputFor(args, input)
    ensures (set d | d in input.definitions :: d.attributeName) == UsedNames(input)
       <==> args.lsis == [] || HasHashEntry(args.keySchema) || "" in DefinedNames(args)
  {
    UsedByKeys(args, input);
    UsedByGsis(args, input);
    UsedByLsis(args, input);
    HashKeyIsAnEntry(args.keySchema);
    if HasHashEntry(args.keySchema) {
      var i :| 0 <= i < |args.keySchema| && args.keySchema[i].keyType == "HASH"
        && args.keySchema[i].attributeName == HashKeyOf(args.keySchema);
      assert args.keySchema[i] in args.keySchema;
      assert HashKeyOf(args.keySchema) in DefinedNames(args);
    }
    if args.lsis != [] {
      assert UsedNames(input) == DefinedNames(args) + {HashKeyOf(args.keySchema)};
    } else {
      assert UsedNames(input) == DefinedNames(args);
    }
  }

  const NO_HASH_KEY := CreateArgs([KeyArg("id", "RANGE")], [], [], [LsiArg("byDate", "date")])

  const HASH_KEY_UNDEFINED := TableInput(
    [KeySchemaElement("id", Range)], [], [[KeySchemaElement("", Hash), KeySchemaElement("date", Range)]],
    [AttributeDefinition("id", "S"), AttributeDefinition("date", "S")])

  // A request that is not refused and leaves the local index's hash key, the empty name, undefined.
  lemma HashKeyLeftUndefined()
    ensures !IsRefused(NO_HASH_KEY) && IsInputFor(NO_HASH_KEY, HASH_KEY_UNDEFINED)
    ensures (set d | d in HASH_KEY_UNDEFINED.definitions :: d.attributeName) != UsedNames(HASH_KEY_UNDEFINED)
  {
    var args, input := NO_HASH_KEY, HASH_KEY_UNDEFINED;
    assert args.keySchema[0] in args.keySchema && args.lsis[0] in args.lsis;
    assert args.keySchema[..0] == [];
    assert HashKeyOf(args.keySchema) == "";
    assert DefinedNames(args) == {"id", "date"};
    assert input.definitions[0] in input.definitions && input.definitions[1] in input.definitions;
    assert (set d | d in input.definitions :: d.attributeName) == {"id", "date"};
    assert !HasHashEntry(args.keySchema);
    DefinesWhatItUsesIff(args, input);
  }
}
