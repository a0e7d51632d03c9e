/** One index of the `indexes` model config (`relation_configs/index.py`): validation, parsing,
    and the identity payload that its managed name is a hash of. */
module IndexConfig {
  import opened Text
  import opened Sorting

  datatype IndexType = Clustered | NonClustered | ColumnStore

  /** The fields that say what the index is: exactly those the source compares and hashes. */
  datatype Definition = Definition(
    columns: seq<string>,
    unique: bool,
    indexType: IndexType,
    included: set<string>,
    dataCompression: Option<string>,
    descending: set<string>,
    filter: Option<string>,
    fillfactor: Option<int>,
    padIndex: bool,
    ignoreDupKey: bool,
    optimizeForSequentialKey: bool)

  /** The value of a build option. */
  datatype OptionValue = Flag(on: bool) | Number(n: int) | Word(text: string)

  type BuildOptions = Option<map<string, OptionValue>>

  /** A config: its definition and the options that only say how to build it. */
  datatype Config = Config(definition: Definition, sortInTempdb: bool, buildOptions: BuildOptions)

  predicate Truthy(v: OptionValue) {
    match v
    case Flag(on) => on
    case Number(n) => n != 0
    case Word(text) => text != ""
  }

  /** The option is given, and its value is neither false, zero nor empty. */
  predicate AsksFor(options: map<string, OptionValue>, key: string) {
    key in options && options[key] != Flag(false) && options[key] != Number(0) && options[key] != Word("")
  }

  /** `create_needs_own_batch`. */
  predicate NeedsOwnBatch(options: BuildOptions): (r: bool)
    ensures r <==> options.Some? && (AsksFor(options.value, "online") || AsksFor(options.value, "resumable"))
  {
    options.Some? &&
    (|| ("online" in options.value && Truthy(options.value["online"]))
     || ("resumable" in options.value && Truthy(options.value["resumable"])))
  }

  const VALID_BUILD_OPTIONS: set<string> := {
    "online", "maxdop", "resumable", "max_duration", "allow_row_locks", "allow_page_locks",
    "statistics_norecompute", "statistics_incremental", "compression_delay"
  }

  predicate IsSet(text: Option<string>) {
    text.Some? && text.value != ""
  }

  /** The validation rules on the definition. */
  predicate ValidDefinition(d: Definition) {
    && d.columns != []
    && (d.included != {} ==> d.indexType.NonClustered?)
    && (d.unique ==> !d.indexType.ColumnStore?)
    && (d.dataCompression.Some? ==>
          if d.indexType.ColumnStore? then d.dataCompression.value in ["columnstore", "columnstore_archive"]
          else d.dataCompression.value in ["none", "row", "page"])
    && d.descending <= AsSet(d.columns)
    && !(IsSet(d.filter) && d.indexType.Clustered?)
    && (d.fillfactor.Some? ==> 1 <= d.fillfactor.value <= 100 && !d.indexType.ColumnStore?)
    && !(d.padIndex && d.indexType.ColumnStore?)
    && (d.ignoreDupKey ==> d.unique && !d.indexType.ColumnStore? && !IsSet(d.filter))
    && (d.optimizeForSequentialKey ==> !d.indexType.ColumnStore?)
  }

  /** All validation rules. */
  predicate Valid(c: Config) {
    && ValidDefinition(c.definition)
    && !(c.definition.indexType.ColumnStore? && c.sortInTempdb)
    && (c.buildOptions.Some? ==> c.buildOptions.value.Keys <= VALID_BUILD_OPTIONS)
  }

  // ------------------------------------------------------------------ identity

  /** A value of the identity payload. */
  datatype Json = Text(s: string) | Integer(n: int) | True | List(items: seq<string>)

  /** The keys of the payload. */
  datatype Key =
    | Relation | Columns | IncludedColumns | Unique | Type | DataCompression | DescendingColumns
    | Where | Fillfactor | PadIndex | IgnoreDupKey | OptimizeForSequentialKey

  /** The payload: `json.dumps` sorts its keys, so it is a map. */
  type Payload = map<Key, Json>

  function TypeName(t: IndexType): string {
    match t
    case Clustered => "clustered"
    case NonClustered => "nonclustered"
    case ColumnStore => "columnstore"
  }

  /** What the payload says under each key: optional fields only when set. */
  function Field(d: Definition, relation: string, key: Key): Option<Json> {
    match key
    case Relation => Some(Text(relation))
    case Columns => Some(List(d.columns))
    case IncludedColumns => When(d.included != {}, List(SortedList(d.included)))
    case Unique => When(d.unique, True)
    case Type => When(!d.indexType.NonClustered?, Text(TypeName(d.indexType)))
    case DataCompression => if IsSet(d.dataCompression) then Some(Text(d.dataCompression.value)) else None
    case DescendingColumns => When(d.descending != {}, List(SortedList(d.descending)))
    case Where => if IsSet(d.filter) then Some(Text(d.filter.value)) else None
    case Fillfactor =>
      if d.fillfactor.Some? && d.fillfactor.value != 0 then Some(Integer(d.fillfactor.value)) else None
    case PadIndex => When(d.padIndex, True)
    case IgnoreDupKey => When(d.ignoreDupKey, True)
    case OptimizeForSequentialKey => When(d.optimizeForSequentialKey, True)
  }

  function When(present: bool, value: Json): Option<Json> {
    if present then Some(value) else None
  }

  function PayloadOf(d: Definition, relation: string): Payload {
    map key: Key | Field(d, relation, key).Some? :: Field(d, relation, key).value
  }

  /** A relation's way of naming managed indexes: its rendered name and the payload hash. */
  datatype Naming = Naming(relation: string, hash: Payload -> string)

  const MANAGED_PREFIX := "dbt_idx_"

  /** `render`. */
  function NameOf(d: Definition, naming: Naming): string {
    MANAGED_PREFIX + naming.hash(PayloadOf(d, naming.relation))
  }

  /** The order in which `render` handles the keys. */
  function Position(key: Key): nat {
    match key
    case Relation => 0
    case Columns => 1
    case IncludedColumns => 2
    case Unique => 3
    case Type => 4
    case DataCompression => 5
    case DescendingColumns => 6
    case Where => 7
    case Fillfactor => 8
    case PadIndex => 9
    case IgnoreDupKey => 10
    case OptimizeForSequentialKey => 11
  }

  /** `identity` holds the fields of the first `n` keys. */
  ghost predicate Filled(identity: Payload, d: Definition, relation: string, n: nat) {
    forall k: Key :: if Position(k) < n then (k in identity <==> Field(d, relation, k).Some?)
                                             && (k in identity ==> identity[k] == Field(d, relation, k).value)
                     else k !in identity
  }

  lemma FillOne(identity: Payload, d: Definition, relation: string, key: Key)
    requires Filled(identity, d, relation, Position(key))
    ensures var f := Field(d, relation, key);
            Filled(if f.Some? then identity[key := f.value] else identity, d, relation, Position(key) + 1)
  {
  }

  /** `render`, filling the payload key by key. */
  method Render(c: Config, naming: Naming) returns (name: string)
    ensures name == NameOf(c.definition, naming)
  {
    hide SortedList, Filled, PayloadOf, Field;
    FilledNothing(c.definition, naming.relation);
    var identity := FillShape(map[], c.definition, naming.relation);
    identity := FillStorage(identity, c.definition, naming.relation);
    identity := FillFlags(identity, c.definition, naming.relation);
    FilledAll(identity, c.definition, naming.relation);
    name := MANAGED_PREFIX + naming.hash(identity);
  }

  method FillShape(start: Payload, d: Definition, relation: string) returns (identity: Payload)
    requires Filled(start, d, relation, 0)
    ensures Filled(identity, d, relation, 5)
  {
    hide SortedList, Filled;
    identity := start;
    FillOne(identity, d, relation, Key.Relation);
    identity := identity[Key.Relation := Text(relation)];
    FillOne(identity, d, relation, Key.Columns);
    identity := identity[Key.Columns := List(d.columns)];
    FillOne(identity, d, relation, Key.IncludedColumns);
    if d.included != {} {
      identity := identity[Key.IncludedColumns := List(SortedList(d.included))];
    }
    FillOne(identity, d, relation, Key.Unique);
    if d.unique {
      identity := identity[Key.Unique := True];
    }
    FillOne(identity, d, relation, Key.Type);
    if !d.indexType.NonClustered? {
      identity := identity[Key.Type := Text(TypeName(d.indexType))];
    }
  }

  method FillStorage(start: Payload, d: Definition, relation: string) returns (identity: Payload)
    requires Filled(start, d, relation, 5)
    ensures Filled(identity, d, relation, 9)
  {
    hide SortedList, Filled, TypeName;
    identity := start;
    FillOne(identity, d, relation, Key.DataCompression);
    if IsSet(d.dataCompression) {
      identity := identity[Key.DataCompression := Text(d.dataCompression.value)];
    }
    FillOne(identity, d, relation, Key.DescendingColumns);
    if d.descending != {} {
      identity := identity[Key.DescendingColumns := List(SortedList(d.descending))];
    }
    FillOne(identity, d, relation, Key.Where);
    if IsSet(d.filter) {
      identity := identity[Key.Where := Text(d.filter.value)];
    }
    FillOne(identity, d, relation, Key.Fillfactor);
    if d.fillfactor.Some? && d.fillfactor.value != 0 {
      identity := identity[Key.Fillfactor := Integer(d.fillfactor.value)];
    }
  }

  method FillFlags(start: Payload, d: Definition, relation: string) returns (identity: Payload)
    requires Filled(start, d, relation, 9)
    ensures Filled(identity, d, relation, 12)
  {
    hide SortedList, Filled, TypeName;
    identity := start;
    FillOne(identity, d, relation, Key.PadIndex);
    if d.padIndex {
      identity := identity[Key.PadIndex := True];
    }
    FillOne(identity, d, relation, Key.IgnoreDupKey);
    if d.ignoreDupKey {
      identity := identity[Key.IgnoreDupKey := True];
    }
    FillOne(identity, d, relation, Key.OptimizeForSequentialKey);
    if d.optimizeForSequentialKey {
      identity := identity[Key.OptimizeForSequentialKey := True];
    }
  }

  lemma FilledNothing(d: Definition, relation: string)
    ensures Filled(map[], d, relation, 0)
  {
  }

  lemma FilledAll(identity: Payload, d: Definition, relation: string)
    requires Filled(identity, d, relation, 12)
    ensures identity == PayloadOf(d, relation)
  {
  }

  /** The flags stand in the payload when they are set, the fill factor when it is neither none nor zero. */
  lemma PayloadFlags(d: Definition, relation: string)
    ensures var p := PayloadOf(d, relation);
            && (Key.Unique in p <==> d.unique) && (Key.PadIndex in p <==> d.padIndex)
            && (Key.IgnoreDupKey in p <==> d.ignoreDupKey)
            && (Key.OptimizeForSequentialKey in p <==> d.optimizeForSequentialKey)
            && (Key.Fillfactor in p <==> d.fillfactor != None && d.fillfactor != Some(0))
            && (Key.Fillfactor in p ==> p[Key.Fillfactor] == Integer(d.fillfactor.value))
  {
    hide SortedList;
  }

  /** What a payload says: the relation, the columns in order, sets of columns as ascending lists, and everything
      else only where it departs from a plain nonclustered index. */
  lemma PayloadSays(d: Definition, relation: string)
    ensures var p := PayloadOf(d, relation);
            && Key.Relation in p && p[Key.Relation] == Text(relation)
            && Key.Columns in p && p[Key.Columns] == List(d.columns)
            && (Key.IncludedColumns in p <==> d.included != {})
            && (d.included != {} ==> p[Key.IncludedColumns].List? && AsSet(p[Key.IncludedColumns].items) == d.included)
            && (Key.DescendingColumns in p <==> d.descending != {})
            && (d.descending != {} ==> p[Key.DescendingColumns].List? && AsSet(p[Key.DescendingColumns].items) == d.descending)
            && (Key.Type !in p <==> d.indexType == NonClustered)
            && (d.indexType == Clustered ==> p[Key.Type] == Text("clustered"))
            && (d.indexType == ColumnStore ==> p[Key.Type] == Text("columnstore"))
            && (Key.Where in p <==> d.filter != None && d.filter != Some(""))
            && (Key.Where in p ==> p[Key.Where] == Text(d.filter.value))
            && (Key.DataCompression in p <==> d.dataCompression != None && d.dataCompression != Some(""))
            && (Key.DataCompression in p ==> p[Key.DataCompression] == Text(d.dataCompression.value))
            && (Key.Unique in p <==> d.unique) && (Key.PadIndex in p <==> d.padIndex)
            && (Key.IgnoreDupKey in p <==> d.ignoreDupKey)
            && (Key.OptimizeForSequentialKey in p <==> d.optimizeForSequentialKey)
  {
    hide SortedList;
    PayloadFlags(d, relation);
    SortedListMeaning(d.included);
    SortedListMeaning(d.descending);
  }

  /** Equal payloads say the same under every key, and conversely. */
  lemma PayloadEqual(c: Definition, d: Definition, relation: string)
    ensures PayloadOf(c, relation) == PayloadOf(d, relation)
            <==> forall k: Key :: Field(c, relation, k) == Field(d, relation, k)
  {
    hide Field;
    var p, q := PayloadOf(c, relation), PayloadOf(d, relation);
    if p == q {
      forall k: Key ensures Field(c, relation, k) == Field(d, relation, k) {
        assert k in p <==> Field(c, relation, k).Some?;
        assert k in q <==> Field(d, relation, k).Some?;
      }
    }
  }

  /** An empty filter means the same as none. */
  function Canonical(d: Definition): Definition {
    if d.filter == Some("") then d.(filter := None) else d
  }

  lemma SortedListInjective(s: set<string>, t: set<string>)
    requires SortedList(s) == SortedList(t)
    ensures s == t
  {
    SortedListMeaning(s);
    SortedListMeaning(t);
  }

  /** Payloads determine the key columns and the type, whatever else differs. */
  lemma PayloadFixesShape(c: Definition, d: Definition, relation: string)
    requires PayloadOf(c, relation) == PayloadOf(d, relation)
    ensures c.columns == d.columns && c.indexType == d.indexType && c.unique == d.unique
    ensures c.included == d.included
  {
    hide PayloadOf, SortedList;
    PayloadEqual(c, d, relation);
    assert Field(c, relation, Columns) == Field(d, relation, Columns);
    assert Field(c, relation, Type) == Field(d, relation, Type);
    assert Field(c, relation, Unique) == Field(d, relation, Unique);
    assert Field(c, relation, IncludedColumns) == Field(d, relation, IncludedColumns);
    if c.included != {} && d.included != {} {
      SortedListInjective(c.included, d.included);
    }
    TypeNamesDiffer(c.indexType, d.indexType);
  }

  lemma TypeNamesDiffer(a: IndexType, b: IndexType)
    ensures TypeName(a) == TypeName(b) <==> a == b
  {
  }

  /** Index identity is faithful: two validated configs have the same payload exactly when their
      definitions agree, an empty filter counting as none. */
  lemma PayloadFaithful(c: Definition, d: Definition, relation: string)
    requires ValidDefinition(c) && ValidDefinition(d)
    ensures PayloadOf(c, relation) == PayloadOf(d, relation) <==> Canonical(c) == Canonical(d)
  {
    hide PayloadOf, SortedList;
    PayloadEqual(c, d, relation);
    CompressionNotBlank(c);
    CompressionNotBlank(d);
    if PayloadOf(c, relation) == PayloadOf(d, relation) {
      PayloadFixesShape(c, d, relation);
      PayloadFixesStorage(c, d, relation);
      PayloadFixesFlags(c, d, relation);
    }
    if Canonical(c) == Canonical(d) {
      CanonicalPayload(c, d, relation);
    }
  }

  lemma PayloadFixesStorage(c: Definition, d: Definition, relation: string)
    requires ValidDefinition(c) && ValidDefinition(d)
    requires forall k: Key :: Field(c, relation, k) == Field(d, relation, k)
    ensures c.dataCompression == d.dataCompression && c.descending == d.descending
    ensures Canonical(c).filter == Canonical(d).filter
  {
    hide SortedList, TypeName;
    CompressionNotBlank(c);
    CompressionNotBlank(d);
    hide ValidDefinition;
    assert Field(c, relation, DataCompression) == Field(d, relation, DataCompression);
    assert Field(c, relation, DescendingColumns) == Field(d, relation, DescendingColumns);
    assert Field(c, relation, Where) == Field(d, relation, Where);
    if c.descending != {} && d.descending != {} {
      SortedListInjective(c.descending, d.descending);
    }
  }

  lemma PayloadFixesFlags(c: Definition, d: Definition, relation: string)
    requires ValidDefinition(c) && ValidDefinition(d)
    requires forall k: Key :: Field(c, relation, k) == Field(d, relation, k)
    ensures c.fillfactor == d.fillfactor
    ensures c.padIndex == d.padIndex && c.ignoreDupKey == d.ignoreDupKey
    ensures c.optimizeForSequentialKey == d.optimizeForSequentialKey
  {
    hide SortedList, TypeName;
    assert Field(c, relation, Fillfactor) == Field(d, relation, Fillfactor);
    assert Field(c, relation, PadIndex) == Field(d, relation, PadIndex);
    assert Field(c, relation, IgnoreDupKey) == Field(d, relation, IgnoreDupKey);
    assert Field(c, relation, OptimizeForSequentialKey) == Field(d, relation, OptimizeForSequentialKey);
  }

  lemma CompressionNotBlank(d: Definition)
    requires ValidDefinition(d)
    ensures d.dataCompression != Some("")
  {
  }

  lemma CanonicalPayload(c: Definition, d: Definition, relation: string)
    requires Canonical(c) == Canonical(d)
    ensures PayloadOf(c, relation) == PayloadOf(d, relation)
  {
    hide SortedList, TypeName, PayloadOf;
    PayloadEqual(c, d, relation);
    forall k: Key ensures Field(c, relation, k) == Field(d, relation, k) {
    }
  }

  ghost predicate Injective(hash: Payload -> string) {
    forall p, q :: hash(p) == hash(q) ==> p == q
  }

  /** Names agree exactly when definitions do, so build options never change a name and moving a
      key column to the included columns always does. */
  lemma NameFaithful(c: Config, d: Config, naming: Naming)
    requires Valid(c) && Valid(d) && Injective(naming.hash)
    ensures NameOf(c.definition, naming) == NameOf(d.definition, naming)
            <==> Canonical(c.definition) == Canonical(d.definition)
  {
    NameFixesPayload(c.definition, d.definition, naming);
    PayloadFaithful(c.definition, d.definition, naming.relation);
  }

  lemma NameFixesPayload(c: Definition, d: Definition, naming: Naming)
    requires Injective(naming.hash)
    ensures NameOf(c, naming) == NameOf(d, naming)
            <==> PayloadOf(c, naming.relation) == PayloadOf(d, naming.relation)
  {
    hide PayloadOf;
    var x, y := naming.hash(PayloadOf(c, naming.relation)), naming.hash(PayloadOf(d, naming.relation));
    assert (MANAGED_PREFIX + x)[8..] == x && (MANAGED_PREFIX + y)[8..] == y;
  }

  // ------------------------------------------------------------------- parsing

  /** An entry of the raw `columns` list. */
  datatype RawColumn = Name(name: string) | Entry(column: string, desc: bool) | Malformed

  /** The raw dictionary; keys left out hold the source's defaults. */
  datatype RawIndex = NotADict | RawIndex(
    columns: seq<RawColumn>,
    unique: bool,
    typeName: Option<string>,
    included: seq<string>,
    dataCompression: Option<string>,
    sortInTempdb: bool,
    descending: seq<string>,
    filter: Option<string>,
    fillfactor: Option<int>,
    padIndex: bool,
    ignoreDupKey: bool,
    optimizeForSequentialKey: bool,
    buildOptions: BuildOptions)

  datatype ParseError = IndexConfigNotDict | IndexConfigInvalid

  datatype Result<T> = Ok(value: T) | Err(error: ParseError)

  /** `_normalize_data_compression`. */
  function NormalizeDataCompression(value: Option<string>): Option<string> {
    if value.None? || Lower(value.value) == "none" then None else Some(Lower(value.value))
  }

  /** The names of `_normalize_columns`; None when some entry is malformed. */
  function ColumnNames(raw: seq<RawColumn>): Option<seq<string>> {
    if raw == [] then Some([])
    else
      var init, last := ColumnNames(raw[..|raw| - 1]), raw[|raw| - 1];
      if init.None? || last.Malformed? then None
      else Some(init.value + [if last.Name? then last.name else last.column])
  }

  /** The descending names of `_normalize_columns`. */
  function DescendingNames(raw: seq<RawColumn>): seq<string> {
    if raw == [] then []
    else
      var last := raw[|raw| - 1];
      DescendingNames(raw[..|raw| - 1]) + (if last.Entry? && last.desc then [last.column] else [])
  }

  function ParseType(name: Option<string>): Option<IndexType> {
    if name.None? then Some(NonClustered)
    else if name.value == "clustered" then Some(Clustered)
    else if name.value == "nonclustered" then Some(NonClustered)
    else if name.value == "columnstore" then Some(ColumnStore)
    else None
  }

  /** `parse`: normalisation, the schema check, and the validation rules. */
  function Parsed(raw: RawIndex): Result<Config> {
    if raw.NotADict? then Err(IndexConfigNotDict)
    else
      var names, indexType := ColumnNames(raw.columns), ParseType(raw.typeName);
      if names.None? || indexType.None? then Err(IndexConfigInvalid)
      else
        var c := Config(
                   Definition(names.value, raw.unique, indexType.value, AsSet(raw.included),
                              NormalizeDataCompression(raw.dataCompression),
                              AsSet(DescendingNames(raw.columns)) + AsSet(raw.descending),
                              raw.filter, raw.fillfactor, raw.padIndex, raw.ignoreDupKey,
                              raw.optimizeForSequentialKey),
                   raw.sortInTempdb, raw.buildOptions);
        if Valid(c) then Ok(c) else Err(IndexConfigInvalid)
  }

  /** `_normalize_columns`. */
  method NormalizeColumns(raw: seq<RawColumn>) returns (names: Option<seq<string>>, descending: seq<string>)
    ensures names == ColumnNames(raw) && descending == DescendingNames(raw)
  {
    names, descending := Some([]), [];
    for i := 0 to |raw|
      invariant names == ColumnNames(raw[..i]) && descending == DescendingNames(raw[..i])
    {
      var entry := raw[i];
      assert raw[..i + 1][..i] == raw[..i];
      match entry {
        case Entry(column, desc) =>
          names := if names.None? then None else Some(names.value + [column]);
          if desc {
            descending := descending + [column];
          }
        case Name(name) =>
          names := if names.None? then None else Some(names.value + [name]);
        case Malformed =>
          names := None;
      }
    }
    assert raw[..|raw|] == raw;
  }

  /** `parse`. */
  method Parse(raw: RawIndex) returns (r: Result<Config>)
    ensures r == Parsed(raw)
  {
    if raw.NotADict? {
      return Err(IndexConfigNotDict);
    }
    var names, descending := NormalizeColumns(raw.columns);
    var indexType := ParseType(raw.typeName);
    if names.None? || indexType.None? {
      return Err(IndexConfigInvalid);
    }
    var merged := AsSet(descending) + AsSet(raw.descending);
    var c := Config(
      Definition(names.value, raw.unique, indexType.value, AsSet(raw.included),
                 NormalizeDataCompression(raw.dataCompression), merged, raw.filter, raw.fillfactor,
                 raw.padIndex, raw.ignoreDupKey, raw.optimizeForSequentialKey),
      raw.sortInTempdb, raw.buildOptions);
    return if Valid(c) then Ok(c) else Err(IndexConfigInvalid);
  }

  // ------------------------------------------------------- what parsing means, field by field

  function EntryName(entry: RawColumn): string
    requires !entry.Malformed?
  {
    if entry.Name? then entry.name else entry.column
  }

  predicate WellFormedColumns(columns: seq<RawColumn>) {
    forall i :: 0 <= i < |columns| ==> !columns[i].Malformed?
  }

  /** The entry asks for this column in descending order. */
  predicate Descends(entry: RawColumn, column: string) {
    entry.Entry? && entry.desc && entry.column == column
  }

  /** Some key column has this name. */
  predicate HasColumn(columns: seq<RawColumn>, name: string)
    requires WellFormedColumns(columns)
  {
    exists i :: 0 <= i < |columns| && EntryName(columns[i]) == name
  }

  predicate IsColumnStore(raw: RawIndex)
    requires raw.RawIndex?
  {
    raw.typeName == Some("columnstore")
  }

  /** What the raw fields must satisfy, in terms of themselves. */
  predicate Accepts(raw: RawIndex) {
    && raw.RawIndex?
    && raw.columns != [] && WellFormedColumns(raw.columns)
    && (raw.typeName.None? || raw.typeName.value in ["clustered", "nonclustered", "columnstore"])
    && (raw.included != [] ==> raw.typeName.None? || raw.typeName.value == "nonclustered")
    && (forall i :: 0 <= i < |raw.descending| ==> HasColumn(raw.columns, raw.descending[i]))
    && (raw.dataCompression.None? || Lower(raw.dataCompression.value) == "none"
        || Lower(raw.dataCompression.value)
           in (if IsColumnStore(raw) then ["columnstore", "columnstore_archive"] else ["row", "page"]))
    && (raw.filter.Some? && raw.filter.value != "" ==> raw.typeName != Some("clustered") && !raw.ignoreDupKey)
    && (raw.fillfactor.Some? ==> 1 <= raw.fillfactor.value <= 100)
    && (raw.ignoreDupKey ==> raw.unique)
    && (IsColumnStore(raw) ==>
          && !raw.unique && !raw.sortInTempdb && raw.fillfactor.None?
          && !raw.padIndex && !raw.ignoreDupKey && !raw.optimizeForSequentialKey)
    && (raw.buildOptions.Some? ==>
          raw.buildOptions.value.Keys <= {"online", "resumable", "max_duration", "maxdop", "allow_row_locks",
                                          "allow_page_locks", "statistics_norecompute", "statistics_incremental",
                                          "compression_delay"})
  }

  lemma {:induction false} ColumnNamesMeaning(columns: seq<RawColumn>)
    ensures ColumnNames(columns).Some? <==> WellFormedColumns(columns)
    ensures WellFormedColumns(columns) ==>
              var names := ColumnNames(columns).value;
              |names| == |columns| && forall i :: 0 <= i < |names| ==> names[i] == EntryName(columns[i])
  {
    if columns != [] {
      var init := columns[..|columns| - 1];
      ColumnNamesMeaning(init);
      assert forall i :: 0 <= i < |init| ==> init[i] == columns[i];
    }
  }

  lemma {:induction false} DescendingMeaning(columns: seq<RawColumn>, name: string)
    ensures name in DescendingNames(columns) <==> exists i :: 0 <= i < |columns| && Descends(columns[i], name)
  {
    if columns != [] {
      var init := columns[..|columns| - 1];
      DescendingMeaning(init, name);
      if i :| 0 <= i < |columns| && Descends(columns[i], name) {
        assert i < |init| ==> init[i] == columns[i];
      }
      if i :| 0 <= i < |init| && Descends(init[i], name) {
        assert columns[i] == init[i];
      }
    }
  }

  /** Descending names are key columns exactly when the separately listed ones are: an entry's own is. */
  lemma DescendingAreColumns(raw: RawIndex)
    requires raw.RawIndex? && WellFormedColumns(raw.columns) && ColumnNames(raw.columns).Some?
    ensures AsSet(DescendingNames(raw.columns)) + AsSet(raw.descending) <= AsSet(ColumnNames(raw.columns).value)
            <==> forall i :: 0 <= i < |raw.descending| ==> HasColumn(raw.columns, raw.descending[i])
  {
    ColumnNamesMeaning(raw.columns);
    var names := ColumnNames(raw.columns).value;
    forall x ensures x in AsSet(names) <==> HasColumn(raw.columns, x) {
      if HasColumn(raw.columns, x) {
        var i :| 0 <= i < |raw.columns| && EntryName(raw.columns[i]) == x;
        assert names[i] == x;
      }
    }
    forall x | x in DescendingNames(raw.columns) ensures HasColumn(raw.columns, x) {
      DescendingMeaning(raw.columns, x);
      var i :| 0 <= i < |raw.columns| && Descends(raw.columns[i], x);
      assert EntryName(raw.columns[i]) == x;
    }
    forall i | 0 <= i < |raw.descending| ensures raw.descending[i] in AsSet(raw.descending) {
    }
  }

  /** Parsing accepts exactly the dictionaries whose raw fields satisfy every rule. */
  lemma ParseAcceptsIff(raw: RawIndex)
    ensures Parsed(raw).Ok? <==> Accepts(raw)
    ensures Parsed(raw) == Err(IndexConfigNotDict) <==> raw.NotADict?
  {
    hide ColumnNames, DescendingNames, Lower;
    if raw.RawIndex? {
      ColumnNamesMeaning(raw.columns);
      if WellFormedColumns(raw.columns) {
        DescendingAreColumns(raw);
        SetEmpty(raw.included);
        TypeNamesDiffer(Clustered, NonClustered);
      }
    }
  }

  lemma SetEmpty(names: seq<string>)
    ensures AsSet(names) == {} <==> names == []
  {
    if names != [] {
      assert names[0] in AsSet(names);
    }
  }

  /** An accepted dictionary's config: its columns in order, the descending ones named either way, the
      included ones as a set, the compression lower-cased, `none` meaning none, and the rest as written. */
  lemma ParsedMeaning(raw: RawIndex)
    requires Parsed(raw).Ok?
    ensures var d := Parsed(raw).value.definition;
            && |d.columns| == |raw.columns|
            && WellFormedColumns(raw.columns)
            && (forall i :: 0 <= i < |d.columns| ==> d.columns[i] == EntryName(raw.columns[i]))
            && (forall x :: x in d.descending <==>
                  x in raw.descending || exists i :: 0 <= i < |raw.columns| && Descends(raw.columns[i], x))
            && (forall x :: x in d.included <==> x in raw.included)
            && TypeName(d.indexType) == (if raw.typeName.None? then "nonclustered" else raw.typeName.value)
            && d.dataCompression == (if raw.dataCompression.None? || Lower(raw.dataCompression.value) == "none" then None
                                     else Some(Lower(raw.dataCompression.value)))
            && d.unique == raw.unique && d.filter == raw.filter && d.fillfactor == raw.fillfactor
            && d.padIndex == raw.padIndex && d.ignoreDupKey == raw.ignoreDupKey
            && d.optimizeForSequentialKey == raw.optimizeForSequentialKey
            && Parsed(raw).value.sortInTempdb == raw.sortInTempdb && Parsed(raw).value.buildOptions == raw.buildOptions
  {
    hide Valid, ColumnNames, DescendingNames, Lower;
    ColumnNamesMeaning(raw.columns);
    forall x
      ensures x in DescendingNames(raw.columns) <==> exists i :: 0 <= i < |raw.columns| && Descends(raw.columns[i], x)
    {
      DescendingMeaning(raw.columns, x);
    }
  }

  function PlainColumns(columns: seq<string>): (r: seq<RawColumn>)
    ensures |r| == |columns| && forall i :: 0 <= i < |r| ==> r[i] == Name(columns[i])
  {
    seq(|columns|, i requires 0 <= i < |columns| => Name(columns[i]))
  }

  /** `as_node_config`. */
  function AsNodeConfig(c: Config): RawIndex {
    var d := c.definition;
    RawIndex(
      PlainColumns(d.columns), d.unique, Some(TypeName(d.indexType)), SortedList(d.included),
      d.dataCompression, c.sortInTempdb, SortedList(d.descending), d.filter, d.fillfactor,
      d.padIndex, d.ignoreDupKey, d.optimizeForSequentialKey,
      if c.buildOptions == Some(map[]) then None else c.buildOptions)
  }

  lemma {:induction false} PlainColumnsRead(columns: seq<string>)
    ensures ColumnNames(PlainColumns(columns)) == Some(columns)
    ensures DescendingNames(PlainColumns(columns)) == []
  {
    if columns != [] {
      var init := columns[..|columns| - 1];
      PlainColumnsRead(init);
      assert PlainColumns(columns)[..|columns| - 1] == PlainColumns(init);
      assert init + [columns[|columns| - 1]] == columns;
    }
  }

  lemma NormalizedCompressionFixed(value: Option<string>)
    ensures var v := NormalizeDataCompression(value); NormalizeDataCompression(v) == v
  {
    if value.Some? {
      LowerIdempotent(value.value);
    }
  }

  lemma TypeNameParses(t: IndexType)
    ensures ParseType(Some(TypeName(t))) == Some(t)
  {
  }

  /** What every parsed config satisfies: it is valid and its compression is normalised. */
  predicate Normal(c: Config) {
    Valid(c) && NormalizeDataCompression(c.definition.dataCompression) == c.definition.dataCompression
  }

  lemma ParsedNormal(raw: RawIndex)
    requires Parsed(raw).Ok?
    ensures Normal(Parsed(raw).value)
  {
    hide Valid;
    NormalizedCompressionFixed(raw.dataCompression);
  }

  /** A parsed config fed back as a node config parses to itself: the same definition, hence the
      same name, and the same decision whether it needs its own batch. Only an empty dictionary of
      build options comes back as none. */
  lemma NodeConfigRoundTrip(c: Config, naming: Naming)
    requires Normal(c)
    ensures var again := Parsed(AsNodeConfig(c));
            && again.Ok?
            && again.value.definition == c.definition && again.value.sortInTempdb == c.sortInTempdb
            && again.value.buildOptions == (if c.buildOptions == Some(map[]) then None else c.buildOptions)
            && NameOf(again.value.definition, naming) == NameOf(c.definition, naming)
            && (NeedsOwnBatch(again.value.buildOptions) <==> NeedsOwnBatch(c.buildOptions))
  {
    hide SortedList, TypeName, ParseType, NormalizeDataCompression, PlainColumns, ColumnNames, DescendingNames, NameOf;
    var d := c.definition;
    PlainColumnsRead(d.columns);
    TypeNameParses(d.indexType);
    SortedListMeaning(d.included);
    SortedListMeaning(d.descending);
    assert AsSet([]) + AsSet(SortedList(d.descending)) == d.descending;
    var raw := AsNodeConfig(c);
    hide ValidDefinition;
    assert ColumnNames(raw.columns) == Some(d.columns);
  }
}
