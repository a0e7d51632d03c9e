/** The diff of `relation_configs/index.py` and its driver in `sqlserver_adapter.py`: which indexes a
    reconcile drops and creates, and in which order. */
module IndexReconcile {
  import opened Text
  import opened Dict
  import opened Sorting
  import opened IndexConfig

  /** A row of the describe query. `kind` is its `type` column, "" when null. */
  datatype Row = Row(name: string, kind: string, isPrimaryKey: bool, isUniqueConstraint: bool, columns: string)

  /** The `drop_unmanaged_indexes` setting: YAML yields a boolean or a string. */
  datatype RawMode = FromBool(on: bool) | FromText(text: string)

  datatype Mode = KeepUnmanaged | WarnUnmanaged | DropUnmanaged

  datatype ReconcileError =
    | InvalidMode
    | InvalidIndex(parse: ParseError)
    | NameCollision(name: string)
    | ClusteredBlocked(names: seq<string>)
    | TooManyClustered(count: nat)
    | ConflictsWithColumnstore

  datatype Outcome<+T> = Success(value: T) | Failure(error: ReconcileError)

  /** `normalize_drop_unmanaged`. */
  function NormalizeDropUnmanaged(value: RawMode): (r: Outcome<Mode>)
    ensures r.Failure? <==> value.FromText? && value.text !in ["false", "warn", "true"]
    ensures r == Success(DropUnmanaged) <==> value == FromBool(true) || value == FromText("true")
    ensures r == Success(WarnUnmanaged) <==> value == FromText("warn")
  {
    var text := if value.FromText? then value.text else if value.on then "true" else "false";
    if text == "false" then Success(KeepUnmanaged)
    else if text == "warn" then Success(WarnUnmanaged)
    else if text == "true" then Success(DropUnmanaged)
    else Failure(InvalidMode)
  }

  predicate Managed(name: string) {
    MANAGED_PREFIX <= name
  }

  predicate Legacy(name: string) {
    "clustered_" <= name || "nonclustered_" <= name
  }

  predicate Protected(row: Row) {
    row.isPrimaryKey || row.isUniqueConstraint || row.kind == "clustered columnstore"
  }

  /** The row occupies the one clustered slot of its table. */
  predicate InSlot(row: Row) {
    "clustered" <= row.kind
  }

  /** Both kinds of clustered index take the slot; nonclustered ones and heaps do not. */
  lemma SlotKinds(row: Row)
    ensures InSlot(row) <==> |row.kind| >= 9 && row.kind[..9] == "clustered"
    ensures row.kind == "clustered" || row.kind == "clustered columnstore" ==> InSlot(row)
    ensures row.kind == "nonclustered" || row.kind == "nonclustered columnstore" || row.kind == "heap" ==> !InSlot(row)
  {
    assert |"clustered"| == 9 && "clustered"[0] == 'c';
    if row.kind == "nonclustered" || row.kind == "nonclustered columnstore" {
      assert row.kind[0] == 'n';
    } else if row.kind == "heap" {
      assert row.kind[0] == 'h';
    } else if row.kind == "clustered columnstore" {
      assert row.kind[..9] == "clustered";
    }
  }

  datatype Verdict = Keep | Drop | Warn

  /** What the loop over existing rows decides about one row. */
  function Judge(row: Row, expected: set<string>, mode: Mode): (v: Verdict)
    ensures v.Drop? <==>
              && row.name !in expected
              && !row.isPrimaryKey && !row.isUniqueConstraint && row.kind != "clustered columnstore"
              && ("dbt_idx_" <= row.name
                  || (mode.DropUnmanaged? && !("clustered_" <= row.name) && !("nonclustered_" <= row.name)))
    ensures v.Warn? <==>
              && mode.WarnUnmanaged? && row.name !in expected
              && !row.isPrimaryKey && !row.isUniqueConstraint && row.kind != "clustered columnstore"
              && !("dbt_idx_" <= row.name) && !("clustered_" <= row.name) && !("nonclustered_" <= row.name)
  {
    if row.name in expected || Protected(row) then Keep
    else if Managed(row.name) then Drop
    else if Legacy(row.name) then Keep
    else
      match mode
      case DropUnmanaged => Drop
      case WarnUnmanaged => Warn
      case KeepUnmanaged => Keep
  }

  // --------------------------------------------------------------- specification

  type Expected = Entries<string, Config>

  /** `expected_by_name`, starting from the entries already there. */
  function ExpectedFrom(entries: Expected, configs: seq<Config>, naming: Naming): Outcome<Expected>
    decreases |configs|
  {
    if configs == [] then Success(entries)
    else
      var name := NameOf(configs[0].definition, naming);
      var collision := Get(entries, name);
      if collision.Some? && collision.value.definition != configs[0].definition then Failure(NameCollision(name))
      else ExpectedFrom(Put(entries, name, configs[0]), configs[1..], naming)
  }

  function DropNames(rows: seq<Row>, expected: set<string>, mode: Mode): seq<string> {
    if rows == [] then []
    else
      var row := rows[|rows| - 1];
      DropNames(rows[..|rows| - 1], expected, mode)
      + (if Judge(row, expected, mode).Drop? then [row.name] else [])
  }

  /** The warnings, by the name and the columns they print. */
  function Warnings(rows: seq<Row>, expected: set<string>, mode: Mode): seq<(string, string)> {
    if rows == [] then []
    else
      var row := rows[|rows| - 1];
      Warnings(rows[..|rows| - 1], expected, mode)
      + (if Judge(row, expected, mode).Warn? then [(row.name, row.columns)] else [])
  }

  function RowNames(rows: seq<Row>): set<string> {
    set i | 0 <= i < |rows| :: rows[i].name
  }

  /** The expected configs whose name no row has. */
  function Missing(entries: Expected, existing: set<string>): seq<Config> {
    if entries == [] then []
    else
      var last := entries[|entries| - 1];
      Missing(entries[..|entries| - 1], existing) + (if last.0 in existing then [] else [last.1])
  }

  predicate AnyClustered(configs: seq<Config>) {
    exists i :: 0 <= i < |configs| && configs[i].definition.indexType.Clustered?
  }

  predicate Blocks(row: Row, expected: set<string>, drops: seq<string>) {
    InSlot(row) && row.name !in expected && row.name !in drops
  }

  /** The rows that keep the clustered slot occupied. */
  function Blocking(rows: seq<Row>, expected: set<string>, drops: seq<string>): seq<string> {
    if rows == [] then []
    else
      var row := rows[|rows| - 1];
      Blocking(rows[..|rows| - 1], expected, drops) + (if Blocks(row, expected, drops) then [row.name] else [])
  }

  datatype Change = DropIndex(name: string) | CreateIndex(config: Config)

  datatype ChangeSet = ChangeSet(changes: seq<Change>, warnings: seq<(string, string)>)

  function DropAll(names: seq<string>): (r: seq<Change>)
    ensures |r| == |names| && forall i :: 0 <= i < |r| ==> r[i] == DropIndex(names[i])
  {
    seq(|names|, i requires 0 <= i < |names| => DropIndex(names[i]))
  }

  function CreateAll(configs: seq<Config>): (r: seq<Change>)
    ensures |r| == |configs| && forall i :: 0 <= i < |r| ==> r[i] == CreateIndex(configs[i])
  {
    seq(|configs|, i requires 0 <= i < |configs| => CreateIndex(configs[i]))
  }

  function Diff(rows: seq<Row>, entries: Expected, mode: Mode): Outcome<ChangeSet> {
    var expected := AsMap(entries).Keys;
    var drops := DropNames(rows, expected, mode);
    var missing := Missing(entries, RowNames(rows));
    var blocking := Blocking(rows, expected, drops);
    if AnyClustered(missing) && blocking != [] then Failure(ClusteredBlocked(blocking))
    else Success(ChangeSet(DropAll(drops) + CreateAll(missing), Warnings(rows, expected, mode)))
  }

  function ConfigChanges(rows: seq<Row>, configs: seq<Config>, naming: Naming, setting: RawMode): Outcome<ChangeSet> {
    var mode := NormalizeDropUnmanaged(setting);
    if mode.Failure? then Failure(mode.error)
    else
      var entries := ExpectedFrom([], configs, naming);
      if entries.Failure? then Failure(entries.error) else Diff(rows, entries.value, mode.value)
  }

  /** Parsing the `indexes` config; null entries are skipped. */
  function ParseFrom(configs: seq<Config>, raws: seq<Option<RawIndex>>): Outcome<seq<Config>>
    decreases |raws|
  {
    if raws == [] then Success(configs)
    else if raws[0].None? then ParseFrom(configs, raws[1..])
    else
      var parsed := Parsed(raws[0].value);
      if parsed.Err? then Failure(InvalidIndex(parsed.error))
      else ParseFrom(configs + [parsed.value], raws[1..])
  }

  /** The entries that are not null. */
  function Present(raws: seq<Option<RawIndex>>): seq<RawIndex> {
    if raws == [] then [] else (if raws[0].Some? then [raws[0].value] else []) + Present(raws[1..])
  }

  /** Parsing succeeds exactly when every entry that is not null parses. */
  lemma {:induction false} ParseFromSucceedsIff(configs: seq<Config>, raws: seq<Option<RawIndex>>)
    ensures ParseFrom(configs, raws).Success? <==> forall raw :: raw in Present(raws) ==> Parsed(raw).Ok?
    decreases |raws|
  {
    hide Parsed;
    if raws != [] && (raws[0].Some? ==> Parsed(raws[0].value).Ok?) {
      ParseFromSucceedsIff(if raws[0].Some? then configs + [Parsed(raws[0].value).value] else configs, raws[1..]);
    }
  }

  /** The parsed configs are those of the entries that are not null, all of them and in order. */
  lemma {:induction false} ParsedInOrder(configs: seq<Config>, raws: seq<Option<RawIndex>>)
    requires ParseFrom(configs, raws).Success?
    ensures var r, present := ParseFrom(configs, raws).value, Present(raws);
            && |r| == |configs| + |present| && configs <= r
            && forall k :: |configs| <= k < |r| ==> Parsed(present[k - |configs|]) == Ok(r[k])
    decreases |raws|
  {
    hide Parsed;
    if raws != [] && raws[0].None? {
      ParsedInOrder(configs, raws[1..]);
    } else if raws != [] {
      var next := configs + [Parsed(raws[0].value).value];
      ParsedInOrder(next, raws[1..]);
      var r, rest := ParseFrom(configs, raws).value, Present(raws[1..]);
      assert Present(raws) == [raws[0].value] + rest && r[|configs|] == next[|configs|];
      forall k | |next| <= k < |r| ensures Parsed(Present(raws)[k - |configs|]) == Ok(r[k]) {
        assert Present(raws)[k - |configs|] == rest[k - |next|];
      }
    }
  }

  /** What a reconcile was asked for. */
  datatype Request = Request(raws: seq<Option<RawIndex>>, setting: RawMode, asColumnstore: bool)

  /** The lists handed to the reconcile macro. */
  datatype Actions = Actions(
    drops: seq<string>, creates: seq<RawIndex>, createsNoTxn: seq<RawIndex>, warnings: seq<(string, string)>)

  function DropsOf(changes: seq<Change>): seq<string> {
    if changes == [] then []
    else
      var last := changes[|changes| - 1];
      DropsOf(changes[..|changes| - 1]) + (if last.DropIndex? then [last.name] else [])
  }

  /** The node configs of the creates that do, or do not, need their own batch. */
  function CreatesOf(changes: seq<Change>, ownBatch: bool): seq<RawIndex> {
    if changes == [] then []
    else
      var last := changes[|changes| - 1];
      CreatesOf(changes[..|changes| - 1], ownBatch)
      + (if last.CreateIndex? && NeedsOwnBatch(AsNodeConfig(last.config).buildOptions) == ownBatch
         then [AsNodeConfig(last.config)] else [])
  }

  function ActionsOf(diff: ChangeSet): Actions {
    Actions(DropsOf(diff.changes), CreatesOf(diff.changes, false), CreatesOf(diff.changes, true), diff.warnings)
  }

  function Changes(rows: seq<Row>, request: Request, naming: Naming): Outcome<Actions> {
    var configs := ParseFrom([], request.raws);
    if configs.Failure? then Failure(configs.error)
    else
      var diff := ConfigChanges(rows, configs.value, naming, request.setting);
      if diff.Failure? then Failure(diff.error) else Success(ActionsOf(diff.value))
  }

  function ClusteredOf(configs: seq<Config>): seq<Config> {
    if configs == [] then []
    else
      var last := configs[|configs| - 1];
      ClusteredOf(configs[..|configs| - 1]) + (if last.definition.indexType.Clustered? then [last] else [])
  }

  function ValidationError(request: Request): Option<ReconcileError> {
    var mode := NormalizeDropUnmanaged(request.setting);
    var configs := ParseFrom([], request.raws);
    if mode.Failure? then Some(mode.error)
    else if configs.Failure? then Some(configs.error)
    else
      var clustered := ClusteredOf(configs.value);
      if |clustered| > 1 then Some(TooManyClustered(|clustered|))
      else if clustered != [] && request.asColumnstore then Some(ConflictsWithColumnstore)
      else None
  }

  lemma {:induction false} ClusteredCount(configs: seq<Config>)
    ensures ClusteredOf(configs) == [] <==> forall i :: 0 <= i < |configs| ==> !configs[i].definition.indexType.Clustered?
    ensures |ClusteredOf(configs)| <= 1
            <==> forall i, j :: 0 <= i < j < |configs| ==>
                   !(configs[i].definition.indexType.Clustered? && configs[j].definition.indexType.Clustered?)
  {
    if configs != [] {
      var init := configs[..|configs| - 1];
      ClusteredCount(init);
      assert forall i :: 0 <= i < |init| ==> init[i] == configs[i];
    }
  }

  predicate WantsClustered(raw: RawIndex) {
    raw.RawIndex? && raw.typeName == Some("clustered")
  }

  lemma ClusteredRaws(raws: seq<Option<RawIndex>>)
    requires ParseFrom([], raws).Success?
    ensures var clustered, present := ClusteredOf(ParseFrom([], raws).value), Present(raws);
            && (clustered == [] <==> forall i :: 0 <= i < |present| ==> !WantsClustered(present[i]))
            && (|clustered| <= 1
                <==> forall i, j :: 0 <= i < j < |present| ==> !(WantsClustered(present[i]) && WantsClustered(present[j])))
  {
    hide ParseFrom, Present, Parsed, ClusteredOf, WantsClustered;
    var configs, present := ParseFrom([], raws).value, Present(raws);
    ParsedInOrder([], raws);
    ClusteredCount(configs);
    forall i | 0 <= i < |present| ensures configs[i].definition.indexType.Clustered? <==> WantsClustered(present[i]) {
      assert Parsed(present[i]) == Ok(configs[i]);
      ParsedType(present[i]);
    }
  }

  /** Validation passes exactly the requests with a known setting whose entries are all acceptable, that ask
      for at most one clustered index, and for none next to a clustered columnstore. */
  lemma ValidRequestIff(request: Request)
    ensures var present := Present(request.raws);
            ValidationError(request).None?
            <==> && (request.setting.FromText? ==> request.setting.text in ["false", "warn", "true"])
                 && (forall raw :: raw in present ==> Accepts(raw))
                 && (forall i, j :: 0 <= i < j < |present| ==>
                       !(WantsClustered(present[i]) && WantsClustered(present[j])))
                 && (request.asColumnstore ==> forall i :: 0 <= i < |present| ==> !WantsClustered(present[i]))
  {
    hide ParseFrom, Present, Parsed, Accepts, ClusteredOf, WantsClustered, NormalizeDropUnmanaged;
    ParseFromSucceedsIff([], request.raws);
    forall raw ensures Parsed(raw).Ok? <==> Accepts(raw) {
      ParseAcceptsIff(raw);
    }
    if ParseFrom([], request.raws).Success? {
      ClusteredRaws(request.raws);
    }
  }

  lemma ParsedType(raw: RawIndex)
    requires Parsed(raw).Ok?
    ensures Parsed(raw).value.definition.indexType.Clustered? <==> WantsClustered(raw)
  {
  }

  /** The reconcile macro up to its statements. */
  function Reconciled(rows: seq<Row>, request: Request, naming: Naming): Outcome<Actions> {
    var error := ValidationError(request);
    if error.Some? then Failure(error.value) else Changes(rows, request, naming)
  }

  // ----------------------------------------------------------- what the lists contain

  lemma {:induction false} DropNamesIff(rows: seq<Row>, expected: set<string>, mode: Mode, name: string)
    ensures name in DropNames(rows, expected, mode)
            <==> exists i :: 0 <= i < |rows| && rows[i].name == name && Judge(rows[i], expected, mode).Drop?
  {
    hide Judge;
    if rows != [] {
      var init := rows[..|rows| - 1];
      DropNamesIff(init, expected, mode, name);
      if i :| 0 <= i < |init| && init[i].name == name && Judge(init[i], expected, mode).Drop? {
        assert rows[i] == init[i];
      }
      if i :| 0 <= i < |rows| && rows[i].name == name && Judge(rows[i], expected, mode).Drop? {
        if i < |init| {
          assert init[i] == rows[i];
        }
      }
    }
  }

  lemma {:induction false} WarningsIff(rows: seq<Row>, expected: set<string>, mode: Mode, w: (string, string))
    ensures w in Warnings(rows, expected, mode)
            <==> exists i :: 0 <= i < |rows| && (rows[i].name, rows[i].columns) == w
                             && Judge(rows[i], expected, mode).Warn?
  {
    hide Judge;
    if rows != [] {
      var init := rows[..|rows| - 1];
      WarningsIff(init, expected, mode, w);
      if i :| 0 <= i < |init| && (init[i].name, init[i].columns) == w && Judge(init[i], expected, mode).Warn? {
        assert rows[i] == init[i];
      }
      if i :| 0 <= i < |rows| && (rows[i].name, rows[i].columns) == w && Judge(rows[i], expected, mode).Warn? {
        if i < |init| {
          assert init[i] == rows[i];
        }
      }
    }
  }

  predicate MissingAt(entries: Expected, existing: set<string>, c: Config, i: nat) {
    i < |entries| && entries[i].0 !in existing && entries[i].1 == c
  }

  lemma {:induction false} MissingIff(entries: Expected, existing: set<string>, c: Config)
    ensures c in Missing(entries, existing) <==> exists i :: MissingAt(entries, existing, c, i)
  {
    if entries != [] {
      var init := entries[..|entries| - 1];
      MissingIff(init, existing, c);
      forall i: nat | i < |init| ensures MissingAt(init, existing, c, i) <==> MissingAt(entries, existing, c, i) {
      }
      var last := |entries| - 1;
      assert MissingAt(entries, existing, c, last) <==> entries[last].0 !in existing && entries[last].1 == c;
    }
  }

  lemma MissingInMap(entries: Expected, existing: set<string>, c: Config)
    requires Distinct(entries)
    ensures c in Missing(entries, existing)
            <==> exists n :: n in AsMap(entries) && n !in existing && AsMap(entries)[n] == c
  {
    hide AsMap, Missing;
    MissingIff(entries, existing, c);
    if n :| n in AsMap(entries) && n !in existing && AsMap(entries)[n] == c {
      var i := MapHasEntry(entries, n);
      assert MissingAt(entries, existing, c, i);
    }
    if i :| MissingAt(entries, existing, c, i) {
      EntryInMap(entries, i);
    }
  }

  ghost predicate NamedByContent(entries: Expected, naming: Naming) {
    Distinct(entries)
    && forall n :: n in AsMap(entries) ==> NameOf(AsMap(entries)[n].definition, naming) == n
  }

  /** The expected configs: one per name, each under its own name, all taken from the list. */
  lemma {:induction false} ExpectedMeaning(entries: Expected, configs: seq<Config>, naming: Naming)
    requires NamedByContent(entries, naming) && ExpectedFrom(entries, configs, naming).Success?
    ensures var r := ExpectedFrom(entries, configs, naming).value;
            && NamedByContent(r, naming)
            && (forall n :: n in AsMap(r) ==>
                  AsMap(r)[n] in configs || (n in AsMap(entries) && AsMap(r)[n] == AsMap(entries)[n]))
            && (forall n :: n in AsMap(entries) ==>
                  n in AsMap(r) && AsMap(r)[n].definition == AsMap(entries)[n].definition)
            && (forall c :: c in configs ==> var n := NameOf(c.definition, naming);
                  n in AsMap(r) && AsMap(r)[n].definition == c.definition)
    decreases |configs|
  {
    hide NameOf, AsMap, Distinct, Put, Get;
    if configs != [] {
      var c := configs[0];
      var n := NameOf(c.definition, naming);
      var next := Put(entries, n, c);
      PutDistinct(entries, n, c);
      assert AsMap(next) == AsMap(entries)[n := c];
      ExpectedMeaning(next, configs[1..], naming);
      assert forall x :: x in configs <==> x == c || x in configs[1..];
    }
  }

  lemma EmptyNamed(naming: Naming)
    ensures NamedByContent([], naming)
  {
  }

  /** The managed names of a list of configs. */
  ghost function NamesOf(configs: seq<Config>, naming: Naming): set<string> {
    set c | c in configs :: NameOf(c.definition, naming)
  }

  lemma ExpectedNames(configs: seq<Config>, naming: Naming)
    requires ExpectedFrom([], configs, naming).Success?
    ensures AsMap(ExpectedFrom([], configs, naming).value).Keys == NamesOf(configs, naming)
  {
    hide NameOf, ExpectedFrom, Distinct;
    EmptyNamed(naming);
    ExpectedMeaning([], configs, naming);
  }

  lemma ChangesHold(drops: seq<string>, missing: seq<Config>)
    ensures var changes := DropAll(drops) + CreateAll(missing);
            && (forall n :: DropIndex(n) in changes <==> n in drops)
            && (forall c :: CreateIndex(c) in changes <==> c in missing)
            && (forall i, j :: 0 <= i < |changes| && 0 <= j < |changes| && changes[i].DropIndex? && changes[j].CreateIndex?
                  ==> i < j)
  {
  }

  /** The drops of a diff: the rows that no config names, that back no constraint and are no clustered
      columnstore, if they are managed, or if the setting says to drop and they are not legacy. */
  lemma DiffDrops(rows: seq<Row>, configs: seq<Config>, naming: Naming, setting: RawMode, diff: ChangeSet)
    requires ConfigChanges(rows, configs, naming, setting) == Success(diff)
    ensures forall n :: DropIndex(n) in diff.changes
              <==> exists i :: 0 <= i < |rows| && rows[i].name == n && n !in NamesOf(configs, naming)
                     && !rows[i].isPrimaryKey && !rows[i].isUniqueConstraint && rows[i].kind != "clustered columnstore"
                     && ("dbt_idx_" <= n
                         || ((setting == FromBool(true) || setting == FromText("true"))
                             && !("clustered_" <= n) && !("nonclustered_" <= n)))
  {
    hide ExpectedFrom, DropNames, Warnings, Blocking, Missing, AsMap, NamesOf, Judge;
    var entries, mode := ExpectedFrom([], configs, naming).value, NormalizeDropUnmanaged(setting).value;
    var names := NamesOf(configs, naming);
    ExpectedNames(configs, naming);
    ChangesHold(DropNames(rows, names, mode), Missing(entries, RowNames(rows)));
    forall n {
      DropNamesIff(rows, names, mode, n);
    }
  }

  /** The warnings of a diff: under "warn" only, the rows that a diff with "true" would drop besides the
      managed ones. */
  lemma DiffWarnings(rows: seq<Row>, configs: seq<Config>, naming: Naming, setting: RawMode, diff: ChangeSet)
    requires ConfigChanges(rows, configs, naming, setting) == Success(diff)
    ensures forall w :: w in diff.warnings
              <==> setting == FromText("warn")
                   && exists i :: 0 <= i < |rows| && w == (rows[i].name, rows[i].columns)
                        && rows[i].name !in NamesOf(configs, naming)
                        && !rows[i].isPrimaryKey && !rows[i].isUniqueConstraint && rows[i].kind != "clustered columnstore"
                        && !("dbt_idx_" <= rows[i].name)
                        && !("clustered_" <= rows[i].name) && !("nonclustered_" <= rows[i].name)
  {
    hide ExpectedFrom, DropNames, Warnings, Blocking, Missing, AsMap, NamesOf, Judge;
    var names, mode := NamesOf(configs, naming), NormalizeDropUnmanaged(setting).value;
    ExpectedNames(configs, naming);
    forall w {
      WarningsIff(rows, names, mode, w);
    }
  }

  lemma MissingMeaning(rows: seq<Row>, configs: seq<Config>, naming: Naming)
    requires ExpectedFrom([], configs, naming).Success?
    ensures var missing := Missing(ExpectedFrom([], configs, naming).value, RowNames(rows));
            && (forall c :: c in missing ==> c in configs && NameOf(c.definition, naming) !in RowNames(rows))
            && (forall c :: c in configs && NameOf(c.definition, naming) !in RowNames(rows) ==>
                  exists d :: d in missing && d.definition == c.definition)
  {
    hide ExpectedFrom, Missing, NameOf, Distinct, RowNames;
    var entries := ExpectedFrom([], configs, naming).value;
    EmptyNamed(naming);
    ExpectedMeaning([], configs, naming);
    var missing := Missing(entries, RowNames(rows));
    forall c | c in missing ensures c in configs && NameOf(c.definition, naming) !in RowNames(rows) {
      MissingInMap(entries, RowNames(rows), c);
    }
    forall c | c in configs && NameOf(c.definition, naming) !in RowNames(rows)
      ensures exists d :: d in missing && d.definition == c.definition
    {
      var d := AsMap(entries)[NameOf(c.definition, naming)];
      MissingInMap(entries, RowNames(rows), d);
    }
  }

  /** The creates of a diff, all behind its drops: for each name of a config that no row has, a config of the
      definition it stands for. */
  lemma DiffCreates(rows: seq<Row>, configs: seq<Config>, naming: Naming, setting: RawMode, diff: ChangeSet)
    requires ConfigChanges(rows, configs, naming, setting) == Success(diff)
    ensures var changes := diff.changes;
            && (forall c :: CreateIndex(c) in changes ==> c in configs && NameOf(c.definition, naming) !in RowNames(rows))
            && (forall c :: c in configs && NameOf(c.definition, naming) !in RowNames(rows) ==>
                  exists d :: CreateIndex(d) in changes && d.definition == c.definition)
            && (forall i, j :: 0 <= i < |changes| && 0 <= j < |changes| && changes[i].DropIndex? && changes[j].CreateIndex?
                  ==> i < j)
  {
    hide ExpectedFrom, DropNames, Warnings, Blocking, Missing, AsMap, NameOf, RowNames;
    var entries, mode := ExpectedFrom([], configs, naming).value, NormalizeDropUnmanaged(setting).value;
    MissingMeaning(rows, configs, naming);
    ChangesHold(DropNames(rows, AsMap(entries).Keys, mode), Missing(entries, RowNames(rows)));
  }

  // ----------------------------------------------------------------- the source's loops

  method CollectExpected(configs: seq<Config>, naming: Naming) returns (r: Outcome<Expected>)
    ensures r == ExpectedFrom([], configs, naming)
  {
    hide NameOf, Put, Get;
    var entries: Expected := [];
    assert configs[0..] == configs;
    for i := 0 to |configs|
      invariant ExpectedFrom(entries, configs[i..], naming) == ExpectedFrom([], configs, naming)
    {
      assert configs[i..][1..] == configs[i + 1..];
      var name := NameOf(configs[i].definition, naming);
      var collision := Get(entries, name);
      if collision.Some? && collision.value.definition != configs[i].definition {
        return Failure(NameCollision(name));
      }
      entries := Put(entries, name, configs[i]);
    }
    r := Success(entries);
  }

  method JudgeRows(rows: seq<Row>, entries: Expected, mode: Mode)
    returns (existing: set<string>, drops: seq<string>, warnings: seq<(string, string)>)
    ensures existing == RowNames(rows)
    ensures drops == DropNames(rows, AsMap(entries).Keys, mode)
    ensures warnings == Warnings(rows, AsMap(entries).Keys, mode)
  {
    hide AsMap;
    ghost var expected := AsMap(entries).Keys;
    existing, drops, warnings := {}, [], [];
    for i := 0 to |rows|
      invariant existing == RowNames(rows[..i])
      invariant drops == DropNames(rows[..i], expected, mode)
      invariant warnings == Warnings(rows[..i], expected, mode)
    {
      var row := rows[i];
      assert rows[..i + 1][..i] == rows[..i];
      RowNamesStep(rows, i);
      existing := existing + {row.name};
      if Get(entries, row.name).Some? || Protected(row) {
        continue;
      }
      if Managed(row.name) {
        drops := drops + [row.name];
        continue;
      }
      if Legacy(row.name) {
        continue;
      }
      if mode == DropUnmanaged {
        drops := drops + [row.name];
      } else if mode == WarnUnmanaged {
        warnings := warnings + [(row.name, row.columns)];
      }
    }
    assert rows[..|rows|] == rows;
  }

  lemma RowNamesStep(rows: seq<Row>, i: nat)
    requires i < |rows|
    ensures RowNames(rows[..i + 1]) == RowNames(rows[..i]) + {rows[i].name}
  {
  }

  method CollectMissing(entries: Expected, existing: set<string>) returns (missing: seq<Config>)
    ensures missing == Missing(entries, existing)
  {
    missing := [];
    for i := 0 to |entries|
      invariant missing == Missing(entries[..i], existing)
    {
      assert entries[..i + 1][..i] == entries[..i];
      if entries[i].0 !in existing {
        missing := missing + [entries[i].1];
      }
    }
    assert entries[..|entries|] == entries;
  }

  method CollectBlocking(rows: seq<Row>, entries: Expected, drops: seq<string>) returns (blocking: seq<string>)
    ensures blocking == Blocking(rows, AsMap(entries).Keys, drops)
  {
    hide AsMap;
    blocking := [];
    for i := 0 to |rows|
      invariant blocking == Blocking(rows[..i], AsMap(entries).Keys, drops)
    {
      assert rows[..i + 1][..i] == rows[..i];
      if InSlot(rows[i]) && Get(entries, rows[i].name).None? && rows[i].name !in drops {
        blocking := blocking + [rows[i].name];
      }
    }
    assert rows[..|rows|] == rows;
  }

  /** `index_config_changes`. */
  method IndexConfigChanges(rows: seq<Row>, configs: seq<Config>, naming: Naming, setting: RawMode)
    returns (r: Outcome<ChangeSet>)
    ensures r == ConfigChanges(rows, configs, naming, setting)
  {
    hide ExpectedFrom, DropNames, Warnings, Blocking, Missing, AsMap;
    var mode := NormalizeDropUnmanaged(setting);
    if mode.Failure? {
      return Failure(mode.error);
    }
    var entries := CollectExpected(configs, naming);
    if entries.Failure? {
      return Failure(entries.error);
    }
    var existing, drops, warnings := JudgeRows(rows, entries.value, mode.value);
    var missing := CollectMissing(entries.value, existing);
    if AnyClustered(missing) {
      var blocking := CollectBlocking(rows, entries.value, drops);
      if blocking != [] {
        return Failure(ClusteredBlocked(blocking));
      }
    }
    var changes: seq<Change> := [];
    for i := 0 to |drops|
      invariant changes == DropAll(drops[..i])
    {
      changes := changes + [DropIndex(drops[i])];
    }
    assert drops[..|drops|] == drops;
    for i := 0 to |missing|
      invariant changes == DropAll(drops) + CreateAll(missing[..i])
    {
      assert CreateAll(missing[..i + 1]) == CreateAll(missing[..i]) + [CreateIndex(missing[i])];
      changes := changes + [CreateIndex(missing[i])];
    }
    assert missing[..|missing|] == missing;
    r := Success(ChangeSet(changes, warnings));
  }

  method ParseIndexes(raws: seq<Option<RawIndex>>) returns (r: Outcome<seq<Config>>)
    ensures r == ParseFrom([], raws)
  {
    hide Parsed;
    var configs: seq<Config> := [];
    assert raws[0..] == raws;
    for i := 0 to |raws|
      invariant ParseFrom(configs, raws[i..]) == ParseFrom([], raws)
    {
      assert raws[i..][1..] == raws[i + 1..];
      if raws[i].Some? {
        var parsed := Parse(raws[i].value);
        if parsed.Err? {
          return Failure(InvalidIndex(parsed.error));
        }
        configs := configs + [parsed.value];
      }
    }
    r := Success(configs);
  }

  /** `validate_indexes`. */
  method ValidateIndexes(request: Request) returns (error: Option<ReconcileError>)
    ensures error == ValidationError(request)
  {
    hide ParseFrom;
    var mode := NormalizeDropUnmanaged(request.setting);
    if mode.Failure? {
      return Some(mode.error);
    }
    var configs := ParseIndexes(request.raws);
    if configs.Failure? {
      return Some(configs.error);
    }
    var clustered: seq<Config> := [];
    for i := 0 to |configs.value|
      invariant clustered == ClusteredOf(configs.value[..i])
    {
      assert configs.value[..i + 1][..i] == configs.value[..i];
      if configs.value[i].definition.indexType.Clustered? {
        clustered := clustered + [configs.value[i]];
      }
    }
    assert configs.value[..|configs.value|] == configs.value;
    if |clustered| > 1 {
      return Some(TooManyClustered(|clustered|));
    }
    if clustered != [] && request.asColumnstore {
      return Some(ConflictsWithColumnstore);
    }
    error := None;
  }

  /** `index_changes`. */
  method IndexChanges(rows: seq<Row>, request: Request, naming: Naming) returns (r: Outcome<Actions>)
    ensures r == Changes(rows, request, naming)
  {
    hide ParseFrom, ConfigChanges, PlainColumns, SortedList, NeedsOwnBatch;
    var configs := ParseIndexes(request.raws);
    if configs.Failure? {
      return Failure(configs.error);
    }
    var diff := IndexConfigChanges(rows, configs.value, naming, request.setting);
    if diff.Failure? {
      return Failure(diff.error);
    }
    var changes := diff.value.changes;
    var drops, creates, createsNoTxn := [], [], [];
    for i := 0 to |changes|
      invariant drops == DropsOf(changes[..i])
      invariant creates == CreatesOf(changes[..i], false)
      invariant createsNoTxn == CreatesOf(changes[..i], true)
    {
      assert changes[..i + 1][..i] == changes[..i];
      match changes[i] {
        case DropIndex(name) => drops := drops + [name];
        case CreateIndex(config) =>
          var node := AsNodeConfig(config);
          if NeedsOwnBatch(node.buildOptions) {
            createsNoTxn := createsNoTxn + [node];
          } else {
            creates := creates + [node];
          }
      }
    }
    assert changes[..|changes|] == changes;
    r := Success(Actions(drops, creates, createsNoTxn, diff.value.warnings));
  }
}
