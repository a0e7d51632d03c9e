/** What a reconcile does to a table: it converges, and never touches what it does not own. */
module IndexConvergence {
  import opened Text
  import opened Dict
  import opened Sorting
  import opened IndexConfig
  import opened IndexReconcile

  /** The indexes of a table, by name. */
  type Table = map<string, Row>

  ghost predicate Keyed(t: Table) {
    forall n :: n in t ==> t[n].name == n
  }

  /** The describe query lists every index of the table once. */
  ghost predicate Enumerates(rows: seq<Row>, t: Table) {
    && (forall i, j :: 0 <= i < j < |rows| ==> rows[i].name != rows[j].name)
    && (forall i :: 0 <= i < |rows| ==> rows[i].name in t && t[rows[i].name] == rows[i])
    && (forall n :: n in t ==> exists i :: 0 <= i < |rows| && rows[i].name == n)
  }

  /** The row the describe query reports for an index created from a definition. */
  function RowOf(name: string, d: Definition): Row {
    Row(name, TypeName(d.indexType), false, false, Join(d.columns, ", "))
  }

  /** The name and definition a create statement renders. */
  function Target(raw: RawIndex, naming: Naming): Option<(string, Definition)> {
    var parsed := Parsed(raw);
    if parsed.Ok? then Some((NameOf(parsed.value.definition, naming), parsed.value.definition)) else None
  }

  /** The guarded create statement: skipped when the name exists. */
  function Create(t: Table, raw: RawIndex, naming: Naming): Table {
    var target := Target(raw, naming);
    if target.None? || target.value.0 in t then t
    else t[target.value.0 := RowOf(target.value.0, target.value.1)]
  }

  function Created(t: Table, raws: seq<RawIndex>, naming: Naming): Table {
    if raws == [] then t else Create(Created(t, raws[..|raws| - 1], naming), raws[|raws| - 1], naming)
  }

  function Dropped(t: Table, names: seq<string>): Table {
    if names == [] then t else Dropped(t, names[..|names| - 1]) - {names[|names| - 1]}
  }

  /** All creates, in the order they run: those in the transaction, then the standalone ones. */
  function AllCreates(a: Actions): seq<RawIndex> {
    a.creates + a.createsNoTxn
  }

  /** Drops before creates. */
  function Applied(t: Table, a: Actions, naming: Naming): Table {
    Created(Dropped(t, a.drops), AllCreates(a), naming)
  }

  /** The configs a request expects, by managed name. */
  ghost function Wanted(request: Request, naming: Naming): map<string, Config> {
    var configs := ParseFrom([], request.raws);
    if configs.Failure? then map[]
    else
      var entries := ExpectedFrom([], configs.value, naming);
      if entries.Failure? then map[] else AsMap(entries.value)
  }

  ghost function ModeOf(request: Request): Mode {
    var mode := NormalizeDropUnmanaged(request.setting);
    if mode.Success? then mode.value else KeepUnmanaged
  }

  // ----------------------------------------------------------- what the lists contain

  lemma {:induction false} DropNamesDistinct(rows: seq<Row>, expected: set<string>, mode: Mode)
    requires forall i, j :: 0 <= i < j < |rows| ==> rows[i].name != rows[j].name
    ensures var d := DropNames(rows, expected, mode);
            forall i, j :: 0 <= i < j < |d| ==> d[i] != d[j]
  {
    hide Judge;
    if rows != [] {
      var init := rows[..|rows| - 1];
      DropNamesDistinct(init, expected, mode);
      DropNamesIff(init, expected, mode, rows[|rows| - 1].name);
    }
  }

  lemma {:induction false} BlockingIff(rows: seq<Row>, expected: set<string>, drops: seq<string>)
    ensures Blocking(rows, expected, drops) == []
            <==> forall i :: 0 <= i < |rows| ==> !Blocks(rows[i], expected, drops)
  {
    hide Blocks;
    if rows != [] {
      var init := rows[..|rows| - 1];
      BlockingIff(init, expected, drops);
      forall i | 0 <= i < |rows| && (forall k :: 0 <= k < |init| ==> !Blocks(init[k], expected, drops))
        ensures !Blocks(rows[i], expected, drops) || i == |rows| - 1
      {
        if i < |init| {
          assert init[i] == rows[i];
        }
      }
      forall i | 0 <= i < |init| && !Blocks(rows[i], expected, drops) ensures !Blocks(init[i], expected, drops) {
        assert init[i] == rows[i];
      }
    }
  }

  // -------------------------------------------------------------- the expected configs

  /** A name that no further config has keeps its entry. */
  lemma {:induction false} OtherNamesStay(entries: Expected, configs: seq<Config>, naming: Naming, n: string)
    requires ExpectedFrom(entries, configs, naming).Success? && n in AsMap(entries)
    requires forall j :: 0 <= j < |configs| ==> NameOf(configs[j].definition, naming) != n
    ensures var r := ExpectedFrom(entries, configs, naming).value;
            n in AsMap(r) && AsMap(r)[n] == AsMap(entries)[n]
    decreases |configs|
  {
    hide NameOf, AsMap, Put, Get;
    if configs != [] {
      var name := NameOf(configs[0].definition, naming);
      var next := Put(entries, name, configs[0]);
      assert AsMap(next) == AsMap(entries)[name := configs[0]];
      OtherNamesStay(next, configs[1..], naming, n);
    }
  }

  /** Among configs with the same definition the last one is used, with its build options. */
  lemma {:induction false} LastConfigWins(entries: Expected, configs: seq<Config>, naming: Naming, i: nat)
    requires ExpectedFrom(entries, configs, naming).Success? && i < |configs|
    requires forall j :: i < j < |configs| ==>
               NameOf(configs[j].definition, naming) != NameOf(configs[i].definition, naming)
    ensures var r, n := ExpectedFrom(entries, configs, naming).value, NameOf(configs[i].definition, naming);
            n in AsMap(r) && AsMap(r)[n] == configs[i]
    decreases |configs|
  {
    hide NameOf, AsMap, Put, Get;
    var name := NameOf(configs[0].definition, naming);
    var next := Put(entries, name, configs[0]);
    assert AsMap(next) == AsMap(entries)[name := configs[0]];
    if i == 0 {
      OtherNamesStay(next, configs[1..], naming, name);
    } else {
      LastConfigWins(next, configs[1..], naming, i - 1);
    }
  }

  ghost predicate Under(entries: Expected, n: string, c: Config) {
    n in AsMap(entries) && AsMap(entries)[n] == c
  }

  /** A name collision comes from two configs that share a name and differ in definition. */
  lemma {:induction false} CollisionDiffers(entries: Expected, configs: seq<Config>, naming: Naming)
    returns (c: Config, d: Config)
    requires NamedByContent(entries, naming)
    requires ExpectedFrom(entries, configs, naming).Failure?
    ensures ExpectedFrom(entries, configs, naming).error.NameCollision?
    ensures d in configs && (c in configs || Under(entries, NameOf(c.definition, naming), c))
    ensures NameOf(c.definition, naming) == NameOf(d.definition, naming) && c.definition != d.definition
    decreases |configs|
  {
    hide NameOf, Distinct, Put, Get;
    d := configs[0];
    var n := NameOf(d.definition, naming);
    if n in AsMap(entries) && AsMap(entries)[n].definition != d.definition {
      c := AsMap(entries)[n];
    } else {
      var next := Put(entries, n, d);
      PutDistinct(entries, n, d);
      assert AsMap(next) == AsMap(entries)[n := d];
      c, d := CollisionDiffers(next, configs[1..], naming);
      assert forall x :: x in configs <==> x == configs[0] || x in configs[1..];
    }
  }

  /** Such a pair exists for every accepted index without a filter: the same index declared once more
      with an empty one is accepted too, and the two collide, whatever the hash. */
  lemma EmptyFilterCollides(raw: RawIndex, naming: Naming)
    requires Parsed(raw).Ok? && raw.filter.None?
    ensures var other := raw.(filter := Some(""));
            && Parsed(other).Ok?
            && var c, d := Parsed(raw).value, Parsed(other).value;
               ExpectedFrom([], [c, d], naming) == Failure(NameCollision(NameOf(c.definition, naming)))
  {
    hide ColumnNames, DescendingNames, NormalizeDataCompression, ParseType, Put, Get, AsMap;
    var other := raw.(filter := Some(""));
    var c, d := Parsed(raw).value, Parsed(other).value;
    assert Canonical(c.definition) == Canonical(d.definition);
    CanonicalPayload(c.definition, d.definition, naming.relation);
    SecondCollides(c, d, naming);
  }

  lemma SecondCollides(c: Config, d: Config, naming: Naming)
    requires NameOf(c.definition, naming) == NameOf(d.definition, naming) && c.definition != d.definition
    ensures ExpectedFrom([], [c, d], naming) == Failure(NameCollision(NameOf(c.definition, naming)))
  {
    hide NameOf;
    assert [c, d][1..] == [d];
    var n := NameOf(c.definition, naming);
    assert Put([], n, c) == [(n, c)];
  }

  lemma {:induction false} ParsedConfigsNormal(configs: seq<Config>, raws: seq<Option<RawIndex>>)
    requires forall c :: c in configs ==> Normal(c)
    requires ParseFrom(configs, raws).Success?
    ensures forall c :: c in ParseFrom(configs, raws).value ==> Normal(c)
    decreases |raws|
  {
    hide Parsed, Normal;
    if raws != [] {
      if raws[0].Some? {
        ParsedNormal(raws[0].value);
        ParsedConfigsNormal(configs + [Parsed(raws[0].value).value], raws[1..]);
      } else {
        ParsedConfigsNormal(configs, raws[1..]);
      }
    }
  }

  /** The managed-name collision error is raised exactly when two configs agree except that one has
      an empty filter and the other none: the hash sees no difference, the comparison does. */
  lemma CollisionIff(configs: seq<Config>, naming: Naming)
    requires Injective(naming.hash) && forall c :: c in configs ==> Valid(c)
    ensures ExpectedFrom([], configs, naming).Failure?
            <==> exists c, d :: c in configs && d in configs
                                && Canonical(c.definition) == Canonical(d.definition) && c.definition != d.definition
  {
    hide NameOf, Valid, Canonical, ExpectedFrom, Injective;
    assert NamedByContent([], naming);
    if ExpectedFrom([], configs, naming).Failure? {
      var c, d := CollisionDiffers([], configs, naming);
      NameFaithful(c, d, naming);
    } else {
      ExpectedMeaning([], configs, naming);
      forall c, d | c in configs && d in configs && Canonical(c.definition) == Canonical(d.definition)
        ensures c.definition == d.definition
      {
        NameFaithful(c, d, naming);
      }
    }
  }

  /** The split of a change list. */
  lemma {:induction false} DropsOfChanges(drops: seq<string>, missing: seq<Config>)
    ensures DropsOf(DropAll(drops) + CreateAll(missing)) == drops
    decreases |missing|, |drops|
  {
    var changes := DropAll(drops) + CreateAll(missing);
    if missing != [] {
      var init := missing[..|missing| - 1];
      assert changes[..|changes| - 1] == DropAll(drops) + CreateAll(init);
      DropsOfChanges(drops, init);
    } else if drops != [] {
      var init := drops[..|drops| - 1];
      assert changes[..|changes| - 1] == DropAll(init) + CreateAll(missing);
      DropsOfChanges(init, missing);
      assert drops == init + [drops[|drops| - 1]];
    }
  }

  lemma {:induction false} CreatesOfIff(changes: seq<Change>, ownBatch: bool, raw: RawIndex)
    ensures raw in CreatesOf(changes, ownBatch)
            <==> exists i :: 0 <= i < |changes| && changes[i].CreateIndex? && raw == AsNodeConfig(changes[i].config)
                             && NeedsOwnBatch(AsNodeConfig(changes[i].config).buildOptions) == ownBatch
  {
    hide PlainColumns, SortedList, NeedsOwnBatch;
    if changes != [] {
      var init := changes[..|changes| - 1];
      CreatesOfIff(init, ownBatch, raw);
      forall i | 0 <= i < |init| ensures init[i] == changes[i] {
      }
      assert changes[|init|] == changes[|changes| - 1];
    }
  }

  /** Both lists of creates together are the node configs of the created configs. */
  lemma CreatesMeaning(drops: seq<string>, missing: seq<Config>, raw: RawIndex)
    ensures var changes := DropAll(drops) + CreateAll(missing);
            raw in CreatesOf(changes, false) + CreatesOf(changes, true)
            <==> exists c :: c in missing && raw == AsNodeConfig(c)
  {
    hide CreatesOf, PlainColumns, SortedList, NeedsOwnBatch;
    var changes := DropAll(drops) + CreateAll(missing);
    CreatesOfIff(changes, false, raw);
    CreatesOfIff(changes, true, raw);
    if c :| c in missing && raw == AsNodeConfig(c) {
      var j :| 0 <= j < |missing| && missing[j] == c;
      assert changes[|drops| + j] == CreateIndex(c);
    }
    if i :| 0 <= i < |changes| && changes[i].CreateIndex? && raw == AsNodeConfig(changes[i].config) {
      assert changes[i] == CreateAll(missing)[i - |drops|];
      assert missing[i - |drops|] == changes[i].config;
    }
  }

  /** The lists a successful reconcile returns, in terms of the rows and the expected configs. */
  ghost predicate Follows(a: Actions, rows: seq<Row>, want: map<string, Config>, mode: Mode) {
    && a.drops == DropNames(rows, want.Keys, mode)
    && a.warnings == Warnings(rows, want.Keys, mode)
    && (forall raw :: raw in AllCreates(a) <==>
          exists n :: n in want && n !in RowNames(rows) && raw == AsNodeConfig(want[n]))
  }

  /** The expected configs are normal, and each has the name it is expected under. */
  ghost predicate WellNamed(want: map<string, Config>, naming: Naming) {
    forall n :: n in want ==> Normal(want[n]) && NameOf(want[n].definition, naming) == n
  }

  lemma WantedWellNamed(request: Request, naming: Naming)
    ensures WellNamed(Wanted(request, naming), naming)
  {
    hide ParseFrom, ExpectedFrom, Normal, NameOf;
    var configs := ParseFrom([], request.raws);
    if configs.Success? {
      ParsedConfigsNormal([], request.raws);
      var entries := ExpectedFrom([], configs.value, naming);
      if entries.Success? {
        assert NamedByContent([], naming);
        ExpectedMeaning([], configs.value, naming);
      }
    }
  }

  /** The creates that run in the transaction are those without an online or resumable build; the others are
      handed over to run on their own. */
  lemma CreatesSplit(rows: seq<Row>, request: Request, naming: Naming, raw: RawIndex)
    requires Reconciled(rows, request, naming).Success?
    ensures var a := Reconciled(rows, request, naming).value;
            && (raw in a.creates ==> raw.RawIndex? && !NeedsOwnBatch(raw.buildOptions))
            && (raw in a.createsNoTxn ==> raw.RawIndex? && NeedsOwnBatch(raw.buildOptions))
  {
    hide ParseFrom, ConfigChanges, CreatesOf, DropsOf, ValidationError, PlainColumns, SortedList, NeedsOwnBatch;
    var changes := ConfigChanges(rows, ParseFrom([], request.raws).value, naming, request.setting).value.changes;
    CreatesOfIff(changes, false, raw);
    CreatesOfIff(changes, true, raw);
  }

  lemma ReconciledFollows(rows: seq<Row>, request: Request, naming: Naming)
    requires Reconciled(rows, request, naming).Success?
    ensures Follows(Reconciled(rows, request, naming).value, rows, Wanted(request, naming), ModeOf(request))
  {
    hide ParseFrom, ExpectedFrom, DropNames, Warnings, Missing, Blocking, DropsOf, CreatesOf, AsMap, AsNodeConfig, RowNames,
      ClusteredOf, NormalizeDropUnmanaged, NameOf;
    var configs := ParseFrom([], request.raws).value;
    var entries := ExpectedFrom([], configs, naming).value;
    var want := AsMap(entries);
    assert NamedByContent([], naming) by { EmptyNamed(naming); }
    ExpectedMeaning([], configs, naming);
    var drops := DropNames(rows, want.Keys, ModeOf(request));
    var missing := Missing(entries, RowNames(rows));
    DropsOfChanges(drops, missing);
    var a := Reconciled(rows, request, naming).value;
    assert a.drops == drops;
    forall raw ensures raw in AllCreates(a) <==>
          exists n :: n in want && n !in RowNames(rows) && raw == AsNodeConfig(want[n]) {
      CreatesMeaning(drops, missing, raw);
      forall c ensures c in missing <==> exists n :: n in want && n !in RowNames(rows) && want[n] == c {
        MissingInMap(entries, RowNames(rows), c);
      }
    }
  }

  // ------------------------------------------------------------- what statements do

  /** The create statement of an expected config makes exactly its row. */
  lemma TargetOfNode(c: Config, naming: Naming)
    requires Normal(c)
    ensures Target(AsNodeConfig(c), naming) == Some((NameOf(c.definition, naming), c.definition))
  {
    hide Parsed, AsNodeConfig, NameOf, Normal;
    NodeConfigRoundTrip(c, naming);
  }

  lemma {:induction false} DroppedMeaning(t: Table, names: seq<string>)
    ensures Dropped(t, names) == map n | n in t && n !in names :: t[n]
  {
    if names != [] {
      DroppedMeaning(t, names[..|names| - 1]);
    }
  }

  lemma {:induction false} CreatedMeaning(t: Table, raws: seq<RawIndex>, naming: Naming)
    ensures var r := Created(t, raws, naming);
            && (forall n :: n in t ==> n in r && r[n] == t[n])
            && (forall n :: n in r && n !in t ==>
                  exists raw :: raw in raws && Target(raw, naming).Some? && Target(raw, naming).value.0 == n
                                && r[n] == RowOf(n, Target(raw, naming).value.1))
            && (forall raw :: raw in raws && Target(raw, naming).Some? ==> Target(raw, naming).value.0 in r)
  {
    hide Target, RowOf;
    if raws != [] {
      var init, last := raws[..|raws| - 1], raws[|raws| - 1];
      CreatedMeaning(t, init, naming);
      assert forall raw :: raw in raws <==> raw in init || raw == last;
    }
  }

  /** A table after a successful reconcile: the expected names, and the rows not judged droppable.
      Rows that were there are unchanged; new rows are those of the expected definitions. */
  ghost predicate Settled(t: Table, after: Table, want: map<string, Config>, mode: Mode) {
    && (forall n :: n in after <==> n in want || (n in t && !Judge(t[n], want.Keys, mode).Drop?))
    && (forall n :: n in t && n in after ==> after[n] == t[n])
    && (forall n :: n in after && n !in t ==> after[n] == RowOf(n, want[n].definition))
  }

  lemma DropsAreJudged(rows: seq<Row>, t: Table, expected: set<string>, mode: Mode)
    requires Enumerates(rows, t)
    ensures forall n :: n in DropNames(rows, expected, mode) <==> n in t && Judge(t[n], expected, mode).Drop?
  {
    hide Judge, DropNames;
    forall n ensures n in DropNames(rows, expected, mode) <==> n in t && Judge(t[n], expected, mode).Drop? {
      DropNamesIff(rows, expected, mode, n);
    }
  }

  lemma RowNamesAreKeys(rows: seq<Row>, t: Table)
    requires Enumerates(rows, t)
    ensures RowNames(rows) == t.Keys
  {
  }

  lemma FollowingSettles(rows: seq<Row>, t: Table, a: Actions, want: map<string, Config>, mode: Mode, naming: Naming)
    requires Enumerates(rows, t) && Follows(a, rows, want, mode) && WellNamed(want, naming)
    ensures Settled(t, Applied(t, a, naming), want, mode)
  {
    hide Judge, RowOf, Target, Created, Dropped, DropNames, Warnings, RowNames, Normal, AsNodeConfig, NameOf, AllCreates,
      Enumerates;
    var mid := Dropped(t, a.drops);
    DroppedMeaning(t, a.drops);
    DropsAreJudged(rows, t, want.Keys, mode);
    RowNamesAreKeys(rows, t);
    CreatedMeaning(mid, AllCreates(a), naming);
    forall n | n in want ensures Target(AsNodeConfig(want[n]), naming) == Some((n, want[n].definition)) {
      TargetOfNode(want[n], naming);
    }
    var after := Applied(t, a, naming);
    forall n | n in want && n !in t ensures n in after {
      assert AsNodeConfig(want[n]) in AllCreates(a);
    }
    forall n | n in after && n !in mid ensures n in want && n !in t && after[n] == RowOf(n, want[n].definition) {
      var raw :| raw in AllCreates(a) && Target(raw, naming).Some? && Target(raw, naming).value.0 == n
                 && after[n] == RowOf(n, Target(raw, naming).value.1);
      var m :| m in want && m !in RowNames(rows) && raw == AsNodeConfig(want[m]);
    }
    forall n | n in want && n in t ensures !Judge(t[n], want.Keys, mode).Drop? {
      ExpectedKept(rows, t, n, want.Keys, mode);
    }
  }

  /** A table after the drops and some of the creates of a successful reconcile. */
  ghost predicate PartlySettled(t: Table, part: Table, want: map<string, Config>, mode: Mode) {
    && (forall n :: n in part ==> n in want || (n in t && !Judge(t[n], want.Keys, mode).Drop?))
    && (forall n :: n in t && !Judge(t[n], want.Keys, mode).Drop? ==> n in part)
    && (forall n :: n in t && n in part ==> part[n] == t[n])
    && (forall n :: n in part && n !in t ==> part[n] == RowOf(n, want[n].definition))
  }

  /** Whichever of the creates have run, the table is partly settled. */
  lemma FollowingSettlesPartly(rows: seq<Row>, t: Table, a: Actions, raws: seq<RawIndex>, want: map<string, Config>,
                               mode: Mode, naming: Naming)
    requires Enumerates(rows, t) && Follows(a, rows, want, mode) && WellNamed(want, naming)
    requires forall raw :: raw in raws ==> raw in AllCreates(a)
    ensures PartlySettled(t, Created(Dropped(t, a.drops), raws, naming), want, mode)
  {
    hide Judge, RowOf, Target, Created, Dropped, DropNames, Warnings, RowNames, Normal, AsNodeConfig, NameOf, AllCreates,
      Enumerates;
    var mid := Dropped(t, a.drops);
    DroppedMeaning(t, a.drops);
    DropsAreJudged(rows, t, want.Keys, mode);
    RowNamesAreKeys(rows, t);
    CreatedMeaning(mid, raws, naming);
    var part := Created(mid, raws, naming);
    forall n | n in part && n !in mid ensures n in want && n !in t && part[n] == RowOf(n, want[n].definition) {
      var raw :| raw in raws && Target(raw, naming).Some? && Target(raw, naming).value.0 == n
                 && part[n] == RowOf(n, Target(raw, naming).value.1);
      var m :| m in want && m !in RowNames(rows) && raw == AsNodeConfig(want[m]);
      TargetOfNode(want[m], naming);
    }
  }

  /** Settling a partly settled table settles the original one. */
  lemma ResumeSettles(t: Table, part: Table, after: Table, want: map<string, Config>, mode: Mode)
    requires Keyed(t) && PartlySettled(t, part, want, mode) && Settled(part, after, want, mode)
    ensures Settled(t, after, want, mode)
  {
    hide Protected, Managed, Legacy, RowOf;
    forall n | n in t && n in want ensures !Judge(t[n], want.Keys, mode).Drop? {
    }
  }

  lemma SettledUnique(t: Table, x: Table, y: Table, want: map<string, Config>, mode: Mode)
    requires Settled(t, x, want, mode) && Settled(t, y, want, mode)
    ensures x == y
  {
    hide Judge, RowOf;
    forall n | n in x ensures x[n] == y[n] {
    }
  }

  lemma PartKeyed(t: Table, part: Table, want: map<string, Config>, mode: Mode)
    requires Keyed(t) && PartlySettled(t, part, want, mode)
    ensures Keyed(part)
  {
    hide RowOf, Judge;
    forall n | n in part && n !in t ensures part[n].name == n {
      RowOfName(n, want[n].definition);
    }
  }

  lemma ExpectedKept(rows: seq<Row>, t: Table, n: string, expected: set<string>, mode: Mode)
    requires Enumerates(rows, t) && n in t && n in expected
    ensures Judge(t[n], expected, mode).Keep?
  {
  }

  // -------------------------------------------------------------------- convergence

  lemma SettledGuarantees(t: Table, after: Table, want: map<string, Config>, mode: Mode)
    requires Keyed(t) && Settled(t, after, want, mode)
    ensures forall n :: n in want ==> n in after
    ensures forall n :: n in after && Managed(n) && !Protected(after[n]) ==> n in want
    ensures forall n :: n in t && (Protected(t[n]) || Legacy(n)) ==> n in after && after[n] == t[n]
    ensures mode != DropUnmanaged ==> forall n :: n in t && !Managed(n) ==> n in after && after[n] == t[n]
    ensures mode == DropUnmanaged ==>
              forall n :: n in after ==>
                || n in want
                || after[n].isPrimaryKey || after[n].isUniqueConstraint || after[n].kind == "clustered columnstore"
                || "clustered_" <= n || "nonclustered_" <= n
    ensures Keyed(after)
  {
    hide Protected, RowOf;
    forall n | n in t && Legacy(n) ensures !Managed(n) {
      assert n[0] != 'd';
    }
    forall n | n in after && n !in t ensures after[n].name == n {
      RowOfName(n, want[n].definition);
    }
  }

  /** What the settings say. */
  lemma ModeMeaning(request: Request)
    ensures ModeOf(request).DropUnmanaged? <==> request.setting == FromBool(true) || request.setting == FromText("true")
    ensures ModeOf(request).WarnUnmanaged? <==> request.setting == FromText("warn")
  {
  }

  /** Exactly which rows a reconcile takes away: those not wanted that back no constraint and are no clustered
      columnstore, if they are managed, or if unmanaged rows are to be dropped and they are not legacy. */
  lemma SettledDrops(t: Table, after: Table, want: map<string, Config>, mode: Mode, n: string)
    requires Keyed(t) && Settled(t, after, want, mode) && n in t
    ensures n !in after
            <==> n !in want && !t[n].isPrimaryKey && !t[n].isUniqueConstraint && t[n].kind != "clustered columnstore"
                 && ("dbt_idx_" <= n || (mode.DropUnmanaged? && !("clustered_" <= n) && !("nonclustered_" <= n)))
  {
  }

  lemma RowOfName(n: string, d: Definition)
    ensures RowOf(n, d).name == n && !Protected(RowOf(n, d))
    ensures InSlot(RowOf(n, d)) <==> d.indexType.Clustered?
  {
    assert "nonclustered"[0] == 'n' && "columnstore"[1] == 'o' && "clustered"[..2] == "cl";
  }

  /** Reconciling converges: every expected index is there, every other managed index that backs no
      constraint is gone, nothing protected or legacy was touched, and outside the drop mode nothing
      unmanaged was. In the drop mode nothing is left but expected, protected and legacy indexes. */
  lemma Converges(rows: seq<Row>, t: Table, request: Request, naming: Naming)
    requires Keyed(t) && Enumerates(rows, t) && Reconciled(rows, request, naming).Success?
    ensures var after := Applied(t, Reconciled(rows, request, naming).value, naming);
            var want := Wanted(request, naming);
            && Settled(t, after, want, ModeOf(request)) && Keyed(after)
            && (forall n :: n in want ==> n in after)
            && (forall n :: n in after && Managed(n) && !Protected(after[n]) ==> n in want)
            && (forall n :: n in t && (Protected(t[n]) || Legacy(n)) ==> n in after && after[n] == t[n])
            && (ModeOf(request) != DropUnmanaged ==>
                  forall n :: n in t && !Managed(n) ==> n in after && after[n] == t[n])
            && (request.setting == FromBool(true) || request.setting == FromText("true") ==>
                  forall n :: n in after ==>
                    || n in want
                    || after[n].isPrimaryKey || after[n].isUniqueConstraint || after[n].kind == "clustered columnstore"
                    || "clustered_" <= n || "nonclustered_" <= n)
  {
    hide Reconciled, Applied, Wanted, ModeOf, Settled, Protected;
    ModeMeaning(request);
    ReconciledFollows(rows, request, naming);
    WantedWellNamed(request, naming);
    var a := Reconciled(rows, request, naming).value;
    FollowingSettles(rows, t, a, Wanted(request, naming), ModeOf(request), naming);
    SettledGuarantees(t, Applied(t, a, naming), Wanted(request, naming), ModeOf(request));
  }

  /** The same in the terms of the describe query: exactly which rows are gone, and what the new rows are. */
  lemma ConvergesTo(rows: seq<Row>, t: Table, request: Request, naming: Naming, n: string)
    requires Keyed(t) && Enumerates(rows, t) && Reconciled(rows, request, naming).Success?
    ensures var after := Applied(t, Reconciled(rows, request, naming).value, naming);
            var want := Wanted(request, naming);
            var dropUnmanaged := request.setting == FromBool(true) || request.setting == FromText("true");
            && (n in t ==>
                  (n !in after
                   <==> n !in want
                        && !t[n].isPrimaryKey && !t[n].isUniqueConstraint && t[n].kind != "clustered columnstore"
                        && ("dbt_idx_" <= n || (dropUnmanaged && !("clustered_" <= n) && !("nonclustered_" <= n)))))
            && (n in t && n in after ==> after[n] == t[n])
            && (n in after && n !in t ==>
                  && n in want && !after[n].isPrimaryKey && !after[n].isUniqueConstraint && after[n].name == n
                  && after[n].kind == match want[n].definition.indexType
                                      case Clustered => "clustered"
                                      case NonClustered => "nonclustered"
                                      case ColumnStore => "columnstore")
  {
    hide Reconciled, Applied, Wanted, ModeOf, Protected, Judge, Keyed, Enumerates;
    Converges(rows, t, request, naming);
    ModeMeaning(request);
    var after := Applied(t, Reconciled(rows, request, naming).value, naming);
    if n in t {
      SettledDrops(t, after, Wanted(request, naming), ModeOf(request), n);
    }
  }

  /** Which rows a reconcile warns about: under "warn" only, those it would drop under "true" that are not
      managed. */
  lemma WarnedExactly(rows: seq<Row>, request: Request, naming: Naming, w: (string, string))
    requires Reconciled(rows, request, naming).Success?
    ensures w in Reconciled(rows, request, naming).value.warnings
            <==> request.setting == FromText("warn")
                 && exists i :: 0 <= i < |rows| && w == (rows[i].name, rows[i].columns)
                      && rows[i].name !in Wanted(request, naming)
                      && !rows[i].isPrimaryKey && !rows[i].isUniqueConstraint && rows[i].kind != "clustered columnstore"
                      && !("dbt_idx_" <= rows[i].name)
                      && !("clustered_" <= rows[i].name) && !("nonclustered_" <= rows[i].name)
  {
    hide Reconciled, Wanted, ModeOf, Judge, Warnings, DropNames, RowNames, AllCreates;
    ReconciledFollows(rows, request, naming);
    ModeMeaning(request);
    WarningsIff(rows, Wanted(request, naming).Keys, ModeOf(request), w);
  }

  /** Judging the settled table again drops nothing and warns about the same rows. */
  lemma SettledJudgments(t: Table, after: Table, want: map<string, Config>, mode: Mode, n: string)
    requires Keyed(t) && Keyed(after) && Settled(t, after, want, mode) && n in after
    ensures !Judge(after[n], want.Keys, mode).Drop?
    ensures Judge(after[n], want.Keys, mode).Warn? ==> n in t && after[n] == t[n]
  {
  }

  lemma WarningsCarryOver(rows: seq<Row>, again: seq<Row>, t: Table, after: Table, want: map<string, Config>, mode: Mode)
    requires Keyed(t) && Keyed(after) && Settled(t, after, want, mode)
    requires Enumerates(rows, t) && Enumerates(again, after)
    ensures forall w :: w in Warnings(again, want.Keys, mode) <==> w in Warnings(rows, want.Keys, mode)
  {
    hide Judge, Warnings, RowOf;
    forall w ensures w in Warnings(again, want.Keys, mode) <==> w in Warnings(rows, want.Keys, mode) {
      WarningsIff(rows, want.Keys, mode, w);
      WarningsIff(again, want.Keys, mode, w);
      if i :| 0 <= i < |again| && (again[i].name, again[i].columns) == w && Judge(again[i], want.Keys, mode).Warn? {
        SettledJudgments(t, after, want, mode, again[i].name);
        var j :| 0 <= j < |rows| && rows[j].name == again[i].name;
      }
      if i :| 0 <= i < |rows| && (rows[i].name, rows[i].columns) == w && Judge(rows[i], want.Keys, mode).Warn? {
        var n := rows[i].name;
        assert n in after && after[n] == t[n];
        var j :| 0 <= j < |again| && again[j].name == n;
      }
    }
  }

  lemma SomeMember<T(!new)>(s: seq<T>)
    ensures s == [] || exists x :: x in s
  {
    if s != [] {
      assert s[0] in s;
    }
  }

  /** Nothing to drop and nothing missing: the reconcile succeeds without actions. */
  lemma NothingToDo(rows: seq<Row>, t: Table, request: Request, naming: Naming)
    requires ValidationError(request).None? && Enumerates(rows, t)
    requires ParseFrom([], request.raws).Success?
    requires ExpectedFrom([], ParseFrom([], request.raws).value, naming).Success?
    requires forall n :: n in Wanted(request, naming) ==> n in t
    requires forall n :: n in t ==> !Judge(t[n], Wanted(request, naming).Keys, ModeOf(request)).Drop?
    ensures Reconciled(rows, request, naming)
            == Success(Actions([], [], [], Warnings(rows, Wanted(request, naming).Keys, ModeOf(request))))
  {
    hide ParseFrom, ExpectedFrom, DropNames, Warnings, Missing, AsMap, RowNames, ClusteredOf, Judge;
    var entries := ExpectedFrom([], ParseFrom([], request.raws).value, naming).value;
    var want := AsMap(entries);
    var drops, missing := DropNames(rows, want.Keys, ModeOf(request)), Missing(entries, RowNames(rows));
    DropsAreJudged(rows, t, want.Keys, ModeOf(request));
    RowNamesAreKeys(rows, t);
    EmptyNamed(naming);
    ExpectedMeaning([], ParseFrom([], request.raws).value, naming);
    forall c ensures c !in missing {
      MissingInMap(entries, RowNames(rows), c);
    }
    SomeMember(drops);
    SomeMember(missing);
    assert DropAll(drops) + CreateAll(missing) == [];
  }

  lemma SuccessParts(rows: seq<Row>, request: Request, naming: Naming)
    requires Reconciled(rows, request, naming).Success?
    ensures ValidationError(request).None? && ParseFrom([], request.raws).Success?
    ensures ExpectedFrom([], ParseFrom([], request.raws).value, naming).Success?
  {
  }

  /** Reconciling is idempotent: the same request on the result, however its rows are listed, asks
      for nothing and repeats the same warnings. */
  lemma SecondReconcileDoesNothing(rows: seq<Row>, t: Table, again: seq<Row>, request: Request, naming: Naming)
    requires Keyed(t) && Enumerates(rows, t) && Reconciled(rows, request, naming).Success?
    requires Enumerates(again, Applied(t, Reconciled(rows, request, naming).value, naming))
    ensures var first, second := Reconciled(rows, request, naming).value, Reconciled(again, request, naming);
            && second.Success?
            && second.value.drops == [] && AllCreates(second.value) == []
            && (forall w :: w in second.value.warnings <==> w in first.warnings)
            && Applied(Applied(t, first, naming), second.value, naming) == Applied(t, first, naming)
  {
    hide Reconciled, ValidationError, Wanted, ModeOf, Judge, Warnings, Keyed, Enumerates, ParseFrom, ExpectedFrom, Protected,
      Managed, Legacy, RowOf, DropNames, RowNames, Target;
    Converges(rows, t, request, naming);
    var want, mode := Wanted(request, naming), ModeOf(request);
    var first := Reconciled(rows, request, naming).value;
    var after := Applied(t, first, naming);
    ReconciledFollows(rows, request, naming);
    WarningsCarryOver(rows, again, t, after, want, mode);
    SuccessParts(rows, request, naming);
    forall n | n in after ensures !Judge(after[n], want.Keys, mode).Drop? {
      SettledJudgments(t, after, want, mode, n);
    }
    NothingToDo(again, after, request, naming);
  }
}
