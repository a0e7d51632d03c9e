/** The one clustered slot of a table, over whole runs of reconciles and outside changes. */
module IndexRuns {
  import opened Dict
  import opened IndexConfig
  import opened IndexReconcile
  import opened IndexConvergence

  ghost predicate SlotFree(t: Table) {
    forall n :: n in t ==> !InSlot(t[n])
  }

  ghost predicate AtMostOneClustered(t: Table) {
    forall m, n :: m in t && n in t && InSlot(t[m]) && InSlot(t[n]) ==> m == n
  }

  /** A row under the managed name of a definition has the type of that definition. */
  ghost predicate FaithfulRow(row: Row, naming: Naming) {
    forall d: Definition :: ValidDefinition(d) && NameOf(d, naming) == row.name ==> row.kind == TypeName(d.indexType)
  }

  ghost predicate Faithful(t: Table, naming: Naming) {
    forall n :: n in t ==> FaithfulRow(t[n], naming)
  }

  /** The invariant of a table. */
  ghost predicate Good(t: Table, naming: Naming) {
    Keyed(t) && AtMostOneClustered(t) && Faithful(t, naming)
  }

  lemma CreatedRowFaithful(n: string, d: Definition, naming: Naming)
    requires Injective(naming.hash) && NameOf(d, naming) == n
    ensures FaithfulRow(RowOf(n, d), naming)
  {
    hide NameOf, PayloadOf, Injective, ValidDefinition;
    RowOfName(n, d);
    forall e: Definition | ValidDefinition(e) && NameOf(e, naming) == n ensures RowOf(n, e) == RowOf(n, d) {
      NameFixesPayload(d, e, naming);
      PayloadFixesShape(d, e, naming.relation);
    }
  }

  lemma DropKeepsGood(t: Table, names: seq<string>, naming: Naming)
    requires Good(t, naming)
    ensures Good(Dropped(t, names), naming)
  {
  }

  /** The server accepts a create statement unless it would be a second clustered index. */
  ghost predicate Accepts(t: Table, raw: RawIndex, naming: Naming) {
    var target := Target(raw, naming);
    target.Some? && (target.value.0 !in t && target.value.1.indexType.Clustered? ==> SlotFree(t))
  }

  lemma CreateKeepsGood(t: Table, raw: RawIndex, naming: Naming)
    requires Good(t, naming) && Accepts(t, raw, naming) && Injective(naming.hash)
    ensures Good(Create(t, raw, naming), naming)
  {
    hide FaithfulRow, InSlot, RowOf, NameOf, Injective, Parsed;
    var n, d := Target(raw, naming).value.0, Target(raw, naming).value.1;
    if n !in t {
      RowOfName(n, d);
      CreatedRowFaithful(n, d, naming);
    }
  }

  // ----------------------------------------------------------------- one reconcile

  ghost predicate OneClustered(want: map<string, Config>) {
    forall m, n :: m in want && n in want && Clusters(want[m]) && Clusters(want[n]) ==> m == n
  }

  predicate Clusters(c: Config) {
    c.definition.indexType.Clustered?
  }

  lemma {:induction false} ClusteredOfIff(configs: seq<Config>, c: Config)
    ensures c in ClusteredOf(configs) <==> c in configs && Clusters(c)
  {
    if configs != [] {
      ClusteredOfIff(configs[..|configs| - 1], c);
      assert configs == configs[..|configs| - 1] + [configs[|configs| - 1]];
    }
  }

  /** A validated request expects at most one clustered index. */
  lemma ValidatedOneClustered(request: Request, naming: Naming)
    requires ValidationError(request).None?
    ensures OneClustered(Wanted(request, naming))
  {
    hide ParseFrom, ExpectedFrom, ClusteredOf, NameOf, Clusters;
    var configs := ParseFrom([], request.raws).value;
    var want := Wanted(request, naming);
    if ExpectedFrom([], configs, naming).Success? {
      EmptyNamed(naming);
      ExpectedMeaning([], configs, naming);
    }
    var clustered := ClusteredOf(configs);
    forall m, n | m in want && n in want && Clusters(want[m]) && Clusters(want[n]) ensures m == n {
      ClusteredOfIff(configs, want[m]);
      ClusteredOfIff(configs, want[n]);
      var i :| 0 <= i < |clustered| && clustered[i] == want[m];
      var j :| 0 <= j < |clustered| && clustered[j] == want[n];
      assert i == j;
    }
  }

  /** Row `n` keeps the slot that the missing index `m` needs. */
  ghost predicate Obstructs(t: Table, want: map<string, Config>, mode: Mode, m: string, n: string) {
    && m in want && m !in t && Clusters(want[m])
    && n in t && InSlot(t[n]) && n !in want && !Judge(t[n], want.Keys, mode).Drop?
  }

  lemma FailureIsBlocked(rows: seq<Row>, request: Request, naming: Naming)
    requires ValidationError(request).None?
    requires ExpectedFrom([], ParseFrom([], request.raws).value, naming).Success?
    ensures var entries := ExpectedFrom([], ParseFrom([], request.raws).value, naming).value;
            var r := Reconciled(rows, request, naming);
            && AsMap(entries) == Wanted(request, naming) && NamedByContent(entries, naming)
            && (r.Failure? <==> AnyClustered(Missing(entries, RowNames(rows)))
                                && Blocking(rows, AsMap(entries).Keys,
                                            DropNames(rows, AsMap(entries).Keys, ModeOf(request))) != [])
            && (r.Failure? ==> r.error == ClusteredBlocked(Blocking(rows, AsMap(entries).Keys,
                                            DropNames(rows, AsMap(entries).Keys, ModeOf(request)))))
  {
    hide ParseFrom, ExpectedFrom, DropNames, Warnings, Missing, Blocking, AsMap, RowNames, ClusteredOf, NamedByContent,
      NormalizeDropUnmanaged, ActionsOf, AnyClustered, NameOf;
    EmptyNamed(naming);
    ExpectedMeaning([], ParseFrom([], request.raws).value, naming);
  }

  lemma AnyClusteredMissing(entries: Expected, t: Table, naming: Naming)
    requires NamedByContent(entries, naming)
    ensures AnyClustered(Missing(entries, t.Keys))
            <==> exists m :: m in AsMap(entries) && m !in t && Clusters(AsMap(entries)[m])
  {
    hide AsMap, Missing, NameOf;
    var missing := Missing(entries, t.Keys);
    forall c ensures c in missing <==> exists m :: m in AsMap(entries) && m !in t && AsMap(entries)[m] == c {
      MissingInMap(entries, t.Keys, c);
    }
    if AnyClustered(missing) {
      var j :| 0 <= j < |missing| && missing[j].definition.indexType.Clustered?;
      assert missing[j] in missing;
    }
    if m :| m in AsMap(entries) && m !in t && Clusters(AsMap(entries)[m]) {
      assert AsMap(entries)[m] in missing;
    }
  }

  lemma SomeRowBlocks(rows: seq<Row>, t: Table, expected: set<string>, mode: Mode)
    requires Enumerates(rows, t)
    ensures Blocking(rows, expected, DropNames(rows, expected, mode)) != []
            <==> exists n :: n in t && InSlot(t[n]) && n !in expected && !Judge(t[n], expected, mode).Drop?
  {
    hide DropNames, Blocking, InSlot, Judge;
    var drops := DropNames(rows, expected, mode);
    DropsAreJudged(rows, t, expected, mode);
    BlockingIff(rows, expected, drops);
    if n :| n in t && InSlot(t[n]) && n !in expected && !Judge(t[n], expected, mode).Drop? {
      var i :| 0 <= i < |rows| && rows[i].name == n;
      assert Blocks(rows[i], expected, drops);
    }
  }

  /** The guard is exact: a validated request without collisions is refused exactly when it needs to
      create a clustered index while a clustered row stays that nobody expects. */
  lemma BlockedIff(rows: seq<Row>, t: Table, request: Request, naming: Naming)
    requires Enumerates(rows, t) && ValidationError(request).None?
    requires ExpectedFrom([], ParseFrom([], request.raws).value, naming).Success?
    ensures Reconciled(rows, request, naming).Failure?
            <==> exists m, n :: Obstructs(t, Wanted(request, naming), ModeOf(request), m, n)
    ensures Reconciled(rows, request, naming).Failure? ==> Reconciled(rows, request, naming).error.ClusteredBlocked?
  {
    hide ParseFrom, ExpectedFrom, DropNames, Missing, Blocking, AsMap, RowNames, InSlot, Judge, Enumerates, ModeOf, Wanted,
      Reconciled, NamedByContent, AnyClustered, Clusters;
    var entries := ExpectedFrom([], ParseFrom([], request.raws).value, naming).value;
    var want, mode := Wanted(request, naming), ModeOf(request);
    FailureIsBlocked(rows, request, naming);
    RowNamesAreKeys(rows, t);
    AnyClusteredMissing(entries, t, naming);
    SomeRowBlocks(rows, t, want.Keys, mode);
    if Reconciled(rows, request, naming).Failure? {
      var m :| m in want && m !in t && Clusters(want[m]);
      var n :| n in t && InSlot(t[n]) && n !in want.Keys && !Judge(t[n], want.Keys, mode).Drop?;
      assert Obstructs(t, want, mode, m, n);
    }
  }

  /** The error names exactly the rows in the slot that nobody expects and that stay. */
  lemma BlockedBy(rows: seq<Row>, t: Table, request: Request, naming: Naming, n: string)
    requires Enumerates(rows, t) && ValidationError(request).None?
    requires ExpectedFrom([], ParseFrom([], request.raws).value, naming).Success?
    requires Reconciled(rows, request, naming).Failure?
    ensures var error := Reconciled(rows, request, naming).error;
            && error.ClusteredBlocked?
            && (n in error.names <==> && n in t && InSlot(t[n]) && n !in Wanted(request, naming)
                                      && !Judge(t[n], Wanted(request, naming).Keys, ModeOf(request)).Drop?)
  {
    hide ParseFrom, ExpectedFrom, DropNames, Missing, Blocking, AsMap, RowNames, InSlot, Judge, ModeOf, Wanted,
      Reconciled, NamedByContent, AnyClustered;
    var expected, mode := Wanted(request, naming).Keys, ModeOf(request);
    FailureIsBlocked(rows, request, naming);
    BlockingMembers(rows, expected, DropNames(rows, expected, mode), n);
    DropsAreJudged(rows, t, expected, mode);
  }

  lemma {:induction false} BlockingMembers(rows: seq<Row>, expected: set<string>, drops: seq<string>, n: string)
    ensures n in Blocking(rows, expected, drops)
            <==> exists i :: 0 <= i < |rows| && rows[i].name == n && Blocks(rows[i], expected, drops)
  {
    hide Blocks;
    if rows != [] {
      var init := rows[..|rows| - 1];
      BlockingMembers(init, expected, drops, n);
      assert forall i :: 0 <= i < |init| ==> init[i] == rows[i];
    }
  }

  /** While creates run, only the missing clustered index may have taken the slot. */
  ghost predicate SlotReserved(s: Table, t: Table, want: map<string, Config>) {
    forall m, n :: m in want && m !in t && Clusters(want[m]) && n in s && InSlot(s[n]) ==> n == m
  }

  /** After the drops, the slot is free for a missing clustered index. */
  lemma DropsFreeSlot(rows: seq<Row>, t: Table, request: Request, naming: Naming)
    requires Enumerates(rows, t) && Reconciled(rows, request, naming).Success? && Good(t, naming)
    ensures SlotReserved(Dropped(t, Reconciled(rows, request, naming).value.drops), t, Wanted(request, naming))
  {
    hide Reconciled, Wanted, Dropped, InSlot, RowOf, NameOf, Enumerates, Normal, Judge, ModeOf, DropNames, Warnings,
      AllCreates;
    var want := Wanted(request, naming);
    var drops := Reconciled(rows, request, naming).value.drops;
    DroppedMeaning(t, drops);
    SuccessParts(rows, request, naming);
    ValidatedOneClustered(request, naming);
    WantedWellNamed(request, naming);
    BlockedIff(rows, t, request, naming);
    ReconciledFollows(rows, request, naming);
    DropsAreJudged(rows, t, want.Keys, ModeOf(request));
    forall m, n | m in want && m !in t && Clusters(want[m]) && n in Dropped(t, drops) && InSlot(t[n])
      ensures n == m
    {
      assert n in want ==> Clusters(want[n]) by {
        if n in want {
          ExpectedSlotRow(t, want, n, naming);
        }
      }
      assert !Obstructs(t, want, ModeOf(request), m, n);
    }
  }

  /** By faithfulness, an expected row in the slot is there for a clustered config. */
  lemma ExpectedSlotRow(t: Table, want: map<string, Config>, n: string, naming: Naming)
    requires Good(t, naming) && WellNamed(want, naming) && n in t && n in want && InSlot(t[n])
    ensures Clusters(want[n])
  {
    hide NameOf, ValidDefinition, NormalizeDataCompression, TypeName;
    var d := want[n].definition;
    assert ValidDefinition(d);
    assert FaithfulRow(t[n], naming);
    RowOfName(n, d);
  }

  lemma CreateStep(s: Table, t: Table, want: map<string, Config>, m: string, naming: Naming)
    requires Good(s, naming) && SlotReserved(s, t, want) && OneClustered(want) && WellNamed(want, naming)
    requires m in want && m !in t && Injective(naming.hash)
    ensures var raw := AsNodeConfig(want[m]);
            && Accepts(s, raw, naming)
            && Good(Create(s, raw, naming), naming)
            && SlotReserved(Create(s, raw, naming), t, want)
  {
    hide NameOf, InSlot, RowOf, Good, Normal, AsNodeConfig, Target, Injective;
    var raw := AsNodeConfig(want[m]);
    TargetOfNode(want[m], naming);
    CreateKeepsGood(s, raw, naming);
    RowOfName(m, want[m].definition);
  }

  lemma {:induction false} CreatesKeepGood(s: Table, t: Table, raws: seq<RawIndex>, want: map<string, Config>, naming: Naming)
    requires Good(s, naming) && SlotReserved(s, t, want) && OneClustered(want) && WellNamed(want, naming)
    requires forall raw :: raw in raws ==> exists m :: m in want && m !in t && raw == AsNodeConfig(want[m])
    requires Injective(naming.hash)
    ensures Good(Created(s, raws, naming), naming) && SlotReserved(Created(s, raws, naming), t, want)
    ensures forall raw :: raw in raws ==> Target(raw, naming).Some?
    ensures raws != [] ==> Accepts(Created(s, raws[..|raws| - 1], naming), raws[|raws| - 1], naming)
  {
    hide Good, SlotReserved, OneClustered, WellNamed, AsNodeConfig, Create, Target, Injective;
    if raws != [] {
      var init, last := raws[..|raws| - 1], raws[|raws| - 1];
      assert forall raw :: raw in init ==> raw in raws;
      CreatesKeepGood(s, t, init, want, naming);
      assert last in raws;
      var m :| m in want && m !in t && last == AsNodeConfig(want[m]);
      CreateStep(Created(s, init, naming), t, want, m, naming);
      forall raw | raw in raws ensures Target(raw, naming).Some? {
        assert raw in init || raw == last;
      }
    }
  }

  /** The table after `k` statements of a reconcile: drops first, then creates. */
  function After(t: Table, a: Actions, k: nat, naming: Naming): Table
    requires k <= |a.drops| + |AllCreates(a)|
  {
    if k <= |a.drops| then Dropped(t, a.drops[..k])
    else Created(Dropped(t, a.drops), AllCreates(a)[..k - |a.drops|], naming)
  }

  /** The statement `k` of a reconcile is one the server accepts in the state it meets. */
  ghost predicate Runs(t: Table, a: Actions, k: nat, naming: Naming)
    requires k < |a.drops| + |AllCreates(a)|
  {
    if k < |a.drops| then a.drops[k] in After(t, a, k, naming)
    else Accepts(After(t, a, k, naming), AllCreates(a)[k - |a.drops|], naming)
  }

  lemma AfterAll(t: Table, a: Actions, naming: Naming)
    ensures After(t, a, |a.drops| + |AllCreates(a)|, naming) == Applied(t, a, naming)
  {
    hide Created, Dropped;
    assert AllCreates(a)[..|AllCreates(a)|] == AllCreates(a);
    assert a.drops[..|a.drops|] == a.drops;
    CreatedNone(t, a, naming);
  }

  lemma CreatedNone(t: Table, a: Actions, naming: Naming)
    ensures Created(Dropped(t, a.drops), [], naming) == Dropped(t, a.drops)
  {
  }

  lemma DropRuns(rows: seq<Row>, t: Table, expected: set<string>, mode: Mode, k: nat)
    requires Enumerates(rows, t) && k < |DropNames(rows, expected, mode)|
    ensures DropNames(rows, expected, mode)[k] in Dropped(t, DropNames(rows, expected, mode)[..k])
  {
    hide DropNames, Dropped, Judge;
    var drops := DropNames(rows, expected, mode);
    DropsAreJudged(rows, t, expected, mode);
    DropNamesDistinct(rows, expected, mode);
    DroppedMeaning(t, drops[..k]);
    assert drops[k] in drops;
  }

  /** The clustered slot over one reconcile: after every statement the table has at most one
      clustered index and its managed names still tell the truth, and the server accepts every
      statement: no drop of an absent index, no second clustered index. */
  lemma ReconcileKeepsSlot(rows: seq<Row>, t: Table, request: Request, naming: Naming, k: nat)
    requires Good(t, naming) && Enumerates(rows, t) && Injective(naming.hash)
    requires Reconciled(rows, request, naming).Success?
    ensures var a := Reconciled(rows, request, naming).value;
            && (k <= |a.drops| + |AllCreates(a)| ==> Good(After(t, a, k, naming), naming))
            && (k < |a.drops| + |AllCreates(a)| ==> Runs(t, a, k, naming))
  {
    hide Good, Enumerates, Injective, Reconciled, Wanted, ModeOf, Dropped, Created, DropNames, SlotReserved, OneClustered,
      WellNamed, AllCreates, AsNodeConfig, Accepts, Warnings, RowNames, Target;
    var a := Reconciled(rows, request, naming).value;
    var want := Wanted(request, naming);
    ReconciledFollows(rows, request, naming);
    assert a.drops[..|a.drops|] == a.drops;
    if k <= |a.drops| {
      DropKeepsGood(t, a.drops[..k], naming);
    }
    if k < |a.drops| {
      DropRuns(rows, t, want.Keys, ModeOf(request), k);
    } else if k <= |a.drops| + |AllCreates(a)| {
      DropKeepsGood(t, a.drops, naming);
      DropsFreeSlot(rows, t, request, naming);
      SuccessParts(rows, request, naming);
      ValidatedOneClustered(request, naming);
      WantedWellNamed(request, naming);
      RowNamesAreKeys(rows, t);
      CreatedNone(t, a, naming);
      PrefixCreates(t, a, want, k - |a.drops|, naming);
      if k < |a.drops| + |AllCreates(a)| {
        PrefixCreates(t, a, want, k - |a.drops| + 1, naming);
      }
    }
  }

  lemma PrefixCreates(t: Table, a: Actions, want: map<string, Config>, j: nat, naming: Naming)
    requires j <= |AllCreates(a)| && Injective(naming.hash)
    requires Good(Dropped(t, a.drops), naming) && SlotReserved(Dropped(t, a.drops), t, want)
    requires OneClustered(want) && WellNamed(want, naming)
    requires forall raw :: raw in AllCreates(a) ==> exists m :: m in want && m !in t && raw == AsNodeConfig(want[m])
    ensures Good(Created(Dropped(t, a.drops), AllCreates(a)[..j], naming), naming)
    ensures j > 0 ==> Accepts(Created(Dropped(t, a.drops), AllCreates(a)[..j - 1], naming), AllCreates(a)[j - 1], naming)
  {
    hide Good, Injective, Dropped, Created, SlotReserved, OneClustered, WellNamed, AllCreates, AsNodeConfig, Accepts, Target;
    var raws := AllCreates(a)[..j];
    assert forall raw :: raw in raws ==> raw in AllCreates(a);
    CreatesKeepGood(Dropped(t, a.drops), t, raws, want, naming);
    if j > 0 {
      assert raws[..j - 1] == AllCreates(a)[..j - 1];
    }
  }

  // ---------------------------------------------------------------- refused statements

  /** Where the server refuses a statement for its data, such as a unique index over duplicates: in the one
      transactional batch, or in an own-batch create after `done` of them. */
  datatype Stop = InBatch | InOwnCreate(done: nat)

  /** What is left then: a refused batch is rolled back whole; a refused own-batch create keeps the batch and
      the own-batch creates before it. */
  function Stopped(t: Table, a: Actions, stop: Stop, naming: Naming): Table {
    match stop
    case InBatch => t
    case InOwnCreate(done) => Created(Dropped(t, a.drops), RunBefore(a, done), naming)
  }

  function RunBefore(a: Actions, done: nat): seq<RawIndex> {
    a.creates + a.createsNoTxn[..if done < |a.createsNoTxn| then done else |a.createsNoTxn|]
  }

  lemma StoppedIsAfter(t: Table, a: Actions, done: nat, naming: Naming) returns (k: nat)
    ensures k <= |a.drops| + |AllCreates(a)| && After(t, a, k, naming) == Stopped(t, a, InOwnCreate(done), naming)
  {
    hide Created, Dropped;
    var n := |RunBefore(a, done)|;
    k := |a.drops| + n;
    assert AllCreates(a)[..n] == RunBefore(a, done);
    assert a.drops[..|a.drops|] == a.drops;
    if n == 0 {
      assert RunBefore(a, done) == [];
      CreatedNone(t, a, naming);
    }
  }

  lemma StoppedPartlySettled(rows: seq<Row>, t: Table, request: Request, done: nat, naming: Naming)
    requires Enumerates(rows, t) && Reconciled(rows, request, naming).Success?
    ensures PartlySettled(t, Stopped(t, Reconciled(rows, request, naming).value, InOwnCreate(done), naming),
                          Wanted(request, naming), ModeOf(request))
  {
    hide Reconciled, Wanted, ModeOf, Enumerates, PartlySettled, Created, Dropped;
    ReconciledFollows(rows, request, naming);
    WantedWellNamed(request, naming);
    var a := Reconciled(rows, request, naming).value;
    FollowingSettlesPartly(rows, t, a, RunBefore(a, done), Wanted(request, naming), ModeOf(request), naming);
  }

  /** What is stopped keeps every protected and legacy row, too. */
  lemma StoppedKeeps(rows: seq<Row>, t: Table, request: Request, stop: Stop, naming: Naming)
    requires Keyed(t) && Enumerates(rows, t) && Reconciled(rows, request, naming).Success?
    ensures var s := Stopped(t, Reconciled(rows, request, naming).value, stop, naming);
            Keyed(s) && forall n :: n in t && (Protected(t[n]) || Legacy(n)) ==> n in s && s[n] == t[n]
  {
    hide Reconciled, Wanted, ModeOf, Enumerates, Stopped, Protected;
    var s := Stopped(t, Reconciled(rows, request, naming).value, stop, naming);
    if stop.InBatch? {
      NothingRan(t, Reconciled(rows, request, naming).value, naming);
    } else {
      StoppedPartlySettled(rows, t, request, stop.done, naming);
      PartKeyed(t, s, Wanted(request, naming), ModeOf(request));
      forall n | n in t && (Protected(t[n]) || Legacy(n)) ensures n in s && s[n] == t[n] {
        assert Legacy(n) ==> n[0] != 'd';
      }
    }
  }

  lemma NothingRan(t: Table, a: Actions, naming: Naming)
    ensures Stopped(t, a, InBatch, naming) == t
  {
  }

  /** A reconcile of the same request after a refused one succeeds and ends where the first would have: the
      refused batch has changed nothing, and what a refused own-batch create leaves is finished. */
  lemma RefusedThenConverges(rows: seq<Row>, t: Table, request: Request, stop: Stop, again: seq<Row>, naming: Naming)
    requires Keyed(t) && Enumerates(rows, t) && Reconciled(rows, request, naming).Success?
    requires Enumerates(again, Stopped(t, Reconciled(rows, request, naming).value, stop, naming))
    ensures Reconciled(again, request, naming).Success?
    ensures var first := Reconciled(rows, request, naming).value;
            Applied(Stopped(t, first, stop, naming), Reconciled(again, request, naming).value, naming)
            == Applied(t, first, naming)
  {
    hide Reconciled, Wanted, ModeOf, Enumerates, Stopped, Applied, Settled, PartlySettled, ExpectedFrom, ParseFrom,
      ValidationError, Keyed, Protected;
    var first, want, mode := Reconciled(rows, request, naming).value, Wanted(request, naming), ModeOf(request);
    var s := Stopped(t, first, stop, naming);
    SuccessParts(rows, request, naming);
    BlockedIff(rows, t, request, naming);
    BlockedIff(again, s, request, naming);
    StoppedKeeps(rows, t, request, stop, naming);
    if stop.InBatch? {
      NothingRan(t, first, naming);
    } else {
      StoppedPartlySettled(rows, t, request, stop.done, naming);
      forall m, n | Obstructs(s, want, mode, m, n) ensures Obstructs(t, want, mode, m, n) {
        ObstructsBefore(t, s, want, mode, m, n);
      }
    }
    Converges(rows, t, request, naming);
    Converges(again, s, request, naming);
    var after := Applied(s, Reconciled(again, request, naming).value, naming);
    if !stop.InBatch? {
      ResumeSettles(t, s, after, want, mode);
    }
    SettledUnique(t, Applied(t, first, naming), after, want, mode);
  }

  lemma ObstructsBefore(t: Table, s: Table, want: map<string, Config>, mode: Mode, m: string, n: string)
    requires Keyed(t) && PartlySettled(t, s, want, mode) && Obstructs(s, want, mode, m, n)
    ensures Obstructs(t, want, mode, m, n)
  {
    hide InSlot, RowOf, Protected, Managed, Legacy;
  }

  // ---------------------------------------------------------------------- whole runs

  /** One thing that happens to the table: a reconcile over some listing of its indexes, one in which the
      server refuses a statement, or a change from outside. */
  datatype Step =
    | Reconcile(rows: seq<Row>, request: Request)
    | Refused(rows: seq<Row>, request: Request, stop: Stop)
    | OutsideCreate(row: Row)
    | OutsideDrop(name: string)

  /** The server enforces the clustered slot on everyone; outsiders do not forge managed names. */
  ghost predicate Allowed(t: Table, step: Step, naming: Naming) {
    match step
    case Reconcile(rows, _) => Enumerates(rows, t)
    case Refused(rows, _, _) => Enumerates(rows, t)
    case OutsideCreate(row) => row.name !in t && (InSlot(row) ==> SlotFree(t)) && FaithfulRow(row, naming)
    case OutsideDrop(_) => true
  }

  /** A reconcile that raises leaves the table alone. */
  function Next(t: Table, step: Step, naming: Naming): Table {
    match step
    case Reconcile(rows, request) =>
      var r := Reconciled(rows, request, naming);
      if r.Failure? then t else Applied(t, r.value, naming)
    case Refused(rows, request, stop) =>
      var r := Reconciled(rows, request, naming);
      if r.Failure? then t else Stopped(t, r.value, stop, naming)
    case OutsideCreate(row) => t[row.name := row]
    case OutsideDrop(name) => t - {name}
  }

  function State(t: Table, steps: seq<Step>, naming: Naming): Table {
    if steps == [] then t else Next(State(t, steps[..|steps| - 1], naming), steps[|steps| - 1], naming)
  }

  ghost predicate IsRun(t: Table, steps: seq<Step>, naming: Naming) {
    forall i :: 0 <= i < |steps| ==> Allowed(State(t, steps[..i], naming), steps[i], naming)
  }

  lemma RunInit(t: Table, steps: seq<Step>, naming: Naming)
    requires IsRun(t, steps, naming) && steps != []
    ensures IsRun(t, steps[..|steps| - 1], naming)
    ensures Allowed(State(t, steps[..|steps| - 1], naming), steps[|steps| - 1], naming)
  {
    hide Allowed, State;
    var init := steps[..|steps| - 1];
    forall i | 0 <= i < |init| ensures Allowed(State(t, init[..i], naming), init[i], naming) {
      assert init[..i] == steps[..i] && init[i] == steps[i];
    }
  }

  lemma StepKeepsGood(t: Table, step: Step, naming: Naming)
    requires Good(t, naming) && Allowed(t, step, naming) && Injective(naming.hash)
    ensures Good(Next(t, step, naming), naming)
  {
    hide Enumerates, Injective, Reconciled, Applied, FaithfulRow, InSlot;
    match step {
      case Reconcile(rows, request) =>
        if Reconciled(rows, request, naming).Success? {
          var a := Reconciled(rows, request, naming).value;
          ReconcileKeepsSlot(rows, t, request, naming, |a.drops| + |AllCreates(a)|);
          AfterAll(t, a, naming);
        }
      case Refused(rows, request, stop) =>
        if Reconciled(rows, request, naming).Success? && stop.InOwnCreate? {
          var k := StoppedIsAfter(t, Reconciled(rows, request, naming).value, stop.done, naming);
          ReconcileKeepsSlot(rows, t, request, naming, k);
        }
      case OutsideCreate(row) =>
      case OutsideDrop(name) =>
    }
  }

  /** Over every run, from any table that has at most one clustered index and truthful managed names:
      it stays that way, after every step and after every single statement of every reconcile, refused or
      not, and no statement is one the server refuses for the indexes there. */
  lemma {:induction false} RunsKeepSlot(t: Table, steps: seq<Step>, naming: Naming)
    requires Good(t, naming) && IsRun(t, steps, naming) && Injective(naming.hash)
    ensures Good(State(t, steps, naming), naming)
    ensures forall i :: 0 <= i < |steps| ==> StatementsGood(State(t, steps[..i], naming), steps[i], naming)
  {
    hide Good, Allowed, Injective, Next, IsRun, StatementsGood;
    if steps != [] {
      var init, last := steps[..|steps| - 1], steps[|steps| - 1];
      RunInit(t, steps, naming);
      RunsKeepSlot(t, init, naming);
      StepKeepsGood(State(t, init, naming), last, naming);
      EveryStatementGood(State(t, init, naming), last, naming);
      forall i | 0 <= i < |steps| ensures StatementsGood(State(t, steps[..i], naming), steps[i], naming) {
        if i < |init| {
          assert init[..i] == steps[..i] && init[i] == steps[i];
        }
      }
    }
  }

  ghost predicate StatementsGood(t: Table, step: Step, naming: Naming) {
    (step.Reconcile? || step.Refused?) && Reconciled(step.rows, step.request, naming).Success? ==>
      var a := Reconciled(step.rows, step.request, naming).value;
      forall k :: 0 <= k < |a.drops| + |AllCreates(a)| ==> Good(After(t, a, k, naming), naming) && Runs(t, a, k, naming)
  }

  lemma EveryStatementGood(t: Table, step: Step, naming: Naming)
    requires Good(t, naming) && Allowed(t, step, naming) && Injective(naming.hash)
    ensures StatementsGood(t, step, naming)
  {
    hide Good, Injective, Reconciled, After, Runs, AllCreates, Enumerates, SlotFree, FaithfulRow;
    if (step.Reconcile? || step.Refused?) && Reconciled(step.rows, step.request, naming).Success? {
      var a := Reconciled(step.rows, step.request, naming).value;
      forall k | 0 <= k < |a.drops| + |AllCreates(a)|
        ensures Good(After(t, a, k, naming), naming) && Runs(t, a, k, naming)
      {
        ReconcileKeepsSlot(step.rows, t, step.request, naming, k);
      }
    }
  }

  /** Whatever is configured, in every mode, no run of reconciles removes or alters a primary key, a
      unique constraint, a clustered columnstore or a legacy index: only an outside drop does. */
  lemma {:induction false} ProtectedSurvives(t: Table, steps: seq<Step>, naming: Naming, n: string)
    requires Keyed(t) && IsRun(t, steps, naming) && OutsideDrop(n) !in steps
    requires n in t && (Protected(t[n]) || Legacy(n))
    ensures var s := State(t, steps, naming); Keyed(s) && n in s && s[n] == t[n]
  {
    hide IsRun, Reconciled, Applied, Protected, Legacy, Enumerates, Settled, SlotFree, FaithfulRow, Wanted, ModeOf,
      Stopped;
    if steps != [] {
      var init, last := steps[..|steps| - 1], steps[|steps| - 1];
      RunInit(t, steps, naming);
      assert last in steps && forall x :: x in init ==> x in steps;
      ProtectedSurvives(t, init, naming, n);
      if last.Reconcile? && Reconciled(last.rows, last.request, naming).Success? {
        Converges(last.rows, State(t, init, naming), last.request, naming);
      }
      if last.Refused? && Reconciled(last.rows, last.request, naming).Success? {
        StoppedKeeps(last.rows, State(t, init, naming), last.request, last.stop, naming);
      }
    }
  }

  /** Once a reconcile has succeeded, any number of reconciles for the same request changes nothing
      more. */
  lemma {:induction false} RepeatsChangeNothing(t: Table, rows: seq<Row>, request: Request, steps: seq<Step>, naming: Naming)
    requires Keyed(t) && Enumerates(rows, t) && Reconciled(rows, request, naming).Success?
    requires var after := Applied(t, Reconciled(rows, request, naming).value, naming); IsRun(after, steps, naming)
    requires forall step :: step in steps ==> step.Reconcile? && step.request == request
    ensures var after := Applied(t, Reconciled(rows, request, naming).value, naming);
            State(after, steps, naming) == after
  {
    hide IsRun, Reconciled, Applied, Enumerates, Keyed;
    if steps != [] {
      var after := Applied(t, Reconciled(rows, request, naming).value, naming);
      var init, last := steps[..|steps| - 1], steps[|steps| - 1];
      RunInit(after, steps, naming);
      assert last in steps && forall x :: x in init ==> x in steps;
      RepeatsChangeNothing(t, rows, request, init, naming);
      SecondReconcileDoesNothing(rows, t, last.rows, request, naming);
    }
  }
}
