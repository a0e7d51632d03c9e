/** Object-level DENY permissions: resolution and diff (`sqlserver_deny.py`) and the macro that
    applies them (`apply_denies.sql`). */
module Denies {
  import opened Text
  import opened Dict

  type Config = Entries<string, seq<string>>

  predicate Supported(privilege: string) {
    || privilege == "select" || privilege == "insert" || privilege == "update"
    || privilege == "delete" || privilege == "references"
  }

  // ---------------------------------------------------------------- resolving

  predicate HasName(names: seq<string>, norm: string) {
    exists i :: 0 <= i < |names| && NormalizeName(names[i]) == norm
  }

  /** Blank names and repetitions up to case dropped; the first spelling stays. */
  function Deduped(principals: seq<string>): seq<string> {
    if principals == [] then []
    else
      var init, last := Deduped(principals[..|principals| - 1]), principals[|principals| - 1];
      if NormalizeName(last) == "" || HasName(init, NormalizeName(last)) then init else init + [last]
  }

  /** The values of a dictionary, in order. */
  function Values(d: Entries<string, string>): (r: seq<string>)
    ensures |r| == |d| && forall i :: 0 <= i < |r| ==> r[i] == d[i].1
  {
    seq(|d|, i requires 0 <= i < |d| => d[i].1)
  }

  lemma {:induction false} PutFresh<V>(d: Entries<string, V>, k: string, v: V)
    requires k !in AsMap(d)
    ensures Put(d, k, v) == d + [(k, v)]
  {
    if d != [] {
      PutFresh(d[1..], k, v);
    }
  }

  /** `_dedupe_ci`. */
  method DedupeCi(principals: seq<string>) returns (r: seq<string>)
    ensures r == Deduped(principals)
  {
    hide NormalizeName;
    var seen: Entries<string, string> := [];
    for i := 0 to |principals|
      invariant Values(seen) == Deduped(principals[..i])
      invariant Distinct(seen) && forall k :: 0 <= k < |seen| ==> seen[k].0 == NormalizeName(seen[k].1)
    {
      var principal := principals[i];
      var key := NormalizeName(principal);
      assert principals[..i + 1][..i] == principals[..i];
      SeenIffNamed(seen, key);
      if key != "" && Get(seen, key).None? {
        PutFresh(seen, key, principal);
        PutDistinct(seen, key, principal);
        seen := Put(seen, key, principal);
      }
    }
    assert principals[..|principals|] == principals;
    r := Values(seen);
  }

  lemma SeenIffNamed(seen: Entries<string, string>, key: string)
    requires Distinct(seen) && forall k :: 0 <= k < |seen| ==> seen[k].0 == NormalizeName(seen[k].1)
    ensures key in AsMap(seen) <==> HasName(Values(seen), key)
  {
    hide NormalizeName;
    if key in AsMap(seen) {
      var i := MapHasEntry(seen, key);
      assert Values(seen)[i] == seen[i].1;
    }
    if HasName(Values(seen), key) {
      var i :| 0 <= i < |seen| && NormalizeName(Values(seen)[i]) == key;
      EntryInMap(seen, i);
    }
  }

  /** One entry of the config merged in. */
  function Merged(resolved: Config, privilege: string, principals: seq<string>): Config {
    var norm := NormalizeName(privilege);
    var deduped := Deduped(principals);
    if !Supported(norm) || deduped == [] then resolved
    else
      var existing := Get(resolved, norm);
      Put(resolved, norm, Deduped((if existing.None? then [] else existing.value) + deduped))
  }

  /** `resolve_denies`: the resolved map. */
  function Resolved(config: Config): Config {
    if config == [] then []
    else
      var last := config[|config| - 1];
      Merged(Resolved(config[..|config| - 1]), last.0, last.1)
  }

  /** The privileges reported as unsupported, in order. */
  function Unsupported(config: Config): seq<string> {
    if config == [] then []
    else
      var last := config[|config| - 1];
      Unsupported(config[..|config| - 1]) + (if Supported(NormalizeName(last.0)) then [] else [last.0])
  }

  /** Exactly the other privileges are reported, as they are spelled. */
  lemma {:induction false} UnsupportedMeaning(config: Config, privilege: string)
    ensures privilege in Unsupported(config)
            <==> && (exists i :: 0 <= i < |config| && config[i].0 == privilege)
                 && var p := NormalizeName(privilege);
                    p != "select" && p != "insert" && p != "update" && p != "delete" && p != "references"
  {
    hide NormalizeName;
    if config != [] {
      var init := config[..|config| - 1];
      UnsupportedMeaning(init, privilege);
      assert forall i :: 0 <= i < |init| ==> init[i] == config[i];
    }
  }

  /** A privilege and a principal, normalised. */
  type Pair = (string, string)

  /** The config asks for this pair. */
  ghost predicate Asks(config: Config, pair: Pair) {
    exists i :: 0 <= i < |config| && NormalizeName(config[i].0) == pair.0 && HasName(config[i].1, pair.1)
  }

  /** No repetition up to case and nothing blank. */
  ghost predicate CleanNames(names: seq<string>) {
    && (forall i :: 0 <= i < |names| ==> NormalizeName(names[i]) != "")
    && (forall i, j :: 0 <= i < j < |names| ==> NormalizeName(names[i]) != NormalizeName(names[j]))
  }

  lemma {:induction false} DedupedMeaning(principals: seq<string>, norm: string)
    ensures CleanNames(Deduped(principals))
    ensures HasName(Deduped(principals), norm) <==> norm != "" && HasName(principals, norm)
  {
    hide NormalizeName;
    if principals != [] {
      var init, last := principals[..|principals| - 1], principals[|principals| - 1];
      DedupedMeaning(init, norm);
      DedupedMeaning(init, NormalizeName(last));
      NamesAppend(init, last, norm);
      NamesAppend(Deduped(init), last, norm);
      assert init + [last] == principals;
    }
  }

  /** Of several spellings the first one stays. */
  lemma {:induction false} FirstSpellingStays(principals: seq<string>, name: string)
    requires name in Deduped(principals)
    ensures exists i :: 0 <= i < |principals| && principals[i] == name
                        && forall j :: 0 <= j < i ==> NormalizeName(principals[j]) != NormalizeName(name)
  {
    hide NormalizeName;
    var init, last := principals[..|principals| - 1], principals[|principals| - 1];
    if name in Deduped(init) {
      FirstSpellingStays(init, name);
      assert forall i :: 0 <= i < |init| ==> init[i] == principals[i];
    } else {
      DedupedMeaning(init, NormalizeName(last));
      assert forall j :: 0 <= j < |init| ==> init[j] == principals[j];
    }
  }

  lemma NamesAppend(names: seq<string>, last: string, norm: string)
    ensures HasName(names + [last], norm) <==> HasName(names, norm) || NormalizeName(last) == norm
  {
    hide NormalizeName;
    var all := names + [last];
    assert all[|names|] == last;
    if HasName(names, norm) {
      var i :| 0 <= i < |names| && NormalizeName(names[i]) == norm;
      assert all[i] == names[i];
    }
  }

  lemma NamesConcat(x: seq<string>, y: seq<string>, norm: string)
    ensures HasName(x + y, norm) <==> HasName(x, norm) || HasName(y, norm)
  {
    hide NormalizeName;
    if HasName(x, norm) {
      var i :| 0 <= i < |x| && NormalizeName(x[i]) == norm;
      assert (x + y)[i] == x[i];
    }
    if HasName(y, norm) {
      var i :| 0 <= i < |y| && NormalizeName(y[i]) == norm;
      assert (x + y)[|x| + i] == y[i];
    }
  }

  /** A list with nothing to drop is left alone. */
  lemma {:induction false} DedupedClean(names: seq<string>)
    requires CleanNames(names)
    ensures Deduped(names) == names
  {
    hide NormalizeName, HasName, CleanNames;
    if names != [] {
      CleanInit(names);
      DedupedClean(names[..|names| - 1]);
      assert names[..|names| - 1] + [names[|names| - 1]] == names;
    }
  }

  lemma CleanInit(names: seq<string>)
    requires CleanNames(names) && names != []
    ensures var init, last := names[..|names| - 1], names[|names| - 1];
            CleanNames(init) && NormalizeName(last) != "" && !HasName(init, NormalizeName(last))
  {
  }

  /** What `resolve_denies` returns: supported lower-case privileges, each once, with clean lists. */
  ghost predicate CleanConfig(config: Config) {
    && Distinct(config)
    && forall i :: 0 <= i < |config| ==>
         && Supported(config[i].0) && NormalizeName(config[i].0) == config[i].0
         && CleanNames(config[i].1) && config[i].1 != []
  }

  lemma {:induction false} PutEntries(d: Config, k: string, v: seq<string>, i: nat)
    requires i < |Put(d, k, v)|
    ensures var r := Put(d, k, v); r[i] == (k, v) || (i < |d| && r[i] == d[i])
  {
    if d != [] && d[0].0 != k && i > 0 {
      PutEntries(d[1..], k, v, i - 1);
    }
  }

  lemma {:induction false} ResolvedClean(config: Config)
    ensures CleanConfig(Resolved(config))
  {
    hide NormalizeName, Supported, CleanNames, Deduped, HasName;
    if config != [] {
      var init, last := config[..|config| - 1], config[|config| - 1];
      ResolvedClean(init);
      var before := Resolved(init);
      var norm := NormalizeName(last.0);
      var deduped := Deduped(last.1);
      if Supported(norm) && deduped != [] {
        var existing := Get(before, norm);
        var all := (if existing.None? then [] else existing.value) + deduped;
        NormalizeNameIdempotent(last.0);
        DedupedMeaning(all, "");
        DedupedNonempty(last.1, if existing.None? then [] else existing.value);
        PutDistinct(before, norm, Deduped(all));
        var r := Put(before, norm, Deduped(all));
        forall i | 0 <= i < |r|
          ensures Supported(r[i].0) && NormalizeName(r[i].0) == r[i].0 && CleanNames(r[i].1) && r[i].1 != []
        {
          PutEntries(before, norm, Deduped(all), i);
        }
      }
    }
  }

  lemma DedupedNonempty(principals: seq<string>, existing: seq<string>)
    requires Deduped(principals) != []
    ensures Deduped(existing + Deduped(principals)) != []
  {
  }

  /** Asking, through one more entry. */
  lemma AsksAppend(config: Config, last: (string, seq<string>), pair: Pair)
    ensures Asks(config + [last], pair) <==>
            Asks(config, pair) || (NormalizeName(last.0) == pair.0 && HasName(last.1, pair.1))
  {
    hide NormalizeName, HasName;
    var all := config + [last];
    assert all[|config|] == last;
    if Asks(config, pair) {
      var i :| 0 <= i < |config| && NormalizeName(config[i].0) == pair.0 && HasName(config[i].1, pair.1);
      assert all[i] == config[i];
    }
  }

  /** In a clean config a pair is asked for by the entry of its privilege. */
  lemma AsksInClean(config: Config, pair: Pair)
    requires CleanConfig(config)
    ensures Asks(config, pair) <==> pair.0 in AsMap(config) && HasName(AsMap(config)[pair.0], pair.1)
  {
    hide NormalizeName, HasName, Supported, CleanNames;
    if Asks(config, pair) {
      var i :| 0 <= i < |config| && NormalizeName(config[i].0) == pair.0 && HasName(config[i].1, pair.1);
      EntryInMap(config, i);
    }
    if pair.0 in AsMap(config) && HasName(AsMap(config)[pair.0], pair.1) {
      var i := MapHasEntry(config, pair.0);
      assert NormalizeName(config[i].0) == pair.0;
    }
  }

  /** Resolution keeps exactly the supported, nonblank pairs, up to case. */
  lemma {:induction false} ResolvedMeaning(config: Config, pair: Pair)
    ensures Asks(Resolved(config), pair)
            <==> && Asks(config, pair) && pair.1 != ""
                 && (|| pair.0 == "select" || pair.0 == "insert" || pair.0 == "update"
                     || pair.0 == "delete" || pair.0 == "references")
  {
    hide NormalizeName, HasName, CleanConfig, Deduped, Asks;
    if config == [] {
      AsksNothing(pair);
    } else {
      var init, last := config[..|config| - 1], config[|config| - 1];
      assert config == init + [last];
      ResolvedMeaning(init, pair);
      AsksAppend(init, last, pair);
      ResolvedClean(init);
      ResolvedClean(config);
      MergedMeaning(Resolved(init), last.0, last.1, pair);
    }
  }

  lemma AsksNothing(pair: Pair)
    ensures !Asks([], pair)
  {
  }

  lemma MergedMeaning(before: Config, privilege: string, principals: seq<string>, pair: Pair)
    requires CleanConfig(before) && CleanConfig(Merged(before, privilege, principals))
    ensures Asks(Merged(before, privilege, principals), pair) <==>
            Asks(before, pair)
            || (Supported(pair.0) && NormalizeName(privilege) == pair.0 && pair.1 != "" && HasName(principals, pair.1))
  {
    hide NormalizeName, Supported, CleanConfig, Asks;
    var r := Merged(before, privilege, principals);
    var norm := NormalizeName(privilege);
    AsksInClean(before, pair);
    AsksInClean(r, pair);
    var deduped := Deduped(principals);
    DedupedMeaning(principals, pair.1);
    if Supported(norm) && deduped != [] && pair.0 == norm {
      var existing := Get(before, norm);
      var old_ := if existing.None? then [] else existing.value;
      NamesConcat(old_, deduped, pair.1);
      DedupedMeaning(old_ + deduped, pair.1);
      if existing.Some? && HasName(old_, pair.1) {
        CleanHasNoBlank(before, norm, pair.1);
      }
    }
  }

  lemma CleanHasNoBlank(config: Config, privilege: string, norm: string)
    requires CleanConfig(config) && privilege in AsMap(config) && HasName(AsMap(config)[privilege], norm)
    ensures norm != ""
  {
  }

  lemma {:induction false} CleanIsFixed(config: Config)
    requires CleanConfig(config)
    ensures Resolved(config) == config
  {
    hide NormalizeName, Supported, CleanNames, Deduped;
    if config != [] {
      var init, last := config[..|config| - 1], config[|config| - 1];
      assert forall i :: 0 <= i < |init| ==> init[i] == config[i];
      CleanIsFixed(init);
      DedupedClean(last.1);
      forall i | 0 <= i < |init| ensures init[i].0 != last.0 {
        assert init[i] == config[i];
      }
      if last.0 in AsMap(init) {
        var i := MapHasEntry(init, last.0);
      }
      PutFresh(init, last.0, last.1);
      assert [] + last.1 == last.1;
      assert init + [last] == config;
    }
  }

  /** Resolving is idempotent. */
  lemma ResolvedIdempotent(config: Config)
    ensures Resolved(Resolved(config)) == Resolved(config)
  {
    ResolvedClean(config);
    CleanIsFixed(Resolved(config));
  }

  // ------------------------------------------------------------------ diffing

  /** One live row of `sys.database_permissions` in state DENY. */
  datatype Row = Row(grantee: string, privilegeType: string)

  function PairKey(privilege: string, principal: string): Pair {
    (NormalizeName(privilege), NormalizeName(principal))
  }

  /** Pairs by their normalised form; a later pair of the same form wins. */
  function ByKey(pairs: seq<(string, string)>): Entries<Pair, (string, string)> {
    if pairs == [] then []
    else
      var last := pairs[|pairs| - 1];
      Put(ByKey(pairs[..|pairs| - 1]), PairKey(last.0, last.1), last)
  }

  function RowPairs(rows: seq<Row>): (r: seq<(string, string)>)
    ensures |r| == |rows| && forall i :: 0 <= i < |r| ==> r[i] == (rows[i].privilegeType, rows[i].grantee)
  {
    seq(|rows|, i requires 0 <= i < |rows| => (rows[i].privilegeType, rows[i].grantee))
  }

  function PrincipalPairs(privilege: string, principals: seq<string>): (r: seq<(string, string)>)
    ensures |r| == |principals| && forall i :: 0 <= i < |r| ==> r[i] == (privilege, principals[i])
  {
    seq(|principals|, i requires 0 <= i < |principals| => (privilege, principals[i]))
  }

  /** Every (privilege, principal) of a config, in order. */
  function ConfigPairs(config: Config): seq<(string, string)> {
    if config == [] then []
    else
      var last := config[|config| - 1];
      ConfigPairs(config[..|config| - 1]) + PrincipalPairs(last.0, last.1)
  }

  /** The pairs of `d` whose key is not in `other`, in order. */
  function Without(d: Entries<Pair, (string, string)>, other: Entries<Pair, (string, string)>): seq<(string, string)> {
    if d == [] then []
    else
      var last := d[|d| - 1];
      Without(d[..|d| - 1], other) + (if last.0 in AsMap(other) then [] else [last.1])
  }

  // ------------------------------------------------------------- denied and granted

  /** The grantees of `names`, normalised. */
  function NormSet(names: seq<string>): (r: set<string>)
    ensures forall x :: x in r <==> HasName(names, x)
  {
    set i | 0 <= i < |names| :: NormalizeName(names[i])
  }

  predicate Granted(m: map<string, set<string>>, pair: Pair) {
    pair.0 in m && pair.1 in m[pair.0]
  }

  /** `_normalize_grant_map`: it holds exactly the pairs the grant config asks for. */
  method NormalizeGrantMap(grants: Config) returns (m: map<string, set<string>>)
    ensures forall pair :: Granted(m, pair) <==> Asks(grants, pair)
  {
    hide NormalizeName, HasName;
    m := map[];
    NothingAsked();
    for i := 0 to |grants|
      invariant forall pair :: Granted(m, pair) <==> Asks(grants[..i], pair)
    {
      hide Asks;
      var (privilege, grantees) := grants[i];
      var norm := NormalizeName(privilege);
      var more := NormSet(grantees);
      assert grants[..i + 1] == grants[..i] + [grants[i]];
      ghost var before := m;
      m := m[norm := (if norm in m then m[norm] else {}) + more];
      forall pair ensures Granted(m, pair) <==> Asks(grants[..i + 1], pair) {
        AsksAppend(grants[..i], grants[i], pair);
        assert Granted(m, pair) <==> Granted(before, pair) || (pair.0 == norm && pair.1 in more);
      }
    }
    assert grants[..|grants|] == grants;
  }

  lemma NothingAsked()
    ensures forall pair :: !Asks([], pair)
  {
  }

  /** The resolved pairs that the grant config asks for too, in order: each is warned about. */
  ghost function Contradictions(pairs: seq<(string, string)>, grants: Config): seq<(string, string)> {
    if pairs == [] then []
    else
      var last := pairs[|pairs| - 1];
      Contradictions(pairs[..|pairs| - 1], grants)
      + (if Asks(grants, (last.0, NormalizeName(last.1))) then [last] else [])
  }

  /** A pair is warned about exactly when it is both denied and granted. */
  lemma {:induction false} ContradictionsMeaning(pairs: seq<(string, string)>, grants: Config, x: (string, string))
    ensures x in Contradictions(pairs, grants) <==> x in pairs && Asks(grants, (x.0, NormalizeName(x.1)))
  {
    hide NormalizeName, Asks;
    if pairs != [] {
      var init, last := pairs[..|pairs| - 1], pairs[|pairs| - 1];
      ContradictionsMeaning(init, grants, x);
      assert pairs == init + [last];
    }
  }

  lemma ContradictionsAppend(pairs: seq<(string, string)>, last: (string, string), grants: Config)
    ensures Contradictions(pairs + [last], grants)
         == Contradictions(pairs, grants) + (if Asks(grants, (last.0, NormalizeName(last.1))) then [last] else [])
  {
    hide NormalizeName, Asks;
    assert (pairs + [last])[..|pairs|] == pairs;
  }

  /** The warning loops of `resolve_denies`. */
  method FindContradictions(resolved: Config, grantMap: map<string, set<string>>, ghost grants: Config)
    returns (warnings: seq<(string, string)>)
    requires forall pair :: Granted(grantMap, pair) <==> Asks(grants, pair)
    ensures warnings == Contradictions(ConfigPairs(resolved), grants)
  {
    hide NormalizeName, Asks, Contradictions;
    warnings := [];
    NoContradictions(grants);
    for i := 0 to |resolved|
      invariant warnings == Contradictions(ConfigPairs(resolved[..i]), grants)
    {
      var (privilege, principals) := resolved[i];
      assert resolved[..i + 1][..i] == resolved[..i];
      ghost var before := ConfigPairs(resolved[..i]);
      assert before + PrincipalPairs(privilege, principals[..0]) == before;
      for j := 0 to |principals|
        invariant warnings == Contradictions(before + PrincipalPairs(privilege, principals[..j]), grants)
      {
        var principal := principals[j];
        assert PrincipalPairs(privilege, principals[..j + 1])
            == PrincipalPairs(privilege, principals[..j]) + [(privilege, principal)];
        Assoc(before, PrincipalPairs(privilege, principals[..j]), [(privilege, principal)]);
        ContradictionsAppend(before + PrincipalPairs(privilege, principals[..j]), (privilege, principal), grants);
        assert Granted(grantMap, (privilege, NormalizeName(principal)))
          <==> Asks(grants, (privilege, NormalizeName(principal)));
        if privilege in grantMap && NormalizeName(principal) in grantMap[privilege] {
          warnings := warnings + [(privilege, principal)];
        }
      }
      assert principals[..|principals|] == principals;
    }
    assert resolved[..|resolved|] == resolved;
  }

  lemma NoContradictions(grants: Config)
    ensures Contradictions([], grants) == []
  {
  }

  /** `resolve_denies`: the resolved map, the pairs it warns about, and the unsupported privileges. */
  method ResolveDenies(config: Config, grants: Config)
    returns (resolved: Config, warnings: seq<(string, string)>, unsupported: seq<string>)
    ensures resolved == Resolved(config) && unsupported == Unsupported(config)
    ensures warnings == Contradictions(ConfigPairs(Resolved(config)), grants)
  {
    hide NormalizeName, Supported;
    resolved, warnings, unsupported := [], [], [];
    for i := 0 to |config|
      invariant resolved == Resolved(config[..i]) && unsupported == Unsupported(config[..i])
    {
      var (privilege, principals) := config[i];
      assert config[..i + 1][..i] == config[..i] && config[..i + 1][i] == config[i];
      var norm := NormalizeName(privilege);
      if !Supported(norm) {
        unsupported := unsupported + [privilege];
        continue;
      }
      var deduped := DedupeCi(principals);
      if deduped == [] {
        continue;
      }
      var existing := Get(resolved, norm);
      var merged := DedupeCi((if existing.None? then [] else existing.value) + deduped);
      resolved := Put(resolved, norm, merged);
    }
    assert config[..|config|] == config;
    var grantMap := NormalizeGrantMap(grants);
    warnings := FindContradictions(resolved, grantMap, grants);
  }

  // ------------------------------------------------------------------ the diff

  datatype Changes = Changes(denies: seq<(string, string)>, revokes: seq<(string, string)>)

  function ChangesFor(rows: seq<Row>, desired: Config): Changes {
    var e, d := ByKey(RowPairs(rows)), ByKey(ConfigPairs(desired));
    Changes(Without(d, e), Without(e, d))
  }

  method IndexPairs(pairs: seq<(string, string)>) returns (d: Entries<Pair, (string, string)>)
    ensures d == ByKey(pairs)
  {
    hide PairKey;
    d := [];
    for i := 0 to |pairs|
      invariant d == ByKey(pairs[..i])
    {
      assert pairs[..i + 1][..i] == pairs[..i];
      d := Put(d, PairKey(pairs[i].0, pairs[i].1), pairs[i]);
    }
    assert pairs[..|pairs|] == pairs;
  }

  method Difference(d: Entries<Pair, (string, string)>, other: Entries<Pair, (string, string)>)
    returns (r: seq<(string, string)>)
    ensures r == Without(d, other)
  {
    hide AsMap;
    r := [];
    for i := 0 to |d|
      invariant r == Without(d[..i], other)
    {
      assert d[..i + 1][..i] == d[..i];
      if Get(other, d[i].0).None? {
        r := r + [d[i].1];
      }
    }
    assert d[..|d|] == d;
  }

  /** `deny_changes`. */
  method DenyChanges(rows: seq<Row>, desired: Config) returns (r: Changes)
    ensures r == ChangesFor(rows, desired)
  {
    var existing := IndexPairs(RowPairs(rows));
    var pairs: seq<(string, string)> := [];
    for i := 0 to |desired|
      invariant pairs == ConfigPairs(desired[..i])
    {
      assert desired[..i + 1][..i] == desired[..i];
      pairs := pairs + PrincipalPairs(desired[i].0, desired[i].1);
    }
    assert desired[..|desired|] == desired;
    var wanted := IndexPairs(pairs);
    var denies := Difference(wanted, existing);
    var revokes := Difference(existing, wanted);
    r := Changes(denies, revokes);
  }

  // ----------------------------------------------------------------- applying

  datatype Statement = Revoke(privilege: string, principal: string) | Deny(privilege: string, principal: string)

  function Revokes(pairs: seq<(string, string)>): (r: seq<Statement>)
    ensures |r| == |pairs| && forall i :: 0 <= i < |r| ==> r[i] == Revoke(pairs[i].0, pairs[i].1)
  {
    seq(|pairs|, i requires 0 <= i < |pairs| => Revoke(pairs[i].0, pairs[i].1))
  }

  /** The DENY statements for principals that exist; the others are warned about and skipped. */
  function DeniesFor(pairs: seq<(string, string)>, existing: seq<string>): seq<Statement> {
    if pairs == [] then []
    else
      var last := pairs[|pairs| - 1];
      DeniesFor(pairs[..|pairs| - 1], existing)
      + (if HasName(existing, NormalizeName(last.1)) then [Deny(last.0, last.1)] else [])
  }

  /** What the macro runs, given the live rows and the names of the database's principals. */
  function Plan(rows: seq<Row>, config: Config, shouldRevoke: bool, principals: seq<string>): seq<Statement> {
    if config == [] then []
    else
      var c := ChangesFor(if shouldRevoke then rows else [], config);
      Revokes(c.revokes) + DeniesFor(c.denies, principals)
  }

  /** `sqlserver__apply_denies`: the statements of its one batch. */
  method ApplyDenies(rows: seq<Row>, config: Config, shouldRevoke: bool, principals: seq<string>)
    returns (statements: seq<Statement>)
    ensures statements == Plan(rows, config, shouldRevoke, principals)
  {
    hide ChangesFor, HasName, NormalizeName;
    statements := [];
    if config == [] {
      return;
    }
    var changes := DenyChanges(if shouldRevoke then rows else [], config);
    for i := 0 to |changes.revokes|
      invariant statements == Revokes(changes.revokes[..i])
    {
      assert Revokes(changes.revokes[..i + 1])
          == Revokes(changes.revokes[..i]) + [Revoke(changes.revokes[i].0, changes.revokes[i].1)];
      statements := statements + [Revoke(changes.revokes[i].0, changes.revokes[i].1)];
    }
    assert changes.revokes[..|changes.revokes|] == changes.revokes;
    for i := 0 to |changes.denies|
      invariant statements == Revokes(changes.revokes) + DeniesFor(changes.denies[..i], principals)
    {
      assert changes.denies[..i + 1][..i] == changes.denies[..i];
      if HasName(principals, NormalizeName(changes.denies[i].1)) {
        Assoc(Revokes(changes.revokes), DeniesFor(changes.denies[..i], principals),
              [Deny(changes.denies[i].0, changes.denies[i].1)]);
        statements := statements + [Deny(changes.denies[i].0, changes.denies[i].1)];
      }
    }
    assert changes.denies[..|changes.denies|] == changes.denies;
  }

  // ---------------------------------------------------------------- the server

  /** The server's key for a permission: names compare up to case. */
  function ServerKey(privilege: string, principal: string): Pair {
    (Lower(privilege), Lower(principal))
  }

  function StatementKey(st: Statement): Pair {
    ServerKey(st.privilege, st.principal)
  }

  /** The DENY set of a relation after one statement. */
  function Execute(live: set<Pair>, st: Statement): set<Pair> {
    match st
    case Revoke(_, _) => live - {StatementKey(st)}
    case Deny(_, _) => live + {StatementKey(st)}
  }

  function ExecuteAll(live: set<Pair>, statements: seq<Statement>): set<Pair>
    decreases statements
  {
    if statements == [] then live else ExecuteAll(Execute(live, statements[0]), statements[1..])
  }

  ghost function RevokedKeys(statements: seq<Statement>): set<Pair> {
    set st | st in statements && st.Revoke? :: StatementKey(st)
  }

  ghost function DeniedKeys(statements: seq<Statement>): set<Pair> {
    set st | st in statements && st.Deny? :: StatementKey(st)
  }

  /** When no key is both revoked and denied, a batch's effect does not depend on its order. */
  lemma {:induction false} EffectOfBatch(live: set<Pair>, statements: seq<Statement>)
    requires RevokedKeys(statements) !! DeniedKeys(statements)
    ensures ExecuteAll(live, statements) == (live - RevokedKeys(statements)) + DeniedKeys(statements)
    decreases statements
  {
    hide StatementKey;
    if statements != [] {
      var first, rest := statements[0], statements[1..];
      assert forall st :: st in statements <==> st == first || st in rest;
      if first.Revoke? {
        assert RevokedKeys(statements) == RevokedKeys(rest) + {StatementKey(first)};
        assert DeniedKeys(statements) == DeniedKeys(rest);
      } else {
        assert DeniedKeys(statements) == DeniedKeys(rest) + {StatementKey(first)};
        assert RevokedKeys(statements) == RevokedKeys(rest);
      }
      EffectOfBatch(Execute(live, first), rest);
    }
  }

  /** Rows that the catalog may report for a DENY set: trimmed names, one row per permission. */
  ghost predicate Reports(rows: seq<Row>, live: set<Pair>) {
    && (forall i :: 0 <= i < |rows| ==> Stripped(rows[i].grantee) && Stripped(rows[i].privilegeType))
    && (forall pair :: pair in live <==>
          exists i :: 0 <= i < |rows| && ServerKey(rows[i].privilegeType, rows[i].grantee) == pair)
  }

  /** The server knows a principal by its exact name up to case, and its catalog lists names without
      surrounding blanks. */
  predicate Knows(principals: seq<string>, name: string) {
    exists i :: 0 <= i < |principals| && Lower(principals[i]) == Lower(name)
  }

  ghost predicate TrimmedNames(principals: seq<string>) {
    forall i :: 0 <= i < |principals| ==> Stripped(principals[i])
  }

  /** The server runs the batch: it knows the principal of every statement. */
  ghost predicate Accepted(statements: seq<Statement>, principals: seq<string>) {
    forall st :: st in statements ==> Knows(principals, st.principal)
  }

  /** The permissions the config asks for whose principal exists. */
  ghost predicate Wanted(config: Config, principals: seq<string>, pair: Pair) {
    Asks(config, pair) && HasName(principals, pair.1)
  }

  lemma TrimmedKey(privilege: string, principal: string)
    requires Stripped(privilege) && Stripped(principal)
    ensures PairKey(privilege, principal) == ServerKey(privilege, principal)
  {
  }

  ghost predicate HasPair(pairs: seq<(string, string)>, key: Pair) {
    exists i :: 0 <= i < |pairs| && PairKey(pairs[i].0, pairs[i].1) == key
  }

  /** The index of a list: keys of its pairs, each with a pair of the list. */
  lemma {:induction false} ByKeyMeaning(pairs: seq<(string, string)>)
    ensures var d := ByKey(pairs);
            && Distinct(d)
            && (forall i :: 0 <= i < |d| ==> d[i].1 in pairs && d[i].0 == PairKey(d[i].1.0, d[i].1.1))
            && (forall key :: key in AsMap(d) <==> HasPair(pairs, key))
  {
    hide PairKey;
    if pairs != [] {
      var init, last := pairs[..|pairs| - 1], pairs[|pairs| - 1];
      ByKeyMeaning(init);
      var before, key := ByKey(init), PairKey(last.0, last.1);
      PutDistinct(before, key, last);
      var d := Put(before, key, last);
      forall i | 0 <= i < |d| ensures d[i].1 in pairs && d[i].0 == PairKey(d[i].1.0, d[i].1.1) {
        EntryInMap(d, i);
        if d[i].0 != key {
          var j := MapHasEntry(before, d[i].0);
          EntryInMap(before, j);
        }
      }
      forall k ensures k in AsMap(d) <==> HasPair(pairs, k) {
        if HasPair(init, k) {
          var i :| 0 <= i < |init| && PairKey(init[i].0, init[i].1) == k;
          assert pairs[i] == init[i];
        }
        if HasPair(pairs, k) {
          var i :| 0 <= i < |pairs| && PairKey(pairs[i].0, pairs[i].1) == k;
          assert i < |init| ==> init[i] == pairs[i];
        }
      }
    }
  }

  /** The difference: pairs of `d` and exactly the keys not in `other`. */
  lemma {:induction false} WithoutMeaning(d: Entries<Pair, (string, string)>, other: Entries<Pair, (string, string)>,
                                          x: (string, string))
    ensures x in Without(d, other) <==> exists i :: 0 <= i < |d| && d[i].1 == x && d[i].0 !in AsMap(other)
  {
    hide AsMap;
    if d != [] {
      var init := d[..|d| - 1];
      WithoutMeaning(init, other, x);
      if exists i :: 0 <= i < |init| && init[i].1 == x && init[i].0 !in AsMap(other) {
        var i :| 0 <= i < |init| && init[i].1 == x && init[i].0 !in AsMap(other);
        assert d[i] == init[i];
      }
      if exists i :: 0 <= i < |d| && d[i].1 == x && d[i].0 !in AsMap(other) {
        var i :| 0 <= i < |d| && d[i].1 == x && d[i].0 !in AsMap(other);
        assert i < |init| ==> init[i] == d[i];
      }
    }
  }

  lemma {:induction false} ConfigPairsMeaning(config: Config)
    ensures forall key :: HasPair(ConfigPairs(config), key) <==> Asks(config, key)
  {
    hide NormalizeName, Asks, HasPair;
    if config == [] {
      forall key ensures HasPair(ConfigPairs(config), key) <==> Asks(config, key) {
        AsksNothing(key);
        NoPair(key);
      }
    } else {
      var init, last := config[..|config| - 1], config[|config| - 1];
      assert config == init + [last];
      ConfigPairsMeaning(init);
      forall key ensures HasPair(ConfigPairs(config), key) <==> Asks(config, key) {
        AsksAppend(init, last, key);
        HasPairConcat(ConfigPairs(init), last.0, last.1, key);
      }
    }
  }

  lemma NoPair(key: Pair)
    ensures !HasPair([], key)
  {
  }

  lemma HasPairConcat(pairs: seq<(string, string)>, privilege: string, principals: seq<string>, key: Pair)
    ensures HasPair(pairs + PrincipalPairs(privilege, principals), key) <==>
            HasPair(pairs, key) || (NormalizeName(privilege) == key.0 && HasName(principals, key.1))
  {
    hide NormalizeName;
    var more := PrincipalPairs(privilege, principals);
    var all := pairs + more;
    if HasPair(pairs, key) {
      var i :| 0 <= i < |pairs| && PairKey(pairs[i].0, pairs[i].1) == key;
      assert all[i] == pairs[i];
    }
    if NormalizeName(privilege) == key.0 && HasName(principals, key.1) {
      var i :| 0 <= i < |principals| && NormalizeName(principals[i]) == key.1;
      assert all[|pairs| + i] == more[i];
    }
    if HasPair(all, key) {
      var i :| 0 <= i < |all| && PairKey(all[i].0, all[i].1) == key;
      if i < |pairs| {
        assert all[i] == pairs[i];
      } else {
        assert all[i] == more[i - |pairs|];
      }
    }
  }

  lemma ReportedPairs(rows: seq<Row>, live: set<Pair>)
    requires Reports(rows, live)
    ensures forall key :: HasPair(RowPairs(rows), key) <==> key in live
    ensures forall x :: x in RowPairs(rows) ==> Stripped(x.0) && Stripped(x.1)
  {
  }

  lemma {:induction false} DeniesForMeaning(pairs: seq<(string, string)>, existing: seq<string>, st: Statement)
    ensures st in DeniesFor(pairs, existing) <==>
            st.Deny? && (st.privilege, st.principal) in pairs && HasName(existing, NormalizeName(st.principal))
  {
    hide NormalizeName, HasName;
    if pairs != [] {
      var init, last := pairs[..|pairs| - 1], pairs[|pairs| - 1];
      DeniesForMeaning(init, existing, st);
      assert pairs == init + [last];
    }
  }

  /** The pairs in a difference, by key: the keys on one side only. */
  lemma DifferencePairs(d: Entries<Pair, (string, string)>, other: Entries<Pair, (string, string)>,
                        pairs: seq<(string, string)>)
    requires Distinct(d)
    requires forall i :: 0 <= i < |d| ==> d[i].1 in pairs && d[i].0 == PairKey(d[i].1.0, d[i].1.1)
    ensures forall x :: x in Without(d, other) ==>
              x in pairs && PairKey(x.0, x.1) in AsMap(d) && PairKey(x.0, x.1) !in AsMap(other)
    ensures forall key :: key in AsMap(d) && key !in AsMap(other) ==>
              exists x :: x in Without(d, other) && PairKey(x.0, x.1) == key
  {
    hide PairKey, Without, AsMap;
    forall x | x in Without(d, other)
      ensures x in pairs && PairKey(x.0, x.1) in AsMap(d) && PairKey(x.0, x.1) !in AsMap(other)
    {
      WithoutMeaning(d, other, x);
      var i :| 0 <= i < |d| && d[i].1 == x && d[i].0 !in AsMap(other);
      EntryInMap(d, i);
    }
    forall key | key in AsMap(d) && key !in AsMap(other)
      ensures exists x :: x in Without(d, other) && PairKey(x.0, x.1) == key
    {
      var i := MapHasEntry(d, key);
      WithoutMeaning(d, other, d[i].1);
      assert d[i].1 in Without(d, other);
    }
  }

  /** What the diff revokes and denies: the live pairs nobody asks for, and the pairs asked for that are
      not live. */
  lemma ChangesMeaning(rows: seq<Row>, config: Config, live: set<Pair>)
    requires Reports(rows, live)
    ensures var c := ChangesFor(rows, config);
            && (forall x :: x in c.revokes ==>
                  x in RowPairs(rows) && PairKey(x.0, x.1) in live && !Asks(config, PairKey(x.0, x.1)))
            && (forall x :: x in c.denies ==>
                  x in ConfigPairs(config) && PairKey(x.0, x.1) !in live && Asks(config, PairKey(x.0, x.1)))
            && (forall key :: key in live && !Asks(config, key) ==>
                  exists x :: x in c.revokes && PairKey(x.0, x.1) == key)
            && (forall key :: key !in live && Asks(config, key) ==>
                  exists x :: x in c.denies && PairKey(x.0, x.1) == key)
  {
    hide PairKey, Asks, HasPair, Without, AsMap, ByKey, ConfigPairs, Reports, RowPairs;
    var e, d := ByKey(RowPairs(rows)), ByKey(ConfigPairs(config));
    ReportedPairs(rows, live);
    ConfigPairsMeaning(config);
    ByKeyMeaning(RowPairs(rows));
    ByKeyMeaning(ConfigPairs(config));
    DifferencePairs(e, d, RowPairs(rows));
    DifferencePairs(d, e, ConfigPairs(config));
  }

  lemma StrippedLower(s: string)
    ensures Stripped(Lower(s)) <==> Stripped(s)
  {
    if s != [] {
      LowerSpace(s[0]);
      LowerSpace(s[|s| - 1]);
    }
  }

  /** Of the spellings of an existing principal the server knows those without surrounding blanks. */
  lemma KnownIffTrimmed(principals: seq<string>, name: string)
    requires TrimmedNames(principals) && HasName(principals, NormalizeName(name))
    ensures Knows(principals, name) <==> Stripped(name)
  {
    hide Strip, Lower, Stripped;
    StrippedLower(name);
    if Stripped(name) {
      var i :| 0 <= i < |principals| && NormalizeName(principals[i]) == NormalizeName(name);
      StripFixed(name);
      StripFixed(principals[i]);
    }
    if i :| 0 <= i < |principals| && Lower(principals[i]) == Lower(name) {
      StrippedLower(principals[i]);
    }
  }

  lemma {:induction false} PairPrivileges(config: Config, x: (string, string))
    requires CleanConfig(config) && x in ConfigPairs(config)
    ensures Stripped(x.0)
  {
    hide NormalizeName, Supported, CleanNames, Stripped;
    var init, last := config[..|config| - 1], config[|config| - 1];
    assert forall i :: 0 <= i < |init| ==> init[i] == config[i];
    if x in ConfigPairs(init) {
      PairPrivileges(init, x);
    } else {
      NormalizeNameIdempotent(config[|config| - 1].0);
      assert x.0 == last.0;
    }
  }

  /** The statements of a plan. */
  lemma PlanMembers(rows: seq<Row>, config: Config, principals: seq<string>, st: Statement)
    requires config != []
    ensures var c := ChangesFor(rows, config);
            st in Plan(rows, config, true, principals) <==>
            if st.Revoke? then (st.privilege, st.principal) in c.revokes
            else (st.privilege, st.principal) in c.denies && HasName(principals, NormalizeName(st.principal))
  {
    hide ChangesFor, HasName, NormalizeName;
    var c := ChangesFor(rows, config);
    DeniesForMeaning(c.denies, principals, st);
    var revokes := Revokes(c.revokes);
    if st.Revoke? && (st.privilege, st.principal) in c.revokes {
      var i :| 0 <= i < |c.revokes| && c.revokes[i] == (st.privilege, st.principal);
      assert revokes[i] == st;
    }
  }

  lemma {:induction false} PairIsEntry(config: Config, x: (string, string))
    ensures x in ConfigPairs(config) ==> exists i :: 0 <= i < |config| && config[i].0 == x.0 && x.1 in config[i].1
  {
    if config != [] {
      var init, last := config[..|config| - 1], config[|config| - 1];
      PairIsEntry(init, x);
      if x in ConfigPairs(init) {
        var i :| 0 <= i < |init| && init[i].0 == x.0 && x.1 in init[i].1;
        assert config[i] == init[i];
      } else if x in PrincipalPairs(last.0, last.1) {
        var j :| 0 <= j < |last.1| && PrincipalPairs(last.0, last.1)[j] == x;
        assert config[|config| - 1].0 == x.0 && x.1 in config[|config| - 1].1;
      }
    }
  }

  /** A resolved config holds each pair once up to case. */
  lemma CleanPairsDiffer(config: Config, x: (string, string), y: (string, string))
    requires CleanConfig(config) && x in ConfigPairs(config) && y in ConfigPairs(config)
    requires PairKey(x.0, x.1) == PairKey(y.0, y.1)
    ensures x == y
  {
    hide NormalizeName, Supported, ConfigPairs;
    PairIsEntry(config, x);
    PairIsEntry(config, y);
    var i :| 0 <= i < |config| && config[i].0 == x.0 && x.1 in config[i].1;
    var j :| 0 <= j < |config| && config[j].0 == y.0 && y.1 in config[j].1;
    assert i == j;
    var names := config[i].1;
    var k :| 0 <= k < |names| && names[k] == x.1;
    var l :| 0 <= l < |names| && names[l] == y.1;
    assert k == l;
  }

  /** What a resolved config denies: its own pairs that are not live. */
  lemma DeniesAreConfigured(rows: seq<Row>, config: Config, live: set<Pair>, x: (string, string))
    requires CleanConfig(config) && Reports(rows, live)
    ensures x in ChangesFor(rows, config).denies <==> x in ConfigPairs(config) && PairKey(x.0, x.1) !in live
  {
    hide PairKey, Reports, CleanConfig, ChangesFor, ConfigPairs, Asks;
    ChangesMeaning(rows, config, live);
    if x in ConfigPairs(config) && PairKey(x.0, x.1) !in live {
      PairAsked(config, x);
      var y :| y in ChangesFor(rows, config).denies && PairKey(y.0, y.1) == PairKey(x.0, x.1);
      CleanPairsDiffer(config, x, y);
    }
  }

  lemma PairAsked(config: Config, x: (string, string))
    requires x in ConfigPairs(config)
    ensures Asks(config, PairKey(x.0, x.1))
  {
    hide NormalizeName, ConfigPairs;
    PairIsEntry(config, x);
    var i :| 0 <= i < |config| && config[i].0 == x.0 && x.1 in config[i].1;
    var j :| 0 <= j < |config[i].1| && config[i].1[j] == x.1;
  }

  /** The server accepts the batch of a resolved config exactly when every configured principal that exists
      and is not denied yet is written without surrounding blanks: the macro looks a principal up trimmed
      but passes it on as written. */
  lemma AcceptedIff(rows: seq<Row>, config: Config, principals: seq<string>, live: set<Pair>)
    requires CleanConfig(config) && Reports(rows, live) && TrimmedNames(principals)
    requires forall pair :: pair in live ==> HasName(principals, pair.1)
    ensures Accepted(Plan(rows, config, true, principals), principals) <==>
            forall x :: (x in ConfigPairs(config) && PairKey(x.0, x.1) !in live
                         && HasName(principals, NormalizeName(x.1))) ==> Stripped(x.1)
  {
    hide Plan, ChangesFor, HasName, NormalizeName, Stripped, Reports, TrimmedNames, PairKey, CleanConfig, ConfigPairs,
      Accepted;
    if config == [] {
      EmptyPlan(rows, principals);
      NothingConfigured(principals);
    } else {
      AcceptedWhenSpelled(rows, config, principals, live);
      forall x
        ensures x in ChangesFor(rows, config).denies <==> x in ConfigPairs(config) && PairKey(x.0, x.1) !in live
      {
        DeniesAreConfigured(rows, config, live, x);
      }
    }
  }

  lemma NothingConfigured(principals: seq<string>)
    ensures ConfigPairs([]) == [] && Accepted([], principals)
  {
  }

  lemma AcceptedWhenSpelled(rows: seq<Row>, config: Config, principals: seq<string>, live: set<Pair>)
    requires config != [] && Reports(rows, live) && TrimmedNames(principals)
    requires forall pair :: pair in live ==> HasName(principals, pair.1)
    ensures Accepted(Plan(rows, config, true, principals), principals) <==>
            forall x :: x in ChangesFor(rows, config).denies && HasName(principals, NormalizeName(x.1)) ==> Stripped(x.1)
  {
    hide Plan, ChangesFor, HasName, NormalizeName, Knows, Stripped, Reports, TrimmedNames, PairKey;
    var c, plan := ChangesFor(rows, config), Plan(rows, config, true, principals);
    ChangesMeaning(rows, config, live);
    ReportedPairs(rows, live);
    forall st | st in plan && st.Revoke? ensures Knows(principals, st.principal) {
      PlanMembers(rows, config, principals, st);
      KeyParts(st.privilege, st.principal);
      KnownIffTrimmed(principals, st.principal);
    }
    forall x | x in c.denies && HasName(principals, NormalizeName(x.1))
      ensures Deny(x.0, x.1) in plan && (Knows(principals, x.1) <==> Stripped(x.1))
    {
      PlanMembers(rows, config, principals, Deny(x.0, x.1));
      KnownIffTrimmed(principals, x.1);
    }
    if Accepted(plan, principals) {
      forall x | x in c.denies && HasName(principals, NormalizeName(x.1)) ensures Stripped(x.1) {
        assert Knows(principals, Deny(x.0, x.1).principal);
      }
    } else {
      var st :| st in plan && !Knows(principals, st.principal);
      PlanMembers(rows, config, principals, st);
    }
  }

  lemma KeyParts(privilege: string, principal: string)
    ensures PairKey(privilege, principal) == (NormalizeName(privilege), NormalizeName(principal))
  {
  }

  /** In an accepted plan every statement names its pair by the server's key. */
  lemma PlanStatement(rows: seq<Row>, config: Config, principals: seq<string>, live: set<Pair>, st: Statement)
    requires config != [] && CleanConfig(config) && Reports(rows, live) && TrimmedNames(principals)
    requires st in Plan(rows, config, true, principals) && Accepted(Plan(rows, config, true, principals), principals)
    ensures StatementKey(st) == PairKey(st.privilege, st.principal)
  {
    hide Plan, ChangesFor, HasName, NormalizeName, Knows, Stripped, Reports, TrimmedNames, PairKey, CleanConfig, ServerKey,
      ConfigPairs, RowPairs, Asks;
    PlanMembers(rows, config, principals, st);
    ChangesMeaning(rows, config, live);
    ReportedPairs(rows, live);
    if st.Deny? {
      PairPrivileges(config, (st.privilege, st.principal));
      KnownIffTrimmed(principals, st.principal);
    }
    TrimmedKey(st.privilege, st.principal);
  }

  /** The keys an accepted plan revokes and denies. */
  lemma PlanKeys(rows: seq<Row>, config: Config, principals: seq<string>, live: set<Pair>, key: Pair)
    requires config != [] && CleanConfig(config) && Reports(rows, live) && TrimmedNames(principals)
    requires Accepted(Plan(rows, config, true, principals), principals)
    ensures var plan := Plan(rows, config, true, principals);
            && (key in RevokedKeys(plan) <==> key in live && !Asks(config, key))
            && (key in DeniedKeys(plan) <==> key !in live && Wanted(config, principals, key))
  {
    hide Plan, ChangesFor, HasName, NormalizeName, Knows, Reports, TrimmedNames, PairKey, CleanConfig, StatementKey,
      ConfigPairs, RowPairs, Asks, Accepted;
    var c, plan := ChangesFor(rows, config), Plan(rows, config, true, principals);
    ChangesMeaning(rows, config, live);
    forall st | st in plan
      ensures StatementKey(st) == PairKey(st.privilege, st.principal)
      ensures if st.Revoke? then (st.privilege, st.principal) in c.revokes
              else (st.privilege, st.principal) in c.denies && HasName(principals, NormalizeName(st.principal))
      ensures PairKey(st.privilege, st.principal).1 == NormalizeName(st.principal)
    {
      PlanStatement(rows, config, principals, live, st);
      PlanMembers(rows, config, principals, st);
      KeyParts(st.privilege, st.principal);
    }
    if key in live && !Asks(config, key) {
      var x :| x in c.revokes && PairKey(x.0, x.1) == key;
      PlanMembers(rows, config, principals, Revoke(x.0, x.1));
      assert Revoke(x.0, x.1) in plan;
    }
    if key !in live && Wanted(config, principals, key) {
      var x :| x in c.denies && PairKey(x.0, x.1) == key;
      KeyParts(x.0, x.1);
      PlanMembers(rows, config, principals, Deny(x.0, x.1));
      assert Deny(x.0, x.1) in plan;
    }
  }

  lemma SameMembers(order: seq<Statement>, plan: seq<Statement>)
    requires multiset(order) == multiset(plan)
    ensures forall st :: st in order <==> st in plan
  {
    forall st ensures st in order <==> st in plan {
      assert st in multiset(order) <==> st in multiset(plan);
    }
  }

  /** The batch in any order leaves exactly the live set with the plan's keys taken out and put in. */
  lemma AnyOrder(rows: seq<Row>, config: Config, principals: seq<string>, reported: set<Pair>,
                 live: set<Pair>, order: seq<Statement>, key: Pair)
    requires config != [] && CleanConfig(config) && Reports(rows, reported) && TrimmedNames(principals)
    requires multiset(order) == multiset(Plan(rows, config, true, principals)) && Accepted(order, principals)
    ensures key in ExecuteAll(live, order) <==>
            (key in live && !(key in reported && !Asks(config, key)))
            || (key !in reported && Wanted(config, principals, key))
  {
    hide Plan, Asks, Wanted, StatementKey, ExecuteAll, Knows, TrimmedNames, CleanConfig, Reports;
    var plan := Plan(rows, config, true, principals);
    SameMembers(order, plan);
    assert Accepted(plan, principals);
    assert RevokedKeys(order) == RevokedKeys(plan) && DeniedKeys(order) == DeniedKeys(plan);
    forall k ensures !(k in RevokedKeys(plan) && k in DeniedKeys(plan)) {
      PlanKeys(rows, config, principals, reported, k);
    }
    EffectOfBatch(live, order);
    PlanKeys(rows, config, principals, reported, key);
  }

  /** For any resolved config, the accepted statements, run in any order, leave exactly the configured
      permissions whose principal exists, except that an emptied config leaves what is live: the result is
      the wanted set exactly when the config is not empty or nothing was live. */
  lemma DeniesReachWanted(rows: seq<Row>, config: Config, principals: seq<string>, live: set<Pair>, order: seq<Statement>)
    requires CleanConfig(config) && Reports(rows, live) && TrimmedNames(principals)
    requires forall pair :: pair in live ==> HasName(principals, pair.1)
    requires multiset(order) == multiset(Plan(rows, config, true, principals)) && Accepted(order, principals)
    ensures (forall key :: key in ExecuteAll(live, order) <==> Wanted(config, principals, key))
            <==> config != [] || live == {}
    ensures config == [] ==> ExecuteAll(live, order) == live
  {
    hide CleanConfig, Reports, TrimmedNames, HasName, NormalizeName, Accepted, Asks;
    if config == [] {
      assert |order| == |multiset(order)| == 0;
      NothingAsked();
      if live != {} {
        var key :| key in live;
        assert !Wanted(config, principals, key);
      }
    } else {
      forall key ensures key in ExecuteAll(live, order) <==> Wanted(config, principals, key) {
        AnyOrder(rows, config, principals, live, live, order, key);
      }
    }
  }

  /** On a fresh build nothing is read back and nothing revoked: the configured permissions are added. */
  lemma FreshBuildAdds(rows: seq<Row>, config: Config, principals: seq<string>, live: set<Pair>,
                       order: seq<Statement>, key: Pair)
    requires CleanConfig(config) && TrimmedNames(principals)
    requires multiset(order) == multiset(Plan(rows, config, false, principals)) && Accepted(order, principals)
    ensures key in ExecuteAll(live, order) <==> key in live || Wanted(config, principals, key)
  {
    hide CleanConfig, TrimmedNames, HasName, NormalizeName, Accepted, Asks;
    if config == [] {
      assert |order| == |multiset(order)| == 0;
      NothingAsked();
    } else {
      assert Plan(rows, config, false, principals) == Plan([], config, true, principals);
      AnyOrder([], config, principals, {}, live, order, key);
    }
  }

  /** A second run emits no statement at all. */
  lemma DeniesConverge(rows: seq<Row>, config: Config, principals: seq<string>, live: set<Pair>,
                       order: seq<Statement>, after: seq<Row>)
    requires CleanConfig(config) && Reports(rows, live) && TrimmedNames(principals)
    requires forall pair :: pair in live ==> HasName(principals, pair.1)
    requires multiset(order) == multiset(Plan(rows, config, true, principals)) && Accepted(order, principals)
    requires Reports(after, ExecuteAll(live, order))
    ensures Plan(after, config, true, principals) == []
  {
    hide Asks, HasName, ExecuteAll, Reports, CleanConfig, TrimmedNames, Accepted, Plan, ChangesFor, PairKey, NormalizeName;
    var live' := ExecuteAll(live, order);
    var plan := Plan(after, config, true, principals);
    if config == [] {
      EmptyPlan(after, principals);
    } else {
      DeniesReachWanted(rows, config, principals, live, order);
      ChangesMeaning(after, config, live');
      forall st ensures st !in plan {
        PlanMembers(after, config, principals, st);
        KeyParts(st.privilege, st.principal);
        assert PairKey(st.privilege, st.principal) in live' <==> Wanted(config, principals, PairKey(st.privilege, st.principal));
      }
      SomeStatement(plan);
    }
  }

  lemma EmptyPlan(rows: seq<Row>, principals: seq<string>)
    ensures Plan(rows, [], true, principals) == []
  {
  }

  lemma SomeStatement(plan: seq<Statement>)
    ensures plan == [] || exists st :: st in plan
  {
    if plan != [] {
      assert plan[0] in plan;
    }
  }
}
