/** A Python `dict`: an insertion-ordered list of entries with distinct keys. */
module Dict {
  import opened Text

  type Entries<K, V> = seq<(K, V)>

  ghost predicate Distinct<K, V>(d: Entries<K, V>) {
    forall i, j :: 0 <= i < j < |d| ==> d[i].0 != d[j].0
  }

  /** What lookups see. */
  function AsMap<K, V>(d: Entries<K, V>): (m: map<K, V>) {
    if d == [] then map[] else AsMap(d[1..])[d[0].0 := d[0].1]
  }

  /** `d.get(k)`. */
  function Get<K(==), V>(d: Entries<K, V>, k: K): (r: Option<V>)
    ensures r == if k in AsMap(d) then Some(AsMap(d)[k]) else None
  {
    if d == [] then None
    else if d[0].0 == k then Some(d[0].1)
    else Get(d[1..], k)
  }

  /** `d[k] = v`: overwrite in place, or append. */
  function Put<K(==), V>(d: Entries<K, V>, k: K, v: V): (r: Entries<K, V>)
    ensures AsMap(r) == AsMap(d)[k := v]
  {
    if d == [] then [(k, v)]
    else if d[0].0 == k then [(k, v)] + d[1..]
    else [d[0]] + Put(d[1..], k, v)
  }

  /** The entries of a dictionary are the items of its map. */
  lemma {:induction false} EntryInMap<K, V>(d: Entries<K, V>, i: nat)
    requires i < |d| && Distinct(d)
    ensures d[i].0 in AsMap(d) && AsMap(d)[d[i].0] == d[i].1
  {
    if i > 0 {
      assert d[1..][i - 1] == d[i];
      EntryInMap(d[1..], i - 1);
    }
  }

  lemma {:induction false} MapHasEntry<K, V>(d: Entries<K, V>, k: K) returns (i: nat)
    requires k in AsMap(d)
    ensures i < |d| && d[i] == (k, AsMap(d)[k])
  {
    if d[0].0 == k {
      i := 0;
    } else {
      i := MapHasEntry(d[1..], k);
      i := i + 1;
    }
  }

  lemma {:induction false} PutDistinct<K, V>(d: Entries<K, V>, k: K, v: V)
    requires Distinct(d)
    ensures Distinct(Put(d, k, v))
  {
    if d != [] && d[0].0 != k {
      PutDistinct(d[1..], k, v);
      var r := Put(d[1..], k, v);
      forall j | 0 <= j < |r| ensures r[j].0 != d[0].0 {
        EntryInMap(r, j);
        if r[j].0 != k {
          var i := MapHasEntry(d[1..], r[j].0);
        }
      }
    }
  }
}
