/** The affinity matrix of `mooncake::Topology`: for each locality key, the
    HCAs preferred for it and the HCAs available to it as fallback, and the
    device registry (`getHcaList`) derived from them. */
module Affinity {
  import opened Outcomes
  import opened NameLists

  /** A locality: `cpu:<N>`, `gpu:<N>` or the wildcard. */
  type Key = string

  /** A matrix entry: its `preferred_hca` and `avail_hca` lists. */
  datatype Entry = Entry(preferred: seq<Name>, avail: seq<Name>)

  datatype Row = Row(key: Key, entry: Entry)

  /** The matrix, one row per locality key, in the matrix's own order. */
  type Matrix = seq<Row>

  predicate KeysDistinct(m: Matrix) {
    forall i, j :: 0 <= i < j < |m| ==> m[i].key != m[j].key
  }

  /** The names of an entry: preferred first, then available. */
  function EntryNames(e: Entry): seq<Name> {
    e.preferred + e.avail
  }

  /** All names of the matrix, row after row, repetitions kept. */
  function AllNames(m: Matrix): (r: seq<Name>)
    ensures forall i, x :: 0 <= i < |m| && x in EntryNames(m[i].entry) ==> x in r
    ensures forall x :: x in r ==> exists i :: 0 <= i < |m| && x in EntryNames(m[i].entry)
  {
    if |m| == 0 then []
    else AllNames(m[..|m| - 1]) + EntryNames(m[|m| - 1].entry)
  }

  lemma AllNamesSnoc(m: Matrix, row: Row)
    ensures AllNames(m + [row]) == AllNames(m) + EntryNames(row.entry)
  {
    assert (m + [row])[..|m|] == m;
  }

  /** `getHcaList`: every device name of the matrix exactly once, in
      first-seen order (preferred before available within a row, rows in
      matrix order). A device's index is its position here. */
  function Registry(m: Matrix): (r: seq<Name>)
    ensures NoDuplicates(r)
    ensures forall x :: x in r <==> exists i :: 0 <= i < |m| && x in EntryNames(m[i].entry)
  {
    Dedup(AllNames(m))
  }

  /** The registry lists names in the order they are first met in the
      matrix. */
  lemma RegistryFirstSeenOrder(m: Matrix)
    ensures forall i, j :: 0 <= i < j < |Registry(m)| ==>
      FirstIndex(AllNames(m), Registry(m)[i]) < FirstIndex(AllNames(m), Registry(m)[j])
  {
    DedupFirstSeenOrder(AllNames(m));
  }

  /** The registry's length is the number of distinct names in the
      matrix. */
  lemma RegistrySize(m: Matrix)
    ensures |Registry(m)| == |set x | x in AllNames(m)|
  {
    var r := Registry(m);
    DistinctSize(r);
    assert (set x | x in r) == (set x | x in AllNames(m));
  }

  lemma {:induction false} DistinctSize(s: seq<Name>)
    requires NoDuplicates(s)
    ensures |set x | x in s| == |s|
    decreases |s|
  {
    if |s| > 0 {
      var s' := s[..|s| - 1];
      DistinctSize(s');
      assert (set x | x in s) == (set x | x in s') + {s[|s| - 1]};
      assert s[|s| - 1] !in s';
    }
  }

  /** The entry of `key`, if the matrix has a row for it. */
  function Lookup(m: Matrix, key: Key): (r: Option<Entry>)
    ensures r.Some? <==> exists i :: 0 <= i < |m| && m[i].key == key
    ensures r.Some? ==> exists i :: 0 <= i < |m| && m[i] == Row(key, r.value)
  {
    if |m| == 0 then None
    else if m[0].key == key then Some(m[0].entry)
    else
      var r := Lookup(m[1..], key);
      assert r.Some? ==> m[1..][RowOf(m[1..], key, r.value)] == Row(key, r.value);
      r
  }

  /** A witness position for a row, used to state `Lookup`'s result. */
  ghost function RowOf(m: Matrix, key: Key, e: Entry): (i: nat)
    requires exists i :: 0 <= i < |m| && m[i] == Row(key, e)
    ensures i < |m| && m[i] == Row(key, e)
  {
    var i :| 0 <= i < |m| && m[i] == Row(key, e); i
  }

  /** `getMatrix`: the matrix as a map from key to entry. */
  function MatrixView(m: Matrix): (r: map<Key, Entry>)
    requires KeysDistinct(m)
    ensures forall i :: 0 <= i < |m| ==> m[i].key in r && r[m[i].key] == m[i].entry
    ensures forall k :: k in r ==> exists i :: 0 <= i < |m| && m[i].key == k
    ensures |r| == |m|
  {
    var r := map i | 0 <= i < |m| :: m[i].key := m[i].entry;
    ViewSize(m, r);
    r
  }

  /** A map keyed by exactly the keys of `m` has one key per row. */
  lemma ViewSize(m: Matrix, r: map<Key, Entry>)
    requires KeysDistinct(m)
    requires forall k :: k in r <==> exists i :: 0 <= i < |m| && m[i].key == k
    ensures |r| == |m|
  {
    KeySetSize(m);
    assert r.Keys == KeySet(m);
  }

  /** The keys of a matrix. */
  function KeySet(m: Matrix): (ks: set<Key>)
    ensures forall i :: 0 <= i < |m| ==> m[i].key in ks
    ensures forall k :: k in ks ==> exists i :: 0 <= i < |m| && m[i].key == k
  {
    if |m| == 0 then {}
    else
      var ks := KeySet(m[..|m| - 1]);
      assert forall i :: 0 <= i < |m| - 1 ==> m[..|m| - 1][i] == m[i];
      ks + {m[|m| - 1].key}
  }

  /** Distinct keys make as many keys as rows. */
  lemma {:induction false} KeySetSize(m: Matrix)
    requires KeysDistinct(m)
    ensures |KeySet(m)| == |m|
    decreases |m|
  {
    if |m| > 0 {
      var m' := m[..|m| - 1];
      var last := m[|m| - 1].key;
      assert KeysDistinct(m') by {
        forall i, j | 0 <= i < j < |m'| ensures m'[i].key != m'[j].key {
          assert m'[i] == m[i] && m'[j] == m[j];
        }
      }
      KeySetSize(m');
      assert last !in KeySet(m') by {
        forall i | 0 <= i < |m'| ensures m'[i].key != last {
          assert m'[i] == m[i];
        }
      }
    }
  }

  /** `clear`: the empty matrix, which has the empty registry. */
  function Clear(): (m: Matrix)
    ensures IsEmpty(m) && Registry(m) == []
  {
    []
  }

  /** `empty`. */
  predicate IsEmpty(m: Matrix) {
    |m| == 0
  }

  /** `disableDevice`: `name` is removed from every preferred and available
      list; keys, row order and all other names are kept. */
  function DisableDevice(m: Matrix, name: Name): (r: Matrix)
    ensures |r| == |m|
    ensures forall i :: 0 <= i < |r| ==> r[i].key == m[i].key
    ensures forall i :: 0 <= i < |r| ==>
      && r[i].entry.preferred == RemoveAll(m[i].entry.preferred, name)
      && r[i].entry.avail == RemoveAll(m[i].entry.avail, name)
  {
    seq(|m|, i requires 0 <= i < |m| =>
      Row(m[i].key, Entry(RemoveAll(m[i].entry.preferred, name),
                          RemoveAll(m[i].entry.avail, name))))
  }

  lemma {:induction false} AllNamesAfterDisable(m: Matrix, name: Name)
    ensures AllNames(DisableDevice(m, name)) == RemoveAll(AllNames(m), name)
    decreases |m|
  {
    if |m| > 0 {
      var m' := m[..|m| - 1];
      var e := m[|m| - 1].entry;
      assert DisableDevice(m, name)[..|m| - 1] == DisableDevice(m', name);
      AllNamesAfterDisable(m', name);
      RemoveAllAppend(e.preferred, e.avail, name);
      RemoveAllAppend(AllNames(m'), EntryNames(e), name);
    }
  }

  /** After `disableDevice`, the registry is the old registry without
      `name`: the name is gone and every other device keeps its relative
      order. */
  lemma RegistryAfterDisable(m: Matrix, name: Name)
    ensures Registry(DisableDevice(m, name)) == RemoveAll(Registry(m), name)
    ensures name !in Registry(DisableDevice(m, name))
  {
    AllNamesAfterDisable(m, name);
    DedupRemoveAllCommute(AllNames(m), name);
  }

  /** Disabling a device twice is disabling it once. */
  lemma DisableDeviceIdempotent(m: Matrix, name: Name)
    ensures DisableDevice(DisableDevice(m, name), name) == DisableDevice(m, name)
  {
  }
}
