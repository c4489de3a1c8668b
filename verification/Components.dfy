/** Rows that share a group key, directly or through other rows, and the key of their component. */
module Components {
  import opened Strings
  import UF = UnionFind

  datatype Row = Row(rowId: string, targetId: string, keys: seq<string>, at: int)

  /** Every row carries at least its own group key, and no key twice. */
  ghost predicate WellFormed(rows: seq<Row>) {
    forall i | 0 <= i < |rows| :: rows[i].keys != [] && Distinct(rows[i].keys)
  }

  ghost predicate Share(a: Row, b: Row) {
    exists g :: g in a.keys && g in b.keys
  }

  ghost predicate Chain(rows: seq<Row>, path: seq<int>) {
    && path != []
    && (forall t | 0 <= t < |path| :: 0 <= path[t] < |rows|)
    && (forall t | 0 < t < |path| :: Share(rows[path[t - 1]], rows[path[t]]))
  }

  ghost predicate Links(rows: seq<Row>, path: seq<int>, i: int, j: int) {
    Chain(rows, path) && path[0] == i && path[|path| - 1] == j
  }

  /** A chain of rows, each sharing a key with the one before it, leads from i to j. */
  ghost predicate Connected(rows: seq<Row>, i: int, j: int) {
    exists path :: Links(rows, path, i, j)
  }

  lemma ConnectedReflexive(rows: seq<Row>, i: int)
    requires 0 <= i < |rows|
    ensures Connected(rows, i, i)
  {
    assert Links(rows, [i], i, i);
  }

  lemma ConnectedByKey(rows: seq<Row>, i: int, j: int, g: string)
    requires 0 <= i < |rows| && 0 <= j < |rows|
    requires g in rows[i].keys && g in rows[j].keys
    ensures Connected(rows, i, j)
  {
    assert Share(rows[i], rows[j]);
    assert Links(rows, [i, j], i, j);
  }

  lemma ConnectedTransitive(rows: seq<Row>, i: int, j: int, k: int)
    requires Connected(rows, i, j) && Connected(rows, j, k)
    ensures Connected(rows, i, k)
  {
    var p :| Links(rows, p, i, j);
    var q :| Links(rows, q, j, k);
    assert Links(rows, p + q[1..], i, k);
  }

  lemma ConnectedSymmetric(rows: seq<Row>, i: int, j: int)
    requires Connected(rows, i, j)
    ensures Connected(rows, j, i)
  {
    var p :| Links(rows, p, i, j);
    var r := seq(|p|, t requires 0 <= t < |p| => p[|p| - 1 - t]);
    forall t | 0 < t < |r| ensures Share(rows[r[t - 1]], rows[r[t]]) {
      assert Share(rows[p[|p| - 1 - t]], rows[p[|p| - t]]);
    }
    assert Links(rows, r, j, i);
  }

  /** All keys of the component of row i. */
  ghost function ComponentKeys(rows: seq<Row>, i: int): set<string> {
    set k, g | 0 <= k < |rows| && Connected(rows, i, k) && g in rows[k].keys :: g
  }

  lemma KeyOfComponent(rows: seq<Row>, i: int, k: int, g: string)
    requires 0 <= k < |rows| && Connected(rows, i, k) && g in rows[k].keys
    ensures g in ComponentKeys(rows, i)
  {}

  /** The component key: the ascending list of the component's keys. */
  ghost function ComponentKey(rows: seq<Row>, i: int): seq<string> {
    Listing(ComponentKeys(rows, i))
  }

  /** Two rows get the same component key exactly when a chain of shared keys links them. */
  lemma SameKeyIffConnected(rows: seq<Row>, i: int, j: int)
    requires WellFormed(rows) && 0 <= i < |rows| && 0 <= j < |rows|
    ensures ComponentKey(rows, i) == ComponentKey(rows, j) <==> Connected(rows, i, j)
  {
    if Connected(rows, i, j) {
      ConnectedSymmetric(rows, i, j);
      forall k | 0 <= k < |rows| ensures Connected(rows, i, k) <==> Connected(rows, j, k) {
        if Connected(rows, i, k) { ConnectedTransitive(rows, j, i, k); }
        if Connected(rows, j, k) { ConnectedTransitive(rows, i, j, k); }
      }
      assert ComponentKeys(rows, i) == ComponentKeys(rows, j);
    }
    if ComponentKey(rows, i) == ComponentKey(rows, j) {
      assert ComponentKeys(rows, i) == Elems(ComponentKey(rows, i)) == ComponentKeys(rows, j);
      ConnectedReflexive(rows, i);
      var g := rows[i].keys[0];
      assert Connected(rows, i, i) && g in rows[i].keys;
      KeyOfComponent(rows, i, i, g);
      var k :| 0 <= k < |rows| && Connected(rows, j, k) && g in rows[k].keys;
      ConnectedByKey(rows, k, i, g);
      ConnectedTransitive(rows, j, k, i);
      ConnectedSymmetric(rows, j, i);
    }
  }

  // ---- what the union loop keeps ----

  /** Rows with one root are connected. */
  ghost predicate Sound(rows: seq<Row>, p: seq<int>) {
    && |p| == |rows| && UF.Heap(p)
    && forall i, j | 0 <= i < |p| && 0 <= j < |p| && UF.Root(p, i) == UF.Root(p, j) :: Connected(rows, i, j)
  }

  /** Key g of row k has been merged with the first row that carried it. */
  ghost predicate Merged(rows: seq<Row>, p: seq<int>, first: map<string, int>, k: int, g: string)
    requires |p| == |rows| && UF.Heap(p) && 0 <= k < |rows|
  {
    g in first && 0 <= first[g] < |rows| && UF.Root(p, k) == UF.Root(p, first[g])
  }

  ghost predicate RowMerged(rows: seq<Row>, p: seq<int>, first: map<string, int>, k: int, m: int)
    requires |p| == |rows| && UF.Heap(p) && 0 <= k < |rows| && m <= |rows[k].keys|
  {
    forall t | 0 <= t < m :: Merged(rows, p, first, k, rows[k].keys[t])
  }

  /** Rows before n are merged along all their keys, row n along its first m keys. */
  ghost predicate Progress(rows: seq<Row>, p: seq<int>, first: map<string, int>, n: int, m: int)
    requires |p| == |rows| && UF.Heap(p)
  {
    && 0 <= n <= |rows| && 0 <= m <= (if n < |rows| then |rows[n].keys| else 0)
    && (forall g | g in first :: 0 <= first[g] <= n && first[g] < |rows| && g in rows[first[g]].keys)
    && (forall k | 0 <= k < n :: RowMerged(rows, p, first, k, |rows[k].keys|))
    && (n < |rows| ==> RowMerged(rows, p, first, n, m))
    && (forall k | 0 <= k < |rows| :: UF.Root(p, k) <= if k <= n then n else k)
  }

  lemma MovedKeepsRow(rows: seq<Row>, p: seq<int>, q: seq<int>, a: int, b: int, first: map<string, int>, k: int, m: int)
    requires |p| == |rows| && UF.Moved(p, q, a, b) && 0 <= k < |rows| && m <= |rows[k].keys|
    requires RowMerged(rows, p, first, k, m)
    ensures RowMerged(rows, q, first, k, m)
  {
    forall t | 0 <= t < m ensures Merged(rows, q, first, k, rows[k].keys[t]) {
      assert Merged(rows, p, first, k, rows[k].keys[t]);
    }
  }

  /** Merging row `a` with a row `b` that shares a key keeps every root inside one component. */
  lemma UnionSound(rows: seq<Row>, p: seq<int>, q: seq<int>, a: int, b: int, g: string)
    requires Sound(rows, p) && UF.Moved(p, q, a, b)
    requires g in rows[a].keys && g in rows[b].keys
    ensures Sound(rows, q)
  {
    ConnectedByKey(rows, a, b, g);
    ConnectedByKey(rows, b, a, g);
    forall i, j | 0 <= i < |p| && 0 <= j < |p| && UF.Root(q, i) == UF.Root(q, j)
      ensures Connected(rows, i, j)
    {
      if UF.Root(p, i) != UF.Root(p, j) {
        if UF.Root(p, i) == UF.Root(p, b) {
          ConnectedTransitive(rows, i, b, a);
          ConnectedTransitive(rows, i, a, j);
        } else {
          ConnectedTransitive(rows, i, a, b);
          ConnectedTransitive(rows, i, b, j);
        }
      }
    }
  }

  /** When all rows are merged, a chain of shared keys stays under one root. */
  lemma {:induction false} ChainKeepsRoot(rows: seq<Row>, p: seq<int>, first: map<string, int>, path: seq<int>)
    requires Sound(rows, p) && Progress(rows, p, first, |rows|, 0) && Chain(rows, path)
    ensures UF.Root(p, path[0]) == UF.Root(p, path[|path| - 1])
  {
    if |path| > 1 {
      var last := |path| - 1;
      ChainKeepsRoot(rows, p, first, path[..last]);
      var a, b := path[last - 1], path[last];
      assert Share(rows[a], rows[b]);
      var g :| g in rows[a].keys && g in rows[b].keys;
      var s :| 0 <= s < |rows[a].keys| && rows[a].keys[s] == g;
      var t :| 0 <= t < |rows[b].keys| && rows[b].keys[t] == g;
      assert Merged(rows, p, first, a, rows[a].keys[s]) && Merged(rows, p, first, b, rows[b].keys[t]);
    }
  }

  ghost predicate RootsAreComponents(rows: seq<Row>, p: seq<int>) {
    && |p| == |rows| && UF.Heap(p)
    && forall i, j | 0 <= i < |p| && 0 <= j < |p| :: UF.Root(p, i) == UF.Root(p, j) <==> Connected(rows, i, j)
  }

  lemma FinishedRootsAreComponents(rows: seq<Row>, p: seq<int>, first: map<string, int>)
    requires Sound(rows, p) && Progress(rows, p, first, |rows|, 0)
    ensures RootsAreComponents(rows, p)
  {
    forall i, j | 0 <= i < |p| && 0 <= j < |p| && Connected(rows, i, j)
      ensures UF.Root(p, i) == UF.Root(p, j)
    {
      var path :| Links(rows, path, i, j);
      ChainKeepsRoot(rows, p, first, path);
    }
  }

  method MergeRow(rows: seq<Row>, parents: array<int>, first0: map<string, int>, n: int) returns (first: map<string, int>)
    requires parents.Length == |rows| && 0 <= n < |rows|
    requires Sound(rows, parents[..]) && Progress(rows, parents[..], first0, n, 0)
    modifies parents
    ensures Sound(rows, parents[..]) && Progress(rows, parents[..], first, n, |rows[n].keys|)
  {
    first := first0;
    var m := 0;
    while m < |rows[n].keys|
      invariant 0 <= m <= |rows[n].keys|
      invariant Sound(rows, parents[..]) && Progress(rows, parents[..], first, n, m)
    {
      var g := rows[n].keys[m];
      if g !in first {
        FirstOfItsKey(rows, parents[..], first, n, m);
        first := first[g := n];
      } else {
        ghost var p := parents[..];
        UF.Union(parents, n, first[g]);
        UnionSound(rows, p, parents[..], n, first[g], g);
        UnionKeepsMerged(rows, p, parents[..], first, n, m);
      }
      m := m + 1;
    }
  }

  lemma FirstOfItsKey(rows: seq<Row>, p: seq<int>, first: map<string, int>, n: int, m: int)
    requires |p| == |rows| && UF.Heap(p) && 0 <= n < |rows|
    requires Progress(rows, p, first, n, m) && m < |rows[n].keys| && rows[n].keys[m] !in first
    ensures Progress(rows, p, first[rows[n].keys[m] := n], n, m + 1)
  {
    var first' := first[rows[n].keys[m] := n];
    forall k | 0 <= k < n ensures RowMerged(rows, p, first', k, |rows[k].keys|) {
      assert RowMerged(rows, p, first, k, |rows[k].keys|);
      MergedWithMore(rows, p, first, rows[n].keys[m], n, k, |rows[k].keys|);
    }
    MergedWithMore(rows, p, first, rows[n].keys[m], n, n, m);
    assert Merged(rows, p, first', n, rows[n].keys[m]);
  }

  lemma MergedWithMore(rows: seq<Row>, p: seq<int>, first: map<string, int>, g: string, n: int, k: int, m: int)
    requires |p| == |rows| && UF.Heap(p) && 0 <= k < |rows| && 0 <= m <= |rows[k].keys| && g !in first
    requires RowMerged(rows, p, first, k, m)
    ensures RowMerged(rows, p, first[g := n], k, m)
  {
    forall t | 0 <= t < m ensures Merged(rows, p, first[g := n], k, rows[k].keys[t]) {
      assert Merged(rows, p, first, k, rows[k].keys[t]);
    }
  }

  lemma UnionKeepsMerged(rows: seq<Row>, p: seq<int>, q: seq<int>, first: map<string, int>, n: int, m: int)
    requires |p| == |rows| && UF.Heap(p) && 0 <= n < |rows|
    requires Progress(rows, p, first, n, m) && m < |rows[n].keys| && rows[n].keys[m] in first
    requires UF.Moved(p, q, n, first[rows[n].keys[m]])
    ensures Progress(rows, q, first, n, m + 1)
  {
    var b := first[rows[n].keys[m]];
    forall k | 0 <= k < n ensures RowMerged(rows, q, first, k, |rows[k].keys|) {
      MovedKeepsRow(rows, p, q, n, b, first, k, |rows[k].keys|);
    }
    MovedKeepsRow(rows, p, q, n, b, first, n, m);
    assert Merged(rows, q, first, n, rows[n].keys[m]);
    assert RowMerged(rows, q, first, n, m + 1);
  }

  // ---- component keys, collected root by root ----

  ghost predicate Collected(rows: seq<Row>, p: seq<int>, byRoot: map<int, seq<string>>, n: int)
    requires |p| == |rows| && UF.Heap(p) && 0 <= n <= |rows|
  {
    && (forall k | 0 <= k < n :: UF.Root(p, k) in byRoot)
    && (forall r | r in byRoot :: Distinct(byRoot[r]))
    && (forall r, g | r in byRoot :: g in byRoot[r] <==> exists k :: 0 <= k < n && UF.Root(p, k) == r && g in rows[k].keys)
  }

  function AddAll(keys: seq<string>, more: seq<string>): (r: seq<string>)
    ensures Elems(r) == Elems(keys) + Elems(more)
    ensures Distinct(keys) ==> Distinct(r)
    decreases |more|
  {
    if more == [] then keys
    else
      var next := if more[0] in keys then keys else keys + [more[0]];
      assert Elems(next) == Elems(keys) + {more[0]};
      assert Elems(more) == {more[0]} + Elems(more[1..]);
      AddAll(next, more[1..])
  }

  method MergeRows(rows: seq<Row>, parents: array<int>)
    requires parents.Length == |rows| && forall i | 0 <= i < |rows| :: parents[i] == i
    modifies parents
    ensures RootsAreComponents(rows, parents[..])
  {
    var first: map<string, int> := map[];
    forall i, j | 0 <= i < |rows| && 0 <= j < |rows| && UF.Root(parents[..], i) == UF.Root(parents[..], j)
      ensures Connected(rows, i, j)
    {
      ConnectedReflexive(rows, i);
    }
    var n := 0;
    while n < |rows|
      invariant 0 <= n <= |rows|
      invariant Sound(rows, parents[..]) && Progress(rows, parents[..], first, n, 0)
    {
      first := MergeRow(rows, parents, first, n);
      n := n + 1;
    }
    FinishedRootsAreComponents(rows, parents[..], first);
  }

  method CollectKeys(rows: seq<Row>, parents: array<int>) returns (byRoot: map<int, seq<string>>)
    requires parents.Length == |rows| && UF.Heap(parents[..])
    modifies parents
    ensures UF.SameRoots(old(parents[..]), parents[..])
    ensures Collected(rows, parents[..], byRoot, |rows|)
  {
    ghost var p := parents[..];
    byRoot := map[];
    var n := 0;
    while n < |rows|
      invariant 0 <= n <= |rows|
      invariant UF.SameRoots(p, parents[..])
      invariant Collected(rows, p, byRoot, n)
    {
      var root := UF.FindRoot(parents, n);
      var soFar := if root in byRoot then byRoot[root] else [];
      ghost var before := byRoot;
      var added := AddAll(soFar, rows[n].keys);
      byRoot := byRoot[root := added];
      CollectedStep(rows, p, before, n, soFar, added);
      n := n + 1;
    }
    CollectedSameRoots(rows, p, parents[..], byRoot, n);
  }

  lemma CollectedSameRoots(rows: seq<Row>, p: seq<int>, q: seq<int>, byRoot: map<int, seq<string>>, n: int)
    requires |p| == |rows| && 0 <= n <= |rows| && UF.SameRoots(p, q) && Collected(rows, p, byRoot, n)
    ensures Collected(rows, q, byRoot, n)
  {
    forall r, g | r in byRoot
      ensures g in byRoot[r] <==> exists k :: 0 <= k < n && UF.Root(q, k) == r && g in rows[k].keys
    {
      if g in byRoot[r] {
        var k :| 0 <= k < n && UF.Root(p, k) == r && g in rows[k].keys;
        assert UF.Root(q, k) == r;
      }
    }
  }

  /** The keys collected at the root of each row. */
  method ListKeys(rows: seq<Row>, parents: array<int>, byRoot: map<int, seq<string>>) returns (keys: seq<seq<string>>)
    requires WellFormed(rows) && parents.Length == |rows| && RootsAreComponents(rows, parents[..])
    requires Collected(rows, parents[..], byRoot, |rows|)
    modifies parents
    ensures |keys| == |rows| && forall i | 0 <= i < |rows| :: keys[i] == ComponentKey(rows, i)
  {
    ghost var p := parents[..];
    keys := [];
    for n := 0 to |rows|
      invariant |keys| == n && UF.SameRoots(p, parents[..])
      invariant forall i | 0 <= i < n :: keys[i] == ComponentKey(rows, i)
    {
      var root := UF.FindRoot(parents, n);
      CollectedIsComponent(rows, p, byRoot, n);
      keys := keys + [Sort(byRoot[root])];
    }
  }

  /** The union-find pass: every row ends with the ascending key list of its component. */
  method BuildComponentKeys(rows: seq<Row>) returns (keys: seq<seq<string>>)
    requires WellFormed(rows)
    ensures |keys| == |rows|
    ensures forall i | 0 <= i < |rows| :: keys[i] == ComponentKey(rows, i)
  {
    var parents := new int[|rows|](i => i);
    MergeRows(rows, parents);
    ghost var p := parents[..];
    var byRoot := CollectKeys(rows, parents);
    RootsAreComponentsSame(rows, p, parents[..]);
    keys := ListKeys(rows, parents, byRoot);
  }

  lemma RootsAreComponentsSame(rows: seq<Row>, p: seq<int>, q: seq<int>)
    requires RootsAreComponents(rows, p) && UF.SameRoots(p, q)
    ensures RootsAreComponents(rows, q)
  {}

  lemma CollectedStep(rows: seq<Row>, p: seq<int>, byRoot: map<int, seq<string>>, n: int, soFar: seq<string>, added: seq<string>)
    requires |p| == |rows| && UF.Heap(p) && 0 <= n < |rows| && Collected(rows, p, byRoot, n)
    requires soFar == if UF.Root(p, n) in byRoot then byRoot[UF.Root(p, n)] else []
    requires added == AddAll(soFar, rows[n].keys)
    ensures Collected(rows, p, byRoot[UF.Root(p, n) := added], n + 1)
  {
    var after := byRoot[UF.Root(p, n) := added];
    forall r, g | r in after
      ensures g in after[r] <==> exists k :: 0 <= k < n + 1 && UF.Root(p, k) == r && g in rows[k].keys
    {
      if r == UF.Root(p, n) {
        assert g in after[r] <==> g in Elems(added);
        if g in rows[n].keys { assert UF.Root(p, n) == r; }
      }
    }
  }

  lemma CollectedIsComponent(rows: seq<Row>, p: seq<int>, byRoot: map<int, seq<string>>, i: int)
    requires RootsAreComponents(rows, p) && 0 <= i < |rows| && Collected(rows, p, byRoot, |rows|)
    ensures UF.Root(p, i) in byRoot && Sort(byRoot[UF.Root(p, i)]) == ComponentKey(rows, i)
  {
    var list := byRoot[UF.Root(p, i)];
    forall g ensures g in Elems(list) <==> g in ComponentKeys(rows, i) {
      if g in list {
        var k :| 0 <= k < |rows| && UF.Root(p, k) == UF.Root(p, i) && g in rows[k].keys;
        KeyOfComponent(rows, i, k, g);
      }
      if g in ComponentKeys(rows, i) {
        var k :| 0 <= k < |rows| && Connected(rows, i, k) && g in rows[k].keys;
        assert UF.Root(p, k) == UF.Root(p, i);
      }
    }
    assert Elems(list) == ComponentKeys(rows, i);
    SortIsListing(list);
  }
}
