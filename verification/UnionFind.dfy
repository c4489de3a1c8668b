/** The parents array of a union-find in which every union hangs an older root under a newer one. */
module UnionFind {

  /** Parents never point backwards, so every walk towards a root ends. */
  ghost predicate Heap(p: seq<int>) {
    forall i | 0 <= i < |p| :: i <= p[i] < |p|
  }

  ghost function Root(p: seq<int>, i: int): (r: int)
    requires Heap(p) && 0 <= i < |p|
    ensures i <= r < |p| && p[r] == r
    decreases |p| - i
  {
    if p[i] == i then i else Root(p, p[i])
  }

  ghost predicate SameRoots(p: seq<int>, q: seq<int>) {
    && |p| == |q| && Heap(p) && Heap(q)
    && forall k | 0 <= k < |p| :: Root(q, k) == Root(p, k)
  }

  /** From p to q, exactly the rows under b's root have moved under a's root. */
  ghost predicate Moved(p: seq<int>, q: seq<int>, a: int, b: int) {
    && |p| == |q| && Heap(p) && Heap(q) && 0 <= a < |p| && 0 <= b < |p|
    && forall k | 0 <= k < |p| ::
         Root(q, k) == if Root(p, k) == Root(p, b) then Root(p, a) else Root(p, k)
  }

  /** Pointing one row straight at its root moves no row to another root. */
  lemma {:induction false} CompressKeepsRoot(p: seq<int>, c: int, k: int)
    requires Heap(p) && 0 <= c < |p| && 0 <= k < |p|
    ensures Heap(p[c := Root(p, c)])
    ensures Root(p[c := Root(p, c)], k) == Root(p, k)
    decreases |p| - k
  {
    var q := p[c := Root(p, c)];
    if p[k] != k {
      CompressKeepsRoot(p, c, p[k]);
      if k == c {
        assert Root(q, k) == Root(p, k);
      }
    }
  }

  lemma CompressKeepsRoots(p: seq<int>, c: int)
    requires Heap(p) && 0 <= c < |p|
    ensures SameRoots(p, p[c := Root(p, c)])
  {
    CompressKeepsRoot(p, c, c);
    forall k | 0 <= k < |p| ensures Root(p[c := Root(p, c)], k) == Root(p, k) {
      CompressKeepsRoot(p, c, k);
    }
  }

  /** Hanging root b under the newer root a moves exactly the rows of b. */
  lemma {:induction false} LinkMovesRoot(p: seq<int>, a: int, b: int, k: int)
    requires Heap(p) && 0 <= b < a < |p| && 0 <= k < |p|
    requires p[a] == a && p[b] == b
    ensures Heap(p[b := a])
    ensures Root(p[b := a], k) == if Root(p, k) == b then a else Root(p, k)
    decreases |p| - k
  {
    if p[k] != k { LinkMovesRoot(p, a, b, p[k]); }
  }

  method FindRoot(parents: array<int>, index: int) returns (root: int)
    requires Heap(parents[..]) && 0 <= index < parents.Length
    modifies parents
    ensures SameRoots(old(parents[..]), parents[..])
    ensures root == Root(old(parents[..]), index)
  {
    root := index;
    while parents[root] != root
      invariant index <= root < parents.Length
      invariant Root(parents[..], root) == Root(parents[..], index)
      decreases parents.Length - root
    {
      root := parents[root];
    }
    var current := index;
    while parents[current] != current
      invariant 0 <= current < parents.Length
      invariant SameRoots(old(parents[..]), parents[..])
      invariant Root(parents[..], current) == root
      decreases parents.Length - current
    {
      var next := parents[current];
      ghost var before := parents[..];
      CompressKeepsRoots(before, current);
      parents[current] := root;
      assert parents[..] == before[current := root];
      current := next;
    }
  }

  method Union(parents: array<int>, left: int, right: int)
    requires Heap(parents[..]) && 0 <= left < parents.Length && 0 <= right < parents.Length
    requires Root(parents[..], right) <= Root(parents[..], left)
    modifies parents
    ensures Moved(old(parents[..]), parents[..], left, right)
  {
    var leftRoot := FindRoot(parents, left);
    var rightRoot := FindRoot(parents, right);
    ghost var before := parents[..];
    if leftRoot != rightRoot {
      parents[rightRoot] := leftRoot;
      assert parents[..] == before[rightRoot := leftRoot];
      forall k | 0 <= k < |before|
        ensures Heap(parents[..]) && Root(parents[..], k) == if Root(before, k) == rightRoot then leftRoot else Root(before, k)
      {
        LinkMovesRoot(before, leftRoot, rightRoot, k);
      }
    }
  }
}
