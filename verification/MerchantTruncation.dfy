/**
 * Merchant names a card company cut short, grouped as merge candidates.
 *
 * The program links names by union-find over the strict-prefix relation. The simple form it must equal groups each name
 * under its shortest listed prefix of at least four characters.
 */
module MerchantTruncation {
  import opened Wrappers

  datatype Item = Item(name: string, transactionCount: nat, netTotal: int, aliasOf: Option<string>)
  datatype Group = Group(canonical: string, aliases: seq<string>, transactionCount: int, netTotal: int)

  const MIN_PREFIX := 4

  /** A name that is already an alias is not a candidate. */
  function Pool(items: seq<Item>): seq<Item> {
    if items == [] then []
    else (if items[0].aliasOf.None? then [items[0]] else []) + Pool(items[1..])
  }

  function Names(pool: seq<Item>): set<string> { set m | m in pool :: m.name }

  /** `a` can be what is left of `b` after cutting its tail. */
  predicate Truncates(a: string, b: string) { |a| >= MIN_PREFIX && |a| < |b| && a <= b }

  // ---- the simple form ----

  function ShortestFrom(names: set<string>, x: string, n: nat): string
    decreases |x| - n
  {
    if n >= |x| then x else if x[..n] in names then x[..n] else ShortestFrom(names, x, n + 1)
  }

  function Key(names: set<string>, x: string): string { ShortestFrom(names, x, MIN_PREFIX) }

  lemma {:induction false} ShortestIsShortest(names: set<string>, x: string, n: nat)
    requires x in names && n <= |x|
    ensures var k := ShortestFrom(names, x, n);
            && k in names && k <= x && n <= |k|
            && forall a | a in names && n <= |a| && a <= x :: k <= a
    decreases |x| - n
  {
    if n < |x| && x[..n] !in names {
      ShortestIsShortest(names, x, n + 1);
      assert forall a: string | a <= x && |a| == n :: a == x[..n];
    }
  }

  lemma KeyIsShortest(names: set<string>, x: string)
    requires x in names
    ensures Key(names, x) in names && Key(names, x) <= x
    ensures |x| >= MIN_PREFIX ==> |Key(names, x)| >= MIN_PREFIX
    ensures forall a | a in names && |a| >= MIN_PREFIX && a <= x :: Key(names, x) <= a
  {
    if |x| >= MIN_PREFIX { ShortestIsShortest(names, x, MIN_PREFIX); }
  }

  lemma TruncationSharesKey(names: set<string>, a: string, b: string)
    requires a in names && b in names && Truncates(a, b)
    ensures Key(names, a) == Key(names, b)
  {
    KeyIsShortest(names, a);
    KeyIsShortest(names, b);
    assert Key(names, a) <= b;
    assert Key(names, b) <= Key(names, a) <= Key(names, b);
  }

  /** A chain of listed names, each one a truncation of its neighbour or the other way around. */
  ghost predicate Chain(names: set<string>, c: seq<string>) {
    && |c| > 0 && (forall i | 0 <= i < |c| :: c[i] in names)
    && forall i | 0 <= i < |c| - 1 :: Truncates(c[i], c[i + 1]) || Truncates(c[i + 1], c[i])
  }

  lemma {:induction false} ChainSharesKey(names: set<string>, c: seq<string>)
    requires Chain(names, c)
    ensures Key(names, c[0]) == Key(names, c[|c| - 1])
  {
    if |c| > 1 {
      ChainSharesKey(names, c[1..]);
      if Truncates(c[0], c[1]) { TruncationSharesKey(names, c[0], c[1]); } else { TruncationSharesKey(names, c[1], c[0]); }
    }
  }

  lemma KeyTruncates(names: set<string>, x: string)
    requires x in names
    ensures Key(names, x) in names && (Key(names, x) == x || Truncates(Key(names, x), x))
  {
    KeyIsShortest(names, x);
    if |x| >= MIN_PREFIX && |Key(names, x)| == |x| { assert Key(names, x) == x; }
  }

  /** Names have one key exactly when truncations link them. */
  lemma SameKeyIffLinked(names: set<string>, a: string, b: string)
    requires a in names && b in names
    ensures Key(names, a) == Key(names, b) <==> exists c :: Chain(names, c) && c[0] == a && c[|c| - 1] == b
  {
    if Key(names, a) == Key(names, b) {
      var k := Key(names, a);
      KeyTruncates(names, a);
      KeyTruncates(names, b);
      var c := if a == b then [a] else if k == a then [a, b] else if k == b then [a, b] else [a, k, b];
      assert Chain(names, c) && c[0] == a && c[|c| - 1] == b;
    }
    forall c | Chain(names, c) && c[0] == a && c[|c| - 1] == b ensures Key(names, a) == Key(names, b) {
      ChainSharesKey(names, c);
    }
  }

  // ---- buckets under a labelling of the names, in order of first occurrence ----

  predicate Leads(pool: seq<Item>, f: map<string, string>, i: nat)
    requires i < |pool| && Names(pool) <= f.Keys
  {
    forall j | 0 <= j < i :: f[pool[j].name] != f[pool[i].name]
  }

  function Labels(pool: seq<Item>, f: map<string, string>, n: nat): seq<string>
    requires n <= |pool| && Names(pool) <= f.Keys
  {
    if n == 0 then [] else Labels(pool, f, n - 1) + (if Leads(pool, f, n - 1) then [f[pool[n - 1].name]] else [])
  }

  function Members(pool: seq<Item>, f: map<string, string>, tag: string, n: nat): seq<Item>
    requires n <= |pool| && Names(pool) <= f.Keys
  {
    if n == 0 then []
    else Members(pool, f, tag, n - 1) + (if f[pool[n - 1].name] == tag then [pool[n - 1]] else [])
  }

  function CountOf(m: Item): int { m.transactionCount }

  function NetOf(m: Item): int { m.netTotal }

  function Sum(s: seq<Item>, w: Item -> int): int { if s == [] then 0 else w(s[0]) + Sum(s[1..], w) }

  /** Longest name first, then the larger total. */
  predicate Before(x: Item, y: Item) { |x.name| > |y.name| || (|x.name| == |y.name| && x.netTotal >= y.netTotal) }

  /** A stable sort: an item goes after the earlier ones it does not beat. */
  function Insert(x: Item, s: seq<Item>): (r: seq<Item>)
    ensures |r| == |s| + 1
  {
    if s == [] || Before(s[|s| - 1], x) then s + [x] else Insert(x, s[..|s| - 1]) + [s[|s| - 1]]
  }

  function Sorted(s: seq<Item>): (r: seq<Item>)
    ensures |r| == |s|
  {
    if s == [] then [] else Insert(s[|s| - 1], Sorted(s[..|s| - 1]))
  }

  function NamesOf(s: seq<Item>): seq<string> { seq(|s|, i requires 0 <= i < |s| => s[i].name) }

  lemma {:induction false} InsertSorts(x: Item, s: seq<Item>)
    requires forall i, j | 0 <= i < j < |s| :: Before(s[i], s[j])
    ensures forall i, j | 0 <= i < j < |Insert(x, s)| :: Before(Insert(x, s)[i], Insert(x, s)[j])
    ensures multiset(Insert(x, s)) == multiset(s) + multiset{x}
  {
    if s == [] {
    } else if Before(s[|s| - 1], x) {
      forall i | 0 <= i < |s| ensures Before(s[i], x) {
        assert i < |s| - 1 ==> Before(s[i], s[|s| - 1]);
      }
    } else {
      var t, z := s[..|s| - 1], s[|s| - 1];
      InsertSorts(x, t);
      assert s == t + [z];
      forall y | y in Insert(x, t) ensures Before(y, z) {
        assert y in multiset(t) + multiset{x};
        if y in t { var i :| 0 <= i < |t| && t[i] == y; }
      }
    }
  }

  lemma {:induction false} SortedSorts(s: seq<Item>)
    ensures forall i, j | 0 <= i < j < |Sorted(s)| :: Before(Sorted(s)[i], Sorted(s)[j])
    ensures multiset(Sorted(s)) == multiset(s)
  {
    if s != [] {
      SortedSorts(s[..|s| - 1]);
      InsertSorts(s[|s| - 1], Sorted(s[..|s| - 1]));
      assert s == s[..|s| - 1] + [s[|s| - 1]];
    }
  }

  function GroupOf(members: seq<Item>): Group
    requires |members| > 0
  {
    var sorted := Sorted(members);
    Group(sorted[0].name, NamesOf(sorted[1..]), Sum(members, CountOf), Sum(members, NetOf))
  }

  /** The groups of the given buckets; a bucket of one proposes nothing. */
  function Proposals(pool: seq<Item>, f: map<string, string>, tags: seq<string>): seq<Group>
    requires Names(pool) <= f.Keys
  {
    if tags == [] then []
    else
      var members := Members(pool, f, tags[|tags| - 1], |pool|);
      Proposals(pool, f, tags[..|tags| - 1]) + (if |members| < 2 then [] else [GroupOf(members)])
  }

  function InsertGroup(g: Group, s: seq<Group>): seq<Group> {
    if s == [] || s[|s| - 1].netTotal >= g.netTotal then s + [g] else InsertGroup(g, s[..|s| - 1]) + [s[|s| - 1]]
  }

  /** The largest totals first, ties in order. */
  function Ranked(s: seq<Group>): seq<Group> { if s == [] then [] else InsertGroup(s[|s| - 1], Ranked(s[..|s| - 1])) }

  function ByKey(pool: seq<Item>): map<string, string> { map x | x in Names(pool) :: Key(Names(pool), x) }

  function Candidates(items: seq<Item>): seq<Group> {
    var pool := Pool(items);
    Ranked(Proposals(pool, ByKey(pool), Labels(pool, ByKey(pool), |pool|)))
  }

  // ---- two labellings with one partition propose the same groups ----

  ghost predicate SamePartition(names: set<string>, f: map<string, string>, g: map<string, string>)
    requires names <= f.Keys && names <= g.Keys
  {
    forall a, b | a in names && b in names :: f[a] == f[b] <==> g[a] == g[b]
  }

  ghost predicate Matching(names: set<string>, f: map<string, string>, u: string, g: map<string, string>, v: string)
    requires names <= f.Keys && names <= g.Keys
  {
    forall x | x in names :: f[x] == u <==> g[x] == v
  }

  lemma {:induction false} MembersMatch(pool: seq<Item>, f: map<string, string>, u: string, g: map<string, string>, v: string, n: nat)
    requires n <= |pool| && Names(pool) <= f.Keys && Names(pool) <= g.Keys && Matching(Names(pool), f, u, g, v)
    ensures Members(pool, f, u, n) == Members(pool, g, v, n)
  {
    if n > 0 {
      MembersMatch(pool, f, u, g, v, n - 1);
      assert pool[n - 1].name in Names(pool);
    }
  }

  lemma {:induction false} LabelsMatch(pool: seq<Item>, f: map<string, string>, g: map<string, string>, n: nat)
    requires n <= |pool| && Names(pool) <= f.Keys && Names(pool) <= g.Keys && SamePartition(Names(pool), f, g)
    ensures |Labels(pool, f, n)| == |Labels(pool, g, n)|
    ensures forall i | 0 <= i < |Labels(pool, f, n)| :: Matching(Names(pool), f, Labels(pool, f, n)[i], g, Labels(pool, g, n)[i])
  {
    if n > 0 {
      LabelsMatch(pool, f, g, n - 1);
      assert forall j | 0 <= j < n :: pool[j].name in Names(pool);
      assert Leads(pool, f, n - 1) <==> Leads(pool, g, n - 1);
    }
  }

  lemma {:induction false} ProposalsMatch(pool: seq<Item>, f: map<string, string>, s: seq<string>, g: map<string, string>, t: seq<string>)
    requires Names(pool) <= f.Keys && Names(pool) <= g.Keys && |s| == |t|
    requires forall i | 0 <= i < |s| :: Matching(Names(pool), f, s[i], g, t[i])
    ensures Proposals(pool, f, s) == Proposals(pool, g, t)
  {
    if s != [] {
      ProposalsMatch(pool, f, s[..|s| - 1], g, t[..|t| - 1]);
      MembersMatch(pool, f, s[|s| - 1], g, t[|t| - 1], |pool|);
    }
  }

  // ---- the union-find, over a map of parents without path compression ----

  /** History of the parent map: the root of every name, and ranks that grow towards the roots. */
  datatype Forest = Forest(root: map<string, string>, rank: map<string, nat>, top: nat)

  ghost predicate Node(parent: map<string, string>, f: Forest, x: string)
    requires parent.Keys == f.root.Keys == f.rank.Keys && x in parent
  {
    && parent[x] in parent && f.rank[x] <= f.top && f.root[x] in parent && f.root[f.root[x]] == f.root[x]
    && f.root[x] == f.root[parent[x]] && (parent[x] == x <==> f.root[x] == x) && (parent[x] != x ==> f.rank[x] < f.rank[parent[x]])
  }

  ghost predicate Consistent(parent: map<string, string>, f: Forest) {
    parent.Keys == f.root.Keys == f.rank.Keys && forall x {:trigger Node(parent, f, x)} | x in parent :: Node(parent, f, x)
  }

  function Linked(f: Forest, a: string, b: string): Forest
    requires a in f.rank && b in f.rank
  {
    var rank := if f.rank[b] > f.rank[a] then f.rank[b] else f.rank[a] + 1;
    Forest(map x | x in f.root :: if f.root[x] == a then b else f.root[x], f.rank[b := rank], if rank > f.top then rank else f.top)
  }

  lemma LinkKeepsNode(parent: map<string, string>, f: Forest, a: string, b: string, x: string)
    requires parent.Keys == f.root.Keys == f.rank.Keys && {a, b, x} <= parent.Keys && a != b
    requires Node(parent, f, a) && Node(parent, f, b) && Node(parent, f, x) && parent[a] == a && parent[b] == b
    ensures Node(parent[a := b], Linked(f, a, b), x)
  {
    var p, g := parent[a := b], Linked(f, a, b);
    assert p[x] in p && g.root[x] in p && g.root[b] == b;
    assert f.rank[b] <= g.rank[b] <= g.top && g.rank[a] < g.rank[b];
  }

  lemma LinkKeeps(parent: map<string, string>, f: Forest, a: string, b: string)
    requires Consistent(parent, f) && a in parent && b in parent && parent[a] == a && parent[b] == b && a != b
    ensures Consistent(parent[a := b], Linked(f, a, b))
  {
    assert Node(parent, f, a) && Node(parent, f, b);
    forall x | x in parent ensures Node(parent[a := b], Linked(f, a, b), x) {
      assert Node(parent, f, x);
      LinkKeepsNode(parent, f, a, b, x);
    }
  }

  /** Walks to the root; the ranks show that the walk ends. */
  method Find(parent: map<string, string>, ghost f: Forest, x: string) returns (root: string)
    requires Consistent(parent, f) && x in parent
    ensures root == f.root[x] && root in parent && parent[root] == root
  {
    root := x;
    assert Node(parent, f, x);
    while parent[root] != root
      invariant root in parent && f.root[root] == f.root[x]
      decreases f.top - f.rank[root]
    {
      assert Node(parent, f, root) && Node(parent, f, parent[root]);
      root := parent[root];
    }
    assert Node(parent, f, root);
  }

  ghost predicate Sound(names: set<string>, f: Forest) {
    names <= f.root.Keys && forall a, b | a in names && b in names && f.root[a] == f.root[b] :: Key(names, a) == Key(names, b)
  }

  /** Every truncation among the pairs already looked at has been linked. */
  ghost predicate Joined(pool: seq<Item>, f: Forest, i: nat, j: nat)
    requires i <= |pool| && j <= |pool| && Names(pool) <= f.root.Keys
  {
    forall p, q | 0 <= p < |pool| && 0 <= q < |pool| && (p < i || (p == i && q < j)) && Truncates(pool[p].name, pool[q].name) ::
      f.root[pool[p].name] == f.root[pool[q].name]
  }

  lemma LinkStaysSound(names: set<string>, f: Forest, a: string, b: string, x: string, y: string)
    requires Sound(names, f) && x in names && y in names && Truncates(x, y) && a in f.rank && b in f.rank
    requires f.root[x] == a && f.root[y] == b
    ensures Sound(names, Linked(f, a, b))
  {
    TruncationSharesKey(names, x, y);
  }

  /** Sound and complete: the trees are the groups of the simple form. */
  lemma JoinedIsKeyPartition(pool: seq<Item>, f: Forest)
    requires Sound(Names(pool), f) && Joined(pool, f, |pool|, 0)
    ensures ByKey(pool).Keys == Names(pool) && SamePartition(Names(pool), f.root, ByKey(pool))
  {
    var names := Names(pool);
    forall x | x in names ensures Key(names, x) in names && f.root[x] == f.root[Key(names, x)] {
      KeyTruncates(names, x);
      var p :| 0 <= p < |pool| && pool[p].name == x;
      var q :| 0 <= q < |pool| && pool[q].name == Key(names, x);
    }
  }

  ghost predicate Grown(pool: seq<Item>, parent: map<string, string>, f: Forest, i: nat, j: nat)
    requires i <= |pool| && j <= |pool|
  {
    Consistent(parent, f) && parent.Keys == Names(pool) && Sound(Names(pool), f) && Joined(pool, f, i, j)
  }

  lemma LinkStaysJoined(pool: seq<Item>, f: Forest, i: nat, j: nat, a: string, b: string)
    requires i < |pool| && j < |pool| && a in f.rank && b in f.rank && Names(pool) <= f.root.Keys && Joined(pool, f, i, j)
    requires f.root[pool[i].name] == a && f.root[pool[j].name] == b
    ensures Joined(pool, Linked(f, a, b), i, j + 1)
  {
  }

  /** One pair of the double loop. */
  method LinkPair(pool: seq<Item>, parent: map<string, string>, ghost f: Forest, i: nat, j: nat) returns (p: map<string, string>, ghost g: Forest)
    requires i < |pool| && j < |pool| && Grown(pool, parent, f, i, j)
    ensures Grown(pool, p, g, i, j + 1)
  {
    p, g := parent, f;
    var a, b := pool[i].name, pool[j].name;
    if a == b || |a| < MIN_PREFIX || |a| >= |b| || !(a <= b) { return; }
    var ra := Find(parent, f, a);
    var rb := Find(parent, f, b);
    if ra != rb {
      LinkKeeps(parent, f, ra, rb);
      LinkStaysSound(Names(pool), f, ra, rb, a, b);
      LinkStaysJoined(pool, f, i, j, ra, rb);
      p, g := parent[ra := rb], Linked(f, ra, rb);
    }
  }

  method LinkTruncations(pool: seq<Item>) returns (parent: map<string, string>, ghost f: Forest)
    ensures Grown(pool, parent, f, |pool|, 0)
  {
    parent := map x | x in Names(pool) :: x;
    f := Forest(parent, map x | x in parent :: 0, 0);
    for i := 0 to |pool|
      invariant Grown(pool, parent, f, i, 0)
    {
      for j := 0 to |pool|
        invariant Grown(pool, parent, f, i, j)
      {
        parent, f := LinkPair(pool, parent, f, i, j);
      }
      assert Joined(pool, f, i + 1, 0);
    }
  }

  // ---- the whole ----

  ghost predicate Seen(pool: seq<Item>, f: map<string, string>, n: nat, tag: string)
    requires n <= |pool| && Names(pool) <= f.Keys
  {
    exists j | 0 <= j < n :: f[pool[j].name] == tag
  }

  ghost predicate Bucketed(pool: seq<Item>, f: map<string, string>, n: nat, order: seq<string>, buckets: map<string, seq<Item>>)
    requires n <= |pool| && Names(pool) <= f.Keys
  {
    && order == Labels(pool, f, n)
    && (forall t {:trigger Seen(pool, f, n, t)} :: t in buckets <==> Seen(pool, f, n, t))
    && forall t {:trigger Members(pool, f, t, n)} | t in buckets :: buckets[t] == Members(pool, f, t, n)
  }

  lemma {:induction false} NoMembers(pool: seq<Item>, f: map<string, string>, tag: string, n: nat)
    requires n <= |pool| && Names(pool) <= f.Keys && !Seen(pool, f, n, tag)
    ensures Members(pool, f, tag, n) == []
  {
    if n > 0 {
      assert f[pool[n - 1].name] != tag;
      NoMembers(pool, f, tag, n - 1);
    }
  }

  lemma {:induction false} LabelsInBuckets(pool: seq<Item>, f: map<string, string>, n: nat, i: nat)
    requires n <= |pool| && Names(pool) <= f.Keys && i < |Labels(pool, f, n)|
    ensures Seen(pool, f, n, Labels(pool, f, n)[i])
  {
    if i < |Labels(pool, f, n - 1)| {
      LabelsInBuckets(pool, f, n - 1, i);
    } else {
      assert f[pool[n - 1].name] == Labels(pool, f, n)[i];
    }
  }

  lemma SeenNext(pool: seq<Item>, f: map<string, string>, n: nat, t: string)
    requires n < |pool| && Names(pool) <= f.Keys
    ensures Seen(pool, f, n + 1, t) <==> t == f[pool[n].name] || Seen(pool, f, n, t)
  {
    if t == f[pool[n].name] { assert f[pool[n].name] == t; }
    if Seen(pool, f, n, t) {
      var j :| 0 <= j < n && f[pool[j].name] == t;
      assert 0 <= j < n + 1 && f[pool[j].name] == t;
    }
  }

  lemma BucketStep(pool: seq<Item>, f: map<string, string>, n: nat, order: seq<string>, buckets: map<string, seq<Item>>,
                   order': seq<string>, buckets': map<string, seq<Item>>)
    requires n < |pool| && Names(pool) <= f.Keys && Bucketed(pool, f, n, order, buckets)
    requires var root := f[pool[n].name];
             if root in buckets then order' == order && buckets' == buckets[root := buckets[root] + [pool[n]]]
             else order' == order + [root] && buckets' == buckets[root := [pool[n]]]
    ensures Bucketed(pool, f, n + 1, order', buckets')
  {
    var root := f[pool[n].name];
    assert root in buckets <==> Seen(pool, f, n, root);
    assert Leads(pool, f, n) <==> !Seen(pool, f, n, root);
    forall t ensures t in buckets' <==> Seen(pool, f, n + 1, t) {
      SeenNext(pool, f, n, t);
      assert t in buckets <==> Seen(pool, f, n, t);
    }
    forall t | t in buckets' ensures buckets'[t] == Members(pool, f, t, n + 1) {
      if t in buckets { assert buckets[t] == Members(pool, f, t, n); } else { NoMembers(pool, f, t, n); }
    }
  }

  method FillBuckets(pool: seq<Item>, parent: map<string, string>, ghost f: Forest) returns (order: seq<string>, buckets: map<string, seq<Item>>)
    requires Consistent(parent, f) && parent.Keys == Names(pool)
    ensures order == Labels(pool, f.root, |pool|)
    ensures forall k | 0 <= k < |order| :: order[k] in buckets && buckets[order[k]] == Members(pool, f.root, order[k], |pool|)
  {
    order, buckets := [], map[];
    for n := 0 to |pool|
      invariant Bucketed(pool, f.root, n, order, buckets)
    {
      var root := Find(parent, f, pool[n].name);
      ghost var before, was := order, buckets;
      if root in buckets {
        buckets := buckets[root := buckets[root] + [pool[n]]];
      } else {
        order, buckets := order + [root], buckets[root := [pool[n]]];
      }
      BucketStep(pool, f.root, n, before, was, order, buckets);
    }
    forall k | 0 <= k < |order| ensures order[k] in buckets {
      LabelsInBuckets(pool, f.root, |pool|, k);
    }
  }

  method Propose(pool: seq<Item>, ghost f: map<string, string>, order: seq<string>, buckets: map<string, seq<Item>>) returns (groups: seq<Group>)
    requires Names(pool) <= f.Keys
    requires forall k | 0 <= k < |order| :: order[k] in buckets && buckets[order[k]] == Members(pool, f, order[k], |pool|)
    ensures groups == Proposals(pool, f, order)
  {
    groups := [];
    for k := 0 to |order|
      invariant groups == Proposals(pool, f, order[..k])
    {
      assert order[..k + 1][..k] == order[..k];
      var members := buckets[order[k]];
      if |members| >= 2 { groups := groups + [GroupOf(members)]; }
    }
    assert order[..|order|] == order;
  }

  /** The program proposes exactly the groups of the simple form. */
  method FindTruncationCandidates(items: seq<Item>) returns (result: seq<Group>)
    ensures result == Candidates(items)
  {
    var pool := Pool(items);
    var parent, f := LinkTruncations(pool);
    var order, buckets := FillBuckets(pool, parent, f);
    var groups := Propose(pool, f.root, order, buckets);
    JoinedIsKeyPartition(pool, f);
    LabelsMatch(pool, f.root, ByKey(pool), |pool|);
    ProposalsMatch(pool, f.root, order, ByKey(pool), Labels(pool, ByKey(pool), |pool|));
    result := Ranked(groups);
  }
}
