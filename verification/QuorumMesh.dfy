/**
  The mesh of a quorum: nodes 0..n-1 and directed connections between them.
  Two nodes are linked by a connection either way; a path of at most two hops
  from i to j is identified by the neighbour of j it ends with.
 */
module QuorumMesh {

  datatype Pair = Pair(a: nat, b: nat)

  type Edges = set<Pair>

  predicate Linked(e: Edges, i: nat, j: nat) {
    Pair(i, j) in e || Pair(j, i) in e
  }

  /** The last stop before j on each path of at most two hops from i. */
  ghost function Via(e: Edges, n: nat, i: nat, j: nat): set<nat> {
    set k: nat | k < n && k != j && Linked(e, k, j) && (k == i || Linked(e, k, i))
  }

  ghost function Paths(e: Edges, n: nat, i: nat, j: nat): nat {
    |Via(e, n, i, j)|
  }

  ghost function Common(e: Edges, n: nat, i: nat, j: nat): set<nat> {
    set k: nat | k < n && k != i && k != j && Linked(e, k, i) && Linked(e, k, j)
  }

  ghost function Below(n: nat): (r: set<nat>)
    ensures forall k: nat :: k in r <==> k < n
    ensures |r| == n
  {
    if n == 0 then {} else Below(n - 1) + {n - 1}
  }

  ghost function Column(k: nat, b: nat): (r: set<Pair>)
    ensures forall p :: p in r <==> p.a < k && p.b == b
    ensures |r| == k
  {
    if k == 0 then {} else Column(k - 1, b) + {Pair(k - 1, b)}
  }

  ghost function AllPairs(n: nat): (r: set<Pair>)
    ensures forall p :: p in r <==> p.a < p.b < n
  {
    set a, b | a in Below(n) && b in Below(n) && a < b :: Pair(a, b)
  }

  lemma UnionSize(whole: set<Pair>, a: set<Pair>, b: set<Pair>)
    requires forall p :: p in whole <==> p in a || p in b
    requires forall p :: p in a ==> p !in b
    ensures |whole| == |a| + |b|
  {
    assert whole == a + b && a !! b;
  }

  lemma Triangle(n: nat, x: nat)
    requires n > 0 && 2 * x == (n - 1) * (n - 2)
    ensures 2 * (x + n - 1) == n * (n - 1)
  {}

  lemma PairsGrow(n: nat)
    requires n > 0
    ensures |AllPairs(n)| == |AllPairs(n - 1)| + n - 1
  {
    UnionSize(AllPairs(n), AllPairs(n - 1), Column(n - 1, n - 1));
  }

  /** There are n(n-1)/2 unordered pairs of different nodes. */
  lemma {:induction false} AllPairsSize(n: nat)
    ensures 2 * |AllPairs(n)| == n * (n - 1)
  {
    if n == 0 {
      assert AllPairs(0) == {};
    } else {
      AllPairsSize(n - 1);
      PairsGrow(n);
      Triangle(n, |AllPairs(n - 1)|);
    }
  }

  /** Pairs with at most m paths. */
  ghost function Deficient(e: Edges, n: nat, m: nat): set<Pair> {
    set p | p in AllPairs(n) && Paths(e, n, p.a, p.b) <= m
  }

  ghost function UnlinkedIn(e: Edges, pairs: set<Pair>): set<Pair> {
    set p | p in pairs && !Linked(e, p.a, p.b)
  }

  ghost function Unlinked(e: Edges, n: nat): set<Pair> {
    UnlinkedIn(e, AllPairs(n))
  }

  /** m is the least number of paths between two different nodes. */
  ghost predicate LeastPaths(e: Edges, n: nat, m: nat) {
    && (forall i: nat, j: nat :: i < n && j < n && i != j ==> m <= Paths(e, n, i, j))
    && exists i: nat, j: nat :: i < n && j < n && i != j && Paths(e, n, i, j) == m
  }

  /** Connections between distinct nodes below n, at most one way. */
  ghost predicate WellFormed(e: Edges, n: nat) {
    forall p {:trigger p in e} :: p in e ==> p.a < n && p.b < n && p.a != p.b && Pair(p.b, p.a) !in e
  }

  lemma SubsetSize<T>(a: set<T>, b: set<T>)
    requires a <= b
    ensures |a| <= |b|
  {
    assert b == a + (b - a);
  }

  // ----- paths

  /** The count is the direct link, if any, plus the common neighbours; so it
      does not matter which end is asked. */
  lemma PathsAre(e: Edges, n: nat, i: nat, j: nat)
    requires i < n && j < n && i != j
    ensures Paths(e, n, i, j) == (if Linked(e, i, j) then 1 else 0) + |Common(e, n, i, j)|
    ensures Paths(e, n, i, j) == Paths(e, n, j, i)
  {
    assert Via(e, n, i, j) == (if Linked(e, i, j) then {i} else {}) + Common(e, n, i, j);
    assert Via(e, n, j, i) == (if Linked(e, i, j) then {j} else {}) + Common(e, n, i, j);
  }

  lemma PathsGrow(e: Edges, f: Edges, n: nat, i: nat, j: nat)
    requires e <= f
    ensures Paths(e, n, i, j) <= Paths(f, n, i, j)
  {
    SubsetSize(Via(e, n, i, j), Via(f, n, i, j));
  }

  lemma LeastPathsGrow(e: Edges, f: Edges, n: nat, m: nat, m': nat)
    requires e <= f && LeastPaths(e, n, m) && LeastPaths(f, n, m')
    ensures m <= m'
  {
    var i: nat, j: nat :| i < n && j < n && i != j && Paths(f, n, i, j) == m';
    PathsGrow(e, f, n, i, j);
  }

  /** No set of connections whatever gives more than n - 1 paths. */
  lemma PathsBound(e: Edges, n: nat, i: nat, j: nat)
    requires j < n
    ensures Paths(e, n, i, j) <= n - 1
  {
    SubsetSize(Via(e, n, i, j), Below(n) - {j});
  }

  lemma NoneUnlinked(e: Edges, n: nat, i: nat, j: nat)
    requires Unlinked(e, n) == {} && i < n && j < n && i != j
    ensures Linked(e, i, j)
  {
    assert (if i < j then Pair(i, j) else Pair(j, i)) !in Unlinked(e, n);
  }

  lemma FullyLinked(e: Edges, n: nat, i: nat, j: nat)
    requires Unlinked(e, n) == {} && i < n && j < n && i != j
    ensures Paths(e, n, i, j) == n - 1
  {
    forall k: nat | k < n && k != j ensures k in Via(e, n, i, j) {
      NoneUnlinked(e, n, k, j);
      if k != i { NoneUnlinked(e, n, k, i); }
    }
    AllVia(e, n, i, j);
  }

  lemma AllVia(e: Edges, n: nat, i: nat, j: nat)
    requires j < n && forall k: nat :: k < n && k != j ==> k in Via(e, n, i, j)
    ensures Paths(e, n, i, j) == n - 1
  {
    assert Via(e, n, i, j) == Below(n) - {j};
  }

  // ----- adding one connection

  lemma AddEdge(e: Edges, n: nat, i: nat, j: nat)
    requires WellFormed(e, n)
    requires i < n && j < n && i != j && !Linked(e, i, j)
    ensures WellFormed(e + {Pair(i, j)}, n)
    ensures |e + {Pair(i, j)}| == |e| + 1
  {}

  lemma LinkPairIn(e: Edges, pairs: set<Pair>, i: nat, j: nat, q: Pair)
    requires !Linked(e, i, j)
    requires q in pairs && (q == Pair(i, j) || q == Pair(j, i))
    requires forall p :: p in pairs ==> p.a < p.b
    ensures |UnlinkedIn(e + {Pair(i, j)}, pairs)| == |UnlinkedIn(e, pairs)| - 1
  {
    var f := e + {Pair(i, j)};
    forall p | p in pairs ensures Linked(f, p.a, p.b) <==> Linked(e, p.a, p.b) || p == q {}
    assert q in UnlinkedIn(e, pairs);
    assert UnlinkedIn(f, pairs) == UnlinkedIn(e, pairs) - {q};
  }

  lemma LinkPair(e: Edges, n: nat, i: nat, j: nat)
    requires i < n && j < n && i != j && !Linked(e, i, j)
    ensures |Unlinked(e + {Pair(i, j)}, n)| == |Unlinked(e, n)| - 1
  {
    LinkPairIn(e, AllPairs(n), i, j, if i < j then Pair(i, j) else Pair(j, i));
  }

  // ----- what the finished mesh is for

  /** Connected within two hops without passing through a node of `down`. */
  ghost predicate Reaches(e: Edges, n: nat, down: set<nat>, i: nat, j: nat) {
    Linked(e, i, j) || exists k: nat :: k < n && k !in down && Linked(e, i, k) && Linked(e, k, j)
  }

  /** Any fewer than `target` failed nodes leave every surviving pair connected. */
  lemma Survives(e: Edges, n: nat, target: nat, down: set<nat>, i: nat, j: nat)
    requires forall a: nat, b: nat :: a < n && b < n && a != b ==> Paths(e, n, a, b) >= target
    requires |down| < target
    requires i < n && j < n && i != j && i !in down && j !in down
    ensures Reaches(e, n, down, i, j)
  {
    assert Paths(e, n, i, j) >= target;
    if Via(e, n, i, j) <= down {
      SubsetSize(Via(e, n, i, j), down);
      assert false;
    }
    var k :| k in Via(e, n, i, j) && k !in down;
  }

  /** The bound is tight: removing the common neighbours of an unlinked pair
      disconnects it. */
  lemma CutExists(e: Edges, n: nat, i: nat, j: nat) returns (down: set<nat>)
    requires i < n && j < n && i != j && !Linked(e, i, j)
    ensures |down| == Paths(e, n, i, j) && i !in down && j !in down
    ensures !Reaches(e, n, down, i, j)
  {
    down := Common(e, n, i, j);
    PathsAre(e, n, i, j);
  }
}
