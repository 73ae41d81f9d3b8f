/**
  The generator of quorum meshes: the connection matrix is an array that the
  greedy loop fills in place, trying each absent connection and taking it back.
 */
module MeshBuilder {
  import opened Sequences
  import opened QuorumMesh

  // ----- the matrix as a set of connections

  /** The n by n matrix holds 1 at the connections of e and 0 elsewhere. */
  ghost predicate Holds(conns: array2<int>, n: nat, e: Edges)
    reads conns
  {
    && conns.Length0 == n && conns.Length1 == n
    && (forall a: nat, b: nat {:trigger conns[a, b]} :: a < n && b < n ==> conns[a, b] == if Pair(a, b) in e then 1 else 0)
    && forall p :: p in e ==> p.a < n && p.b < n
  }

  // ----- counting paths

  ghost predicate IncreasingBelow(s: seq<nat>, bound: nat) {
    Increasing(s) && forall k :: 0 <= k < |s| ==> s[k] < bound
  }

  /** The nodes linked to j, in increasing order. */
  method Neighbours(conns: array2<int>, n: nat, ghost e: Edges, j: nat) returns (neighbours: seq<nat>)
    requires Holds(conns, n, e) && j < n
    ensures IncreasingBelow(neighbours, n)
    ensures forall k: nat :: k in neighbours <==> k < n && k != j && Linked(e, k, j)
  {
    neighbours := [];
    for r := 0 to j
      invariant forall k: nat :: k in neighbours <==> k < r && Linked(e, k, j)
      invariant IncreasingBelow(neighbours, r)
    {
      if conns[r, j] != 0 || conns[j, r] > 0 { neighbours := neighbours + [r]; }
    }
    for c := j + 1 to n
      invariant forall k: nat :: k in neighbours <==> k < c && k != j && Linked(e, k, j)
      invariant IncreasingBelow(neighbours, c)
    {
      if conns[j, c] != 0 || conns[c, j] > 0 { neighbours := neighbours + [c]; }
    }
  }

  method CountPathsWithinTwo(conns: array2<int>, n: nat, ghost e: Edges, i0: nat, j0: nat) returns (paths: nat)
    requires Holds(conns, n, e) && i0 < n && j0 < n && i0 != j0
    ensures paths == Paths(e, n, i0, j0)
  {
    var i, j := i0, j0;
    if i > j { i, j := j, i; }
    var neighbours := Neighbours(conns, n, e, j);
    paths := 0;
    ghost var counted: set<nat> := {};
    for t := 0 to |neighbours|
      invariant |counted| == paths
      invariant forall k: nat :: k in counted <==> k in neighbours[..t] && (k == i || Linked(e, k, i))
    {
      var k := neighbours[t];
      assert k in neighbours && k !in neighbours[..t];
      if k == i || conns[k, i] > 0 || conns[i, k] > 0 {
        paths := paths + 1;
        counted := counted + {k};
      }
    }
    assert neighbours[..|neighbours|] == neighbours;
    CountedIsVia(e, n, i, j, counted);
    PathsAre(e, n, i, j);
  }

  lemma CountedIsVia(e: Edges, n: nat, i: nat, j: nat, counted: set<nat>)
    requires forall k: nat :: k in counted <==> k < n && k != j && Linked(e, k, j) && (k == i || Linked(e, k, i))
    ensures counted == Via(e, n, i, j)
  {}

  /** Row-major order. */
  predicate Before(p: Pair, q: Pair) {
    p.a < q.a || (p.a == q.a && p.b < q.b)
  }

  predicate PairBelow(p: Pair, n: nat) {
    p.a < p.b < n
  }

  /** m is the least value of f on the pairs before `to`, taken at `w`. */
  ghost predicate LeastSoFar(f: Pair -> nat, n: nat, to: Pair, m: nat, w: Pair) {
    && PairBelow(w, n) && f(w) == m
    && forall p :: PairBelow(p, n) && Before(p, to) ==> m <= f(p)
  }

  method MinWithinTwo(conns: array2<int>, n: nat, ghost e: Edges) returns (found: bool, m: nat)
    requires Holds(conns, n, e)
    ensures found <==> n >= 2
    ensures found ==> LeastPaths(e, n, m)
  {
    ghost var f := (p: Pair) => Paths(e, n, p.a, p.b);
    ghost var w := Pair(0, 0);
    found, m := false, 0;
    for i := 0 to n
      invariant found <==> i > 0 && n >= 2
      invariant found ==> LeastSoFar(f, n, Pair(i, 0), m, w)
    {
      for j := i + 1 to n
        invariant found <==> (i > 0 && n >= 2) || j > i + 1
        invariant found ==> LeastSoFar(f, n, Pair(i, j), m, w)
      {
        var c := CountPathsWithinTwo(conns, n, e, i, j);
        assert f(Pair(i, j)) == c;
        if !found || c < m { found, m, w := true, c, Pair(i, j); }
      }
    }
    if found { LeastIsLeast(e, n, m, w); }
  }

  lemma LeastIsLeast(e: Edges, n: nat, m: nat, w: Pair)
    requires PairBelow(w, n) && Paths(e, n, w.a, w.b) == m
    requires forall p :: PairBelow(p, n) ==> m <= Paths(e, n, p.a, p.b)
    ensures LeastPaths(e, n, m)
  {
    forall a: nat, b: nat | a < n && b < n && a != b ensures m <= Paths(e, n, a, b) {
      PathsAre(e, n, a, b);
      assert PairBelow(if a < b then Pair(a, b) else Pair(b, a), n);
    }
  }

  /** The pairs before `to` on which f is at most m. */
  ghost predicate AtMostSoFar(f: Pair -> nat, n: nat, m: nat, to: Pair, found: set<Pair>) {
    forall p :: p in found <==> PairBelow(p, n) && Before(p, to) && f(p) <= m
  }

  lemma AtMostStep(f: Pair -> nat, n: nat, m: nat, i: nat, j: nat, found: set<Pair>)
    requires i < j < n && AtMostSoFar(f, n, m, Pair(i, j), found)
    ensures Pair(i, j) !in found
    ensures AtMostSoFar(f, n, m, Pair(i, j + 1), if f(Pair(i, j)) <= m then found + {Pair(i, j)} else found)
  {}

  lemma AtMostRow(f: Pair -> nat, n: nat, m: nat, i: nat, found: set<Pair>)
    requires i < n
    ensures AtMostSoFar(f, n, m, Pair(i, 0), found) ==> AtMostSoFar(f, n, m, Pair(i, i + 1), found)
    ensures AtMostSoFar(f, n, m, Pair(i, n), found) ==> AtMostSoFar(f, n, m, Pair(i + 1, 0), found)
  {}

  /** The inner loop, over row i. */
  method CountRow(conns: array2<int>, n: nat, ghost e: Edges, minPaths: nat, i: nat, c0: nat,
                  ghost f: Pair -> nat, ghost found0: set<Pair>)
    returns (c: nat, ghost found: set<Pair>)
    requires Holds(conns, n, e) && i < n && forall p :: f(p) == Paths(e, n, p.a, p.b)
    requires |found0| == c0 && AtMostSoFar(f, n, minPaths, Pair(i, i + 1), found0)
    ensures |found| == c && AtMostSoFar(f, n, minPaths, Pair(i, n), found)
  {
    c, found := c0, found0;
    for j := i + 1 to n
      invariant |found| == c && AtMostSoFar(f, n, minPaths, Pair(i, j), found)
    {
      var paths := CountPathsWithinTwo(conns, n, e, i, j);
      AtMostStep(f, n, minPaths, i, j, found);
      if paths <= minPaths {
        c := c + 1;
        found := found + {Pair(i, j)};
      }
    }
  }

  method CountNotWithinTwo(conns: array2<int>, n: nat, ghost e: Edges, minPaths: nat) returns (c: nat)
    requires Holds(conns, n, e)
    ensures c == |Deficient(e, n, minPaths)|
  {
    ghost var f := (p: Pair) => Paths(e, n, p.a, p.b);
    c := 0;
    ghost var found: set<Pair> := {};
    for i := 0 to n
      invariant |found| == c && AtMostSoFar(f, n, minPaths, Pair(i, 0), found)
    {
      AtMostRow(f, n, minPaths, i, found);
      c, found := CountRow(conns, n, e, minPaths, i, c, f, found);
      AtMostRow(f, n, minPaths, i, found);
    }
    FoundIsDeficient(e, n, minPaths, found);
  }

  lemma FoundIsDeficient(e: Edges, n: nat, m: nat, found: set<Pair>)
    requires forall p :: p in found <==> PairBelow(p, n) && Paths(e, n, p.a, p.b) <= m
    ensures found == Deficient(e, n, m)
  {}

  // ----- choosing a connection

  datatype Cost = Cost(degree: nat, deficient: nat)

  /** Tuples compare by degree first. */
  predicate Cheaper(c: Cost, d: Cost) {
    c.degree < d.degree || (c.degree == d.degree && c.deficient < d.deficient)
  }

  ghost function OutOf(e: Edges, n: nat, i: nat): set<nat> {
    set k: nat | k < n && Pair(i, k) in e
  }

  ghost function Into(e: Edges, n: nat, j: nat): set<nat> {
    set k: nat | k < n && Pair(k, j) in e
  }

  ghost predicate Candidate(e: Edges, n: nat, p: Pair) {
    p.a < n && p.b < n && p.a != p.b && !Linked(e, p.a, p.b)
  }

  /** What taking connection p would cost: the two ends' degrees with it and the
      pairs that would still have at most m paths. */
  ghost function CostOf(e: Edges, n: nat, m: nat, p: Pair): Cost {
    Cost(|OutOf(e, n, p.a)| + 1 + |Into(e, n, p.b)| + 1, |Deficient(e + {p}, n, m)|)
  }

  /** Every candidate beats the initial degree 2n. */
  lemma CandidateBeatsSentinel(e: Edges, n: nat, m: nat, p: Pair)
    requires WellFormed(e, n) && Candidate(e, n, p)
    ensures CostOf(e, n, m, p).degree <= 2 * n - 2
  {
    DegreeBound(n, OutOf(e, n, p.a), p.a, p.b);
    DegreeBound(n, Into(e, n, p.b), p.a, p.b);
  }

  lemma DegreeBound(n: nat, s: set<nat>, i: nat, j: nat)
    requires i < n && j < n && i != j && i !in s && j !in s
    requires forall k :: k in s ==> k < n
    ensures |s| <= n - 2
  {
    assert |Below(n) - {i} - {j}| == n - 2;
    SubsetSize(s, Below(n) - {i} - {j});
  }

  method RowSum(conns: array2<int>, n: nat, ghost e: Edges, i: nat) returns (sum: int)
    requires Holds(conns, n, e) && i < n
    ensures sum == |OutOf(e, n, i)|
  {
    sum := 0;
    ghost var seen: set<nat> := {};
    for j := 0 to n
      invariant sum == |seen|
      invariant forall k: nat :: k in seen <==> k < j && Pair(i, k) in e
    {
      sum := sum + conns[i, j];
      if Pair(i, j) in e { seen := seen + {j}; }
    }
    assert seen == OutOf(e, n, i);
  }

  method ColumnSum(conns: array2<int>, n: nat, ghost e: Edges, j: nat) returns (sum: int)
    requires Holds(conns, n, e) && j < n
    ensures sum == |Into(e, n, j)|
  {
    sum := 0;
    ghost var seen: set<nat> := {};
    for k := 0 to n
      invariant sum == |seen|
      invariant forall x: nat :: x in seen <==> x < k && Pair(x, j) in e
    {
      sum := sum + conns[k, j];
      if Pair(k, j) in e { seen := seen + {k}; }
    }
    assert seen == Into(e, n, j);
  }

  /** The choice after the scan has come to `to`: the first of the cheapest
      candidates met, or the sentinel when none was. */
  ghost predicate BestSoFar(cand: Pair -> bool, cost: Pair -> Cost, to: Pair, sentinel: Cost, best: Cost, choice: Pair) {
    if exists p :: cand(p) && Before(p, to) then
      && cand(choice) && Before(choice, to) && best == cost(choice)
      && forall p :: cand(p) && Before(p, to) ==> Cheaper(best, cost(p)) || (best == cost(p) && !Before(p, choice))
    else best == sentinel && choice == Pair(0, 0)
  }

  lemma BestStep(cand: Pair -> bool, cost: Pair -> Cost, i: nat, j: nat, sentinel: Cost, best: Cost, choice: Pair)
    requires BestSoFar(cand, cost, Pair(i, j), sentinel, best, choice)
    requires cand(Pair(i, j)) ==> Cheaper(cost(Pair(i, j)), sentinel)
    ensures var take := cand(Pair(i, j)) && Cheaper(cost(Pair(i, j)), best);
            BestSoFar(cand, cost, Pair(i, j + 1), sentinel,
                      if take then cost(Pair(i, j)) else best, if take then Pair(i, j) else choice)
  {}

  lemma BestRow(cand: Pair -> bool, cost: Pair -> Cost, n: nat, i: nat, sentinel: Cost, best: Cost, choice: Pair)
    requires forall p :: cand(p) ==> p.b < n
    requires BestSoFar(cand, cost, Pair(i, n), sentinel, best, choice)
    ensures BestSoFar(cand, cost, Pair(i + 1, 0), sentinel, best, choice)
  {}

  /** Sets connection (i, j), counts, and takes it back. */
  method TryEdge(conns: array2<int>, n: nat, ghost e: Edges, minPaths: nat, i: nat, j: nat) returns (deficient: nat)
    requires Holds(conns, n, e) && Candidate(e, n, Pair(i, j))
    modifies conns
    ensures Holds(conns, n, e)
    ensures deficient == |Deficient(e + {Pair(i, j)}, n, minPaths)|
  {
    conns[i, j] := 1;
    deficient := CountNotWithinTwo(conns, n, e + {Pair(i, j)}, minPaths);
    conns[i, j] := 0;
  }

  /** A candidate such that every other costs a greater degree sum, or the same and
      leaves more pairs deficient, or as many and comes later in row-major order. */
  ghost predicate FirstCheapest(e: Edges, n: nat, m: nat, choice: Pair) {
    && Candidate(e, n, choice)
    && forall p :: Candidate(e, n, p) && p != choice ==>
         var (c, d) := (CostOf(e, n, m, choice), CostOf(e, n, m, p));
         || c.degree < d.degree
         || (c.degree == d.degree && c.deficient < d.deficient)
         || (c == d && (choice.a < p.a || (choice.a == p.a && choice.b < p.b)))
  }

  /** Looks at one cell: candidate (i, j) takes over if it is cheaper. */
  method VisitCell(conns: array2<int>, n: nat, ghost e: Edges, minPaths: nat, i: nat, j: nat, outgoing: nat,
                   best: Cost, choice: Pair) returns (best': Cost, choice': Pair)
    requires Holds(conns, n, e) && i < n && j < n && outgoing == |OutOf(e, n, i)| + 1
    modifies conns
    ensures Holds(conns, n, e)
    ensures var c := CostOf(e, n, minPaths, Pair(i, j));
            var take := Candidate(e, n, Pair(i, j)) && Cheaper(c, best);
            best' == (if take then c else best) && choice' == if take then Pair(i, j) else choice
  {
    best', choice' := best, choice;
    var incoming := ColumnSum(conns, n, e, j);
    if i == j || conns[i, j] != 0 || conns[j, i] != 0 { return; }
    var deficient := TryEdge(conns, n, e, minPaths, i, j);
    var c := Cost(outgoing + incoming + 1, deficient);
    if Cheaper(c, best) { best', choice' := c, Pair(i, j); }
  }

  /** `cand` and `cost` stand for being a candidate and for its cost. */
  ghost predicate StandFor(e: Edges, n: nat, m: nat, cand: Pair -> bool, cost: Pair -> Cost) {
    && (forall p {:trigger Candidate(e, n, p)} :: cand(p) == Candidate(e, n, p))
    && (forall p {:trigger CostOf(e, n, m, p)} :: cost(p) == CostOf(e, n, m, p))
    && (forall p :: cand(p) ==> p.a < n && p.b < n)
  }

  lemma BestIsFirst(e: Edges, n: nat, m: nat, cand: Pair -> bool, cost: Pair -> Cost,
                    sentinel: Cost, best: Cost, choice: Pair)
    requires StandFor(e, n, m, cand, cost)
    requires BestSoFar(cand, cost, Pair(n, 0), sentinel, best, choice)
    ensures if exists p :: Candidate(e, n, p) then FirstCheapest(e, n, m, choice) else choice == Pair(0, 0)
  {}

  method ScanRow(conns: array2<int>, n: nat, ghost e: Edges, minPaths: nat, ghost cand: Pair -> bool,
                 ghost cost: Pair -> Cost, ghost sentinel: Cost, i: nat, best: Cost, choice: Pair)
    returns (best': Cost, choice': Pair)
    requires Holds(conns, n, e) && WellFormed(e, n) && i < n
    requires StandFor(e, n, minPaths, cand, cost) && sentinel.degree == 2 * n
    requires BestSoFar(cand, cost, Pair(i, 0), sentinel, best, choice)
    modifies conns
    ensures Holds(conns, n, e)
    ensures BestSoFar(cand, cost, Pair(i + 1, 0), sentinel, best', choice')
  {
    best', choice' := best, choice;
    var outgoing := RowSum(conns, n, e, i);
    for j := 0 to n
      invariant Holds(conns, n, e)
      invariant BestSoFar(cand, cost, Pair(i, j), sentinel, best', choice')
    {
      if Candidate(e, n, Pair(i, j)) { CandidateBeatsSentinel(e, n, minPaths, Pair(i, j)); }
      BestStep(cand, cost, i, j, sentinel, best', choice');
      best', choice' := VisitCell(conns, n, e, minPaths, i, j, outgoing + 1, best', choice');
    }
    BestRow(cand, cost, n, i, sentinel, best', choice');
  }

  /** One scan of the matrix, which it leaves as it was. */
  method Scan(conns: array2<int>, n: nat, ghost e: Edges, minPaths: nat, ghost cand: Pair -> bool, ghost cost: Pair -> Cost)
    returns (choice: Pair)
    requires Holds(conns, n, e) && WellFormed(e, n)
    requires StandFor(e, n, minPaths, cand, cost)
    modifies conns
    ensures Holds(conns, n, e)
    ensures if exists p :: Candidate(e, n, p) then FirstCheapest(e, n, minPaths, choice) else choice == Pair(0, 0)
  {
    var deficient := CountNotWithinTwo(conns, n, e, minPaths);
    var best := Cost(n + n, deficient);
    ghost var sentinel := best;
    choice := Pair(0, 0);
    for i := 0 to n
      invariant Holds(conns, n, e)
      invariant BestSoFar(cand, cost, Pair(i, 0), sentinel, best, choice)
    {
      best, choice := ScanRow(conns, n, e, minPaths, cand, cost, sentinel, i, best, choice);
    }
    BestIsFirst(e, n, minPaths, cand, cost, sentinel, best, choice);
  }

  method ChooseEdge(conns: array2<int>, n: nat, ghost e: Edges, minPaths: nat) returns (choice: Pair)
    requires Holds(conns, n, e) && WellFormed(e, n)
    modifies conns
    ensures Holds(conns, n, e)
    ensures if exists p :: Candidate(e, n, p) then FirstCheapest(e, n, minPaths, choice) else choice == Pair(0, 0)
  {
    choice := Scan(conns, n, e, minPaths, p => Candidate(e, n, p), p => CostOf(e, n, minPaths, p));
  }

  // ----- building the mesh

  lemma NoEdgesNoPaths(n: nat)
    requires n >= 2
    ensures LeastPaths({}, n, 0)
  {
    assert Via({}, n, 0, 1) == {};
    assert Paths({}, n, 0, 1) == 0;
  }

  lemma NothingLinked(n: nat)
    ensures Unlinked({}, n) == AllPairs(n)
  {}

  /** While some pair has fewer than n - 1 paths a connection can still be added. */
  lemma CandidateExists(e: Edges, n: nat, m: nat) returns (p: Pair)
    requires LeastPaths(e, n, m) && m < n - 1
    ensures Candidate(e, n, p) && Unlinked(e, n) != {}
  {
    var i: nat, j: nat :| i < n && j < n && i != j && Paths(e, n, i, j) == m;
    if Unlinked(e, n) == {} { FullyLinked(e, n, i, j); }
    p :| p in Unlinked(e, n);
  }

  method SetEdge(conns: array2<int>, n: nat, ghost e: Edges, p: Pair)
    requires Holds(conns, n, e) && p.a < n && p.b < n
    modifies conns
    ensures Holds(conns, n, e + {p})
  {
    conns[p.a, p.b] := 1;
  }

  /** Each round adds one connection and keeps the mesh well formed. */
  method Round(conns: array2<int>, n: nat, ghost e: Edges, minPaths: nat) returns (choice: Pair, least: nat)
    requires Holds(conns, n, e) && WellFormed(e, n)
    requires LeastPaths(e, n, minPaths) && minPaths < n - 1
    modifies conns
    ensures FirstCheapest(e, n, minPaths, choice)
    ensures Holds(conns, n, e + {choice}) && WellFormed(e + {choice}, n)
    ensures |e + {choice}| == |e| + 1 && |Unlinked(e + {choice}, n)| == |Unlinked(e, n)| - 1
    ensures LeastPaths(e + {choice}, n, least) && minPaths <= least
  {
    ghost var p := CandidateExists(e, n, minPaths);
    choice := ChooseEdge(conns, n, e, minPaths);
    SetEdge(conns, n, e, choice);
    AddEdge(e, n, choice.a, choice.b);
    LinkPair(e, n, choice.a, choice.b);
    var found;
    found, least := MinWithinTwo(conns, n, e + {choice});
    LeastPathsGrow(e, e + {choice}, n, minPaths, least);
  }

  /** The connections made in the first k rounds. */
  ghost function Made(trace: seq<Pair>, k: nat): Edges
    requires k <= |trace|
  {
    set p | p in trace[..k]
  }

  /** Round k is played, on a mesh whose least path count is below the target, and
      adds the first of the cheapest connections. */
  ghost predicate GreedyRound(e: Edges, n: nat, target: int, choice: Pair) {
    exists m: nat :: LeastPaths(e, n, m) && m < target && FirstCheapest(e, n, m, choice)
  }

  ghost predicate Greedy(trace: seq<Pair>, n: nat, target: int) {
    forall k :: 0 <= k < |trace| ==> GreedyRound(Made(trace, k), n, target, trace[k])
  }

  ghost predicate EveryPairHas(e: Edges, n: nat, target: int) {
    forall i: nat, j: nat :: i < n && j < n && i != j ==> Paths(e, n, i, j) >= target
  }

  lemma MadePlusOne(trace: seq<Pair>, p: Pair)
    ensures Made(trace + [p], |trace| + 1) == Made(trace, |trace|) + {p}
    ensures forall k :: 0 <= k <= |trace| ==> Made(trace + [p], k) == Made(trace, k)
  {
    var more := trace + [p];
    assert forall k :: 0 <= k <= |trace| ==> more[..k] == trace[..k];
    assert more[..|trace| + 1] == trace[..|trace|] + [p];
  }

  lemma GreedyPlusOne(trace: seq<Pair>, n: nat, target: int, p: Pair)
    requires Greedy(trace, n, target) && GreedyRound(Made(trace, |trace|), n, target, p)
    ensures Greedy(trace + [p], n, target)
  {
    MadePlusOne(trace, p);
    forall k | 0 <= k < |trace| + 1 ensures GreedyRound(Made(trace + [p], k), n, target, (trace + [p])[k]) {}
  }

  /** The greedy loop.  `trace` lists the connections in the order they are made:
      each round is played only while some pair is short of the target, and takes
      the first of the cheapest connections. */
  method BuildMesh(n: nat, target: int)
    returns (conns: array2<int>, ghost e: Edges, rounds: nat, ghost trace: seq<Pair>)
    requires target <= n - 1
    ensures fresh(conns) && Holds(conns, n, e) && WellFormed(e, n)
    ensures EveryPairHas(e, n, target)
    ensures rounds == |e| && 2 * rounds <= n * (n - 1)
    ensures |trace| == rounds && e == Made(trace, |trace|) && Greedy(trace, n, target)
  {
    conns := new int[n, n]((a, b) => 0);
    e, trace := {}, [];
    rounds := 0;
    var minPaths := 0;
    if n >= 2 { NoEdgesNoPaths(n); }
    NothingLinked(n);
    AllPairsSize(n);
    while minPaths < target
      invariant fresh(conns) && Holds(conns, n, e) && WellFormed(e, n)
      invariant n >= 2 ==> LeastPaths(e, n, minPaths)
      invariant n < 2 ==> minPaths == 0
      invariant rounds == |e| == |trace|
      invariant rounds + |Unlinked(e, n)| == |AllPairs(n)|
      invariant e == Made(trace, |trace|) && Greedy(trace, n, target)
      decreases |Unlinked(e, n)|
    {
      ghost var least := minPaths;
      var choice;
      choice, minPaths := Round(conns, n, e, minPaths);
      assert GreedyRound(e, n, target, choice) by {
        assert LeastPaths(e, n, least) && least < target && FirstCheapest(e, n, least, choice);
      }
      MadePlusOne(trace, choice);
      GreedyPlusOne(trace, n, target, choice);
      e, trace := e + {choice}, trace + [choice];
      rounds := rounds + 1;
    }
  }

  lemma OneLeast(e: Edges, n: nat, m: nat, m': nat)
    requires LeastPaths(e, n, m) && LeastPaths(e, n, m')
    ensures m == m'
  {
    LeastPathsGrow(e, e, n, m, m');
    LeastPathsGrow(e, e, n, m', m);
  }

  lemma OneChoice(e: Edges, n: nat, target: int, p: Pair, q: Pair)
    requires GreedyRound(e, n, target, p) && GreedyRound(e, n, target, q)
    ensures p == q
  {
    var m: nat :| LeastPaths(e, n, m) && m < target && FirstCheapest(e, n, m, p);
    var m': nat :| LeastPaths(e, n, m') && m' < target && FirstCheapest(e, n, m', q);
    OneLeast(e, n, m, m');
  }

  /** A round is played only on a mesh that is short of the target. */
  lemma ShortBefore(e: Edges, n: nat, target: int, p: Pair)
    requires GreedyRound(e, n, target, p)
    ensures !EveryPairHas(e, n, target)
  {
    var m: nat :| LeastPaths(e, n, m) && m < target && FirstCheapest(e, n, m, p);
    var i: nat, j: nat :| i < n && j < n && i != j && Paths(e, n, i, j) == m;
  }

  /** Two traces that agree so far agree on, if each step is settled by what was made. */
  lemma {:induction false} SameSoFar(t: seq<Pair>, u: seq<Pair>, next: (Edges, Pair) -> bool, k: nat)
    requires k <= |t| && k <= |u|
    requires forall i :: 0 <= i < k ==> next(Made(t, i), t[i]) && next(Made(u, i), u[i])
    requires forall e, p, q :: next(e, p) && next(e, q) ==> p == q
    ensures t[..k] == u[..k]
  {
    if k == 0 {
    } else {
      SameSoFar(t, u, next, k - 1);
      assert Made(t, k - 1) == Made(u, k - 1);
      assert t[..k] == t[..k - 1] + [t[k - 1]] && u[..k] == u[..k - 1] + [u[k - 1]];
    }
  }

  lemma SameRounds(t: seq<Pair>, u: seq<Pair>, n: nat, target: int, k: nat)
    requires Greedy(t, n, target) && Greedy(u, n, target) && k <= |t| && k <= |u|
    ensures t[..k] == u[..k]
  {
    var next := (e: Edges, p: Pair) => GreedyRound(e, n, target, p);
    forall e, p, q | next(e, p) && next(e, q) ensures p == q { OneChoice(e, n, target, p, q); }
    SameSoFar(t, u, next, k);
  }

  /** The contract of the loop leaves no choice: there is one greedy trace that ends
      when every pair has its paths, so the mesh for n and the target is one mesh. */
  lemma OneGreedyMesh(t: seq<Pair>, u: seq<Pair>, n: nat, target: int)
    requires Greedy(t, n, target) && EveryPairHas(Made(t, |t|), n, target)
    requires Greedy(u, n, target) && EveryPairHas(Made(u, |u|), n, target)
    ensures t == u
  {
    var k := if |t| < |u| then |t| else |u|;
    SameRounds(t, u, n, target, k);
    if |t| < |u| { ShortBefore(Made(u, k), n, target, u[k]); }
    if |u| < |t| { ShortBefore(Made(t, k), n, target, t[k]); }
    assert t[..|t|] == t && u[..|u|] == u;
  }

  /** For any target above n - 1 the loop's exit test fails in every state. */
  lemma TargetOutOfReach(e: Edges, n: nat, m: nat, target: int)
    requires LeastPaths(e, n, m) && target > n - 1
    ensures m < target
  {
    var i: nat, j: nat :| i < n && j < n && i != j && Paths(e, n, i, j) == m;
    PathsBound(e, n, i, j);
  }

  /** How many paths are asked for at each quorum size. */
  function MinConnections(n: nat): nat {
    if n <= 10 then 4 else 2
  }

  /** The meshes the script generates, for quorums of 7 to 20: the greedy ones for
      four paths up to ten nodes and for two above, so any three nodes (up to ten)
      or any one (above) may fail. */
  method QuorumMeshFor(n: nat)
    returns (conns: array2<int>, ghost e: Edges, rounds: nat, ghost trace: seq<Pair>)
    requires 7 <= n < 21
    ensures Holds(conns, n, e) && WellFormed(e, n) && 2 * rounds <= n * (n - 1)
    ensures |trace| == rounds && e == Made(trace, |trace|)
    ensures n <= 10 ==> Greedy(trace, n, 4) && EveryPairHas(e, n, 4) && SurvivesAny(e, n, 3)
    ensures n > 10 ==> Greedy(trace, n, 2) && EveryPairHas(e, n, 2) && SurvivesAny(e, n, 1)
  {
    conns, e, rounds, trace := BuildMesh(n, MinConnections(n));
    SurvivesBelow(e, n, MinConnections(n));
  }

  /** Whatever at most f nodes fail, the others still reach each other. */
  ghost predicate SurvivesAny(e: Edges, n: nat, f: nat) {
    forall down: set<nat>, i: nat, j: nat ::
      |down| <= f && i < n && j < n && i != j && i !in down && j !in down ==> Reaches(e, n, down, i, j)
  }

  lemma SurvivesBelow(e: Edges, n: nat, target: nat)
    requires EveryPairHas(e, n, target) && target > 0
    ensures SurvivesAny(e, n, target - 1)
  {
    forall down: set<nat>, i: nat, j: nat |
      |down| <= target - 1 && i < n && j < n && i != j && i !in down && j !in down
      ensures Reaches(e, n, down, i, j)
    {
      Survives(e, n, target, down, i, j);
    }
  }
}
