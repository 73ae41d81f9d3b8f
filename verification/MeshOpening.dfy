/**
  How every greedy mesh begins: (0, 1) first, since all connections cost the same
  on the empty mesh, then (1, 2), since node 1 has no outgoing connection yet and
  the two connections together give three pairs a path.
 */
module MeshOpening {
  import opened QuorumMesh
  import opened MeshBuilder

  function Norm(i: nat, j: nat): Pair {
    if i < j then Pair(i, j) else Pair(j, i)
  }

  lemma NoPathIff(e: Edges, n: nat, i: nat, j: nat)
    requires i < n && j < n && i != j
    ensures Paths(e, n, i, j) == 0 <==>
            !Linked(e, i, j) && forall k: nat :: k < n ==> !(Linked(e, k, i) && Linked(e, k, j) && k != i && k != j)
  {
    PathsAre(e, n, i, j);
    if Paths(e, n, i, j) == 0 {
      forall k: nat | k < n ensures !(Linked(e, k, i) && Linked(e, k, j) && k != i && k != j) {
        assert k !in Common(e, n, i, j);
      }
    } else {
      assert Linked(e, i, j) || exists k :: k in Common(e, n, i, j);
    }
  }

  lemma OnlyPath(n: nat, p: Pair, q: Pair)
    requires p.a < n && p.b < n && p.a != p.b && q in AllPairs(n)
    ensures Paths({p}, n, q.a, q.b) == 0 <==> q != Norm(p.a, p.b)
  {
    NoPathIff({p}, n, q.a, q.b);
  }

  /** One connection gives one pair a path. */
  lemma OneConnection(n: nat, p: Pair)
    requires p.a < n && p.b < n && p.a != p.b
    ensures Deficient({p}, n, 0) == AllPairs(n) - {Norm(p.a, p.b)}
  {
    forall q | q in AllPairs(n) ensures Paths({p}, n, q.a, q.b) == 0 <==> q != Norm(p.a, p.b) { OnlyPath(n, p, q); }
  }

  lemma FirstDegree(n: nat, p: Pair)
    ensures CostOf({}, n, 0, p).degree == 2
  {
    assert OutOf({}, n, p.a) == {} == Into({}, n, p.b);
  }

  lemma FirstDeficient(n: nat, p: Pair)
    requires p.a < n && p.b < n && p.a != p.b
    ensures CostOf({}, n, 0, p).deficient + 1 == |AllPairs(n)|
  {
    OneConnection(n, p);
    assert {} + {p} == {p};
  }

  /** The choice is p itself, or costs less than p, or as much and comes earlier. */
  predicate Beats(choice: Pair, c: Cost, p: Pair, d: Cost) {
    || p == choice
    || c.degree < d.degree
    || (c.degree == d.degree && c.deficient < d.deficient)
    || (c == d && (choice.a < p.a || (choice.a == p.a && choice.b < p.b)))
  }

  lemma NotChosen(e: Edges, n: nat, m: nat, choice: Pair, p: Pair)
    requires FirstCheapest(e, n, m, choice) && Candidate(e, n, p)
    ensures Beats(choice, CostOf(e, n, m, choice), p, CostOf(e, n, m, p))
  {}

  lemma FirstChoice(n: nat, choice: Pair)
    requires n >= 2 && FirstCheapest({}, n, 0, choice)
    ensures choice == Pair(0, 1)
  {
    var q := Pair(0, 1);
    FirstDegree(n, q);
    FirstDegree(n, choice);
    FirstDeficient(n, q);
    FirstDeficient(n, choice);
    NotChosen({}, n, 0, choice, q);
  }

  /** The third pair that two connections give a path, if they share a node. */
  function Third(p: Pair): Pair {
    if p.a == 0 then Norm(1, p.b)
    else if p.a == 1 then Norm(0, p.b)
    else if p.b == 0 then Norm(1, p.a)
    else if p.b == 1 then Norm(0, p.a)
    else Pair(0, 1)
  }

  lemma AtMostThree(n: nat, p: Pair, q: Pair)
    requires p.a < n && p.b < n && p.a != p.b && q in AllPairs(n)
    requires Paths({Pair(0, 1), p}, n, q.a, q.b) > 0
    ensures q == Pair(0, 1) || q == Norm(p.a, p.b) || q == Third(p)
  {
    NoPathIff({Pair(0, 1), p}, n, q.a, q.b);
  }

  lemma DeficientAfter(n: nat, p: Pair)
    requires n >= 2 && p.a < n && p.b < n && p.a != p.b
    ensures |Deficient({Pair(0, 1), p}, n, 0)| >= |AllPairs(n)| - 3
  {
    var e := {Pair(0, 1), p};
    var three := {Pair(0, 1), Norm(p.a, p.b), Third(p)};
    forall q | q in AllPairs(n) - three ensures q in Deficient(e, n, 0) {
      if Paths(e, n, q.a, q.b) > 0 { AtMostThree(n, p, q); }
    }
    SubsetSize(AllPairs(n), Deficient(e, n, 0) + three);
    assert |Deficient(e, n, 0) + three| <= |Deficient(e, n, 0)| + |three|;
    assert |three| <= 3;
  }

  lemma DeficientAfterTwo(n: nat)
    requires n >= 3
    ensures |Deficient({Pair(0, 1), Pair(1, 2)}, n, 0)| <= |AllPairs(n)| - 3
  {
    var e := {Pair(0, 1), Pair(1, 2)};
    var three := {Pair(0, 1), Pair(1, 2), Pair(0, 2)};
    NoPathIff(e, n, 0, 1);
    NoPathIff(e, n, 1, 2);
    NoPathIff(e, n, 0, 2);
    assert Linked(e, 1, 0) && Linked(e, 1, 2);
    assert |AllPairs(n) - three| == |AllPairs(n)| - 3;
    SubsetSize(Deficient(e, n, 0), AllPairs(n) - three);
  }

  lemma SecondDegree(n: nat, choice: Pair)
    requires n >= 3 && Candidate({Pair(0, 1)}, n, choice)
    ensures CostOf({Pair(0, 1)}, n, 0, choice).degree >= 2
    ensures CostOf({Pair(0, 1)}, n, 0, choice).degree == 2 ==> choice.a != 0
    ensures CostOf({Pair(0, 1)}, n, 0, Pair(1, 2)).degree == 2
  {
    var e := {Pair(0, 1)};
    if choice.a == 0 { assert 1 in OutOf(e, n, 0); }
    assert OutOf(e, n, 1) == {} == Into(e, n, 2);
  }

  lemma SecondCosts(n: nat, choice: Pair)
    requires n >= 3 && Candidate({Pair(0, 1)}, n, choice)
    ensures CostOf({Pair(0, 1)}, n, 0, Pair(1, 2)).deficient <= CostOf({Pair(0, 1)}, n, 0, choice).deficient
  {
    DeficientAfter(n, choice);
    DeficientAfterTwo(n);
    assert {Pair(0, 1)} + {Pair(1, 2)} == {Pair(0, 1), Pair(1, 2)};
    assert {Pair(0, 1)} + {choice} == {Pair(0, 1), choice};
  }

  lemma SecondBeats(choice: Pair, c: Cost, d: Cost)
    requires Beats(choice, c, Pair(1, 2), d) && d.degree == 2 <= c.degree && d.deficient <= c.deficient
    requires c.degree == 2 ==> choice.a != 0
    requires choice.a != choice.b && choice != Pair(1, 0)
    ensures choice == Pair(1, 2)
  {}

  lemma SecondBest(n: nat, choice: Pair, c: Cost, d: Cost)
    requires n >= 3 && Candidate({Pair(0, 1)}, n, choice)
    requires c == CostOf({Pair(0, 1)}, n, 0, choice) && d == CostOf({Pair(0, 1)}, n, 0, Pair(1, 2))
    requires Beats(choice, c, Pair(1, 2), d)
    ensures choice == Pair(1, 2)
  {
    SecondDegree(n, choice);
    SecondCosts(n, choice);
    SecondBeats(choice, c, d);
  }

  lemma SecondIsCandidate(n: nat)
    requires n >= 3
    ensures Candidate({Pair(0, 1)}, n, Pair(1, 2))
  {}

  lemma SecondBeaten(e: Edges, n: nat, choice: Pair)
    requires FirstCheapest(e, n, 0, choice) && Candidate(e, n, Pair(1, 2))
    ensures Candidate(e, n, choice)
    ensures Beats(choice, CostOf(e, n, 0, choice), Pair(1, 2), CostOf(e, n, 0, Pair(1, 2)))
  {
    NotChosen(e, n, 0, choice, Pair(1, 2));
  }

  lemma SecondChoice(e: Edges, n: nat, choice: Pair)
    requires n >= 3 && e == {Pair(0, 1)} && FirstCheapest(e, n, 0, choice)
    ensures choice == Pair(1, 2)
  {
    SecondIsCandidate(n);
    SecondBeaten(e, n, choice);
    SecondBest(n, choice, CostOf(e, n, 0, choice), CostOf(e, n, 0, Pair(1, 2)));
  }

  lemma StillNoPath(n: nat, m: nat)
    requires n >= 3 && LeastPaths({Pair(0, 1)}, n, m)
    ensures m == 0
  {
    NoPathIff({Pair(0, 1)}, n, 0, 2);
  }

  lemma FirstRound(n: nat, target: int, choice: Pair)
    requires n >= 3 && GreedyRound({}, n, target, choice)
    ensures choice == Pair(0, 1)
  {
    var m: nat :| LeastPaths({}, n, m) && m < target && FirstCheapest({}, n, m, choice);
    NoEdgesNoPaths(n);
    OneLeast({}, n, m, 0);
    FirstChoice(n, choice);
  }

  lemma SecondRound(n: nat, target: int, choice: Pair)
    requires n >= 3 && GreedyRound({Pair(0, 1)}, n, target, choice)
    ensures choice == Pair(1, 2)
  {
    var e := {Pair(0, 1)};
    var m: nat :| LeastPaths(e, n, m) && m < target && FirstCheapest(e, n, m, choice);
    StillNoPath(n, m);
    SecondChoice(e, n, choice);
  }

  lemma MadeFirst(trace: seq<Pair>)
    requires trace != []
    ensures Made(trace, 0) == {} && Made(trace, 1) == {trace[0]}
  {
    assert trace[..1] == [trace[0]];
  }

  /** Every greedy mesh on three or more nodes begins with (0, 1) and (1, 2). */
  lemma Opening(trace: seq<Pair>, n: nat, target: int)
    requires n >= 3 && |trace| >= 2 && Greedy(trace, n, target)
    ensures trace[0] == Pair(0, 1) && trace[1] == Pair(1, 2)
  {
    MadeFirst(trace);
    FirstRound(n, target, trace[0]);
    SecondRound(n, target, trace[1]);
  }
}
