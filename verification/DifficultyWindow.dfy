/**
  The sliding window of timestamps and cumulative difficulties that the next
  difficulty is computed from, kept from call to call.  The incremental fill
  must give the window that reading the chain from scratch gives.
 */
module DifficultyWindow {

  const DIFFICULTY_WINDOW: nat := 59

  function BlocksCount(beforeHf16: bool): nat {
    if beforeHf16 then DIFFICULTY_WINDOW + 2 else DIFFICULTY_WINDOW + 1
  }

  /** What the store answers for one height. */
  datatype Info = Info(timestamp: nat, cumulativeDifficulty: nat)

  /** Window size at a chain height, for a network that forks at height hf16. */
  function Count(hf16: nat, chainHeight: nat): (count: nat)
    ensures count == if chainHeight < hf16 then 61 else 60
  {
    BlocksCount(chainHeight < hf16)
  }

  function Timestamps(s: seq<Info>): (r: seq<nat>)
    ensures |r| == |s|
  {
    seq(|s|, k requires 0 <= k < |s| => s[k].timestamp)
  }

  function Difficulties(s: seq<Info>): (r: seq<nat>)
    ensures |r| == |s|
  {
    seq(|s|, k requires 0 <= k < |s| => s[k].cumulativeDifficulty)
  }

  /** The last `count` blocks, genesis never among them. */
  function Window(chain: seq<Info>, hf16: nat): seq<Info> {
    if chain == [] then [] else chain[WindowStart(|chain|, hf16)..]
  }

  function WindowStart(chainHeight: nat, hf16: nat): (start: nat)
    ensures chainHeight > 0 ==> 1 <= start <= chainHeight
  {
    var count := Count(hf16, chainHeight);
    if chainHeight <= count then 1 else chainHeight - count
  }

  function LastN(s: seq<nat>, n: nat): seq<nat> {
    if |s| <= n then s else s[|s| - n..]
  }

  // ----- the cache

  datatype Cache = Cache(timestamps: seq<nat>, difficulties: seq<nat>, height: nat)

  predicate Stale(c: Cache, chainHeight: nat, count: nat) {
    c.height == 0 || chainHeight != c.height + 1 || |c.timestamps| > count || |c.difficulties| > count
  }

  /** Both vectors list the blocks from height `start` up to the top. */
  ghost predicate ListsFrom(c: Cache, chain: seq<Info>, start: nat) {
    && |c.timestamps| == |c.difficulties| == |chain| - start
    && (forall k :: 0 <= k < |chain| - start ==> c.timestamps[k] == chain[start + k].timestamp)
    && (forall k :: 0 <= k < |chain| - start ==> c.difficulties[k] == chain[start + k].cumulativeDifficulty)
  }

  /** Both vectors list the last 61 blocks before the fork, the last 60 from it on,
      and on a shorter chain all blocks but genesis. */
  ghost predicate Lists(c: Cache, chain: seq<Info>, hf16: nat) {
    if |chain| < hf16 then ListsFrom(c, chain, if |chain| >= 62 then |chain| - 61 else 1)
    else ListsFrom(c, chain, if |chain| >= 61 then |chain| - 60 else 1)
  }

  /** The same by the window the fill computes. */
  lemma ListsWindow(c: Cache, chain: seq<Info>, hf16: nat)
    requires chain != []
    ensures Lists(c, chain, hf16) <==>
            c.timestamps == Timestamps(Window(chain, hf16)) && c.difficulties == Difficulties(Window(chain, hf16))
  {
    var start := WindowStart(|chain|, hf16);
    assert Lists(c, chain, hf16) <==> ListsFrom(c, chain, start);
    var w := Window(chain, hf16);
    assert |w| == |chain| - start && forall k :: 0 <= k < |w| ==> w[k] == chain[start + k];
    assert ListsFrom(c, chain, start) ==> c.timestamps == Timestamps(w) && c.difficulties == Difficulties(w);
  }

  /** Reading what is missing, then appending the latest block and trimming. */
  function Fill(c: Cache, chain: seq<Info>, hf16: nat): Cache {
    if |chain| < 2 then c
    else
      var (h, count, start) := (|chain|, Count(hf16, |chain|), WindowStart(|chain|, hf16));
      var base := if Stale(c, h, count) then
                   c.(timestamps := Timestamps(chain[start..h - 1]), difficulties := Difficulties(chain[start..h - 1]))
                 else c;
      c.(timestamps := LastN(base.timestamps + [chain[h - 1].timestamp], count),
         difficulties := LastN(base.difficulties + [chain[h - 1].cumulativeDifficulty], count))
  }

  lemma WindowsPlusOne(s: seq<Info>, x: Info)
    ensures Timestamps(s + [x]) == Timestamps(s) + [x.timestamp]
    ensures Difficulties(s + [x]) == Difficulties(s) + [x.cumulativeDifficulty]
  {}

  lemma WindowsTail(s: seq<Info>, n: nat)
    requires n <= |s|
    ensures Timestamps(s[|s| - n..]) == LastN(Timestamps(s), n)
    ensures Difficulties(s[|s| - n..]) == LastN(Difficulties(s), n)
  {}

  lemma WindowsGrow(w: seq<Info>, x: Info, count: nat)
    ensures var grown := w + [x];
            var kept := if |grown| <= count then grown else grown[|grown| - count..];
            && Timestamps(kept) == LastN(Timestamps(w) + [x.timestamp], count)
            && Difficulties(kept) == LastN(Difficulties(w) + [x.cumulativeDifficulty], count)
  {
    WindowsPlusOne(w, x);
    if |w| + 1 > count { WindowsTail(w + [x], count); }
  }

  lemma RefillOne(chain: seq<Info>, start: nat)
    requires start < |chain|
    ensures Timestamps(chain[start..|chain| - 1]) + [chain[|chain| - 1].timestamp] == Timestamps(chain[start..])
    ensures Difficulties(chain[start..|chain| - 1]) + [chain[|chain| - 1].cumulativeDifficulty]
         == Difficulties(chain[start..])
  {
    var h := |chain|;
    assert chain[start..] == chain[start..h - 1] + [chain[h - 1]];
    WindowsPlusOne(chain[start..h - 1], chain[h - 1]);
  }

  lemma RefillFrom(chain: seq<Info>, start: nat, count: nat)
    requires start < |chain| <= start + count
    ensures var (x, read) := (chain[|chain| - 1], chain[start..|chain| - 1]);
            && LastN(Timestamps(read) + [x.timestamp], count) == Timestamps(chain[start..])
            && LastN(Difficulties(read) + [x.cumulativeDifficulty], count) == Difficulties(chain[start..])
  {
    RefillOne(chain, start);
    assert |Timestamps(chain[start..])| == |Difficulties(chain[start..])| <= count;
  }

  lemma RefillIsWindow(c: Cache, chain: seq<Info>, hf16: nat)
    requires |chain| >= 2 && Stale(c, |chain|, Count(hf16, |chain|))
    ensures Fill(c, chain, hf16).timestamps == Timestamps(Window(chain, hf16))
    ensures Fill(c, chain, hf16).difficulties == Difficulties(Window(chain, hf16))
  {
    SlowPath(c, chain, hf16);
    RefillFrom(chain, WindowStart(|chain|, hf16), Count(hf16, |chain|));
  }

  lemma SlowPath(c: Cache, chain: seq<Info>, hf16: nat)
    requires |chain| >= 2 && Stale(c, |chain|, Count(hf16, |chain|))
    ensures var (x, count) := (chain[|chain| - 1], Count(hf16, |chain|));
            var read := chain[WindowStart(|chain|, hf16)..|chain| - 1];
            && Fill(c, chain, hf16).timestamps == LastN(Timestamps(read) + [x.timestamp], count)
            && Fill(c, chain, hf16).difficulties == LastN(Difficulties(read) + [x.cumulativeDifficulty], count)
  {}

  /** A refill from scratch lists the window, whatever the vectors held: with no height
      cached, one that is not the last before this, or a vector over the block count. */
  lemma RefillLists(c: Cache, chain: seq<Info>, hf16: nat)
    requires |chain| >= 2
    requires var count := if |chain| < hf16 then 61 else 60;
             c.height == 0 || |chain| != c.height + 1 || |c.timestamps| > count || |c.difficulties| > count
    ensures Lists(Fill(c, chain, hf16), chain, hf16)
  {
    RefillIsWindow(c, chain, hf16);
    ListsWindow(Fill(c, chain, hf16), chain, hf16);
  }

  /** How the window moves on by one block, also where it shrinks at the fork. */
  lemma WindowMoves(chain: seq<Info>, hf16: nat)
    requires |chain| >= 3 && |Window(chain[..|chain| - 1], hf16)| <= Count(hf16, |chain|)
    ensures var grown := Window(chain[..|chain| - 1], hf16) + [chain[|chain| - 1]];
            var count := Count(hf16, |chain|);
            Window(chain, hf16) == if |grown| <= count then grown else grown[|grown| - count..]
  {
    var h := |chain|;
    var k := WindowStart(h - 1, hf16);
    assert Window(chain[..h - 1], hf16) + [chain[h - 1]] == chain[k..];
    assert k <= WindowStart(h, hf16) <= k + 1;
  }

  lemma FastPath(c: Cache, chain: seq<Info>, hf16: nat)
    requires |chain| >= 2 && !Stale(c, |chain|, Count(hf16, |chain|))
    ensures var (x, count) := (chain[|chain| - 1], Count(hf16, |chain|));
            && Fill(c, chain, hf16).timestamps == LastN(c.timestamps + [x.timestamp], count)
            && Fill(c, chain, hf16).difficulties == LastN(c.difficulties + [x.cumulativeDifficulty], count)
  {}

  lemma GrownLists(c: Cache, chain: seq<Info>, hf16: nat)
    requires |chain| >= 3 && Lists(c, chain[..|chain| - 1], hf16)
    requires |Window(chain[..|chain| - 1], hf16)| <= Count(hf16, |chain|)
    ensures var (x, count) := (chain[|chain| - 1], Count(hf16, |chain|));
            && LastN(c.timestamps + [x.timestamp], count) == Timestamps(Window(chain, hf16))
            && LastN(c.difficulties + [x.cumulativeDifficulty], count) == Difficulties(Window(chain, hf16))
  {
    WindowMoves(chain, hf16);
    ListsWindow(c, chain[..|chain| - 1], hf16);
    GrownFrom(c, Window(chain[..|chain| - 1], hf16), chain[|chain| - 1], Count(hf16, |chain|), Window(chain, hf16));
  }

  lemma GrownFrom(c: Cache, w: seq<Info>, x: Info, count: nat, window: seq<Info>)
    requires c.timestamps == Timestamps(w) && c.difficulties == Difficulties(w)
    requires window == if |w| + 1 <= count then w + [x] else (w + [x])[|w| + 1 - count..]
    ensures LastN(c.timestamps + [x.timestamp], count) == Timestamps(window)
    ensures LastN(c.difficulties + [x.cumulativeDifficulty], count) == Difficulties(window)
  {
    WindowsGrow(w, x, count);
  }

  /** One block more than the cached window: the fast path lists the new window. */
  lemma ExtendLists(c: Cache, chain: seq<Info>, hf16: nat)
    requires |chain| >= 3 && c.height == |chain| - 1
    requires Lists(c, chain[..|chain| - 1], hf16)
    ensures Lists(Fill(c, chain, hf16), chain, hf16)
  {
    if Stale(c, |chain|, Count(hf16, |chain|)) {
      RefillLists(c, chain, hf16);
    } else {
      FastPath(c, chain, hf16);
      GrownLists(c, chain, hf16);
      ListsWindow(Fill(c, chain, hf16), chain, hf16);
    }
  }

  // ----- runs

  datatype Op = AddBlock(info: Info) | PopBlock | NextDifficulty

  /** The chain with genesis at the bottom, and the cache beside it. */
  datatype Node = Node(chain: seq<Info>, cache: Cache)

  /** Popping resets the cached height, also where it is refused at genesis; asking
      for the next difficulty fills the vectors and records the chain height. */
  function Apply(n: Node, op: Op, hf16: nat): Node {
    match op
    case AddBlock(info) => n.(chain := n.chain + [info])
    case PopBlock =>
      Node(if |n.chain| > 1 then n.chain[..|n.chain| - 1] else n.chain, n.cache.(height := 0))
    case NextDifficulty => n.(cache := Fill(n.cache, n.chain, hf16).(height := |n.chain|))
  }

  function Run(n: Node, ops: seq<Op>, hf16: nat): Node
    decreases |ops|
  {
    if ops == [] then n else Apply(Run(n, ops[..|ops| - 1], hf16), ops[|ops| - 1], hf16)
  }

  function Start(genesis: Info): Node {
    Node([genesis], Cache([], [], 0))
  }

  /** What holds of the cache in every reachable state: a recorded height of two
      or more comes with that height's window; at height one nothing is known. */
  ghost predicate Sound(n: Node, hf16: nat) {
    && |n.chain| >= 1
    && |n.cache.timestamps| == |n.cache.difficulties|
    && n.cache.height <= |n.chain|
    && (n.cache.height >= 2 ==> Lists(n.cache, n.chain[..n.cache.height], hf16))
  }

  /** The one case in which the fill goes wrong: vectors left over from a longer
      chain survive the early return at genesis and are taken for height one's. */
  predicate LeftOver(n: Node, hf16: nat) {
    n.cache.height == 1 && |n.chain| == 2 && 0 < |n.cache.timestamps| <= if 2 < hf16 then 61 else 60
  }

  /** From any reachable state, the fill lists the window exactly unless
      left-over vectors are in the way. */
  lemma FillListsIff(n: Node, hf16: nat)
    requires Sound(n, hf16) && |n.chain| >= 2
    ensures Lists(Fill(n.cache, n.chain, hf16), n.chain, hf16) <==> !LeftOver(n, hf16)
  {
    var (c, h, count) := (n.cache, |n.chain|, Count(hf16, |n.chain|));
    if Stale(c, h, count) {
      RefillLists(c, n.chain, hf16);
    } else if c.height >= 2 {
      assert n.chain[..h - 1] == n.chain[..c.height];
      ExtendLists(c, n.chain, hf16);
    } else {
      assert Window(n.chain, hf16) == [n.chain[1]];
      assert Timestamps([n.chain[1]]) == [n.chain[1].timestamp];
      assert Difficulties([n.chain[1]]) == [n.chain[1].cumulativeDifficulty];
    }
  }

  ghost predicate RightUnlessLeftOver(n: Node, filled: Cache, hf16: nat) {
    Sound(n, hf16) && |n.chain| >= 2 ==> (Lists(filled, n.chain, hf16) <==> !LeftOver(n, hf16))
  }

  lemma FillRight(n: Node, hf16: nat)
    ensures RightUnlessLeftOver(n, Fill(n.cache, n.chain, hf16), hf16)
  {
    if Sound(n, hf16) && |n.chain| >= 2 { FillListsIff(n, hf16); }
  }

  lemma ApplySound(n: Node, op: Op, hf16: nat)
    requires Sound(n, hf16)
    requires op.NextDifficulty? ==> !LeftOver(n, hf16)
    ensures Sound(Apply(n, op, hf16), hf16)
  {
    match op
    case AddBlock(info) =>
      assert n.cache.height >= 2 ==> (n.chain + [info])[..n.cache.height] == n.chain[..n.cache.height];
    case PopBlock =>
    case NextDifficulty =>
      assert n.chain[..|n.chain|] == n.chain;
      if |n.chain| >= 2 { FillListsIff(n, hf16); }
  }

  /** No step of the run asks for a difficulty while left-over vectors are there. */
  predicate Undisturbed(n: Node, ops: seq<Op>, hf16: nat) {
    forall k :: 0 <= k < |ops| && ops[k].NextDifficulty? ==> !LeftOver(Run(n, ops[..k], hf16), hf16)
  }

  lemma {:induction false} RunSound(n: Node, ops: seq<Op>, hf16: nat)
    requires Sound(n, hf16) && Undisturbed(n, ops, hf16)
    ensures Sound(Run(n, ops, hf16), hf16)
    decreases |ops|
  {
    if ops == [] {
    } else {
      var before := ops[..|ops| - 1];
      assert forall k :: 0 <= k < |before| ==> before[..k] == ops[..k];
      RunSound(n, before, hf16);
      ApplySound(Run(n, before, hf16), ops[|ops| - 1], hf16);
    }
  }

  /** Over every run from genesis whose earlier fills were right, the next fill
      at height two or more lists the window from scratch if and only if no
      left-over vectors are in the way. */
  lemma RunFills(genesis: Info, ops: seq<Op>, hf16: nat)
    requires Undisturbed(Start(genesis), ops, hf16)
    requires |Run(Start(genesis), ops, hf16).chain| >= 2
    ensures var n := Run(Start(genesis), ops, hf16);
            Lists(Apply(n, NextDifficulty, hf16).cache, n.chain, hf16) <==> !LeftOver(n, hf16)
  {
    RunSound(Start(genesis), ops, hf16);
    FillListsIff(Run(Start(genesis), ops, hf16), hf16);
  }

  /** Step k of the run, if it asks for a difficulty at height two or more,
      leaves the window from scratch in the vectors. */
  ghost predicate RightAt(n: Node, ops: seq<Op>, hf16: nat, k: nat)
    requires k < |ops|
  {
    var m := Run(n, ops[..k], hf16);
    ops[k].NextDifficulty? && |m.chain| >= 2 ==> Lists(Apply(m, NextDifficulty, hf16).cache, m.chain, hf16)
  }

  lemma UndisturbedStep(n: Node, ops: seq<Op>, hf16: nat, m: nat)
    requires m < |ops| && Undisturbed(n, ops[..m], hf16)
    requires ops[m].NextDifficulty? ==> !LeftOver(Run(n, ops[..m], hf16), hf16)
    ensures Undisturbed(n, ops[..m + 1], hf16)
  {
    var (less, more) := (ops[..m], ops[..m + 1]);
    forall k | 0 <= k < |more| && more[k].NextDifficulty? ensures !LeftOver(Run(n, more[..k], hf16), hf16) {
      assert more[..k] == ops[..k];
      if k < m { assert less[..k] == ops[..k] && less[k] == ops[k]; }
    }
  }

  lemma {:induction false} RightSoFar(genesis: Info, ops: seq<Op>, hf16: nat, n: nat)
    requires n <= |ops| && forall k :: 0 <= k < n ==> RightAt(Start(genesis), ops, hf16, k)
    ensures Undisturbed(Start(genesis), ops[..n], hf16)
  {
    if n == 0 {
    } else {
      RightSoFar(genesis, ops, hf16, n - 1);
      assert RightAt(Start(genesis), ops, hf16, n - 1);
      if LeftOver(Run(Start(genesis), ops[..n - 1], hf16), hf16) { RunFills(genesis, ops[..n - 1], hf16); }
      UndisturbedStep(Start(genesis), ops, hf16, n - 1);
    }
  }

  /** Every fill of a run is right if and only if no step of it asks for a
      difficulty while left-over vectors are there. */
  lemma AllFillsIff(genesis: Info, ops: seq<Op>, hf16: nat)
    ensures (forall k :: 0 <= k < |ops| ==> RightAt(Start(genesis), ops, hf16, k))
            <==> Undisturbed(Start(genesis), ops, hf16)
  {
    assert ops[..|ops|] == ops;
    if forall k :: 0 <= k < |ops| ==> RightAt(Start(genesis), ops, hf16, k) {
      RightSoFar(genesis, ops, hf16, |ops|);
    }
    if Undisturbed(Start(genesis), ops, hf16) {
      forall k | 0 <= k < |ops| ensures RightAt(Start(genesis), ops, hf16, k) {
        assert forall j :: 0 <= j < k ==> ops[..k][..j] == ops[..j];
        if |Run(Start(genesis), ops[..k], hf16).chain| >= 2 { RunFills(genesis, ops[..k], hf16); }
      }
    }
  }

  /** A run that gets there: fill at height two, pop to genesis, ask, add, ask. */
  lemma LeftOverReached(genesis: Info, a: Info, b: Info, hf16: nat)
    ensures var ops := [AddBlock(a), NextDifficulty, PopBlock, NextDifficulty, AddBlock(b)];
            var n := Run(Start(genesis), ops, hf16);
            && LeftOver(n, hf16)
            && Fill(n.cache, n.chain, hf16).timestamps == [a.timestamp, b.timestamp]
            && Timestamps(Window(n.chain, hf16)) == [b.timestamp]
  {
    var ops := [AddBlock(a), NextDifficulty, PopBlock, NextDifficulty, AddBlock(b)];
    var n0 := Start(genesis);
    var n1 := Apply(n0, AddBlock(a), hf16);
    var n2 := Apply(n1, NextDifficulty, hf16);
    var n3 := Apply(n2, PopBlock, hf16);
    var n4 := Apply(n3, NextDifficulty, hf16);
    var n5 := Apply(n4, AddBlock(b), hf16);
    assert n1.chain == [genesis, a];
    assert n2.cache.timestamps == [a.timestamp];
    assert n5.chain == [genesis, b];
    assert ops[..4] == [AddBlock(a), NextDifficulty, PopBlock, NextDifficulty];
    assert ops[..4][..3] == [AddBlock(a), NextDifficulty, PopBlock];
    assert ops[..4][..3][..2] == [AddBlock(a), NextDifficulty];
    assert ops[..4][..3][..2][..1] == [AddBlock(a)];
    assert Run(n0, ops[..4][..3][..2][..1], hf16) == n1;
    assert Run(n0, ops[..4][..3][..2], hf16) == n2;
    assert Run(n0, ops[..4][..3], hf16) == n3;
    assert Run(n0, ops[..4], hf16) == n4;
  }

  // ----- the fill as a method on the vectors

  lemma DropOne(s: seq<nat>, k: nat)
    requires k < |s|
    ensures s[k..][1..] == s[k + 1..]
  {}

  class PowCache {
    var timestamps: seq<nat>
    var difficulties: seq<nat>
    var height: nat

    function Value(): Cache
      reads this
    {
      Cache(timestamps, difficulties, height)
    }

    /** Erases from the front down to `count` elements. */
    static method Trim(s: seq<nat>, count: nat) returns (r: seq<nat>)
      ensures r == LastN(s, count)
    {
      r := s;
      while |r| > count
        invariant |r| <= |s| && r == s[|s| - |r|..]
        invariant |r| >= count || r == s
      {
        DropOne(s, |s| - |r|);
        r := r[1..];
      }
    }

    /** add_timestamp_and_difficulty. */
    method AddLatest(count: nat, timestamp: nat, difficulty: nat)
      modifies this`timestamps, this`difficulties
      ensures timestamps == LastN(old(timestamps) + [timestamp], count)
      ensures difficulties == LastN(old(difficulties) + [difficulty], count)
    {
      timestamps := timestamps + [timestamp];
      difficulties := difficulties + [difficulty];
      timestamps := Trim(timestamps, count);
      difficulties := Trim(difficulties, count);
    }

    /** The loop that reads the blocks from `start` up to, not including, the latest. */
    method Refill(chain: seq<Info>, start: nat)
      requires start < |chain|
      modifies this`timestamps, this`difficulties
      ensures timestamps == Timestamps(chain[start..|chain| - 1])
      ensures difficulties == Difficulties(chain[start..|chain| - 1])
    {
      timestamps, difficulties := [], [];
      for k := start to |chain| - 1
        invariant timestamps == Timestamps(chain[start..k])
        invariant difficulties == Difficulties(chain[start..k])
      {
        WindowsPlusOne(chain[start..k], chain[k]);
        assert chain[start..k + 1] == chain[start..k] + [chain[k]];
        timestamps := timestamps + [chain[k].timestamp];
        difficulties := difficulties + [chain[k].cumulativeDifficulty];
      }
    }

    /** fill_timestamps_and_difficulties_for_pow.  In every sound state the vectors
        end up listing the window, unless left-over ones are in the way. */
    method FillForPow(chain: seq<Info>, hf16: nat)
      modifies this`timestamps, this`difficulties
      ensures Value() == Fill(old(Value()), chain, hf16)
      ensures RightUnlessLeftOver(Node(chain, old(Value())), Value(), hf16)
    {
      FillRight(Node(chain, Value()), hf16);
      var chainHeight := |chain|;
      if chainHeight < 2 { return; }
      var count := BlocksCount(chainHeight < hf16);
      if height == 0 || chainHeight != height + 1 || |timestamps| > count || |difficulties| > count {
        var start := chainHeight - (if chainHeight < count then chainHeight else count);
        if start < 1 { start := 1; }
        Refill(chain, start);
      }
      AddLatest(count, chain[chainHeight - 1].timestamp, chain[chainHeight - 1].cumulativeDifficulty);
    }
  }
}
