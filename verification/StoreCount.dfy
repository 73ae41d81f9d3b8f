/**
  The running count of RingCT outputs against the amount-0 bucket.  The two are
  settled exactly, block by block and over whole runs, including everything the
  count misses and everything it takes too much.
 */
module StoreCount {
  import opened Steps
  import opened Tables
  import opened Transactions
  import opened StoreSpec
  import opened StoreUndo
  import opened StoreAccount
  import opened StoreRuns

  // ----- one transaction

  function NonZeroAmounts(tx: Tx): nat {
    |tx.vout| - ZeroAmounts(tx, |tx.vout|)
  }

  /** The count of outputs that add_block takes to enter bucket 0 with the miner transaction. */
  function MinerCount(tx: Tx): nat {
    if tx.version >= V2_RINGCT then |tx.vout| else 0
  }

  /** Outputs stored under amount 0 that add_block does not count: those of an
      ordinary transaction filed as a coinbase. */
  function TxStray(tx: Tx): nat {
    if Supported(tx) && StoredAsRct(tx) then NonZeroAmounts(tx) else 0
  }

  /** Outputs that are counted although the transaction is not stored. */
  function TxOver(tx: Tx): nat {
    if Supported(tx) then 0 else ZeroAmounts(tx, |tx.vout|)
  }

  /** Outputs of a miner transaction that are counted and not stored under
      amount 0: it has no gen input, or is not stored. */
  function MinerOver(tx: Tx): nat {
    if tx.version < V2_RINGCT then 0
    else if !Supported(tx) then |tx.vout|
    else if HasGen(tx) then 0
    else NonZeroAmounts(tx)
  }

  lemma {:induction false} StoredUnderZero(tx: Tx, n: nat)
    requires n <= |tx.vout|
    ensures StoredUnder(tx, 0, n) == if StoredAsRct(tx) then n else ZeroAmounts(tx, n)
  {
    if n == 0 {
    } else {
      StoredUnderZero(tx, n - 1);
    }
  }

  /** An accepted transaction of the first version stores nothing under amount 0. */
  lemma FirstVersionStoresNoZero(o: OutputTables, hash: Hash, tx: Tx, height: nat)
    requires tx.version < V2_RINGCT
    requires AddOutputs(o, hash, tx, height, |tx.vout|).Next?
    ensures StoredZero(tx) == 0
  {
    var f := OutputAdder(hash, tx, height);
    var inv := (i: nat, p: Placed) => i <= |tx.vout| && StoredUnder(tx, 0, i) == 0;
    forall i: nat, p: Placed | i < |tx.vout| && inv(i, p) && f(p, i).Next?
      ensures inv(i + 1, f(p, i).state)
    {
      assert AcceptsOutput(p.tables, tx, i);
      assert StoredUnder(tx, 0, i + 1) == StoredUnder(tx, 0, i) + if StoredAmount(tx, i) == 0 then 1 else 0;
    }
    assert StoredUnder(tx, 0, 0) == 0;
    UpInduction(f, Placed(o, []), |tx.vout|, inv);
    assert inv(|tx.vout|, AddOutputs(o, hash, tx, height, |tx.vout|).state);
  }

  lemma MinerBalance(s: Store, tx: Tx)
    requires AddTransaction(s, tx.hash, tx).Next?
    ensures MinerCount(tx) == AddedZero(tx) + MinerOver(tx)
  {
    StoredUnderZero(tx, |tx.vout|);
    if Supported(tx) && tx.version < V2_RINGCT {
      SupportedSpends(s.spentKeys, tx);
      FirstVersionStoresNoZero(s.outputs, tx.hash, tx, |s.chain.blocks|);
    }
  }

  // ----- one block

  function StrayOf(txs: seq<Tx>, n: nat): nat
    requires n <= |txs|
  {
    if n == 0 then 0 else StrayOf(txs, n - 1) + TxStray(txs[n - 1])
  }

  function OverOf(txs: seq<Tx>, n: nat): nat
    requires n <= |txs|
  {
    if n == 0 then 0 else OverOf(txs, n - 1) + TxOver(txs[n - 1])
  }

  function Stray(e: Entry): nat {
    StrayOf(e.txs, |e.txs|)
  }

  function Over(e: Entry): nat {
    MinerOver(e.block.minerTx) + OverOf(e.txs, |e.txs|)
  }

  lemma {:induction false} TxsBalance(txs: seq<Tx>, n: nat)
    requires n <= |txs|
    ensures ZeroAmountsOf(txs, n) + StrayOf(txs, n) == AddedZeroOf(txs, n) + OverOf(txs, n)
  {
    if n == 0 {
    } else {
      TxsBalance(txs, n - 1);
      StoredUnderZero(txs[n - 1], |txs[n - 1].vout|);
    }
  }

  predicate Balanced(e: Entry) {
    NumRctOuts(e) + Stray(e) == EntryAdded(e) + Over(e)
  }

  lemma AcceptedBalances(s: Store, e: Entry)
    requires AddBlock(s, e).Next?
    ensures Balanced(e)
  {
    MinerBalance(s, e.block.minerTx);
    TxsBalance(e.txs, |e.txs|);
  }

  function TopRct(c: BlockTables): nat {
    if c.blocks == [] then 0 else c.blocks[|c.blocks| - 1].value.cumRct
  }

  lemma TopRctGrows(c: BlockTables, block: Block, meta: BlockMeta, numRct: nat)
    requires Dense(c.blocks) && AddBlockRecord(c, block, meta, numRct).Next?
    ensures TopRct(AddBlockRecord(c, block, meta, numRct).state) == TopRct(c) + numRct
  {
    if |c.blocks| > 0 { DenseGet(c.blocks, |c.blocks| - 1); }
  }

  /** For every accepted block: what it counts and what it puts into bucket 0
      differ by exactly its stray and its over-counted outputs. */
  lemma BlockCount(s: Store, e: Entry)
    requires AddBlock(s, e).Next?
    ensures var t := AddBlock(s, e).state;
            && (Dense(s.chain.blocks) ==> TopRct(t.chain) == TopRct(s.chain) + NumRctOuts(e))
            && NumRctOuts(e) + Stray(e) == ZeroSize(t.outputs) - ZeroSize(s.outputs) + Over(e)
            && (NumRctOuts(e) == ZeroSize(t.outputs) - ZeroSize(s.outputs) <==> Stray(e) == Over(e))
  {
    AcceptedBalances(s, e);
    EntryGains(s, e);
    if Dense(s.chain.blocks) { TopRctGrows(s.chain, e.block, e.meta, NumRctOuts(e)); }
  }

  // ----- when a block has neither

  /** A transaction whose outputs are counted under the amounts they are stored under. */
  predicate CountedAsStored(tx: Tx) {
    Supported(tx) && StoredAsRct(tx) ==> forall i :: 0 <= i < |tx.vout| ==> tx.vout[i].amount == 0
  }

  predicate EntryCounted(e: Entry) {
    forall i :: 0 <= i < |e.txs| ==> CountedAsStored(e.txs[i])
  }

  /** The miner transaction is of the first version, a coinbase, or all zero. */
  predicate CoinbaseMiner(e: Entry) {
    var tx := e.block.minerTx;
    tx.version >= V2_RINGCT && !HasGen(tx) ==> forall i :: 0 <= i < |tx.vout| ==> tx.vout[i].amount == 0
  }

  lemma {:induction false} AllZero(tx: Tx, n: nat)
    requires n <= |tx.vout|
    ensures ZeroAmounts(tx, n) == n <==> forall i :: 0 <= i < n ==> tx.vout[i].amount == 0
  {
    if n == 0 {
    } else {
      AllZero(tx, n - 1);
    }
  }

  lemma {:induction false} NoStrayIff(txs: seq<Tx>, n: nat)
    requires n <= |txs|
    ensures StrayOf(txs, n) == 0 <==> forall i :: 0 <= i < n ==> CountedAsStored(txs[i])
  {
    if n == 0 {
    } else {
      NoStrayIff(txs, n - 1);
      AllZero(txs[n - 1], |txs[n - 1].vout|);
    }
  }

  lemma {:induction false} NoOver(txs: seq<Tx>, n: nat)
    requires n <= |txs| && forall i :: 0 <= i < n ==> Supported(txs[i])
    ensures OverOf(txs, n) == 0
  {
    if n == 0 {
    } else {
      NoOver(txs, n - 1);
    }
  }

  /** With supported inputs, a block has no stray outputs if and only if no
      ordinary transaction is filed as a coinbase with an amount of its own, and
      counts none too many if and only if its miner transaction is a coinbase. */
  lemma PlainBlock(e: Entry)
    requires SupportedEntry(e)
    ensures Stray(e) == 0 <==> EntryCounted(e)
    ensures Over(e) == 0 <==> CoinbaseMiner(e)
  {
    NoStrayIff(e.txs, |e.txs|);
    NoOver(e.txs, |e.txs|);
    AllZero(e.block.minerTx, |e.block.minerTx.vout|);
  }

  // ----- runs

  /** Sums over the chain. */
  function Total(f: Entry -> nat, chain: seq<Entry>): nat {
    if chain == [] then 0 else Total(f, chain[..|chain| - 1]) + f(chain[|chain| - 1])
  }

  ghost predicate ChainBalanced(chain: seq<Entry>) {
    forall k :: 0 <= k < |chain| ==> Balanced(chain[k])
  }

  lemma TotalPlusOne(f: Entry -> nat, before: seq<Entry>, e: Entry)
    ensures Total(f, before + [e]) == Total(f, before) + f(e)
  {
    assert (before + [e])[..|before|] == before;
  }

  lemma LaidCounts(r: Store, e: Entry, s: Store)
    requires Laid(r, e, s) && Dense(r.chain.blocks)
    ensures TopRct(s.chain) == TopRct(r.chain) + NumRctOuts(e) && Balanced(e)
  {
    BlockCount(r, e);
    AcceptedBalances(r, e);
  }

  lemma CountsPlusOne(c: BlockTables, d: BlockTables, before: seq<Entry>, e: Entry)
    requires TopRct(c) == Total(NumRctOuts, before) && ChainBalanced(before)
    requires TopRct(d) == TopRct(c) + NumRctOuts(e) && Balanced(e)
    ensures TopRct(d) == Total(NumRctOuts, before + [e]) && ChainBalanced(before + [e])
  {
    TotalPlusOne(NumRctOuts, before, e);
  }

  lemma {:induction false} TrailCounts(s: Store, chain: seq<Entry>)
    requires Trail(s, chain)
    ensures TopRct(s.chain) == Total(NumRctOuts, chain) && ChainBalanced(chain)
    decreases |chain|
  {
    if chain == [] {
    } else {
      var r, before, e := ChainedLast(Laid, s, chain);
      TrailCounts(r, before);
      TrailKept(r, before);
      LaidCounts(r, e, s);
      CountsPlusOne(r.chain, s.chain, before, e);
    }
  }

  lemma {:induction false} TotalBalance(chain: seq<Entry>)
    requires ChainBalanced(chain)
    ensures Total(NumRctOuts, chain) + Total(Stray, chain) == Total(EntryAdded, chain) + Total(Over, chain)
    decreases |chain|
  {
    if chain == [] {
    } else {
      TotalBalance(chain[..|chain| - 1]);
      assert Balanced(chain[|chain| - 1]);
    }
  }

  /** Bucket 0 holds what the chain's blocks put there and what popped ones left. */
  ghost predicate Holds(l: Ledger, residue: int) {
    ZeroSize(l.store.outputs) == Total(EntryAdded, l.chain) + residue
  }

  lemma AddHolds(l: Ledger, e: Entry, residue: int)
    requires Holds(l, residue)
    ensures Holds(Apply(l, Add(e)), residue)
  {
    if AddBlock(l.store, e).Next? {
      EntryGains(l.store, e);
      TotalPlusOne(EntryAdded, l.chain, e);
    }
  }

  /** What the next pop leaves behind. */
  function Left(l: Ledger): int {
    if l.chain != [] && PopBlock(l.store).Next? then
      EntryAdded(l.chain[|l.chain| - 1]) - EntryRemoved(l.chain[|l.chain| - 1])
    else 0
  }

  lemma PopHolds(l: Ledger, residue: int)
    requires Trail(l.store, l.chain) && Holds(l, residue)
    ensures Holds(Apply(l, Pop), residue + Left(l))
  {
    if PopBlock(l.store).Next? { TrailPop(l.store, l.chain); }
  }

  /** Amount-0 outputs that popped blocks left behind. */
  function Residue(ops: seq<Op>): int {
    if ops == [] then 0
    else
      var before := ops[..|ops| - 1];
      Residue(before) + if ops[|ops| - 1].Pop? then Left(Run(before)) else 0
  }

  lemma {:induction false} RunHolds(ops: seq<Op>)
    requires SupportedOps(ops)
    ensures Holds(Run(ops), Residue(ops))
    decreases |ops|
  {
    if ops == [] {
    } else {
      var before := ops[..|ops| - 1];
      RunHolds(before);
      RunTrail(before);
      match ops[|ops| - 1]
      case Add(e) => AddHolds(Run(before), e, Residue(before));
      case Pop => PopHolds(Run(before), Residue(before));
    }
  }

  /** In every state a run of blocks with supported inputs reaches, the recorded
      count and the size of bucket 0 differ by exactly the stray outputs and the
      over-count of the surviving blocks and what popped blocks left behind. */
  lemma RunCount(ops: seq<Op>)
    requires SupportedOps(ops)
    ensures var l := Run(ops);
            && TopRct(l.store.chain) + Total(Stray, l.chain) + Residue(ops)
                 == ZeroSize(l.store.outputs) + Total(Over, l.chain)
            && (TopRct(l.store.chain) == ZeroSize(l.store.outputs) <==>
                Total(Stray, l.chain) + Residue(ops) == Total(Over, l.chain))
  {
    RunHolds(ops);
    RunTrail(ops);
    TrailCounts(Run(ops).store, Run(ops).chain);
    TotalBalance(Run(ops).chain);
  }

  /** Nothing is left behind if and only if every block the run pops is shaped. */
  lemma {:induction false} ResidueIff(ops: seq<Op>)
    requires SupportedOps(ops)
    ensures Residue(ops) >= 0
    ensures Residue(ops) == 0 <==> ShapedPops(ops)
    decreases |ops|
  {
    if ops == [] {
    } else {
      var before := ops[..|ops| - 1];
      var l := Run(before);
      ResidueIff(before);
      RunTrail(before);
      TrailSupported(l.store, l.chain);
      if l.chain != [] { EntryShortfall(l.chain[|l.chain| - 1]); }
      ShapedPopsStep(ops);
    }
  }

  lemma ShapedPopsStep(ops: seq<Op>)
    requires ops != []
    ensures ShapedPops(ops) <==>
            ShapedPops(ops[..|ops| - 1]) && (ops[|ops| - 1].Pop? ==> PopsShaped(Run(ops[..|ops| - 1])))
  {
    var n := |ops| - 1;
    forall k | 0 <= k <= n ensures ops[..n][..k] == ops[..k] {}
    assert ShapedPops(ops) ==> (ops[n].Pop? ==> PopsShaped(Run(ops[..n])));
  }

  lemma TrailSupported(s: Store, chain: seq<Entry>)
    requires Trail(s, chain)
    ensures chain != [] ==> SupportedEntry(chain[|chain| - 1])
  {}

  lemma {:induction false} TotalZeroIff(f: Entry -> nat, chain: seq<Entry>)
    ensures Total(f, chain) == 0 <==> forall k :: 0 <= k < |chain| ==> f(chain[k]) == 0
    decreases |chain|
  {
    if chain == [] {
    } else {
      TotalZeroIff(f, chain[..|chain| - 1]);
    }
  }

  /** So the count is right in every run of blocks with supported inputs and
      coinbase miners that pops shaped blocks only, if and only if no ordinary
      transaction on the chain is filed as a coinbase with an amount of its own. */
  lemma PlainRunCount(ops: seq<Op>)
    requires SupportedOps(ops) && ShapedPops(ops)
    requires forall k :: 0 <= k < |Run(ops).chain| ==> CoinbaseMiner(Run(ops).chain[k])
    ensures var l := Run(ops);
            TopRct(l.store.chain) == ZeroSize(l.store.outputs) <==>
            forall k :: 0 <= k < |l.chain| ==> EntryCounted(l.chain[k])
  {
    var chain := Run(ops).chain;
    RunCount(ops);
    ResidueIff(ops);
    RunIsReplay(ops, |ops|);
    assert ops[..|ops|] == ops;
    forall k | 0 <= k < |chain|
      ensures Over(chain[k]) == 0 && (Stray(chain[k]) == 0 <==> EntryCounted(chain[k]))
    {
      PlainBlock(chain[k]);
    }
    TotalZeroIff(Over, chain);
    TotalZeroIff(Stray, chain);
  }
}
