/**
  Whole runs of adds and pops.  After any run whatever, a pop undoes an add if and
  only if the block is clean.  In every run of blocks with supported inputs the
  spent set is exact and every surviving block is filed where it was added.  The
  store is what replaying the surviving blocks onto an empty store gives, and its
  tables are consistent, at every point of the run if and only if no block that
  is popped is misshapen.
 */
module StoreRuns {
  import opened Sequences
  import opened Steps
  import opened Tables
  import opened Transactions
  import opened StoreSpec
  import opened StoreUndo
  import opened StoreAccount
  import opened StoreInvariant

  datatype Op = Add(entry: Entry) | Pop

  /** A store with the blocks that are on its chain. */
  datatype Ledger = Ledger(store: Store, chain: seq<Entry>)

  /** A call that throws leaves the store as it was: its write transaction is aborted. */
  function Apply(l: Ledger, op: Op): Ledger {
    match op
    case Add(e) =>
      (match AddBlock(l.store, e)
       case Fail(_) => l
       case Next(s) => Ledger(s, l.chain + [e]))
    case Pop =>
      match PopBlock(l.store)
      case Fail(_) => l
      case Next(p) => Ledger(p.store, if l.chain == [] then [] else l.chain[..|l.chain| - 1])
  }

  function Run(ops: seq<Op>): Ledger {
    if ops == [] then Ledger(EMPTY_STORE, []) else Apply(Run(ops[..|ops| - 1]), ops[|ops| - 1])
  }

  predicate SupportedChain(chain: seq<Entry>) {
    forall i :: 0 <= i < |chain| ==> SupportedEntry(chain[i])
  }

  predicate SupportedOps(ops: seq<Op>) {
    forall i :: 0 <= i < |ops| && ops[i].Add? ==> SupportedEntry(ops[i].entry)
  }

  // ----- any run

  lemma {:induction false} RunBuckets(ops: seq<Op>)
    ensures NoEmptyBucket(Run(ops).store.outputs)
    decreases |ops|
  {
    if ops == [] {
    } else {
      var l := Run(ops[..|ops| - 1]);
      RunBuckets(ops[..|ops| - 1]);
      match ops[|ops| - 1]
      case Add(e) => if AddBlock(l.store, e).Next? { AddKeepsBuckets(l.store, e); }
      case Pop => if PopBlock(l.store).Next? { PopKeepsBuckets(l.store); }
    }
  }

  /** After every run, of blocks with unsupported inputs and misshapen pops, too:
      popping an accepted block gives back the store, the block and its
      transactions last one first, if and only if the block is clean. */
  lemma RunPopUndoesAddIff(ops: seq<Op>, e: Entry)
    requires AddBlock(Run(ops).store, e).Next?
    ensures var s := Run(ops).store;
            PopBlock(AddBlock(s, e).state) == Next(PoppedBlock(s, e.block, Reversed(e.txs))) <==> CleanEntry(e)
  {
    RunBuckets(ops);
    PopUndoesAddIff(Run(ops).store, e);
  }

  // ----- what is filed

  ghost predicate Files(t: TxTables, hash: Hash, tx: Tx, height: nat) {
    && hash in t.indices && t.indices[hash].txId < |t.txs|
    && t.txs[t.indices[hash].txId].value == tx
    && t.indices[hash].blockId == height
  }

  ghost predicate KeepsFiles(t: TxTables, u: TxTables) {
    forall h, tx, height :: Files(t, h, tx, height) ==> Files(u, h, tx, height)
  }

  ghost predicate FilesTxs(t: TxTables, hashes: seq<Hash>, txs: seq<Tx>, n: nat, height: nat) {
    n <= |hashes| && n <= |txs| && forall k :: 0 <= k < n ==> Files(t, hashes[k], txs[k], height)
  }

  lemma AddFiles(s: Store, hash: Hash, tx: Tx)
    requires Supported(tx)
    requires AddTransaction(s, hash, tx).Next?
    ensures KeepsFiles(s.txs, AddTransaction(s, hash, tx).state.txs)
    ensures Files(AddTransaction(s, hash, tx).state.txs, hash, tx, |s.chain.blocks|)
  {}

  ghost predicate FiledSoFar(s: Store, hashes: seq<Hash>, txs: seq<Tx>, i: nat, x: Store) {
    x.chain == s.chain && KeepsFiles(s.txs, x.txs) && FilesTxs(x.txs, hashes, txs, i, |s.chain.blocks|)
  }

  lemma AddsFile(s: Store, hashes: seq<Hash>, txs: seq<Tx>)
    requires |txs| == |hashes|
    requires forall i :: 0 <= i < |txs| ==> Supported(txs[i])
    requires AddTransactions(s, hashes, txs, |txs|).Next?
    ensures FiledSoFar(s, hashes, txs, |txs|, AddTransactions(s, hashes, txs, |txs|).state)
  {
    var f := TxAdder(hashes, txs);
    var inv := (i: nat, x: Store) => FiledSoFar(s, hashes, txs, i, x);
    forall i: nat, x: Store | i < |txs| && inv(i, x) && f(x, i).Next?
      ensures inv(i + 1, f(x, i).state)
    {
      AddFiles(x, hashes[i], txs[i]);
      AddGains(x, hashes[i], txs[i]);
    }
    UpInduction(f, s, |txs|, inv);
    assert inv(|txs|, AddTransactions(s, hashes, txs, |txs|).state);
  }

  ghost predicate EntryFiled(s: Store, e: Entry, height: nat) {
    && height < |s.chain.blocks|
    && s.chain.blocks[height].value.block == e.block
    && s.chain.blocks[height].value.meta == e.meta
    && Files(s.txs, e.block.minerTx.hash, e.block.minerTx, height)
    && FilesTxs(s.txs, e.block.txHashes, e.txs, |e.txs|, height)
  }

  lemma BlockFiles(s: Store, e: Entry)
    requires SupportedEntry(e)
    requires AddBlock(s, e).Next?
    ensures EntryFiled(AddBlock(s, e).state, e, |s.chain.blocks|)
    ensures KeepsFiles(s.txs, AddBlock(s, e).state.txs)
    ensures s.chain.blocks <= AddBlock(s, e).state.chain.blocks
    ensures |AddBlock(s, e).state.chain.blocks| == |s.chain.blocks| + 1
  {
    AddFiles(s, e.block.minerTx.hash, e.block.minerTx);
    AddGains(s, e.block.minerTx.hash, e.block.minerTx);
    AddsFile(AddTransaction(s, e.block.minerTx.hash, e.block.minerTx).state, e.block.txHashes, e.txs);
  }

  ghost predicate ChainFiled(s: Store, chain: seq<Entry>) {
    |s.chain.blocks| == |chain| && forall k :: 0 <= k < |chain| ==> EntryFiled(s, chain[k], k)
  }

  lemma ChainFiledStep(s: Store, t: Store, before: seq<Entry>, e: Entry)
    requires ChainFiled(s, before)
    requires KeepsFiles(s.txs, t.txs) && s.chain.blocks <= t.chain.blocks
    requires |t.chain.blocks| == |s.chain.blocks| + 1 && EntryFiled(t, e, |s.chain.blocks|)
    ensures ChainFiled(t, before + [e])
  {}

  lemma BlockExtendsFiled(s: Store, before: seq<Entry>, e: Entry)
    requires ChainFiled(s, before) && SupportedEntry(e)
    requires AddBlock(s, e).Next?
    ensures ChainFiled(AddBlock(s, e).state, before + [e])
  {
    BlockFiles(s, e);
    ChainFiledStep(s, AddBlock(s, e).state, before, e);
  }

  // ----- runs of blocks with supported inputs, popped in any shape

  /** Adding e to r gives s, but for the output tables. */
  ghost predicate Laid(r: Store, e: Entry, s: Store) {
    SupportedEntry(e) && AddBlock(r, e).Next? && Alike(s, AddBlock(r, e).state)
  }

  /** The blocks of the chain were laid one on the other; the output tables may
      have been disturbed in between. */
  ghost predicate Trail(s: Store, chain: seq<Entry>) {
    Chained(Laid, s, chain)
  }

  ghost predicate Chained(laid: (Store, Entry, Store) -> bool, s: Store, chain: seq<Entry>)
    decreases |chain|
  {
    if chain == [] then Alike(s, EMPTY_STORE)
    else
      var e := chain[|chain| - 1];
      var before := chain[..|chain| - 1];
      exists r: Store :: laid(r, e, s) && Chained(laid, r, before)
  }

  lemma ChainedAdd(laid: (Store, Entry, Store) -> bool, r: Store, before: seq<Entry>, e: Entry, s: Store)
    requires Chained(laid, r, before) && laid(r, e, s)
    ensures Chained(laid, s, before + [e])
  {
    var chain := before + [e];
    assert chain[..|chain| - 1] == before;
    assert laid(r, chain[|chain| - 1], s) && Chained(laid, r, chain[..|chain| - 1]);
  }

  lemma ChainedLast(laid: (Store, Entry, Store) -> bool, s: Store, chain: seq<Entry>)
    returns (r: Store, before: seq<Entry>, e: Entry)
    requires chain != [] && Chained(laid, s, chain)
    ensures before == chain[..|chain| - 1] && e == chain[|chain| - 1] && chain == before + [e]
    ensures Chained(laid, r, before) && laid(r, e, s)
  {
    before, e := chain[..|chain| - 1], chain[|chain| - 1];
    r :| laid(r, e, s) && Chained(laid, r, before);
  }

  lemma TrailAlike(s: Store, t: Store, chain: seq<Entry>)
    requires Trail(s, chain) && Alike(t, s)
    ensures Trail(t, chain)
  {
    if chain != [] {
      var r, before, e := ChainedLast(Laid, s, chain);
      ChainedAdd(Laid, r, before, e, t);
    }
  }

  /** What every trail keeps: dense tables, the exact spent set, and every block
      and transaction filed at its height. */
  ghost predicate Kept(s: Store, chain: seq<Entry>) {
    && Dense(s.chain.blocks) && DenseTxs(s.txs) && HeightsMatch(s.chain)
    && SpentExactly(s.txs.txs, s.spentKeys)
    && ChainFiled(s, chain)
  }

  lemma KeptAdd(r: Store, before: seq<Entry>, e: Entry)
    requires Kept(r, before) && SupportedEntry(e) && AddBlock(r, e).Next?
    ensures Kept(AddBlock(r, e).state, before + [e])
  {
    AddBlockSpends(r, e);
    BlockExtendsFiled(r, before, e);
    AddBlockDense(r, e);
    AddBlockHeights(r, e);
  }

  lemma {:induction false} TrailKept(s: Store, chain: seq<Entry>)
    requires Trail(s, chain)
    ensures Kept(s, chain)
    decreases |chain|
  {
    if chain == [] {
    } else {
      var r, before, e := ChainedLast(Laid, s, chain);
      TrailKept(r, before);
      KeptAdd(r, before, e);
    }
  }

  /** A pop takes off the last block of the trail, and out of bucket 0 what that
      block's removal looks for there. */
  lemma TrailPop(s: Store, chain: seq<Entry>)
    requires Trail(s, chain) && PopBlock(s).Next?
    ensures chain != []
    ensures Trail(PopBlock(s).state.store, chain[..|chain| - 1])
    ensures ZeroSize(PopBlock(s).state.store.outputs) + EntryRemoved(chain[|chain| - 1]) == ZeroSize(s.outputs)
  {
    if chain != [] {
      var r, before, e := ChainedLast(Laid, s, chain);
      PopIsEntryPop(r, e, s);
      PopEntryAccount(r, e, s.(chain := r.chain));
      TrailAlike(r, PopBlock(s).state.store, before);
    }
  }

  lemma {:induction false} RunTrail(ops: seq<Op>)
    requires SupportedOps(ops)
    ensures Trail(Run(ops).store, Run(ops).chain)
    decreases |ops|
  {
    if ops == [] {
    } else {
      var l, op := Run(ops[..|ops| - 1]), ops[|ops| - 1];
      RunTrail(ops[..|ops| - 1]);
      if op.Add? && AddBlock(l.store, op.entry).Next? { ChainedAdd(Laid, l.store, l.chain, op.entry, Run(ops).store); }
      if op.Pop? && PopBlock(l.store).Next? { TrailPop(l.store, l.chain); }
    }
  }

  /** Over every run of blocks with supported inputs the spent set is the
      disjoint union of the images of the stored transactions. */
  lemma RunSpends(ops: seq<Op>)
    requires SupportedOps(ops)
    ensures SpentExactly(Run(ops).store.txs.txs, Run(ops).store.spentKeys)
  {
    RunTrail(ops);
    TrailKept(Run(ops).store, Run(ops).chain);
  }

  /** In every state such a run reaches, block k of the chain and each
      transaction it was added with are what the store holds for height k. */
  lemma RunFiles(ops: seq<Op>)
    requires SupportedOps(ops)
    ensures ChainFiled(Run(ops).store, Run(ops).chain)
  {
    RunTrail(ops);
    TrailKept(Run(ops).store, Run(ops).chain);
  }

  // ----- replay

  function Replay(chain: seq<Entry>): Step<Store, Error> {
    if chain == [] then Next(EMPTY_STORE)
    else
      match Replay(chain[..|chain| - 1])
      case Fail(e) => Fail(e)
      case Next(s) => AddBlock(s, chain[|chain| - 1])
  }

  ghost predicate Replayed(l: Ledger) {
    SupportedChain(l.chain) && Replay(l.chain) == Next(l.store)
  }

  /** Each step of a replay of n > 0 blocks. */
  lemma ReplayStep(l: Ledger) returns (before: Ledger, e: Entry)
    requires l.chain != [] && Replayed(l)
    ensures before.chain == l.chain[..|l.chain| - 1] && e == l.chain[|l.chain| - 1] && SupportedEntry(e)
    ensures Replayed(before) && AddBlock(before.store, e) == Next(l.store)
  {
    e := l.chain[|l.chain| - 1];
    before := Ledger(Replay(l.chain[..|l.chain| - 1]).state, l.chain[..|l.chain| - 1]);
  }

  lemma {:induction false} ReplayConsistent(l: Ledger)
    requires Replayed(l)
    ensures Consistent(l.store)
    decreases |l.chain|
  {
    if l.chain == [] {
    } else {
      var before, e := ReplayStep(l);
      ReplayConsistent(before);
      AddBlockConsistent(before.store, e);
    }
  }

  /** If the next pop succeeds, the block it takes off is shaped. */
  predicate PopsShaped(l: Ledger) {
    l.chain != [] && PopBlock(l.store).Next? ==> ShapedEntry(l.chain[|l.chain| - 1])
  }

  /** A replayed store is a replayed store after a pop exactly if the block was shaped. */
  lemma PopReplayedIff(l: Ledger)
    requires Replayed(l)
    ensures Replayed(Apply(l, Pop)) <==> PopsShaped(l)
  {
    if l.chain != [] {
      var before, e := ReplayStep(l);
      ReplayConsistent(before);
      if ShapedEntry(e) {
        PopUndoesAdd(before.store, e);
      } else if PopBlock(l.store).Next? && Apply(l, Pop).store == before.store {
        PopIsEntryPop(before.store, e, l.store);
        RestoredOnlyIfClean(before.store, e);
      }
    }
  }

  /** What a pop does on a replayed store: nothing to take off; or, of a shaped block,
      the block and its transactions, last one first, with the replay of the rest left. */
  lemma PopOutcome(l: Ledger)
    requires Replayed(l)
    ensures l.chain == [] ==> PopBlock(l.store) == Fail(BlockDne)
    ensures l.chain != [] && ShapedEntry(l.chain[|l.chain| - 1]) ==>
              var (r, n) := (PopBlock(l.store), |l.chain| - 1);
              && r.Next? && r.state.block == l.chain[n].block && r.state.txs == Reversed(l.chain[n].txs)
              && Replay(l.chain[..n]) == Next(r.state.store)
  {
    if l.chain != [] && ShapedEntry(l.chain[|l.chain| - 1]) {
      var before, e := ReplayStep(l);
      ReplayConsistent(before);
      PopUndoesAdd(before.store, e);
    }
  }

  /** What removing a transaction does on consistent tables first: one that is not on
      file is thrown at, one that is has its record. */
  lemma RemoveOutcome(s: Store, hash: Hash)
    requires Consistent(s)
    ensures hash !in s.txs.indices ==> RemoveTransaction(s, hash) == Fail(TxDne)
    ensures hash in s.txs.indices ==> HasIndices(s.txs, hash)
  {
    if hash in s.txs.indices {
      DenseGet(s.txs.txs, s.txs.indices[hash].txId);
      DenseGet(s.txs.outputIndices, s.txs.indices[hash].txId);
    }
  }

  /** A block that lists a transaction not on file cannot be popped. */
  lemma PopMissing(s: Store, hashes: seq<Hash>)
    requires hashes != [] && hashes[|hashes| - 1] !in s.txs.indices
    ensures PopTransactions(s, hashes, |hashes|) == Fail(DbError)
  {}

  lemma ReplayAdd(chain: seq<Entry>, e: Entry)
    requires Replay(chain).Next?
    ensures Replay(chain + [e]) == AddBlock(Replay(chain).state, e)
  {
    assert (chain + [e])[..|chain|] == chain;
  }

  lemma AddReplayed(l: Ledger, e: Entry)
    requires Replayed(l) && SupportedEntry(e)
    ensures Replayed(Apply(l, Add(e)))
  {
    ReplayAdd(l.chain, e);
  }

  /** Every block the first n steps of a run pop is shaped. */
  predicate ShapedPopsTo(ops: seq<Op>, n: nat)
    requires n <= |ops|
  {
    forall k :: 0 <= k < n && ops[k].Pop? ==> PopsShaped(Run(ops[..k]))
  }

  predicate ShapedPops(ops: seq<Op>) {
    ShapedPopsTo(ops, |ops|)
  }

  lemma RunStep(ops: seq<Op>, k: nat)
    requires k < |ops|
    ensures Run(ops[..k + 1]) == Apply(Run(ops[..k]), ops[k])
  {
    assert ops[..k + 1][..k] == ops[..k];
  }

  lemma ApplyReplayed(l: Ledger, op: Op)
    requires Replayed(l)
    requires op.Add? ==> SupportedEntry(op.entry)
    requires op.Pop? ==> PopsShaped(l)
    ensures Replayed(Apply(l, op))
  {
    match op
    case Add(e) => AddReplayed(l, e);
    case Pop => PopReplayedIff(l);
  }

  lemma {:induction false} UpTo(good: nat -> bool, n: nat)
    requires good(0) && forall k: nat :: k < n && good(k) ==> good(k + 1)
    ensures good(n)
  {
    if n == 0 {
    } else {
      UpTo(good, n - 1);
      assert good(n - 1 + 1);
    }
  }

  /** After every run of blocks with supported inputs that pops shaped blocks
      only, the store is the replay of the surviving chain, and consistent. */
  lemma RunIsReplay(ops: seq<Op>, n: nat)
    requires n <= |ops| && SupportedOps(ops) && ShapedPopsTo(ops, n)
    ensures Replayed(Run(ops[..n])) && Consistent(Run(ops[..n]).store)
  {
    var good := (k: nat) => k <= |ops| && Replayed(Run(ops[..k]));
    forall k: nat | k < n && good(k) ensures good(k + 1) {
      RunStep(ops, k);
      ApplyReplayed(Run(ops[..k]), ops[k]);
    }
    UpTo(good, n);
    ReplayConsistent(Run(ops[..n]));
  }

  lemma ReplayThroughoutIff(ops: seq<Op>, n: nat)
    requires n <= |ops| && SupportedOps(ops)
    ensures (forall m :: 0 <= m <= n ==> Replayed(Run(ops[..m]))) <==> ShapedPopsTo(ops, n)
  {
    if ShapedPopsTo(ops, n) {
      forall m | 0 <= m <= n ensures Replayed(Run(ops[..m])) { RunIsReplay(ops, m); }
    }
    if forall m :: 0 <= m <= n ==> Replayed(Run(ops[..m])) {
      forall k | 0 <= k < n && ops[k].Pop? ensures PopsShaped(Run(ops[..k])) {
        RunStep(ops, k);
        assert Replayed(Run(ops[..k])) && Replayed(Run(ops[..k + 1]));
        PopReplayedIff(Run(ops[..k]));
      }
    }
  }

  /** The store is the replay at every point of a run if and only if every block
      the run pops is shaped. */
  lemma RunIsReplayIff(ops: seq<Op>)
    requires SupportedOps(ops)
    ensures (forall n :: 0 <= n <= |ops| ==> Replayed(Run(ops[..n]))) <==> ShapedPops(ops)
  {
    ReplayThroughoutIff(ops, |ops|);
  }

  // ----- consistency

  /** If as many rows come off the output list as went on, and fewer off bucket 0,
      then an id that is out of range is left in that bucket. */
  lemma MisshapenBreaks(o: OutputTables, p: OutputTables, q: OutputTables, rows: nat, added: nat, removed: nat)
    requires Dense(o.outputTxs) && DenseOutputs(p) && DenseOutputs(q)
    requires Grown(o, p, rows, added) && Shrunk(p, q, rows, removed) && removed < added
    ensures !InChainOrder(q)
  {
    DenseNext(o.outputTxs);
    var k := ZeroSize(q) - 1;
    var row := Bucket(q, 0)[k];
    assert row in Bucket(q, 0) && row.key == k;
    var j :| 0 <= j < ZeroSize(p) && Bucket(p, 0)[j] == row;
    assert j == k >= ZeroSize(o);
    assert row.value.outputId >= |q.outputTxs|;
  }

  lemma MisshapenPop(before: Ledger, e: Entry, l: Ledger)
    requires Consistent(before.store) && Consistent(l.store) && SupportedEntry(e) && !ShapedEntry(e)
    requires AddBlock(before.store, e) == Next(l.store) && PopBlock(l.store).Next?
    ensures !Consistent(PopBlock(l.store).state.store)
  {
    var a := AddBlockTransactions(before.store, e).state;
    var q := PopBlock(l.store).state.store;
    PopIsEntryPop(before.store, e, l.store);
    EntryGains(before.store, e);
    PopEntryAccount(before.store, e, a);
    EntryShortfall(e);
    if DenseOutputs(q.outputs) {
      MisshapenBreaks(before.store.outputs, a.outputs, q.outputs, EntryRows(e), EntryAdded(e), EntryRemoved(e));
    }
  }

  /** A pop leaves a replayed store consistent exactly if the block was shaped. */
  lemma PopConsistentIff(l: Ledger)
    requires Replayed(l)
    ensures Consistent(Apply(l, Pop).store) <==> PopsShaped(l)
  {
    ReplayConsistent(l);
    if PopsShaped(l) {
      PopReplayedIff(l);
      ReplayConsistent(Apply(l, Pop));
    } else {
      var before, e := ReplayStep(l);
      ReplayConsistent(before);
      MisshapenPop(before, e, l);
    }
  }

  lemma ConsistentStep(ops: seq<Op>, k: nat)
    requires k < |ops| && SupportedOps(ops) && ShapedPopsTo(ops, k)
    requires Consistent(Run(ops[..k + 1]).store)
    ensures ShapedPopsTo(ops, k + 1)
  {
    RunIsReplay(ops, k);
    RunStep(ops, k);
    if ops[k].Pop? { PopConsistentIff(Run(ops[..k])); }
  }

  lemma ConsistentSoFar(ops: seq<Op>)
    requires SupportedOps(ops)
    requires forall m :: 0 <= m <= |ops| ==> Consistent(Run(ops[..m]).store)
    ensures ShapedPops(ops)
  {
    var good := (n: nat) => n <= |ops| && ShapedPopsTo(ops, n);
    forall k: nat | k < |ops| && good(k) ensures good(k + 1) { ConsistentStep(ops, k); }
    UpTo(good, |ops|);
  }

  /** The tables are consistent at every point of a run of blocks with supported
      inputs if and only if every block the run pops is shaped. */
  lemma RunConsistentIff(ops: seq<Op>)
    requires SupportedOps(ops)
    ensures (forall n :: 0 <= n <= |ops| ==> Consistent(Run(ops[..n]).store)) <==> ShapedPops(ops)
  {
    if ShapedPops(ops) {
      forall n | 0 <= n <= |ops| ensures Consistent(Run(ops[..n]).store) { RunIsReplay(ops, n); }
    }
    if forall n :: 0 <= n <= |ops| ==> Consistent(Run(ops[..n]).store) { ConsistentSoFar(ops); }
  }
}
