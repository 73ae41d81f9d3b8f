/**
  The account of an add and of a pop: how many rows the output list and the
  amount-0 bucket gain and lose, and how many index records.  From it follows
  that popping restores the store only if the block was clean.
 */
module StoreAccount {
  import opened Sequences
  import opened Steps
  import opened Tables
  import opened Transactions
  import opened StoreSpec
  import opened StoreUndo

  // ----- what the transactions of a block come to

  function SupportedCount(txs: seq<Tx>, n: nat): nat
    requires n <= |txs|
  {
    if n == 0 then 0 else SupportedCount(txs, n - 1) + if Supported(txs[n - 1]) then 1 else 0
  }

  function StoredZero(tx: Tx): nat {
    StoredUnder(tx, 0, |tx.vout|)
  }

  function RemovedZero(tx: Tx): nat {
    RemovedUnder(tx, 0, |tx.vout|)
  }

  /** What an accepted call of add_transaction adds to bucket 0. */
  function AddedZero(tx: Tx): nat {
    if Supported(tx) then StoredZero(tx) else 0
  }

  function AddedZeroOf(txs: seq<Tx>, n: nat): nat
    requires n <= |txs|
  {
    if n == 0 then 0 else AddedZeroOf(txs, n - 1) + AddedZero(txs[n - 1])
  }

  /** The rows an accepted call of add_transaction adds to the output list. */
  function AddedRows(tx: Tx): nat {
    if Supported(tx) then |tx.vout| else 0
  }

  function AddedRowsOf(txs: seq<Tx>, n: nat): nat
    requires n <= |txs|
  {
    if n == 0 then 0 else AddedRowsOf(txs, n - 1) + AddedRows(txs[n - 1])
  }

  function RemovedZeroOf(txs: seq<Tx>, n: nat): nat
    requires n <= |txs|
  {
    if n == 0 then 0 else RemovedZeroOf(txs, n - 1) + RemovedZero(txs[n - 1])
  }

  /** A transaction never gives up more amount-0 outputs than it put in, and
      gives up exactly as many only when it is shaped. */
  lemma {:induction false} ZeroShortfall(tx: Tx, n: nat)
    requires n <= |tx.vout|
    ensures RemovedUnder(tx, 0, n) <= StoredUnder(tx, 0, n)
    ensures RemovedUnder(tx, 0, n) == StoredUnder(tx, 0, n) <==>
            forall i :: 0 <= i < n ==> StoredAmount(tx, i) == RemovedAmount(tx, i)
  {
    if n == 0 {
    } else {
      ZeroShortfall(tx, n - 1);
      assert RemovedAsRct(tx) ==> StoredAsRct(tx);
    }
  }

  lemma {:induction false} TotalShortfall(txs: seq<Tx>, n: nat)
    requires n <= |txs| && forall i :: 0 <= i < n ==> Supported(txs[i])
    ensures RemovedZeroOf(txs, n) <= AddedZeroOf(txs, n)
    ensures RemovedZeroOf(txs, n) == AddedZeroOf(txs, n) <==> forall i :: 0 <= i < n ==> Shaped(txs[i])
  {
    if n == 0 {
    } else {
      TotalShortfall(txs, n - 1);
      ZeroShortfall(txs[n - 1], |txs[n - 1].vout|);
      ShapedAmounts(txs[n - 1]);
    }
  }

  function EntryAdded(e: Entry): nat {
    AddedZero(e.block.minerTx) + AddedZeroOf(e.txs, |e.txs|)
  }

  function EntryRows(e: Entry): nat {
    AddedRows(e.block.minerTx) + AddedRowsOf(e.txs, |e.txs|)
  }

  function EntryRemoved(e: Entry): nat {
    RemovedZero(e.block.minerTx) + RemovedZeroOf(e.txs, |e.txs|)
  }

  /** Popping a block never takes more out of bucket 0 than adding it put in, and
      takes as much exactly when the block is shaped. */
  lemma EntryShortfall(e: Entry)
    requires SupportedEntry(e)
    ensures EntryRemoved(e) <= EntryAdded(e)
    ensures EntryRemoved(e) == EntryAdded(e) <==> ShapedEntry(e)
  {
    TotalShortfall(e.txs, |e.txs|);
    ZeroShortfall(e.block.minerTx, |e.block.minerTx.vout|);
    ShapedAmounts(e.block.minerTx);
  }

  lemma {:induction false} SupportedCountBound(txs: seq<Tx>, n: nat)
    requires n <= |txs|
    ensures SupportedCount(txs, n) <= n
    ensures SupportedCount(txs, n) == n ==> forall i :: 0 <= i < n ==> Supported(txs[i])
  {
    if n == 0 {
    } else {
      SupportedCountBound(txs, n - 1);
    }
  }

  // ----- output tables that have grown

  function ZeroSize(o: OutputTables): nat {
    |Bucket(o, 0)|
  }

  /** p has `rows` outputs more than o, `zero` of them at the end of bucket 0 with
      ids that o had not given out. */
  ghost predicate Grown(o: OutputTables, p: OutputTables, rows: nat, zero: nat) {
    && |p.outputTxs| == |o.outputTxs| + rows
    && NextKey(o.outputTxs) <= NextKey(p.outputTxs)
    && ZeroSize(p) == ZeroSize(o) + zero
    && Bucket(o, 0) <= Bucket(p, 0)
    && (forall k :: ZeroSize(o) <= k < ZeroSize(p) ==> Bucket(p, 0)[k].value.outputId >= NextKey(o.outputTxs))
    && (NoEmptyBucket(o) ==> NoEmptyBucket(p))
  }

  lemma GrownTwice(o: OutputTables, p: OutputTables, q: OutputTables, rows: nat, zero: nat, rows': nat, zero': nat)
    requires Grown(o, p, rows, zero) && Grown(p, q, rows', zero')
    ensures Grown(o, q, rows + rows', zero + zero')
  {}

  lemma GrowStep(txHash: Hash, tx: Tx, height: nat, i: nat, p: Placed)
    requires i < |tx.vout| && OutputAdder(txHash, tx, height)(p, i).Next?
    ensures Grown(p.tables, OutputAdder(txHash, tx, height)(p, i).state.tables, 1, if StoredAmount(tx, i) == 0 then 1 else 0)
  {
    assert OutputAdder(txHash, tx, height)(p, i).state.tables == WithOutput(p.tables, txHash, tx, i, height);
  }

  ghost predicate GrownBy(o: OutputTables, tx: Tx, i: nat, p: Placed) {
    i <= |tx.vout| && Grown(o, p.tables, i, StoredUnder(tx, 0, i))
  }

  lemma GrownByOne(o: OutputTables, txHash: Hash, tx: Tx, height: nat, i: nat, p: Placed)
    requires i < |tx.vout| && GrownBy(o, tx, i, p) && OutputAdder(txHash, tx, height)(p, i).Next?
    ensures GrownBy(o, tx, i + 1, OutputAdder(txHash, tx, height)(p, i).state)
  {
    var (zero, more) := (StoredUnder(tx, 0, i), if StoredAmount(tx, i) == 0 then 1 else 0);
    GrowStep(txHash, tx, height, i, p);
    GrownTwice(o, p.tables, OutputAdder(txHash, tx, height)(p, i).state.tables, i, zero, 1, more);
    assert StoredUnder(tx, 0, i + 1) == zero + more;
  }

  lemma OutputsGrow(o: OutputTables, txHash: Hash, tx: Tx, height: nat)
    requires AddOutputs(o, txHash, tx, height, |tx.vout|).Next?
    ensures Grown(o, AddOutputs(o, txHash, tx, height, |tx.vout|).state.tables, |tx.vout|, StoredZero(tx))
  {
    var f := OutputAdder(txHash, tx, height);
    var inv := (i: nat, p: Placed) => GrownBy(o, tx, i, p);
    forall i: nat, p: Placed | i < |tx.vout| && inv(i, p) && f(p, i).Next?
      ensures inv(i + 1, f(p, i).state)
    {
      GrownByOne(o, txHash, tx, height, i, p);
    }
    assert GrownBy(o, tx, 0, Placed(o, []));
    UpInduction(f, Placed(o, []), |tx.vout|, inv);
    assert inv(|tx.vout|, AddOutputs(o, txHash, tx, height, |tx.vout|).state);
  }

  /** Index records gained by adding one transaction, and outputs. */
  lemma AddGains(s: Store, hash: Hash, tx: Tx)
    requires AddTransaction(s, hash, tx).Next?
    ensures var a := AddTransaction(s, hash, tx).state;
            && a.chain == s.chain
            && |a.txs.indices| == |s.txs.indices| + (if Supported(tx) then 1 else 0)
            && Grown(s.outputs, a.outputs, AddedRows(tx), AddedZero(tx))
  {
    if Supported(tx) {
      SupportedSpends(s.spentKeys, tx);
      OutputsGrow(s.outputs, hash, tx, |s.chain.blocks|);
    } else {
      assert FirstScript(tx.vin) < |tx.vin|;
    }
  }

  ghost predicate Gained(s: Store, hashes: seq<Hash>, txs: seq<Tx>, i: nat, x: Store) {
    && i <= |txs|
    && AddTransactions(s, hashes, txs, i) == Next(x)
    && x.chain == s.chain
    && |x.txs.indices| == |s.txs.indices| + SupportedCount(txs, i)
    && Grown(s.outputs, x.outputs, AddedRowsOf(txs, i), AddedZeroOf(txs, i))
  }

  lemma GainStep(s: Store, hashes: seq<Hash>, txs: seq<Tx>, i: nat, x: Store)
    requires i < |txs| == |hashes|
    requires Gained(s, hashes, txs, i, x)
    requires TxAdder(hashes, txs)(x, i).Next?
    ensures Gained(s, hashes, txs, i + 1, TxAdder(hashes, txs)(x, i).state)
  {
    assert TxAdder(hashes, txs)(x, i) == AddTransaction(x, hashes[i], txs[i]);
    AddGains(x, hashes[i], txs[i]);
    GrownTwice(s.outputs, x.outputs, AddTransaction(x, hashes[i], txs[i]).state.outputs,
               AddedRowsOf(txs, i), AddedZeroOf(txs, i), AddedRows(txs[i]), AddedZero(txs[i]));
  }

  lemma AddsGain(s: Store, hashes: seq<Hash>, txs: seq<Tx>)
    requires |txs| == |hashes|
    requires AddTransactions(s, hashes, txs, |txs|).Next?
    ensures forall i :: 0 <= i <= |txs| ==>
              AddTransactions(s, hashes, txs, i).Next? && Gained(s, hashes, txs, i, AddTransactions(s, hashes, txs, i).state)
  {
    var f := TxAdder(hashes, txs);
    var inv := (i: nat, x: Store) => Gained(s, hashes, txs, i, x);
    forall i: nat, x: Store | i < |txs| && inv(i, x) && f(x, i).Next?
      ensures inv(i + 1, f(x, i).state)
    {
      GainStep(s, hashes, txs, i, x);
    }
    UpInduction(f, s, |txs|, inv);
  }

  /** What an accepted block adds to the index records and to the outputs. */
  lemma EntryGains(s: Store, e: Entry)
    requires |e.block.txHashes| == |e.txs|
    requires AddBlockTransactions(s, e).Next?
    ensures var a := AddBlockTransactions(s, e).state;
            && a.chain == s.chain
            && Grown(s.outputs, a.outputs, EntryRows(e), EntryAdded(e))
            && |a.txs.indices| <= |s.txs.indices| + |e.txs| + 1
            && (|a.txs.indices| == |s.txs.indices| + |e.txs| + 1 ==> SupportedEntry(e))
  {
    var miner := e.block.minerTx;
    var m := AddTransaction(s, miner.hash, miner).state;
    var a := AddBlockTransactions(s, e).state;
    AddGains(s, miner.hash, miner);
    AddsGain(m, e.block.txHashes, e.txs);
    assert Gained(m, e.block.txHashes, e.txs, |e.txs|, a);
    SupportedCountBound(e.txs, |e.txs|);
    GrownTwice(s.outputs, m.outputs, a.outputs, AddedRows(miner), AddedZero(miner),
               AddedRowsOf(e.txs, |e.txs|), AddedZeroOf(e.txs, |e.txs|));
  }

  // ----- output tables that have shrunk

  /** o has `rows` outputs more than p, `zero` of them in bucket 0. */
  ghost predicate Shrunk(o: OutputTables, p: OutputTables, rows: int, zero: int) {
    && |p.outputTxs| + rows == |o.outputTxs|
    && ZeroSize(p) + zero == ZeroSize(o)
    && RowsIn(Bucket(p, 0), Bucket(o, 0))
    && (NoEmptyBucket(o) ==> NoEmptyBucket(p))
  }

  lemma ShrunkTwice(o: OutputTables, p: OutputTables, q: OutputTables, rows: int, zero: int, rows': int, zero': int)
    requires Shrunk(o, p, rows, zero) && Shrunk(p, q, rows', zero')
    ensures Shrunk(o, q, rows + rows', zero + zero')
  {}

  lemma ShrinkStep(tx: Tx, i: nat, p: Placed)
    requires i < |tx.vout| && OutputRemover(tx)(p, i).Next?
    ensures Shrunk(p.tables, OutputRemover(tx)(p, i).state.tables, 1, if RemovedAmount(tx, i) == 0 then 1 else 0)
  {
    var q := OutputRemover(tx)(p, i).state.tables;
    assert q == WithoutOutput(p.tables, RemovedAmount(tx, i), p.indices[i]);
    WithoutRows(Bucket(p.tables, RemovedAmount(tx, i)), p.indices[i]);
  }

  ghost predicate ShrunkTo(o: OutputTables, tx: Tx, i: nat, p: Placed) {
    i <= |tx.vout| && Shrunk(o, p.tables, |tx.vout| - i, RemovedZero(tx) - RemovedUnder(tx, 0, i))
  }

  lemma ShrunkToOneLess(o: OutputTables, tx: Tx, i: nat, p: Placed)
    requires i < |tx.vout| && ShrunkTo(o, tx, i + 1, p) && OutputRemover(tx)(p, i).Next?
    ensures ShrunkTo(o, tx, i, OutputRemover(tx)(p, i).state)
  {
    var less := if RemovedAmount(tx, i) == 0 then 1 else 0;
    ShrinkStep(tx, i, p);
    ShrunkTwice(o, p.tables, OutputRemover(tx)(p, i).state.tables,
                |tx.vout| - (i + 1), RemovedZero(tx) - RemovedUnder(tx, 0, i + 1), 1, less);
    assert RemovedUnder(tx, 0, i + 1) == RemovedUnder(tx, 0, i) + less;
  }

  lemma OutputsShrink(o: OutputTables, tx: Tx, indices: seq<nat>)
    requires RemoveOutputs(o, tx, indices).Next?
    ensures Shrunk(o, RemoveOutputs(o, tx, indices).state.tables, |tx.vout|, RemovedZero(tx))
  {
    var g := OutputRemover(tx);
    var inv := (i: nat, p: Placed) => ShrunkTo(o, tx, i, p);
    forall i: nat, p: Placed | i < |tx.vout| && inv(i + 1, p) && g(p, i).Next?
      ensures inv(i, g(p, i).state)
    {
      ShrunkToOneLess(o, tx, i, p);
    }
    var start := Placed(o, indices[..|tx.vout|]);
    assert ShrunkTo(o, tx, |tx.vout|, start);
    DownInduction(g, start, |tx.vout|, inv);
    assert inv(0, RemoveOutputs(o, tx, indices).state);
  }

  lemma RemoveDropsRecord(s: Store, hash: Hash)
    requires RemoveTransaction(s, hash).Next?
    ensures |RemoveTransaction(s, hash).state.txs.indices| + 1 == |s.txs.indices|
  {}

  lemma PopsDropRecords(s: Store, hashes: seq<Hash>)
    requires PopTransactions(s, hashes, |hashes|).Next?
    ensures |PopTransactions(s, hashes, |hashes|).state.store.txs.indices| + |hashes| == |s.txs.indices|
  {
    var g := TxPopper(hashes);
    var inv := (i: nat, p: Popped) => |p.store.txs.indices| + |hashes| == |s.txs.indices| + i;
    forall i: nat, p: Popped | i < |hashes| && inv(i + 1, p) && g(p, i).Next?
      ensures inv(i, g(p, i).state)
    {
      RemoveDropsRecord(p.store, hashes[i]);
    }
    DownInduction(g, Popped(s, []), |hashes|, inv);
    assert inv(0, PopTransactions(s, hashes, |hashes|).state);
  }

  lemma PopDropsRecords(s: Store, block: Block)
    requires PopBlockTransactions(s, block).Next?
    ensures |PopBlockTransactions(s, block).state.store.txs.indices| + |block.txHashes| + 1 == |s.txs.indices|
  {
    PopsDropRecords(s, block.txHashes);
    RemoveDropsRecord(PopTransactions(s, block.txHashes, |block.txHashes|).state.store, block.minerTx.hash);
  }

  /** The stores differ in their output tables at most. */
  ghost predicate Alike(s: Store, t: Store) {
    s.chain == t.chain && s.txs == t.txs && s.spentKeys == t.spentKeys
  }

  /** Removing a transaction from a store that is as the add left it, whatever
      happened to the outputs meanwhile. */
  lemma RemoveAccount(s: Store, hash: Hash, tx: Tx, x: Store)
    requires Supported(tx)
    requires AddTransaction(s, hash, tx).Next? && Alike(x, AddTransaction(s, hash, tx).state)
    requires RemoveTransaction(x, hash).Next?
    ensures Alike(RemoveTransaction(x, hash).state, s)
    ensures Shrunk(x.outputs, RemoveTransaction(x, hash).state.outputs, AddedRows(tx), RemovedZero(tx))
  {
    SupportedSpends(s.spentKeys, tx);
    var p := AddOutputs(s.outputs, hash, tx, |s.chain.blocks|, |tx.vout|).state;
    UndoRecord(s.txs, hash, tx, |s.chain.blocks|, p.indices);
    OutputsShrink(x.outputs, tx, p.indices);
    assert s.spentKeys + Images(tx.vin) - Images(tx.vin) == s.spentKeys;
  }

  /** The account after transactions i, i + 1, ... came off a store x. */
  ghost predicate Settled(s: Store, hashes: seq<Hash>, txs: seq<Tx>, x: Store, i: nat, p: Popped) {
    && i <= |txs|
    && AddTransactions(s, hashes, txs, i).Next?
    && Alike(p.store, AddTransactions(s, hashes, txs, i).state)
    && Shrunk(x.outputs, p.store.outputs, AddedRowsOf(txs, |txs|) - AddedRowsOf(txs, i),
              RemovedZeroOf(txs, |txs|) - RemovedZeroOf(txs, i))
  }

  lemma SettleStep(s: Store, hashes: seq<Hash>, txs: seq<Tx>, x: Store, i: nat, p: Popped)
    requires i < |txs| == |hashes| && Supported(txs[i])
    requires AddTransactions(s, hashes, txs, i).Next?
    requires Settled(s, hashes, txs, x, i + 1, p)
    requires TxPopper(hashes)(p, i).Next?
    ensures Settled(s, hashes, txs, x, i, TxPopper(hashes)(p, i).state)
  {
    var y := AddTransactions(s, hashes, txs, i).state;
    assert TxAdder(hashes, txs)(y, i) == AddTransaction(y, hashes[i], txs[i]) == AddTransactions(s, hashes, txs, i + 1);
    RemoveAccount(y, hashes[i], txs[i], p.store);
    ShrunkTwice(x.outputs, p.store.outputs, RemoveTransaction(p.store, hashes[i]).state.outputs,
                AddedRowsOf(txs, |txs|) - AddedRowsOf(txs, i + 1), RemovedZeroOf(txs, |txs|) - RemovedZeroOf(txs, i + 1),
                AddedRows(txs[i]), RemovedZero(txs[i]));
  }

  lemma PopAccount(s: Store, hashes: seq<Hash>, txs: seq<Tx>, x: Store)
    requires |txs| == |hashes|
    requires forall i :: 0 <= i < |txs| ==> Supported(txs[i])
    requires AddTransactions(s, hashes, txs, |txs|).Next? && Alike(x, AddTransactions(s, hashes, txs, |txs|).state)
    requires PopTransactions(x, hashes, |txs|).Next?
    ensures Settled(s, hashes, txs, x, 0, PopTransactions(x, hashes, |txs|).state)
  {
    var g := TxPopper(hashes);
    var inv := (i: nat, p: Popped) => Settled(s, hashes, txs, x, i, p);
    forall i: nat, p: Popped | i < |txs| && inv(i + 1, p) && g(p, i).Next?
      ensures inv(i, g(p, i).state)
    {
      AddedSoFar(s, hashes, txs, i);
      SettleStep(s, hashes, txs, x, i, p);
    }
    DownInduction(g, Popped(x, []), |txs|, inv);
    assert inv(0, PopTransactions(x, hashes, |txs|).state);
  }

  lemma AddedSoFar(s: Store, hashes: seq<Hash>, txs: seq<Tx>, i: nat)
    requires i <= |txs| && AddTransactions(s, hashes, txs, |txs|).Next?
    ensures AddTransactions(s, hashes, txs, i).Next?
  {
    if AddTransactions(s, hashes, txs, i).Fail? { UpFails(TxAdder(hashes, txs), s, i, |txs|); }
  }

  /** The same for the transactions of a block, the miner's last. */
  lemma PopEntryAccount(s: Store, e: Entry, x: Store)
    requires |e.block.txHashes| == |e.txs| && SupportedEntry(e)
    requires AddBlockTransactions(s, e).Next? && Alike(x, AddBlockTransactions(s, e).state)
    requires PopBlockTransactions(x, e.block).Next?
    ensures Alike(PopBlockTransactions(x, e.block).state.store, s)
    ensures Shrunk(x.outputs, PopBlockTransactions(x, e.block).state.store.outputs, EntryRows(e), EntryRemoved(e))
  {
    var (miner, hashes, txs) := (e.block.minerTx, e.block.txHashes, e.txs);
    var m := AddTransaction(s, miner.hash, miner).state;
    AddGains(s, miner.hash, miner);
    PopAccount(m, hashes, txs, x);
    var p := PopTransactions(x, hashes, |txs|).state.store;
    RemoveAccount(s, miner.hash, miner, p);
    ShrunkTwice(x.outputs, p.outputs, RemoveTransaction(p, miner.hash).state.outputs,
                AddedRowsOf(txs, |txs|), RemovedZeroOf(txs, |txs|), AddedRows(miner), RemovedZero(miner));
  }

  // ----- no step leaves an empty bucket

  lemma RemoveKeepsBuckets(s: Store, hash: Hash)
    requires NoEmptyBucket(s.outputs) && RemoveTransaction(s, hash).Next?
    ensures NoEmptyBucket(RemoveTransaction(s, hash).state.outputs)
  {
    OutputsShrink(s.outputs, GetTx(s.txs, hash), GetIndices(s.txs, hash));
  }

  lemma PopsKeepBuckets(s: Store, hashes: seq<Hash>)
    requires NoEmptyBucket(s.outputs) && PopTransactions(s, hashes, |hashes|).Next?
    ensures NoEmptyBucket(PopTransactions(s, hashes, |hashes|).state.store.outputs)
  {
    var g := TxPopper(hashes);
    var inv := (i: nat, p: Popped) => NoEmptyBucket(p.store.outputs);
    forall i: nat, p: Popped | i < |hashes| && inv(i + 1, p) && g(p, i).Next?
      ensures inv(i, g(p, i).state)
    {
      RemoveKeepsBuckets(p.store, hashes[i]);
    }
    DownInduction(g, Popped(s, []), |hashes|, inv);
    assert inv(0, PopTransactions(s, hashes, |hashes|).state);
  }

  lemma PopKeepsBuckets(s: Store)
    requires NoEmptyBucket(s.outputs) && PopBlock(s).Next?
    ensures NoEmptyBucket(PopBlock(s).state.store.outputs)
  {
    var t := s.(chain := RemoveBlock(s.chain).state);
    var block := TopBlock(s.chain);
    PopsKeepBuckets(t, block.txHashes);
    RemoveKeepsBuckets(PopTransactions(t, block.txHashes, |block.txHashes|).state.store, block.minerTx.hash);
  }

  lemma AddKeepsBuckets(s: Store, e: Entry)
    requires NoEmptyBucket(s.outputs) && AddBlock(s, e).Next?
    ensures NoEmptyBucket(AddBlock(s, e).state.outputs)
  {
    EntryGains(s, e);
  }

  // ----- the exact condition

  /** If the store comes back the same, every transaction of the block was clean. */
  lemma RestoredOnlyIfClean(s: Store, e: Entry)
    requires |e.block.txHashes| == |e.txs|
    requires AddBlockTransactions(s, e).Next?
    requires PopBlockTransactions(AddBlockTransactions(s, e).state, e.block).Next?
    requires PopBlockTransactions(AddBlockTransactions(s, e).state, e.block).state.store == s
    ensures CleanEntry(e)
  {
    var a := AddBlockTransactions(s, e).state;
    EntryGains(s, e);
    PopDropsRecords(a, e.block);
    PopEntryAccount(s, e, a);
    EntryShortfall(e);
  }

  /** The exact condition, checkable on the block before it is added. */
  lemma PopUndoesAddIff(s: Store, e: Entry)
    requires NoEmptyBucket(s.outputs)
    requires AddBlock(s, e).Next?
    ensures PopBlock(AddBlock(s, e).state) == Next(PoppedBlock(s, e.block, Reversed(e.txs))) <==> CleanEntry(e)
  {
    if CleanEntry(e) {
      PopUndoesAdd(s, e);
    } else if PopBlock(AddBlock(s, e).state) == Next(PoppedBlock(s, e.block, Reversed(e.txs))) {
      PopIsEntryPop(s, e, AddBlock(s, e).state);
      RestoredOnlyIfClean(s, e);
    }
  }

  /** Popping a store whose chain is as add_block left it takes off that block. */
  lemma PopIsEntryPop(s: Store, e: Entry, x: Store)
    requires AddBlock(s, e).Next?
    requires x.chain == AddBlock(s, e).state.chain
    ensures var p := PopBlockTransactions(x.(chain := s.chain), e.block);
            PopBlock(x) == if p.Fail? then Fail(p.error) else Next(PoppedBlock(p.state.store, e.block, p.state.txs))
    ensures AddBlock(s, e).state.(chain := s.chain) == AddBlockTransactions(s, e).state
  {
    EntryGains(s, e);
    UndoBlockRecord(s.chain, e.block, e.meta, NumRctOuts(e));
  }
}
