/**
  What add_transaction keeps about the tables taken together: index records
  point at the transaction's own outputs, buckets list outputs in the order
  they entered the chain, and the spent set is the disjoint union of the key
  images of the stored transactions.
 */
module StoreInvariant {
  import opened Steps
  import opened Tables
  import opened Transactions
  import opened StoreSpec
  import opened StoreUndo
  import opened StoreAccount

  // ----- dense tables

  ghost predicate DenseOutputs(o: OutputTables) {
    Dense(o.outputTxs) && forall a :: a in o.amounts ==> o.amounts[a] != [] && Dense(o.amounts[a])
  }

  ghost predicate DenseTxs(t: TxTables) {
    Dense(t.txs) && Dense(t.outputIndices) && |t.txs| == |t.outputIndices|
  }

  /** Every table that hands out ids by counting is numbered without a gap. */
  ghost predicate DenseStore(s: Store) {
    Dense(s.chain.blocks) && DenseTxs(s.txs) && DenseOutputs(s.outputs)
  }

  lemma RecordDense(t: TxTables, hash: Hash, tx: Tx, height: nat, indices: seq<nat>)
    requires DenseTxs(t)
    ensures CanRecord(t) && DenseTxs(WithTx(t, hash, tx, height, indices))
  {
    AppendUndo(t.txs, tx);
    AppendUndo(t.outputIndices, indices);
    DenseNext(t.txs);
    DenseNext(t.outputIndices);
  }

  lemma AddTransactionDense(s: Store, hash: Hash, tx: Tx)
    requires DenseTxs(s.txs) && AddTransaction(s, hash, tx).Next?
    ensures DenseTxs(AddTransaction(s, hash, tx).state.txs)
  {
    var r := AddOutputs(s.outputs, hash, tx, |s.chain.blocks|, |tx.vout|);
    if r.Next? { RecordDense(s.txs, hash, tx, |s.chain.blocks|, r.state.indices); }
  }

  lemma AddTransactionsDense(s: Store, hashes: seq<Hash>, txs: seq<Tx>)
    requires |txs| == |hashes| && DenseTxs(s.txs)
    requires AddTransactions(s, hashes, txs, |txs|).Next?
    ensures DenseTxs(AddTransactions(s, hashes, txs, |txs|).state.txs)
  {
    var f := TxAdder(hashes, txs);
    var inv := (i: nat, x: Store) => DenseTxs(x.txs);
    forall i: nat, x: Store | i < |txs| && inv(i, x) && f(x, i).Next?
      ensures inv(i + 1, f(x, i).state)
    {
      AddTransactionDense(x, hashes[i], txs[i]);
    }
    UpInduction(f, s, |txs|, inv);
    assert inv(|txs|, AddTransactions(s, hashes, txs, |txs|).state);
  }

  lemma AddRecordDense(c: BlockTables, block: Block, meta: BlockMeta, numRct: nat)
    requires Dense(c.blocks) && AddBlockRecord(c, block, meta, numRct).Next?
    ensures Dense(AddBlockRecord(c, block, meta, numRct).state.blocks)
  {
    AppendUndo(c.blocks, AddBlockRecord(c, block, meta, numRct).state.blocks[|c.blocks|].value);
  }

  /** The height index holds the hash of every stored block with its height, and no other. */
  ghost predicate HeightsMatch(c: BlockTables) {
    && (forall k :: 0 <= k < |c.blocks| ==>
          var h := c.blocks[k].value.block.hash; h in c.heights && c.heights[h] == k)
    && (forall h :: h in c.heights ==> c.heights[h] < |c.blocks| && c.blocks[c.heights[h]].value.block.hash == h)
  }

  lemma AddRecordHeights(c: BlockTables, block: Block, meta: BlockMeta, numRct: nat)
    requires HeightsMatch(c) && AddBlockRecord(c, block, meta, numRct).Next?
    ensures HeightsMatch(AddBlockRecord(c, block, meta, numRct).state)
  {}

  lemma AddBlockHeights(s: Store, e: Entry)
    requires HeightsMatch(s.chain) && AddBlock(s, e).Next?
    ensures HeightsMatch(AddBlock(s, e).state.chain)
  {
    EntryGains(s, e);
    AddRecordHeights(s.chain, e.block, e.meta, NumRctOuts(e));
  }

  /** Every accepted block keeps the block and transaction tables dense. */
  lemma AddBlockDense(s: Store, e: Entry)
    requires Dense(s.chain.blocks) && DenseTxs(s.txs)
    requires AddBlock(s, e).Next?
    ensures Dense(AddBlock(s, e).state.chain.blocks) && DenseTxs(AddBlock(s, e).state.txs)
  {
    var miner := e.block.minerTx;
    AddTransactionDense(s, miner.hash, miner);
    AddTransactionsDense(AddTransaction(s, miner.hash, miner).state, e.block.txHashes, e.txs);
    EntryGains(s, e);
    AddRecordDense(s.chain, e.block, e.meta, NumRctOuts(e));
  }

  // ----- outputs

  /** The outputs are filed as a coinbase's: from version 2 on, with a gen input. */
  ghost predicate Generated(tx: Tx) {
    tx.version >= 2 && exists i :: 0 <= i < |tx.vin| && tx.vin[i].Gen?
  }

  /** Row `index` is output j of the transaction, entered at the given height.  It
      stands in bucket 0 with a commitment to its amount if it is a coinbase's, and
      otherwise in the bucket of its amount, in bucket 0 with its own commitment;
      before version 3 it unlocks with the transaction, from then on by itself. */
  ghost predicate PointsTo(o: OutputTables, hash: Hash, tx: Tx, height: nat, j: nat, index: nat)
    requires j < |tx.vout|
  {
    var b := Bucket(o, if Generated(tx) then 0 else tx.vout[j].amount);
    && index < |b|
    && b[index].value.height == height
    && (Generated(tx) ==> b[index].value.commitment == ZeroCommit(tx.vout[j].amount))
    && (!Generated(tx) && tx.vout[j].amount == 0 ==> b[index].value.commitment == OutPk(tx.vout[j].mask))
    && (!Generated(tx) && tx.vout[j].amount > 0 ==> b[index].value.commitment == NoCommitment)
    && tx.vout[j].target == ToPubKey(b[index].value.key)
    && (tx.version < 3 ==> b[index].value.unlockTime == tx.unlockTime)
    && (tx.version >= 3 ==> b[index].value.unlockTime == tx.vout[j].unlockTime)
    && b[index].value.outputId < |o.outputTxs|
    && o.outputTxs[b[index].value.outputId].value == OutTx(hash, j)
  }

  ghost predicate PointsToAll(o: OutputTables, hash: Hash, tx: Tx, height: nat, indices: seq<nat>, n: nat) {
    n <= |indices| && n <= |tx.vout| && forall j :: 0 <= j < n ==> PointsTo(o, hash, tx, height, j, indices[j])
  }

  ghost predicate Extends(o: OutputTables, p: OutputTables) {
    o.outputTxs <= p.outputTxs && forall a :: Bucket(o, a) <= Bucket(p, a)
  }

  /** The bucket lists outputs in the order of their ids, all below n. */
  ghost predicate BucketInOrder(b: Table<OutKey>, n: nat) {
    && (forall i :: 0 <= i < |b| ==> b[i].value.outputId < n)
    && (forall i, j :: 0 <= i < j < |b| ==> b[i].value.outputId < b[j].value.outputId)
  }

  ghost predicate InChainOrder(o: OutputTables) {
    forall a :: a in o.amounts ==> BucketInOrder(o.amounts[a], |o.outputTxs|)
  }

  lemma PointsToExtends(o: OutputTables, p: OutputTables, hash: Hash, tx: Tx, height: nat, indices: seq<nat>, n: nat)
    requires Extends(o, p)
    requires PointsToAll(o, hash, tx, height, indices, n)
    ensures PointsToAll(p, hash, tx, height, indices, n)
  {}

  /** The bucket of the output grows by one row; every other bucket stays. */
  lemma OneBucket(o: OutputTables, hash: Hash, tx: Tx, i: nat, height: nat)
    requires i < |tx.vout| && AcceptsOutput(o, tx, i)
    ensures var p := WithOutput(o, hash, tx, i, height);
            var (amount, b) := (StoredAmount(tx, i), Bucket(o, StoredAmount(tx, i)));
            && Bucket(p, amount) == b + [Row(|b|, OutKeyOf(o, tx, i, height))]
            && amount in p.amounts
            && forall a :: a != amount ==> (a in p.amounts <==> a in o.amounts) && Bucket(p, a) == Bucket(o, a)
  {}

  lemma OneExtends(o: OutputTables, hash: Hash, tx: Tx, i: nat, height: nat)
    requires i < |tx.vout| && AcceptsOutput(o, tx, i)
    ensures Extends(o, WithOutput(o, hash, tx, i, height))
  {
    OneBucket(o, hash, tx, i, height);
  }

  lemma BucketOneMore(b: Table<OutKey>, n: nat, key: OutKey)
    requires BucketInOrder(b, n) && key.outputId == n
    ensures BucketInOrder(b + [Row(|b|, key)], n + 1)
  {}

  lemma OneInOrder(o: OutputTables, hash: Hash, tx: Tx, i: nat, height: nat)
    requires i < |tx.vout| && DenseOutputs(o) && InChainOrder(o) && AcceptsOutput(o, tx, i)
    ensures InChainOrder(WithOutput(o, hash, tx, i, height))
  {
    var (p, key) := (WithOutput(o, hash, tx, i, height), OutKeyOf(o, tx, i, height));
    var amount := StoredAmount(tx, i);
    OneBucket(o, hash, tx, i, height);
    AppendUndo(o.outputTxs, OutTx(hash, i));
    BucketOneMore(Bucket(o, amount), |o.outputTxs|, key);
    forall a | a in p.amounts ensures BucketInOrder(p.amounts[a], |p.outputTxs|) {
      if a != amount { assert p.amounts[a] == o.amounts[a]; }
    }
  }

  lemma OneDense(o: OutputTables, hash: Hash, tx: Tx, i: nat, height: nat)
    requires i < |tx.vout| && DenseOutputs(o) && AcceptsOutput(o, tx, i)
    ensures DenseOutputs(WithOutput(o, hash, tx, i, height))
  {
    var p := WithOutput(o, hash, tx, i, height);
    var amount := StoredAmount(tx, i);
    OneBucket(o, hash, tx, i, height);
    AppendUndo(o.outputTxs, OutTx(hash, i));
    AppendUndo(Bucket(o, amount), OutKeyOf(o, tx, i, height));
    forall a | a in p.amounts ensures p.amounts[a] != [] && Dense(p.amounts[a]) {
      if a != amount { assert p.amounts[a] == o.amounts[a]; }
    }
  }

  lemma OnePoints(o: OutputTables, hash: Hash, tx: Tx, i: nat, height: nat)
    requires i < |tx.vout| && Dense(o.outputTxs) && AcceptsOutput(o, tx, i)
    ensures PointsTo(WithOutput(o, hash, tx, i, height), hash, tx, height, i, |Bucket(o, StoredAmount(tx, i))|)
  {
    var (p, key) := (WithOutput(o, hash, tx, i, height), OutKeyOf(o, tx, i, height));
    var b := Bucket(o, StoredAmount(tx, i));
    OneBucket(o, hash, tx, i, height);
    assert Bucket(p, StoredAmount(tx, i))[|b|].value == key;
    AppendUndo(o.outputTxs, OutTx(hash, i));
    assert p.outputTxs[key.outputId].value == OutTx(hash, i);
  }

  ghost predicate OutputsAdded(o: OutputTables, hash: Hash, tx: Tx, height: nat, i: nat, p: Placed) {
    && DenseOutputs(p.tables) && InChainOrder(p.tables)
    && Extends(o, p.tables)
    && |p.indices| == i
    && PointsToAll(p.tables, hash, tx, height, p.indices, i)
  }

  lemma PointsToOneMore(o: OutputTables, hash: Hash, tx: Tx, height: nat, indices: seq<nat>, i: nat, index: nat)
    requires i < |tx.vout| && |indices| == i && PointsToAll(o, hash, tx, height, indices, i)
    requires PointsTo(o, hash, tx, height, i, index)
    ensures PointsToAll(o, hash, tx, height, indices + [index], i + 1)
  {
    var more := indices + [index];
    forall j | 0 <= j < i + 1 ensures PointsTo(o, hash, tx, height, j, more[j]) {
      if j < i { assert more[j] == indices[j]; }
    }
  }

  lemma OutputStep(o: OutputTables, hash: Hash, tx: Tx, height: nat, i: nat, p: Placed)
    requires OutputsAdded(o, hash, tx, height, i, p)
    requires AddOutput(p, hash, tx, i, height).Next?
    ensures OutputsAdded(o, hash, tx, height, i + 1, AddOutput(p, hash, tx, i, height).state)
  {
    var t := WithOutput(p.tables, hash, tx, i, height);
    OneDense(p.tables, hash, tx, i, height);
    OneExtends(p.tables, hash, tx, i, height);
    OneInOrder(p.tables, hash, tx, i, height);
    OnePoints(p.tables, hash, tx, i, height);
    PointsToExtends(p.tables, t, hash, tx, height, p.indices, i);
    PointsToOneMore(t, hash, tx, height, p.indices, i, |Bucket(p.tables, StoredAmount(tx, i))|);
    ExtendsTransitive(o, p.tables, t);
  }

  lemma ExtendsTransitive(o: OutputTables, p: OutputTables, q: OutputTables)
    requires Extends(o, p) && Extends(p, q)
    ensures Extends(o, q)
  {}

  lemma AllOutputs(o: OutputTables, hash: Hash, tx: Tx, height: nat)
    requires DenseOutputs(o) && InChainOrder(o)
    requires AddOutputs(o, hash, tx, height, |tx.vout|).Next?
    ensures OutputsAdded(o, hash, tx, height, |tx.vout|, AddOutputs(o, hash, tx, height, |tx.vout|).state)
  {
    var f := OutputAdder(hash, tx, height);
    var inv := (i: nat, p: Placed) => OutputsAdded(o, hash, tx, height, i, p);
    forall i: nat, p: Placed | i < |tx.vout| && inv(i, p) && f(p, i).Next?
      ensures inv(i + 1, f(p, i).state)
    {
      OutputStep(o, hash, tx, height, i, p);
    }
    UpInduction(f, Placed(o, []), |tx.vout|, inv);
    assert inv(|tx.vout|, AddOutputs(o, hash, tx, height, |tx.vout|).state);
  }

  // ----- transactions

  /** The transaction filed under a hash has one index per output, each pointing
      at that output, and no two hashes share an id. */
  ghost predicate IndexRecords(t: TxTables, o: OutputTables) {
    && (forall h :: h in t.indices ==> t.indices[h].txId < |t.txs|)
    && (forall h, g :: h in t.indices && g in t.indices && h != g ==> t.indices[h].txId != t.indices[g].txId)
    && (forall h :: h in t.indices ==> RecordOk(t, o, h))
  }

  ghost predicate RecordOk(t: TxTables, o: OutputTables, h: Hash) {
    && h in t.indices && t.indices[h].txId < |t.txs| && t.indices[h].txId < |t.outputIndices|
    && var tx := t.txs[t.indices[h].txId].value;
       var indices := t.outputIndices[t.indices[h].txId].value;
       && t.indices[h].unlockTime == tx.unlockTime
       && |indices| == |tx.vout|
       && PointsToAll(o, h, tx, t.indices[h].blockId, indices, |tx.vout|)
  }

  ghost function ImagesOf(t: Table<Tx>): set<KeyImage> {
    if t == [] then {} else ImagesOf(t[..|t| - 1]) + Images(t[|t| - 1].value.vin)
  }

  /** No image is spent twice, and what is spent is what stored transactions spend. */
  ghost predicate SpentExactly(t: Table<Tx>, spent: set<KeyImage>) {
    && spent == ImagesOf(t)
    && (forall i :: 0 <= i < |t| ==> DistinctImages(t[i].value.vin))
    && (forall i, j :: 0 <= i < j < |t| ==> Images(t[i].value.vin) !! Images(t[j].value.vin))
  }

  ghost predicate Consistent(s: Store) {
    && DenseStore(s)
    && HeightsMatch(s.chain)
    && InChainOrder(s.outputs)
    && IndexRecords(s.txs, s.outputs)
    && SpentExactly(s.txs.txs, s.spentKeys)
  }

  lemma {:induction false} ImagesOfContains(t: Table<Tx>, i: nat)
    requires i < |t|
    ensures Images(t[i].value.vin) <= ImagesOf(t)
  {
    if i == |t| - 1 {
    } else {
      ImagesOfContains(t[..|t| - 1], i);
    }
  }

  lemma SpendOneMore(t: Table<Tx>, spent: set<KeyImage>, tx: Tx)
    requires SpentExactly(t, spent) && FreshImages(spent, tx.vin)
    ensures SpentExactly(t + [Row(|t|, tx)], spent + Images(tx.vin))
  {
    var u := t + [Row(|t|, tx)];
    assert u[..|t|] == t;
    forall i | 0 <= i < |t| ensures Images(t[i].value.vin) !! Images(tx.vin) {
      ImagesOfContains(t, i);
    }
  }

  lemma RecordOneMore(t: TxTables, o: OutputTables, p: OutputTables, hash: Hash, tx: Tx, height: nat, indices: seq<nat>)
    requires DenseTxs(t) && IndexRecords(t, o) && hash !in t.indices
    requires Extends(o, p)
    requires |indices| == |tx.vout| && PointsToAll(p, hash, tx, height, indices, |tx.vout|)
    ensures IndexRecords(WithTx(t, hash, tx, height, indices), p)
  {}

  /** Every accepted transaction with supported inputs keeps the spent set exact. */
  lemma AddTransactionSpends(s: Store, hash: Hash, tx: Tx)
    requires SpentExactly(s.txs.txs, s.spentKeys) && Supported(tx)
    requires AddTransaction(s, hash, tx).Next?
    ensures SpentExactly(AddTransaction(s, hash, tx).state.txs.txs, AddTransaction(s, hash, tx).state.spentKeys)
  {
    SupportedSpends(s.spentKeys, tx);
    SpendOneMore(s.txs.txs, s.spentKeys, tx);
  }

  lemma AddTransactionsSpend(s: Store, hashes: seq<Hash>, txs: seq<Tx>)
    requires |txs| == |hashes| && SpentExactly(s.txs.txs, s.spentKeys)
    requires forall i :: 0 <= i < |txs| ==> Supported(txs[i])
    requires AddTransactions(s, hashes, txs, |txs|).Next?
    ensures var a := AddTransactions(s, hashes, txs, |txs|).state; SpentExactly(a.txs.txs, a.spentKeys)
  {
    var f := TxAdder(hashes, txs);
    var inv := (i: nat, x: Store) => SpentExactly(x.txs.txs, x.spentKeys);
    forall i: nat, x: Store | i < |txs| && inv(i, x) && f(x, i).Next?
      ensures inv(i + 1, f(x, i).state)
    {
      AddTransactionSpends(x, hashes[i], txs[i]);
    }
    UpInduction(f, s, |txs|, inv);
    assert inv(|txs|, AddTransactions(s, hashes, txs, |txs|).state);
  }

  lemma AddBlockSpends(s: Store, e: Entry)
    requires SpentExactly(s.txs.txs, s.spentKeys) && SupportedEntry(e)
    requires AddBlock(s, e).Next?
    ensures var a := AddBlock(s, e).state; SpentExactly(a.txs.txs, a.spentKeys)
  {
    AddTransactionSpends(s, e.block.minerTx.hash, e.block.minerTx);
    AddTransactionsSpend(AddTransaction(s, e.block.minerTx.hash, e.block.minerTx).state, e.block.txHashes, e.txs);
  }

  /** Every accepted transaction with supported inputs keeps the tables consistent. */
  lemma AddTransactionConsistent(s: Store, hash: Hash, tx: Tx)
    requires Consistent(s) && Supported(tx)
    requires AddTransaction(s, hash, tx).Next?
    ensures Consistent(AddTransaction(s, hash, tx).state)
  {
    var height := |s.chain.blocks|;
    SupportedSpends(s.spentKeys, tx);
    AllOutputs(s.outputs, hash, tx, height);
    var p := AddOutputs(s.outputs, hash, tx, height, |tx.vout|).state;
    RecordDense(s.txs, hash, tx, height, p.indices);
    RecordOneMore(s.txs, s.outputs, p.tables, hash, tx, height, p.indices);
    AddTransactionSpends(s, hash, tx);
  }

  lemma AddTransactionsConsistent(s: Store, hashes: seq<Hash>, txs: seq<Tx>)
    requires |txs| == |hashes|
    requires Consistent(s)
    requires forall i :: 0 <= i < |txs| ==> Supported(txs[i])
    requires AddTransactions(s, hashes, txs, |txs|).Next?
    ensures Consistent(AddTransactions(s, hashes, txs, |txs|).state)
  {
    var f := TxAdder(hashes, txs);
    var inv := (i: nat, x: Store) => Consistent(x);
    forall i: nat, x: Store | i < |txs| && inv(i, x) && f(x, i).Next?
      ensures inv(i + 1, f(x, i).state)
    {
      AddTransactionConsistent(x, hashes[i], txs[i]);
    }
    UpInduction(f, s, |txs|, inv);
    assert inv(|txs|, AddTransactions(s, hashes, txs, |txs|).state);
  }

  lemma AddBlockConsistent(s: Store, e: Entry)
    requires Consistent(s) && SupportedEntry(e)
    requires AddBlock(s, e).Next?
    ensures Consistent(AddBlock(s, e).state)
  {
    AddTransactionConsistent(s, e.block.minerTx.hash, e.block.minerTx);
    AddTransactionsConsistent(AddTransaction(s, e.block.minerTx.hash, e.block.minerTx).state, e.block.txHashes, e.txs);
    AddBlockDense(s, e);
    AddBlockHeights(s, e);
  }

  /** The rollback of add_transaction: with an unsupported input present, the
      store is left as it was exactly when no image behind that input was spent. */
  lemma RollbackRestoresIff(s: Store, hash: Hash, tx: Tx)
    requires !Supported(tx)
    requires AddTransaction(s, hash, tx).Next?
    ensures AddTransaction(s, hash, tx).state == s <==>
            forall i :: FirstScript(tx.vin) < i < |tx.vin| && tx.vin[i].ToKey? ==> tx.vin[i].image !in s.spentKeys
  {}
}
