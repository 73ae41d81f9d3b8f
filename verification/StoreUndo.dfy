/**
  pop_block against add_block: popping right after an accepted add puts every
  table back if each transaction of the block has supported inputs only and is
  filed and unfiled under the same amounts.  Nothing is asked of the tables but
  that no bucket is kept empty; they may have gaps.
 */
module StoreUndo {
  import opened Sequences
  import opened Steps
  import opened Tables
  import opened Transactions
  import opened StoreSpec

  /** A bucket whose last row is deleted is gone. */
  ghost predicate NoEmptyBucket(o: OutputTables) {
    forall a :: a in o.amounts ==> o.amounts[a] != []
  }

  /** Transactions that remove_transaction undoes. */
  predicate Clean(tx: Tx) {
    Supported(tx) && Shaped(tx)
  }

  predicate SupportedEntry(e: Entry) {
    Supported(e.block.minerTx) && forall i :: 0 <= i < |e.txs| ==> Supported(e.txs[i])
  }

  predicate ShapedEntry(e: Entry) {
    Shaped(e.block.minerTx) && forall i :: 0 <= i < |e.txs| ==> Shaped(e.txs[i])
  }

  predicate CleanEntry(e: Entry) {
    SupportedEntry(e) && ShapedEntry(e)
  }

  // ----- one output

  lemma UndoBucket(o: OutputTables, tables: OutputTables, amount: nat, key: OutKey)
    requires NoEmptyBucket(o)
    requires tables.amounts == SetBucket(o, amount, Bucket(o, amount) + [Row(|Bucket(o, amount)|, key)])
    ensures NoEmptyBucket(tables)
    ensures Bucket(tables, amount) == Bucket(o, amount) + [Row(|Bucket(o, amount)|, key)]
    ensures SetBucket(tables, amount, Bucket(o, amount)) == o.amounts
  {}

  lemma UndoOutput(o: OutputTables, txHash: Hash, tx: Tx, i: nat, height: nat)
    requires i < |tx.vout|
    requires NoEmptyBucket(o) && AcceptsOutput(o, tx, i)
    ensures var tables := WithOutput(o, txHash, tx, i, height);
            var (amount, index) := (StoredAmount(tx, i), |Bucket(o, StoredAmount(tx, i))|);
            && NoEmptyBucket(tables)
            && HasOutput(tables, amount, index)
            && WithoutOutput(tables, amount, index) == o
  {
    var tables := WithOutput(o, txHash, tx, i, height);
    var (amount, key, id) := (StoredAmount(tx, i), OutKeyOf(o, tx, i, height), NextKey(o.outputTxs));
    var b := Bucket(o, amount);
    LastRow(o.outputTxs, id, OutTx(txHash, i));
    LastRow(b, |b|, key);
    UndoBucket(o, tables, amount, key);
    assert key.outputId == id;
    assert tables.outputTxs == o.outputTxs + [Row(id, OutTx(txHash, i))];
  }

  // ----- the outputs of one transaction

  ghost predicate OnTheWay(o: OutputTables, txHash: Hash, tx: Tx, height: nat, i: nat, p: Placed) {
    AddOutputs(o, txHash, tx, height, i) == Next(p) && NoEmptyBucket(p.tables) && |p.indices| == i
  }

  lemma AddStays(o: OutputTables, txHash: Hash, tx: Tx, height: nat, i: nat, p: Placed)
    requires OnTheWay(o, txHash, tx, height, i, p)
    requires AddOutput(p, txHash, tx, i, height).Next?
    ensures OnTheWay(o, txHash, tx, height, i + 1, AddOutput(p, txHash, tx, i, height).state)
  {}

  lemma OutputsStay(o: OutputTables, txHash: Hash, tx: Tx, height: nat)
    requires NoEmptyBucket(o)
    requires AddOutputs(o, txHash, tx, height, |tx.vout|).Next?
    ensures forall i :: 0 <= i <= |tx.vout| ==>
              && AddOutputs(o, txHash, tx, height, i).Next?
              && OnTheWay(o, txHash, tx, height, i, AddOutputs(o, txHash, tx, height, i).state)
  {
    var f := OutputAdder(txHash, tx, height);
    var inv := (i: nat, p: Placed) => OnTheWay(o, txHash, tx, height, i, p);
    forall i: nat, p: Placed | i < |tx.vout| && inv(i, p) && f(p, i).Next?
      ensures inv(i + 1, f(p, i).state)
    {
      AddStays(o, txHash, tx, height, i, p);
    }
    UpInduction(f, Placed(o, []), |tx.vout|, inv);
  }

  lemma RemoveUndoesAddOutput(o: OutputTables, txHash: Hash, tx: Tx, height: nat, i: nat, q: Placed)
    requires i < |tx.vout| && Shaped(tx)
    requires AddOutputs(o, txHash, tx, height, i).Next?
    requires OnTheWay(o, txHash, tx, height, i, AddOutputs(o, txHash, tx, height, i).state)
    requires AddOutputs(o, txHash, tx, height, i + 1) == Next(q)
    ensures OutputRemover(tx)(q, i) == AddOutputs(o, txHash, tx, height, i)
  {
    var p := AddOutputs(o, txHash, tx, height, i).state;
    assert OutputAdder(txHash, tx, height)(p, i) == AddOutput(p, txHash, tx, i, height) == Next(q);
    UndoOutput(p.tables, txHash, tx, i, height);
    ShapedAmounts(tx);
    assert q.indices[..i] == p.indices;
  }

  lemma UndoOutputs(o: OutputTables, txHash: Hash, tx: Tx, height: nat)
    requires NoEmptyBucket(o) && Shaped(tx)
    requires AddOutputs(o, txHash, tx, height, |tx.vout|).Next?
    ensures var p := AddOutputs(o, txHash, tx, height, |tx.vout|).state;
            && NoEmptyBucket(p.tables)
            && |p.indices| == |tx.vout|
            && RemoveOutputs(p.tables, tx, p.indices) == Next(Placed(o, []))
  {
    OutputsStay(o, txHash, tx, height);
    var p := AddOutputs(o, txHash, tx, height, |tx.vout|).state;
    assert OnTheWay(o, txHash, tx, height, |tx.vout|, p);
    var g := OutputRemover(tx);
    var inv := (i: nat, q: Placed) => AddOutputs(o, txHash, tx, height, i) == Next(q);
    forall i: nat, q: Placed | i < |tx.vout| && inv(i + 1, q)
      ensures g(q, i).Next? && inv(i, g(q, i).state)
    {
      RemoveUndoesAddOutput(o, txHash, tx, height, i, q);
    }
    assert p.indices[..|tx.vout|] == p.indices;
    DownSucceeds(g, p, |tx.vout|, inv);
    assert inv(0, Down(g, p, |tx.vout|).state);
  }

  // ----- one transaction

  lemma UndoRecord(t: TxTables, hash: Hash, tx: Tx, height: nat, indices: seq<nat>)
    requires hash !in t.indices
    ensures var r := WithTx(t, hash, tx, height, indices);
            && HasIndices(r, hash) && GetTx(r, hash) == tx && GetIndices(r, hash) == indices
            && WithoutTx(r, hash) == t
  {
    LastRow(t.txs, |t.txs|, tx);
    LastRow(t.outputIndices, |t.txs|, indices);
    assert WithTx(t, hash, tx, height, indices).indices - {hash} == t.indices;
  }

  lemma SupportedSpends(spent: set<KeyImage>, tx: Tx)
    requires Supported(tx)
    ensures SpendInputs(spent, tx.vin) == if FreshImages(spent, tx.vin) then Spent(spent + Images(tx.vin)) else Rejected
  {}

  lemma UndoTransaction(s: Store, hash: Hash, tx: Tx)
    requires NoEmptyBucket(s.outputs) && Clean(tx)
    requires AddTransaction(s, hash, tx).Next?
    ensures var a := AddTransaction(s, hash, tx).state;
            && NoEmptyBucket(a.outputs)
            && a.chain == s.chain
            && HasTx(a.txs, hash) && GetTx(a.txs, hash) == tx
            && RemoveTransaction(a, hash) == Next(s)
  {
    SupportedSpends(s.spentKeys, tx);
    UndoOutputs(s.outputs, hash, tx, |s.chain.blocks|);
    var p := AddOutputs(s.outputs, hash, tx, |s.chain.blocks|, |tx.vout|).state;
    UndoRecord(s.txs, hash, tx, |s.chain.blocks|, p.indices);
    assert s.spentKeys + Images(tx.vin) - Images(tx.vin) == s.spentKeys;
  }

  // ----- the transactions of one block

  ghost predicate StoreOnTheWay(s: Store, hashes: seq<Hash>, txs: seq<Tx>, i: nat, x: Store) {
    AddTransactions(s, hashes, txs, i) == Next(x) && NoEmptyBucket(x.outputs) && x.chain == s.chain
  }

  lemma AddKeepsStore(s: Store, hashes: seq<Hash>, txs: seq<Tx>, i: nat, x: Store)
    requires i < |txs| == |hashes| && Clean(txs[i])
    requires StoreOnTheWay(s, hashes, txs, i, x)
    requires AddTransaction(x, hashes[i], txs[i]).Next?
    ensures StoreOnTheWay(s, hashes, txs, i + 1, AddTransaction(x, hashes[i], txs[i]).state)
  {
    UndoTransaction(x, hashes[i], txs[i]);
    assert TxAdder(hashes, txs)(x, i) == AddTransaction(x, hashes[i], txs[i]);
  }

  lemma StoresStay(s: Store, hashes: seq<Hash>, txs: seq<Tx>)
    requires |txs| == |hashes|
    requires NoEmptyBucket(s.outputs)
    requires forall i :: 0 <= i < |txs| ==> Clean(txs[i])
    requires AddTransactions(s, hashes, txs, |txs|).Next?
    ensures forall i :: 0 <= i <= |txs| ==>
              && AddTransactions(s, hashes, txs, i).Next?
              && StoreOnTheWay(s, hashes, txs, i, AddTransactions(s, hashes, txs, i).state)
  {
    var f := TxAdder(hashes, txs);
    var inv := (i: nat, x: Store) => StoreOnTheWay(s, hashes, txs, i, x);
    forall i: nat, x: Store | i < |txs| && inv(i, x) && f(x, i).Next?
      ensures inv(i + 1, f(x, i).state)
    {
      AddKeepsStore(s, hashes, txs, i, x);
    }
    UpInduction(f, s, |txs|, inv);
  }

  /** What is left when transactions i, i + 1, ... have come off again. */
  ghost predicate PoppedTo(s: Store, hashes: seq<Hash>, txs: seq<Tx>, i: nat, p: Popped) {
    i <= |txs| && AddTransactions(s, hashes, txs, i) == Next(p.store) && p.txs == Reversed(txs[i..|txs|])
  }

  lemma PopUndoesAddTransaction(s: Store, hashes: seq<Hash>, txs: seq<Tx>, i: nat, p: Popped)
    requires i < |txs| == |hashes| && Clean(txs[i])
    requires AddTransactions(s, hashes, txs, i).Next?
    requires StoreOnTheWay(s, hashes, txs, i, AddTransactions(s, hashes, txs, i).state)
    requires PoppedTo(s, hashes, txs, i + 1, p)
    ensures TxPopper(hashes)(p, i).Next?
    ensures PoppedTo(s, hashes, txs, i, TxPopper(hashes)(p, i).state)
  {
    var x := AddTransactions(s, hashes, txs, i).state;
    assert TxAdder(hashes, txs)(x, i) == AddTransaction(x, hashes[i], txs[i]) == AddTransactions(s, hashes, txs, i + 1);
    UndoTransaction(x, hashes[i], txs[i]);
    ReversedStep(txs, i, |txs|);
  }

  lemma UndoTransactions(s: Store, hashes: seq<Hash>, txs: seq<Tx>)
    requires |txs| == |hashes|
    requires NoEmptyBucket(s.outputs)
    requires forall i :: 0 <= i < |txs| ==> Clean(txs[i])
    requires AddTransactions(s, hashes, txs, |txs|).Next?
    ensures StoreOnTheWay(s, hashes, txs, |txs|, AddTransactions(s, hashes, txs, |txs|).state)
    ensures PopTransactions(AddTransactions(s, hashes, txs, |txs|).state, hashes, |txs|)
              == Next(Popped(s, Reversed(txs)))
  {
    OnTheWayAt(s, hashes, txs, |txs|);
    PopsBack(s, hashes, txs, AddTransactions(s, hashes, txs, |txs|).state);
  }

  lemma PopsBack(s: Store, hashes: seq<Hash>, txs: seq<Tx>, x: Store)
    requires |txs| == |hashes| && NoEmptyBucket(s.outputs)
    requires forall i :: 0 <= i < |txs| ==> Clean(txs[i])
    requires AddTransactions(s, hashes, txs, |txs|) == Next(x)
    ensures PopTransactions(x, hashes, |txs|) == Next(Popped(s, Reversed(txs)))
  {
    var g := TxPopper(hashes);
    var inv := (i: nat, p: Popped) => PoppedTo(s, hashes, txs, i, p);
    forall i: nat, p: Popped | i < |txs| && inv(i + 1, p)
      ensures g(p, i).Next? && inv(i, g(p, i).state)
    {
      OnTheWayAt(s, hashes, txs, i);
      PopUndoesAddTransaction(s, hashes, txs, i, p);
    }
    assert PoppedTo(s, hashes, txs, |txs|, Popped(x, []));
    DownSucceeds(g, Popped(x, []), |txs|, inv);
    PoppedAll(s, hashes, txs, Down(g, Popped(x, []), |txs|).state);
  }

  lemma OnTheWayAt(s: Store, hashes: seq<Hash>, txs: seq<Tx>, i: nat)
    requires i <= |txs| == |hashes| && NoEmptyBucket(s.outputs)
    requires forall k :: 0 <= k < |txs| ==> Clean(txs[k])
    requires AddTransactions(s, hashes, txs, |txs|).Next?
    ensures AddTransactions(s, hashes, txs, i).Next?
    ensures StoreOnTheWay(s, hashes, txs, i, AddTransactions(s, hashes, txs, i).state)
  {
    StoresStay(s, hashes, txs);
  }

  lemma PoppedAll(s: Store, hashes: seq<Hash>, txs: seq<Tx>, p: Popped)
    requires PoppedTo(s, hashes, txs, 0, p)
    ensures p == Popped(s, Reversed(txs))
  {
    assert txs[0..|txs|] == txs;
  }

  // ----- blocks

  lemma UndoBlockRecord(c: BlockTables, block: Block, meta: BlockMeta, numRct: nat)
    requires AddBlockRecord(c, block, meta, numRct).Next?
    ensures var r := AddBlockRecord(c, block, meta, numRct).state;
            && HasTop(r) && TopBlock(r) == block
            && RemoveBlock(r) == Next(c)
  {
    var r := AddBlockRecord(c, block, meta, numRct).state;
    var row := r.blocks[|c.blocks|].value;
    assert r.blocks == c.blocks + [Row(|c.blocks|, row)] && r.heights == c.heights[block.hash := |c.blocks|];
    UndoTop(c, r, row);
  }

  lemma UndoTop(c: BlockTables, r: BlockTables, row: BlockRow)
    requires r.blocks == c.blocks + [Row(|c.blocks|, row)]
    requires row.block.hash !in c.heights && r.heights == c.heights[row.block.hash := |c.blocks|]
    ensures HasTop(r) && TopBlock(r) == row.block && RemoveBlock(r) == Next(c)
  {
    LastRow(c.blocks, |c.blocks|, row);
    UndoHeight(c.heights, row.block.hash, |c.blocks|);
  }

  lemma UndoHeight(heights: map<Hash, nat>, hash: Hash, height: nat)
    requires hash !in heights
    ensures heights[hash := height] - {hash} == heights
  {}

  lemma UndoBlockTransactions(s: Store, e: Entry)
    requires |e.block.txHashes| == |e.txs|
    requires NoEmptyBucket(s.outputs) && CleanEntry(e)
    requires AddBlockTransactions(s, e).Next?
    ensures var a := AddBlockTransactions(s, e).state;
            && NoEmptyBucket(a.outputs)
            && a.chain == s.chain
            && PopBlockTransactions(a, e.block) == Next(Popped(s, Reversed(e.txs)))
  {
    UndoTransaction(s, e.block.minerTx.hash, e.block.minerTx);
    UndoTransactions(AddTransaction(s, e.block.minerTx.hash, e.block.minerTx).state, e.block.txHashes, e.txs);
  }

  /** Popping right after an accepted add gives back the block, its transactions
      last one first, and the store as it was. */
  lemma PopUndoesAdd(s: Store, e: Entry)
    requires NoEmptyBucket(s.outputs) && CleanEntry(e)
    requires AddBlock(s, e).Next?
    ensures NoEmptyBucket(AddBlock(s, e).state.outputs)
    ensures PopBlock(AddBlock(s, e).state) == Next(PoppedBlock(s, e.block, Reversed(e.txs)))
  {
    var a := AddBlockTransactions(s, e).state;
    UndoBlockTransactions(s, e);
    UndoBlockRecord(a.chain, e.block, e.meta, NumRctOuts(e));
    assert AddBlock(s, e).state.(chain := a.chain) == a;
  }
}
