/**
  Exactly which transactions and blocks the store accepts, and what it throws at the
  others, told from the tables and the transactions as they are before the call.
 */
module StoreAccepts {
  import opened Steps
  import opened Tables
  import opened Transactions
  import opened StoreSpec
  import opened StoreUndo
  import opened StoreAccount
  import opened StoreInvariant

  // ----- outputs

  /** Every output goes to a key, and has a commitment or a non-zero amount. */
  predicate Storable(tx: Tx) {
    forall j :: 0 <= j < |tx.vout| ==> tx.vout[j].target.ToPubKey? && (tx.version >= 2 || tx.vout[j].amount > 0)
  }

  lemma AcceptsIff(o: OutputTables, tx: Tx, i: nat)
    requires DenseOutputs(o) && i < |tx.vout|
    ensures AcceptsOutput(o, tx, i) <==> tx.vout[i].target.ToPubKey? && (tx.version >= 2 || tx.vout[i].amount > 0)
  {
    var b := Bucket(o, StoredAmount(tx, i));
    DenseNext(b);
  }

  lemma OutputsStayDense(o: OutputTables, hash: Hash, tx: Tx, height: nat, n: nat)
    requires DenseOutputs(o) && AddOutputs(o, hash, tx, height, n).Next?
    ensures DenseOutputs(AddOutputs(o, hash, tx, height, n).state.tables)
  {
    var f := OutputAdder(hash, tx, height);
    var inv := (i: nat, p: Placed) => DenseOutputs(p.tables);
    forall i: nat, p: Placed | i < n && inv(i, p) && f(p, i).Next? ensures inv(i + 1, f(p, i).state) {
      OneDense(p.tables, hash, tx, i, height);
    }
    UpInduction(f, Placed(o, []), n, inv);
    assert inv(n, AddOutputs(o, hash, tx, height, n).state);
  }

  lemma OutputsIff(o: OutputTables, hash: Hash, tx: Tx, height: nat)
    requires DenseOutputs(o)
    ensures AddOutputs(o, hash, tx, height, |tx.vout|).Next? <==> Storable(tx)
  {
    var f := OutputAdder(hash, tx, height);
    var ok := (j: nat) =>
      j < |tx.vout| && tx.vout[j].target.ToPubKey? && (tx.version >= 2 || tx.vout[j].amount > 0);
    forall k: nat | k < |tx.vout| && Up(f, Placed(o, []), k).Next?
      ensures Up(f, Placed(o, []), k + 1).Next? <==> ok(k)
    {
      OutputsStayDense(o, hash, tx, height, k);
      AcceptsIff(Up(f, Placed(o, []), k).state.tables, tx, k);
    }
    UpIff(f, Placed(o, []), |tx.vout|, ok);
    assert forall j: nat :: j < |tx.vout| ==>
             ok(j) == (tx.vout[j].target.ToPubKey? && (tx.version >= 2 || tx.vout[j].amount > 0));
  }

  lemma OutputsError(o: OutputTables, hash: Hash, tx: Tx, height: nat)
    requires AddOutputs(o, hash, tx, height, |tx.vout|).Fail?
    ensures AddOutputs(o, hash, tx, height, |tx.vout|) == Fail(DbError)
  {
    UpFailsWith(OutputAdder(hash, tx, height), Placed(o, []), |tx.vout|, DbError);
  }

  // ----- one transaction

  /** The images of the first n inputs are unspent and distinct. */
  predicate NewImages(spent: set<KeyImage>, vin: seq<Input>, n: nat)
    requires n <= |vin|
  {
    && (forall i :: 0 <= i < n && vin[i].ToKey? ==> vin[i].image !in spent)
    && (forall i, j :: 0 <= i < j < n && vin[i].ToKey? && vin[j].ToKey? ==> vin[i].image != vin[j].image)
  }

  lemma NewImagesIff(spent: set<KeyImage>, vin: seq<Input>, n: nat)
    requires n <= |vin|
    ensures NewImages(spent, vin, n) <==> FreshImages(spent, vin[..n])
  {
    var v := vin[..n];
    if FreshImages(spent, v) {
      forall i | 0 <= i < n && vin[i].ToKey? ensures vin[i].image !in spent { assert v[i].image in Images(v); }
      forall i, j | 0 <= i < j < n && vin[i].ToKey? && vin[j].ToKey? ensures vin[i].image != vin[j].image {
        assert v[i] == vin[i] && v[j] == vin[j];
      }
    }
  }

  /** What add_transaction does on tables without gaps, for every transaction: an
      image before the first unsupported input that is spent or repeated; else an
      unsupported input; else a known hash; else an output that cannot be stored. */
  lemma AddTransactionOutcome(s: Store, hash: Hash, tx: Tx)
    requires DenseStore(s)
    ensures var (r, u) := (AddTransaction(s, hash, tx), FirstScript(tx.vin));
            if !NewImages(s.spentKeys, tx.vin, u) then r == Fail(KeyImageExists)
            else if u < |tx.vin| then r == Next(s.(spentKeys := s.spentKeys - Images(tx.vin)))
            else if hash in s.txs.indices then r == Fail(TxExists)
            else if !Storable(tx) then r == Fail(DbError)
            else r.Next?
  {
    var height := |s.chain.blocks|;
    NewImagesIff(s.spentKeys, tx.vin, FirstScript(tx.vin));
    RecordDense(s.txs, hash, tx, height, []);
    OutputsIff(s.outputs, hash, tx, height);
    if !Storable(tx) { OutputsError(s.outputs, hash, tx, height); }
  }

  // ----- the block record

  /** A block with that hash is on the chain. */
  predicate OnChain(c: BlockTables, hash: Hash) {
    exists k :: 0 <= k < |c.blocks| && c.blocks[k].value.block.hash == hash
  }

  lemma OnChainIff(c: BlockTables, hash: Hash)
    requires HeightsMatch(c)
    ensures OnChain(c, hash) <==> hash in c.heights
    ensures hash in c.heights && c.heights[hash] == |c.blocks| - 1 <==>
            c.blocks != [] && c.blocks[|c.blocks| - 1].value.block.hash == hash
  {
    if hash in c.heights { assert c.blocks[c.heights[hash]].value.block.hash == hash; }
  }

  /** What the record of a block does: it must be new, and its parent must be the top. */
  lemma RecordOutcome(c: BlockTables, block: Block, meta: BlockMeta, numRct: nat)
    requires Dense(c.blocks) && HeightsMatch(c)
    ensures var (r, n) := (AddBlockRecord(c, block, meta, numRct), |c.blocks|);
            if OnChain(c, block.hash) then r == Fail(BlockExists)
            else if n > 0 && !OnChain(c, block.prevId) then r == Fail(DbError)
            else if n > 0 && c.blocks[n - 1].value.block.hash != block.prevId then r == Fail(BlockParentDne)
            else
              && r.Next? && r.state.heights == c.heights[block.hash := n]
              && r.state.blocks ==
                 c.blocks + [Row(n, BlockRow(block, meta, numRct + if n > 0 then c.blocks[n - 1].value.cumRct else 0))]
  {
    OnChainIff(c, block.hash);
    OnChainIff(c, block.prevId);
    DenseNext(c.blocks);
    if |c.blocks| > 0 { DenseGet(c.blocks, |c.blocks| - 1); }
  }

  // ----- a block

  /** The transaction is new to the store: its hash unknown, its images unspent and
      distinct, its outputs storable. */
  predicate NewTx(s: Store, hash: Hash, tx: Tx) {
    hash !in s.txs.indices && NewImages(s.spentKeys, tx.vin, |tx.vin|) && Storable(tx)
  }

  /** The two have no hash and no image in common. */
  predicate Apart(hash: Hash, tx: Tx, hash': Hash, tx': Tx) {
    hash != hash' && Images(tx.vin) !! Images(tx'.vin)
  }

  lemma AddSupportedIff(s: Store, hash: Hash, tx: Tx)
    requires DenseStore(s) && Supported(tx)
    ensures AddTransaction(s, hash, tx).Next? <==> NewTx(s, hash, tx)
    ensures AddTransaction(s, hash, tx).Next? ==> DenseStore(AddTransaction(s, hash, tx).state)
  {
    AddTransactionOutcome(s, hash, tx);
    if AddTransaction(s, hash, tx).Next? {
      AddTransactionDense(s, hash, tx);
      OutputsStayDense(s.outputs, hash, tx, |s.chain.blocks|, |tx.vout|);
    }
  }

  /** After an accepted transaction another one is new if it was and the two are apart. */
  lemma StillNewIff(s: Store, hash: Hash, tx: Tx, hash': Hash, tx': Tx)
    requires Supported(tx) && AddTransaction(s, hash, tx).Next?
    ensures NewTx(AddTransaction(s, hash, tx).state, hash', tx') <==> NewTx(s, hash', tx') && Apart(hash, tx, hash', tx')
  {
    SupportedSpends(s.spentKeys, tx);
    var t := AddTransaction(s, hash, tx).state;
    assert t.spentKeys == s.spentKeys + Images(tx.vin);
    assert t.txs.indices.Keys == s.txs.indices.Keys + {hash};
    ImagesApartIff(s.spentKeys, tx, tx');
  }

  lemma ImagesApartIff(spent: set<KeyImage>, tx: Tx, tx': Tx)
    ensures NewImages(spent + Images(tx.vin), tx'.vin, |tx'.vin|) <==>
            NewImages(spent, tx'.vin, |tx'.vin|) && Images(tx.vin) !! Images(tx'.vin)
  {
    if NewImages(spent + Images(tx.vin), tx'.vin, |tx'.vin|) {
      forall x | x in Images(tx'.vin) ensures x !in Images(tx.vin) {}
    } else if NewImages(spent, tx'.vin, |tx'.vin|) {
      var i :| 0 <= i < |tx'.vin| && tx'.vin[i].ToKey? && tx'.vin[i].image in spent + Images(tx.vin);
      assert tx'.vin[i].image in Images(tx'.vin);
    }
  }

  /** Transaction k is new to the store and apart from those before it. */
  predicate NewAt(s: Store, hashes: seq<Hash>, txs: seq<Tx>, k: nat)
    requires |hashes| == |txs|
  {
    k < |txs| && NewTx(s, hashes[k], txs[k]) && forall i :: 0 <= i < k ==> Apart(hashes[i], txs[i], hashes[k], txs[k])
  }

  /** What is new after n accepted transactions. */
  ghost predicate NewAfter(s: Store, hashes: seq<Hash>, txs: seq<Tx>, n: nat, x: Store)
    requires |hashes| == |txs|
  {
    && n <= |txs| && DenseStore(x)
    && forall h, tx :: NewTx(x, h, tx) <==> NewTx(s, h, tx) && forall i :: 0 <= i < n ==> Apart(hashes[i], txs[i], h, tx)
  }

  lemma NewAfterStep(s: Store, hashes: seq<Hash>, txs: seq<Tx>, n: nat, x: Store)
    requires |hashes| == |txs| && n < |txs| && NewAfter(s, hashes, txs, n, x) && Supported(txs[n])
    requires AddTransaction(x, hashes[n], txs[n]).Next?
    ensures NewAfter(s, hashes, txs, n + 1, AddTransaction(x, hashes[n], txs[n]).state)
  {
    var y := AddTransaction(x, hashes[n], txs[n]).state;
    AddSupportedIff(x, hashes[n], txs[n]);
    forall h, tx
      ensures NewTx(y, h, tx) <==> NewTx(s, h, tx) && forall i :: 0 <= i < n + 1 ==> Apart(hashes[i], txs[i], h, tx)
    {
      StillNewIff(x, hashes[n], txs[n], h, tx);
    }
  }

  lemma AddsNewAfter(s: Store, hashes: seq<Hash>, txs: seq<Tx>, n: nat)
    requires |hashes| == |txs| && n <= |txs| && DenseStore(s)
    requires forall i :: 0 <= i < |txs| ==> Supported(txs[i])
    requires AddTransactions(s, hashes, txs, n).Next?
    ensures NewAfter(s, hashes, txs, n, AddTransactions(s, hashes, txs, n).state)
  {
    var f := TxAdder(hashes, txs);
    var inv := (i: nat, x: Store) => NewAfter(s, hashes, txs, i, x);
    forall i: nat, x: Store | i < n && inv(i, x) && f(x, i).Next? ensures inv(i + 1, f(x, i).state) {
      NewAfterStep(s, hashes, txs, i, x);
    }
    UpInduction(f, s, n, inv);
    assert inv(n, AddTransactions(s, hashes, txs, n).state);
  }

  lemma AddTransactionsIff(s: Store, hashes: seq<Hash>, txs: seq<Tx>)
    requires |hashes| == |txs| && DenseStore(s)
    requires forall i :: 0 <= i < |txs| ==> Supported(txs[i])
    ensures AddTransactions(s, hashes, txs, |txs|).Next? <==> forall k: nat :: k < |txs| ==> NewAt(s, hashes, txs, k)
  {
    var f := TxAdder(hashes, txs);
    var ok := (k: nat) => NewAt(s, hashes, txs, k);
    forall k: nat | k < |txs| && Up(f, s, k).Next? ensures Up(f, s, k + 1).Next? <==> ok(k) {
      AddsNewAfter(s, hashes, txs, k);
      AddSupportedIff(Up(f, s, k).state, hashes[k], txs[k]);
    }
    UpIff(f, s, |txs|, ok);
    assert forall k: nat :: ok(k) == NewAt(s, hashes, txs, k);
  }

  /** A block whose record and transactions are all new: its hash is not on the
      chain, its parent is the top, and its transactions, the miner's among them, are
      new to the store and apart from each other. */
  ghost predicate NewEntry(s: Store, e: Entry) {
    && |e.block.txHashes| == |e.txs|
    && !OnChain(s.chain, e.block.hash)
    && (s.chain.blocks != [] ==> s.chain.blocks[|s.chain.blocks| - 1].value.block.hash == e.block.prevId)
    && NewTx(s, e.block.minerTx.hash, e.block.minerTx)
    && forall k: nat :: k < |e.txs| ==>
         NewAt(s, e.block.txHashes, e.txs, k) && Apart(e.block.minerTx.hash, e.block.minerTx, e.block.txHashes[k], e.txs[k])
  }

  lemma TransactionsIff(s: Store, e: Entry)
    requires DenseStore(s) && SupportedEntry(e) && |e.block.txHashes| == |e.txs|
    ensures AddBlockTransactions(s, e).Next? <==>
            && NewTx(s, e.block.minerTx.hash, e.block.minerTx)
            && forall k: nat :: k < |e.txs| ==>
                 NewAt(s, e.block.txHashes, e.txs, k)
                 && Apart(e.block.minerTx.hash, e.block.minerTx, e.block.txHashes[k], e.txs[k])
  {
    var (hash, tx) := (e.block.minerTx.hash, e.block.minerTx);
    AddSupportedIff(s, hash, tx);
    if NewTx(s, hash, tx) {
      var m := AddTransaction(s, hash, tx).state;
      AddTransactionsIff(m, e.block.txHashes, e.txs);
      forall k: nat | k < |e.txs|
        ensures NewAt(m, e.block.txHashes, e.txs, k) <==>
                NewAt(s, e.block.txHashes, e.txs, k) && Apart(hash, tx, e.block.txHashes[k], e.txs[k])
      {
        StillNewIff(s, hash, tx, e.block.txHashes[k], e.txs[k]);
      }
    }
  }

  lemma ChainStays(s: Store, e: Entry)
    requires |e.block.txHashes| == |e.txs| && AddBlockTransactions(s, e).Next?
    ensures AddBlockTransactions(s, e).state.chain == s.chain
  {
    var m := AddTransaction(s, e.block.minerTx.hash, e.block.minerTx).state;
    var f := TxAdder(e.block.txHashes, e.txs);
    var inv := (i: nat, x: Store) => x.chain == s.chain;
    UpInduction(f, m, |e.txs|, inv);
    assert inv(|e.txs|, AddBlockTransactions(s, e).state);
  }

  lemma AddBlockWhen(s: Store, e: Entry)
    ensures AddBlock(s, e).Next? <==>
            && |e.block.txHashes| == |e.txs| && AddBlockTransactions(s, e).Next?
            && AddBlockRecord(s.chain, e.block, e.meta, NumRctOuts(e)).Next?
  {
    if |e.block.txHashes| == |e.txs| && AddBlockTransactions(s, e).Next? { ChainStays(s, e); }
  }

  /** On consistent tables a block with supported inputs is accepted if and only if it
      is new in every respect; a different number of hashes and transactions is an
      error of its own. */
  lemma AddBlockIff(s: Store, e: Entry)
    requires Consistent(s) && SupportedEntry(e)
    ensures AddBlock(s, e).Next? <==> NewEntry(s, e)
    ensures |e.block.txHashes| != |e.txs| ==> AddBlock(s, e) == Fail(InconsistentSizes)
  {
    AddBlockWhen(s, e);
    RecordOutcome(s.chain, e.block, e.meta, NumRctOuts(e));
    if |e.block.txHashes| == |e.txs| { TransactionsIff(s, e); }
  }
}
