/**
  What adding a block puts on the output blacklist: the recorded output indices of
  its staking transactions of version 2 or later, and nothing else.
 */
module StoreBlacklist {
  import opened Steps
  import opened Tables
  import opened Transactions
  import opened StoreSpec
  import opened StoreUndo
  import opened StoreAccount
  import opened StoreInvariant

  /** i is among the output indices recorded for the transaction with that hash. */
  ghost predicate Recorded(t: TxTables, hash: Hash, i: nat) {
    hash in t.indices && t.indices[hash].txId < |t.outputIndices| && i in t.outputIndices[t.indices[hash].txId].value
  }

  predicate Staking(tx: Tx) {
    tx.version >= 2 && tx.stakes
  }

  /** The records of the transactions filed so far stay as they are. */
  ghost predicate KeepsRecords(t: TxTables, u: TxTables) {
    && (forall h :: h in t.indices ==> h in u.indices)
    && (forall h, i :: h in t.indices ==> (Recorded(u, h, i) <==> Recorded(t, h, i)))
  }

  /** Every filed transaction has its record. */
  ghost predicate AllRecorded(t: TxTables) {
    DenseTxs(t) && forall h :: h in t.indices ==> t.indices[h].txId < |t.outputIndices|
  }

  lemma RecordAdded(t: TxTables, hash: Hash, tx: Tx, height: nat, indices: seq<nat>)
    requires AllRecorded(t) && hash !in t.indices
    ensures var u := WithTx(t, hash, tx, height, indices);
            && AllRecorded(u) && KeepsRecords(t, u) && hash in u.indices
            && forall i :: Recorded(u, hash, i) <==> i in indices
  {
    RecordDense(t, hash, tx, height, indices);
  }

  /** One transaction flags the indices recorded for it if it stakes, and none if not. */
  lemma FlagsOne(s: Store, hash: Hash, tx: Tx)
    requires AllRecorded(s.txs) && Supported(tx) && AddTransaction(s, hash, tx).Next?
    ensures var t := AddTransaction(s, hash, tx).state.txs;
            && AllRecorded(t) && KeepsRecords(s.txs, t) && hash in t.indices
            && forall i :: i in Flagged(s, hash, tx) <==> Staking(tx) && Recorded(t, hash, i)
  {
    var p := AddOutputs(s.outputs, hash, tx, |s.chain.blocks|, |tx.vout|);
    SupportedSpends(s.spentKeys, tx);
    RecordAdded(s.txs, hash, tx, |s.chain.blocks|, p.state.indices);
  }

  /** i is recorded for one of the first n transactions that stake. */
  ghost predicate StakedIn(t: TxTables, hashes: seq<Hash>, txs: seq<Tx>, n: nat, i: nat)
    requires n <= |hashes| == |txs|
  {
    exists k :: 0 <= k < n && Staking(txs[k]) && Recorded(t, hashes[k], i)
  }

  /** The set holds what is recorded for the first n transactions that stake. */
  ghost predicate Holds(t: TxTables, hashes: seq<Hash>, txs: seq<Tx>, n: nat, flagged: set<nat>)
    requires n <= |hashes| == |txs|
  {
    && (forall k :: 0 <= k < n ==> hashes[k] in t.indices)
    && forall i :: i in flagged <==> StakedIn(t, hashes, txs, n, i)
  }

  ghost predicate FlagsSoFar(s: Store, hashes: seq<Hash>, txs: seq<Tx>, n: nat, t: TxTables)
    requires n <= |hashes| == |txs|
  {
    AllRecorded(t) && KeepsRecords(s.txs, t) && Holds(t, hashes, txs, n, FlaggedBy(s, hashes, txs, n))
  }

  lemma FlagsOneMore(s: Store, hashes: seq<Hash>, txs: seq<Tx>, n: nat, x: Store)
    requires n < |hashes| == |txs| && Supported(txs[n])
    requires AddTransactions(s, hashes, txs, n) == Next(x) && FlagsSoFar(s, hashes, txs, n, x.txs)
    requires AddTransaction(x, hashes[n], txs[n]).Next?
    ensures FlagsSoFar(s, hashes, txs, n + 1, AddTransaction(x, hashes[n], txs[n]).state.txs)
  {
    FlagsOne(x, hashes[n], txs[n]);
    HoldsOneMore(x.txs, AddTransaction(x, hashes[n], txs[n]).state.txs, hashes, txs, n,
                 FlaggedBy(s, hashes, txs, n), Flagged(x, hashes[n], txs[n]));
  }

  lemma HoldsOneMore(t: TxTables, u: TxTables, hashes: seq<Hash>, txs: seq<Tx>, n: nat,
                     flagged: set<nat>, more: set<nat>)
    requires n < |hashes| == |txs| && KeepsRecords(t, u) && Holds(t, hashes, txs, n, flagged)
    requires hashes[n] in u.indices && forall i :: i in more <==> Staking(txs[n]) && Recorded(u, hashes[n], i)
    ensures Holds(u, hashes, txs, n + 1, flagged + more)
  {
    var both := flagged + more;
    forall i: nat ensures i in both <==> StakedIn(u, hashes, txs, n + 1, i) {
      StakedOneMore(t, u, hashes, txs, n, i);
    }
  }

  lemma StakedOneMore(t: TxTables, u: TxTables, hashes: seq<Hash>, txs: seq<Tx>, n: nat, i: nat)
    requires n < |hashes| == |txs| && KeepsRecords(t, u) && forall k :: 0 <= k < n ==> hashes[k] in t.indices
    ensures StakedIn(u, hashes, txs, n + 1, i) <==>
            StakedIn(t, hashes, txs, n, i) || (Staking(txs[n]) && Recorded(u, hashes[n], i))
  {
    if k :| 0 <= k < n && Staking(txs[k]) && Recorded(t, hashes[k], i) {
      assert Recorded(u, hashes[k], i);
    }
    if k :| 0 <= k < n && Staking(txs[k]) && Recorded(u, hashes[k], i) {
      assert Recorded(t, hashes[k], i);
    }
  }

  lemma {:induction false} FlagsAll(s: Store, hashes: seq<Hash>, txs: seq<Tx>, n: nat)
    requires n <= |hashes| == |txs| && AllRecorded(s.txs)
    requires forall k :: 0 <= k < |txs| ==> Supported(txs[k])
    requires AddTransactions(s, hashes, txs, n).Next?
    ensures FlagsSoFar(s, hashes, txs, n, AddTransactions(s, hashes, txs, n).state.txs)
  {
    if n == 0 {
    } else {
      FlagsAll(s, hashes, txs, n - 1);
      FlagsOneMore(s, hashes, txs, n - 1, AddTransactions(s, hashes, txs, n - 1).state);
    }
  }

  lemma EntryFlags(s: Store, e: Entry)
    requires AllRecorded(s.txs) && SupportedEntry(e) && |e.block.txHashes| == |e.txs|
    requires AddBlockTransactions(s, e).Next?
    ensures var (t, miner) := (AddBlockTransactions(s, e).state.txs, e.block.minerTx);
            forall i: nat :: i in FlaggedIn(s, e) <==>
              (Staking(miner) && Recorded(t, miner.hash, i)) || StakedIn(t, e.block.txHashes, e.txs, |e.txs|, i)
  {
    var miner := e.block.minerTx;
    var m := AddTransaction(s, miner.hash, miner).state;
    FlagsOne(s, miner.hash, miner);
    FlagsAll(m, e.block.txHashes, e.txs, |e.txs|);
  }

  /** An accepted block with supported inputs puts on the blacklist exactly the
      indices recorded for its staking transactions of version 2 or later. */
  lemma BlockFlags(s: Store, e: Entry)
    requires Consistent(s) && SupportedEntry(e) && AddBlock(s, e).Next?
    ensures var (t, miner) := (AddBlock(s, e).state.txs, e.block.minerTx);
            forall i: nat :: i in FlaggedIn(s, e) <==>
              || (miner.version >= 2 && miner.stakes && Recorded(t, miner.hash, i))
              || exists k :: 0 <= k < |e.txs| && e.txs[k].version >= 2 && e.txs[k].stakes
                             && Recorded(t, e.block.txHashes[k], i)
  {
    EntryFlags(s, e);
  }
}
