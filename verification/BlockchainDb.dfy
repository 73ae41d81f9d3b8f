/**
  The block store as an object whose methods change its tables in place, with
  the loops of the original.  A method that throws reports the error; the tables
  then hold whatever was written before, until the enclosing write transaction
  is aborted.
 */
module BlockchainDb {
  import opened Steps
  import opened Tables
  import opened Transactions
  import Spec = StoreSpec

  datatype Status = Fine | Threw(error: Spec.Error)

  lemma ImagesPrefix(vin: seq<Input>, i: nat)
    requires i < |vin|
    ensures Images(vin[..i + 1]) == Images(vin[..i]) + if vin[i].ToKey? then {vin[i].image} else {}
  {}

  /** Adding input i to images found fresh so far. */
  lemma FreshPrefix(spent: set<KeyImage>, vin: seq<Input>, i: nat)
    requires i < |vin| && Spec.FreshImages(spent, vin[..i])
    ensures Spec.FreshImages(spent, vin[..i + 1]) <==>
            (vin[i].ToKey? ==> vin[i].image !in spent + Images(vin[..i]))
  {}

  lemma FreshShorter(spent: set<KeyImage>, vin: seq<Input>, i: nat, u: nat)
    requires i <= u <= |vin| && Spec.FreshImages(spent, vin[..u])
    ensures Spec.FreshImages(spent, vin[..i])
  {}

  lemma FirstScriptIs(vin: seq<Input>, i: nat)
    requires i <= |vin| && forall k :: 0 <= k < i ==> !vin[k].Script?
    ensures i <= Spec.FirstScript(vin)
    ensures i < |vin| && vin[i].Script? ==> Spec.FirstScript(vin) == i
  {}

  class BlockchainDb {
    var blocks: Table<Spec.BlockRow>
    var heights: map<Hash, nat>
    var indices: map<Hash, Spec.TxIndex>
    var txs: Table<Tx>
    var outputIndices: Table<seq<nat>>
    var outputTxs: Table<Spec.OutTx>
    var amounts: map<nat, Table<Spec.OutKey>>
    var spentKeys: set<KeyImage>
    var blacklist: set<nat>

    ghost function Outputs(): Spec.OutputTables
      reads this
    {
      Spec.OutputTables(outputTxs, amounts)
    }

    ghost function State(): Spec.Store
      reads this
    {
      Spec.Store(Spec.BlockTables(blocks, heights), Spec.TxTables(indices, txs, outputIndices), Outputs(), spentKeys)
    }

    constructor ()
      ensures State() == Spec.EMPTY_STORE && blacklist == {}
    {
      blocks, heights, indices, txs, outputIndices := [], map[], map[], [], [];
      outputTxs, amounts, spentKeys, blacklist := [], map[], {}, {};
    }

    method AddSpentKey(image: KeyImage) returns (status: Status)
      modifies this`spentKeys
      ensures status == if image in old(spentKeys) then Threw(Spec.KeyImageExists) else Fine
      ensures spentKeys == old(spentKeys) + {image}
    {
      if image in spentKeys { return Threw(Spec.KeyImageExists); }
      spentKeys := spentKeys + {image};
      status := Fine;
    }

    /** Removes every image of the inputs, spent or not. */
    method RemoveSpentKeys(vin: seq<Input>)
      modifies this`spentKeys
      ensures spentKeys == old(spentKeys) - Images(vin)
    {
      for i := 0 to |vin|
        invariant spentKeys == old(spentKeys) - Images(vin[..i])
      {
        ImagesPrefix(vin, i);
        if vin[i].ToKey? { spentKeys := spentKeys - {vin[i].image}; }
      }
      assert vin[..|vin|] == vin;
    }

    /** The input loop of add_transaction. */
    method SpendInputs(vin: seq<Input>) returns (status: Status, supported: bool, minerTx: bool)
      modifies this`spentKeys
      ensures status.Fine? || status == Threw(Spec.KeyImageExists)
      ensures var outcome := Spec.SpendInputs(old(spentKeys), vin);
              && (status.Threw? <==> outcome.Rejected?)
              && (status.Fine? && supported <==> outcome.Spent?)
              && (status.Fine? ==> spentKeys == outcome.spent)
              && (status.Fine? && supported ==> (minerTx <==> exists k :: 0 <= k < |vin| && vin[k].Gen?))
    {
      ghost var spent := spentKeys;
      supported, minerTx := true, false;
      for i := 0 to |vin|
        invariant Spec.FreshImages(spent, vin[..i])
        invariant spentKeys == spent + Images(vin[..i])
        invariant forall k :: 0 <= k < i ==> !vin[k].Script?
        invariant minerTx <==> exists k :: 0 <= k < i && vin[k].Gen?
      {
        ImagesPrefix(vin, i);
        FreshPrefix(spent, vin, i);
        FirstScriptIs(vin, i);
        match vin[i]
        case ToKey(image) =>
          status := AddSpentKey(image);
          if status.Threw? {
            FirstScriptIs(vin, i + 1);
            if Spec.FreshImages(spent, vin[..Spec.FirstScript(vin)]) {
              FreshShorter(spent, vin, i + 1, Spec.FirstScript(vin));
            }
            return;
          }
        case Gen(_) =>
          minerTx := true;
        case Script =>
          RemoveSpentKeys(vin);
          AllPrefixImages(vin, i);
          return Fine, false, minerTx;
      }
      FirstScriptIs(vin, |vin|);
      assert vin[..|vin|] == vin;
      status := Fine;
    }

    static lemma AllPrefixImages(vin: seq<Input>, i: nat)
      requires i <= |vin|
      ensures Images(vin[..i]) <= Images(vin)
    {}

    // ----- outputs

    method AddOutput(txHash: Hash, amount: nat, target: Target, localIndex: nat, unlockTime: nat,
                     commitment: Commitment) returns (status: Status, index: nat)
      modifies this`outputTxs, this`amounts
      ensures var b := Spec.Bucket(old(Outputs()), amount);
              && (status.Fine? <==> target.ToPubKey? && !(amount == 0 && commitment.NoCommitment?) && CanAppend(b, |b|))
              && (status.Threw? ==> status.error == Spec.DbError)
              && (status.Fine? ==>
                    var id := NextKey(old(outputTxs));
                    var kept := if amount == 0 then commitment else NoCommitment;
                    var key := Spec.OutKey(id, target.key, unlockTime, |blocks|, kept);
                    && index == |b|
                    && outputTxs == old(outputTxs) + [Row(id, Spec.OutTx(txHash, localIndex))]
                    && amounts == Spec.SetBucket(old(Outputs()), amount, b + [Row(|b|, key)]))
    {
      index := 0;
      if target.OtherTarget? || (amount == 0 && commitment.NoCommitment?) { return Threw(Spec.DbError), index; }
      var id := NextKey(outputTxs);
      outputTxs := outputTxs + [Row(id, Spec.OutTx(txHash, localIndex))];
      var bucket: Table<Spec.OutKey> := [];
      if amount in amounts {
        bucket := amounts[amount];
        index := |bucket|;
      }
      if !CanAppend(bucket, index) { return Threw(Spec.DbError), index; }
      var kept := if amount == 0 then commitment else NoCommitment;
      amounts := amounts[amount := bucket + [Row(index, Spec.OutKey(id, target.key, unlockTime, |blocks|, kept))]];
      status := Fine;
    }

    method RemoveOutput(amount: nat, index: nat) returns (status: Status)
      modifies this`outputTxs, this`amounts
      ensures status.Fine? <==> Spec.HasOutput(old(Outputs()), amount, index)
      ensures status.Fine? ==> Outputs() == Spec.WithoutOutput(old(Outputs()), amount, index)
      ensures status.Threw? ==>
                status.error == if Has(Spec.Bucket(old(Outputs()), amount), index) then Spec.DbError else Spec.OutputDne
    {
      var bucket := if amount in amounts then amounts[amount] else [];
      if !Has(bucket, index) { return Threw(Spec.OutputDne); }
      var id := Get(bucket, index).outputId;
      if !Has(outputTxs, id) { return Threw(Spec.DbError); }
      outputTxs := Without(outputTxs, id);
      bucket := Without(bucket, index);
      amounts := if bucket == [] then amounts - {amount} else amounts[amount := bucket];
      status := Fine;
    }

    /** The output loop of add_transaction. */
    method AddOutputs(hash: Hash, tx: Tx, minerTx: bool) returns (status: Status, placed: seq<nat>)
      requires minerTx <==> HasGen(tx)
      modifies this`outputTxs, this`amounts
      ensures var r := Spec.AddOutputs(old(Outputs()), hash, tx, |blocks|, |tx.vout|);
              && (status.Fine? ==> r == Next(Spec.Placed(Outputs(), placed)))
              && (status.Threw? ==> r == Fail(status.error))
    {
      ghost var o := Outputs();
      placed := [];
      for i := 0 to |tx.vout|
        invariant Spec.AddOutputs(o, hash, tx, |blocks|, i) == Next(Spec.Placed(Outputs(), placed))
      {
        ghost var p := Spec.Placed(Outputs(), placed);
        var unlockTime := tx.unlockTime;
        if tx.version >= V3_PER_OUTPUT_UNLOCK_TIMES { unlockTime := tx.vout[i].unlockTime; }
        var amount, commitment := tx.vout[i].amount, NoCommitment;
        if minerTx && tx.version >= V2_RINGCT {
          amount, commitment := 0, ZeroCommit(tx.vout[i].amount);
        } else if tx.version >= V2_RINGCT {
          commitment := OutPk(tx.vout[i].mask);
        }
        var index;
        status, index := AddOutput(hash, amount, tx.vout[i].target, i, unlockTime, commitment);
        assert Spec.OutputAdder(hash, tx, |blocks|)(p, i) == Spec.AddOutput(p, hash, tx, i, |blocks|);
        if status.Threw? {
          UpFails(Spec.OutputAdder(hash, tx, |blocks|), Spec.Placed(o, []), i + 1, |tx.vout|);
          return;
        }
        placed := placed + [index];
      }
      status := Fine;
    }

    /** remove_tx_outputs. */
    method RemoveOutputs(tx: Tx, recorded: seq<nat>) returns (status: Status)
      modifies this`outputTxs, this`amounts
      ensures var r := Spec.RemoveOutputs(old(Outputs()), tx, recorded);
              && (status.Fine? ==> r.Next? && r.state.tables == Outputs())
              && (status.Threw? ==> r == Fail(status.error))
    {
      if |recorded| < |tx.vout| { return Threw(Spec.DbError); }
      ghost var total := Spec.RemoveOutputs(Outputs(), tx, recorded);
      var asRct := tx.version >= V2_RINGCT && |tx.vin| == 1 && tx.vin[0].Gen?;
      for i := |tx.vout| downto 0
        invariant Down(Spec.OutputRemover(tx), Spec.Placed(Outputs(), recorded[..i]), i) == total
      {
        ghost var p := Spec.Placed(Outputs(), recorded[..i + 1]);
        assert Spec.OutputRemover(tx)(p, i) == Spec.RemoveOutput(p, tx, i);
        assert recorded[..i + 1][..i] == recorded[..i];
        var amount := if asRct then 0 else tx.vout[i].amount;
        status := RemoveOutput(amount, recorded[i]);
        if status.Threw? { return; }
      }
      status := Fine;
    }

    // ----- transactions

    method AddTransactionData(hash: Hash, tx: Tx) returns (status: Status, id: nat)
      modifies this`indices, this`txs
      ensures status == if hash in old(indices) then Threw(Spec.TxExists)
                        else if CanAppend(old(txs), |old(txs)|) then Fine else Threw(Spec.DbError)
      ensures status.Fine? ==>
                && id == |old(txs)|
                && indices == old(indices)[hash := Spec.TxIndex(id, tx.unlockTime, |blocks|)]
                && txs == old(txs) + [Row(id, tx)]
    {
      id := |txs|;
      if hash in indices { return Threw(Spec.TxExists), id; }
      if !CanAppend(txs, id) { return Threw(Spec.DbError), id; }
      indices := indices[hash := Spec.TxIndex(id, tx.unlockTime, |blocks|)];
      txs := txs + [Row(id, tx)];
      status := Fine;
    }

    method AddTransaction(hash: Hash, tx: Tx) returns (status: Status)
      modifies this`indices, this`txs, this`outputIndices, this`outputTxs, this`amounts, this`spentKeys, this`blacklist
      ensures var r := Spec.AddTransaction(old(State()), hash, tx);
              && (status.Fine? ==> r == Next(State()))
              && (status.Threw? ==> r == Fail(status.error))
      ensures blacklist == old(blacklist) + Spec.Flagged(old(State()), hash, tx)
    {
      ghost var s := State();
      var supported, minerTx;
      status, supported, minerTx := SpendInputs(tx.vin);
      if status.Threw? { return; }
      SupportedInputs(tx);
      if !supported { return; }
      var id;
      status, id := AddTransactionData(hash, tx);
      if status.Threw? { return; }
      var placed;
      status, placed := AddOutputs(hash, tx, minerTx);
      if status.Threw? {
        OutputsThrowDbError(s.outputs, hash, tx, |blocks|);
        return;
      }
      if tx.version >= V2_RINGCT && tx.stakes {
        blacklist := blacklist + set i | i in placed;
      }
      if !CanAppend(outputIndices, id) { return Threw(Spec.DbError); }
      outputIndices := outputIndices + [Row(id, placed)];
    }

    static lemma SupportedInputs(tx: Tx)
      ensures Supported(tx) <==> Spec.FirstScript(tx.vin) == |tx.vin|
    {}

    static lemma OutputsThrowDbError(o: Spec.OutputTables, hash: Hash, tx: Tx, height: nat)
      requires Spec.AddOutputs(o, hash, tx, height, |tx.vout|).Fail?
      ensures Spec.AddOutputs(o, hash, tx, height, |tx.vout|).error == Spec.DbError
    {
      var f := Spec.OutputAdder(hash, tx, height);
      UpFailsWith(f, Spec.Placed(o, []), |tx.vout|, Spec.DbError);
    }

    method RemoveTransaction(hash: Hash) returns (status: Status)
      modifies this`indices, this`txs, this`outputIndices, this`outputTxs, this`amounts, this`spentKeys
      ensures var r := Spec.RemoveTransaction(old(State()), hash);
              && (status.Fine? ==> r == Next(State()))
              && (status.Threw? ==> r == Fail(status.error))
    {
      if hash !in indices || !Has(txs, indices[hash].txId) { return Threw(Spec.TxDne); }
      var id := indices[hash].txId;
      var tx := Get(txs, id);
      RemoveSpentKeys(tx.vin);
      // remove_transaction_data
      txs := Without(txs, id);
      if !Has(outputIndices, id) { return Threw(Spec.DbError); }
      status := RemoveOutputs(tx, Get(outputIndices, id));
      if status.Threw? { return; }
      outputIndices := Without(outputIndices, id);
      indices := indices - {hash};
    }

    // ----- blocks

    method AddBlockRecord(block: Block, meta: BlockMeta, numRct: nat) returns (status: Status)
      modifies this`blocks, this`heights
      ensures var r := Spec.AddBlockRecord(old(Spec.BlockTables(blocks, heights)), block, meta, numRct);
              && (status.Fine? ==> r == Next(Spec.BlockTables(blocks, heights)))
              && (status.Threw? ==> r == Fail(status.error))
    {
      var height := |blocks|;
      if block.hash in heights { return Threw(Spec.BlockExists); }
      if height > 0 {
        if block.prevId !in heights { return Threw(Spec.DbError); }
        if heights[block.prevId] != height - 1 { return Threw(Spec.BlockParentDne); }
      }
      if !CanAppend(blocks, height) { return Threw(Spec.DbError); }
      var cumRct := numRct;
      if height > 0 {
        if !Has(blocks, height - 1) { return Threw(Spec.BlockDne); }
        cumRct := cumRct + Get(blocks, height - 1).cumRct;
      }
      blocks := blocks + [Row(height, Spec.BlockRow(block, meta, cumRct))];
      heights := heights[block.hash := height];
      status := Fine;
    }

    /** The loop over the outputs of one transaction in add_block. */
    static method CountZeroAmounts(tx: Tx, count: nat) returns (r: nat)
      ensures r == count + ZeroAmounts(tx, |tx.vout|)
    {
      r := count;
      for k := 0 to |tx.vout|
        invariant r == count + ZeroAmounts(tx, k)
      {
        if tx.vout[k].amount == 0 { r := r + 1; }
      }
    }

    static lemma NextTransaction(m: Spec.Store, hashes: seq<Hash>, added: seq<Tx>, i: nat, x: Spec.Store)
      requires i < |hashes| == |added| && Spec.AddTransactions(m, hashes, added, i) == Next(x)
      ensures Spec.AddTransactions(m, hashes, added, i + 1) == Spec.AddTransaction(x, hashes[i], added[i])
      ensures Spec.FlaggedBy(m, hashes, added, i + 1)
                == Spec.FlaggedBy(m, hashes, added, i) + Spec.Flagged(x, hashes[i], added[i])
    {}

    static lemma StopsAt(m: Spec.Store, hashes: seq<Hash>, added: seq<Tx>, i: nat)
      requires i <= |hashes| == |added| && Spec.AddTransactions(m, hashes, added, i).Fail?
      ensures Spec.AddTransactions(m, hashes, added, |added|) == Spec.AddTransactions(m, hashes, added, i)
    {
      UpFails(Spec.TxAdder(hashes, added), m, i, |added|);
    }

    /** The transaction loop of add_block; also counts outputs with amount 0. */
    method AddTransactions(hashes: seq<Hash>, added: seq<Tx>) returns (status: Status, zeroAmounts: nat)
      requires |hashes| == |added|
      modifies this`indices, this`txs, this`outputIndices, this`outputTxs, this`amounts, this`spentKeys, this`blacklist
      ensures Progress(old(State()), old(blacklist), hashes, added, |added|, status, zeroAmounts, State(), blacklist)
    {
      ghost var (m, flagged) := (State(), blacklist);
      status, zeroAmounts := Fine, 0;
      var i := 0;
      while i < |added| && status.Fine?
        invariant 0 <= i <= |added|
        invariant Progress(m, flagged, hashes, added, i, status, zeroAmounts, State(), blacklist)
      {
        status, zeroAmounts := AddNext(m, flagged, hashes, added, i, zeroAmounts);
        i := i + 1;
      }
    }

    /** After i transactions; or the loop has stopped with the error of the whole. */
    static ghost predicate Progress(m: Spec.Store, flagged: set<nat>, hashes: seq<Hash>, added: seq<Tx>, i: nat,
                                    status: Status, zeroAmounts: nat, x: Spec.Store, flagged': set<nat>)
      requires i <= |hashes| == |added|
    {
      match status
      case Fine =>
        && Spec.AddTransactions(m, hashes, added, i) == Next(x)
        && zeroAmounts == Spec.ZeroAmountsOf(added, i)
        && flagged' == flagged + Spec.FlaggedBy(m, hashes, added, i)
      case Threw(e) => Spec.AddTransactions(m, hashes, added, |added|) == Fail(e)
    }

    /** One round of that loop. */
    method AddNext(ghost m: Spec.Store, ghost flagged: set<nat>, hashes: seq<Hash>, added: seq<Tx>, i: nat, count: nat)
      returns (status: Status, zeroAmounts: nat)
      requires i < |hashes| == |added| && Progress(m, flagged, hashes, added, i, Fine, count, State(), blacklist)
      modifies this`indices, this`txs, this`outputIndices, this`outputTxs, this`amounts, this`spentKeys, this`blacklist
      ensures Progress(m, flagged, hashes, added, i + 1, status, zeroAmounts, State(), blacklist)
    {
      zeroAmounts := count;
      NextTransaction(m, hashes, added, i, State());
      status := AddTransaction(hashes[i], added[i]);
      if status.Threw? {
        StopsAt(m, hashes, added, i + 1);
      } else {
        zeroAmounts := CountZeroAmounts(added[i], zeroAmounts);
      }
    }

    /** add_block up to the block record; `numRct` is the count it passes on. */
    method AddBlockTransactions(e: Spec.Entry) returns (status: Status, numRct: nat)
      requires |e.block.txHashes| == |e.txs|
      modifies this`indices, this`txs, this`outputIndices, this`outputTxs, this`amounts, this`spentKeys, this`blacklist
      ensures var r := Spec.AddBlockTransactions(old(State()), e);
              && (status.Fine? ==> r == Next(State()) && numRct == Spec.NumRctOuts(e))
              && (status.Threw? ==> r == Fail(status.error))
      ensures status.Fine? ==> blacklist == old(blacklist) + Spec.FlaggedIn(old(State()), e)
    {
      numRct := 0;
      status := AddTransaction(e.block.minerTx.hash, e.block.minerTx);
      if status.Threw? { return; }
      if e.block.minerTx.version >= V2_RINGCT { numRct := |e.block.minerTx.vout|; }
      var zeroAmounts;
      status, zeroAmounts := AddTransactions(e.block.txHashes, e.txs);
      numRct := numRct + zeroAmounts;
    }

    /** add_block; `height` is the height the block was given. */
    method AddBlock(e: Spec.Entry) returns (status: Status, height: nat)
      modifies this
      ensures var r := Spec.AddBlock(old(State()), e);
              && (status.Fine? ==> r == Next(State()))
              && (status.Threw? ==> r == Fail(status.error))
      ensures height == |old(blocks)|
      ensures status.Fine? ==> blacklist == old(blacklist) + Spec.FlaggedIn(old(State()), e)
    {
      height := |blocks|;
      if |e.block.txHashes| != |e.txs| { return Threw(Spec.InconsistentSizes), height; }
      var numRct;
      status, numRct := AddBlockTransactions(e);
      if status.Threw? { return; }
      status := AddBlockRecord(e.block, e.meta, numRct);
    }

    /** pop_block; the popped transactions are appended last one first. */
    method PopBlock() returns (status: Status, block: Block, popped: seq<Tx>)
      modifies this
      ensures var r := Spec.PopBlock(old(State()));
              && (status.Fine? ==> r == Next(Spec.PoppedBlock(State(), block, popped)))
              && (status.Threw? ==> r == Fail(status.error) && State() == old(State()))
      ensures blacklist == old(blacklist)
    {
      var saved := (blocks, heights, indices, txs, outputIndices, outputTxs, amounts, spentKeys);
      status, block, popped := PopBlockUnguarded();
      if status.Threw? {
        blocks, heights, indices, txs := saved.0, saved.1, saved.2, saved.3;
        outputIndices, outputTxs, amounts, spentKeys := saved.4, saved.5, saved.6, saved.7;
      }
    }

    method PopBlockUnguarded() returns (status: Status, block: Block, popped: seq<Tx>)
      modifies this
      ensures var r := Spec.PopBlock(old(State()));
              && (status.Fine? ==> r == Next(Spec.PoppedBlock(State(), block, popped)))
              && (status.Threw? ==> r == Fail(status.error))
      ensures blacklist == old(blacklist)
    {
      popped := [];
      status, block := RemoveBlock();
      if status.Threw? { return; }
      status, popped := PopBlockTransactions(block);
    }

    /** pop_block after the block record: the transactions in reverse, then the miner's. */
    method PopBlockTransactions(block: Block) returns (status: Status, popped: seq<Tx>)
      modifies this`indices, this`txs, this`outputIndices, this`outputTxs, this`amounts, this`spentKeys
      ensures var r := Spec.PopBlockTransactions(old(State()), block);
              && (status.Fine? ==> r == Next(Spec.Popped(State(), popped)))
              && (status.Threw? ==> r == Fail(status.error))
    {
      status, popped := PopTransactions(block.txHashes);
      if status.Threw? { return; }
      status := RemoveTransaction(block.minerTx.hash);
    }

    /** get_top_block, then remove_block. */
    method RemoveBlock() returns (status: Status, block: Block)
      modifies this`blocks, this`heights
      ensures var c := old(Spec.BlockTables(blocks, heights));
              && (status.Fine? ==> && Spec.RemoveBlock(c) == Next(Spec.BlockTables(blocks, heights))
                                   && block == Spec.TopBlock(c))
              && (status.Threw? ==> Spec.RemoveBlock(c) == Fail(status.error))
    {
      block := Block(0, 0, 0, Tx(0, 0, [], [], 0, false), []);
      if |blocks| == 0 || !Has(blocks, |blocks| - 1) { return Threw(Spec.BlockDne), block; }
      block := Get(blocks, |blocks| - 1).block;
      if block.hash !in heights { return Threw(Spec.DbError), block; }
      heights := heights - {block.hash};
      blocks := Without(blocks, |blocks| - 1);
      status := Fine;
    }

    /** The transaction loop of pop_block. */
    method PopTransactions(hashes: seq<Hash>) returns (status: Status, popped: seq<Tx>)
      modifies this`indices, this`txs, this`outputIndices, this`outputTxs, this`amounts, this`spentKeys
      ensures var r := Spec.PopTransactions(old(State()), hashes, |hashes|);
              && (status.Fine? ==> r == Next(Spec.Popped(State(), popped)))
              && (status.Threw? ==> r == Fail(status.error))
    {
      popped := [];
      ghost var total := Spec.PopTransactions(State(), hashes, |hashes|);
      for i := |hashes| downto 0
        invariant Down(Spec.TxPopper(hashes), Spec.Popped(State(), popped), i) == total
      {
        ghost var p := Spec.Popped(State(), popped);
        assert Spec.TxPopper(hashes)(p, i) == Spec.PopTransaction(p, hashes[i]);
        if hashes[i] !in indices || !Has(txs, indices[hashes[i]].txId) { return Threw(Spec.DbError), popped; }
        popped := popped + [Get(txs, indices[hashes[i]].txId)];
        status := RemoveTransaction(hashes[i]);
        if status.Threw? { return; }
      }
      status := Fine;
    }
  }
}
