/** Blocks and transactions on which the conditions of the store's theorems fail. */
module StoreExamples {
  import opened Steps
  import opened Tables
  import opened Transactions
  import opened StoreSpec
  import opened StoreUndo
  import opened StoreAccount
  import opened StoreInvariant
  import opened StoreRuns
  import opened StoreCount

  const OUTPUT := Output(5, ToPubKey(0), 0, 0)

  /** Two gen inputs: stored under amount 0, looked for under amount 5. */
  const TWO_GEN := Tx(1, V2_RINGCT, [Gen(0), Gen(0)], [OUTPUT], 0, false)

  /** A coinbase that is not the block's own. */
  const STRAY_COINBASE := Tx(2, V2_RINGCT, [Gen(0)], [OUTPUT], 0, false)

  const EMPTY_MINER := Tx(1, V2_RINGCT, [Gen(0)], [], 0, false)

  /** A miner transaction that spends instead of generating. */
  const SPENDING_MINER := Tx(1, V2_RINGCT, [ToKey(7)], [OUTPUT], 0, false)

  /** An unsupported input in front of an image that is spent already. */
  lemma RollbackUnspends(image: KeyImage)
    ensures SpendInputs({image}, [Script, ToKey(image)]) == RolledBack({})
  {
    var vin := [Script, ToKey(image)];
    assert FirstScript(vin) == 0;
    assert vin[1].image in Images(vin);
  }

  lemma AddOne(o: OutputTables, tx: Tx, height: nat)
    requires tx.vout == [OUTPUT] && StoredAsRct(tx) && o == OutputTables([], map[])
    ensures AddOutputs(o, tx.hash, tx, height, 1)
              == Next(Placed(OutputTables([Row(0, OutTx(tx.hash, 0))],
                                          map[0 := [Row(0, OutKey(0, 0, UnlockTime(tx, 0), height, ZeroCommit(5)))]]),
                             [0]))
  {
    var empty := Placed(o, []);
    assert Up(OutputAdder(tx.hash, tx, height), empty, 0) == Next(empty);
    var w := WithOutput(o, tx.hash, tx, 0, height);
    assert w.outputTxs == [Row(0, OutTx(tx.hash, 0))];
    assert Bucket(o, 0) + [Row(0, OutKeyOf(o, tx, 0, height))] == [Row(0, OutKeyOf(o, tx, 0, height))];
    assert w.amounts == map[0 := [Row(0, OutKeyOf(o, tx, 0, height))]];
    assert empty.indices + [|Bucket(o, 0)|] == [0];
  }

  lemma AddTwoGen() returns (a: Store)
    ensures AddTransaction(EMPTY_STORE, TWO_GEN.hash, TWO_GEN) == Next(a)
    ensures a.txs == WithTx(EMPTY_STORE.txs, TWO_GEN.hash, TWO_GEN, 0, [0]) && 5 !in a.outputs.amounts
  {
    var tx := TWO_GEN;
    assert tx.vin[0].Gen?;
    SupportedSpends({}, tx);
    AddOne(EMPTY_STORE.outputs, tx, 0);
    a := AddTransaction(EMPTY_STORE, tx.hash, tx).state;
  }

  lemma RemoveMisses(o: OutputTables, tx: Tx)
    requires tx == TWO_GEN && 5 !in o.amounts
    ensures RemoveOutputs(o, tx, [0]) == Fail(OutputDne)
  {
    assert [0][..1] == [0];
    assert OutputRemover(tx)(Placed(o, [0]), 0) == RemoveOutput(Placed(o, [0]), tx, 0) == Fail(OutputDne);
  }

  /** The transaction goes in and cannot come out again. */
  lemma TwoGenSticks()
    ensures Supported(TWO_GEN) && !Shaped(TWO_GEN)
    ensures AddTransaction(EMPTY_STORE, TWO_GEN.hash, TWO_GEN).Next?
    ensures RemoveTransaction(AddTransaction(EMPTY_STORE, TWO_GEN.hash, TWO_GEN).state, TWO_GEN.hash) == Fail(OutputDne)
  {
    assert TWO_GEN.vin[0].Gen?;
    var a := AddTwoGen();
    UndoRecord(EMPTY_STORE.txs, TWO_GEN.hash, TWO_GEN, 0, [0]);
    RemoveMisses(a.outputs, TWO_GEN);
  }

  /** The stray coinbase is stored under amount 0 and not counted. */
  lemma StrayCoinbaseUncounted(meta: BlockMeta)
    ensures var e := Entry(Block(3, 0, 0, EMPTY_MINER, [2]), meta, [STRAY_COINBASE]);
            && CleanEntry(e) && CoinbaseMiner(e) && !EntryCounted(e)
            && AddBlock(EMPTY_STORE, e).Next?
            && NumRctOuts(e) == 0 && ZeroSize(AddBlock(EMPTY_STORE, e).state.outputs) == 1
  {
    var e := Entry(Block(3, 0, 0, EMPTY_MINER, [2]), meta, [STRAY_COINBASE]);
    var m := AddMiner();
    var a := AddStray(m);
    var f := TxAdder([2], [STRAY_COINBASE]);
    assert Up(f, m, 0) == Next(m);
    assert f(m, 0) == AddTransaction(m, 2, STRAY_COINBASE);
    assert AddTransactions(m, [2], [STRAY_COINBASE], 1) == Next(a);
    assert STRAY_COINBASE.vin[0].Gen? && EMPTY_MINER.vin[0].Gen?;
    assert ZeroAmountsOf(e.txs, 0) == 0 && ZeroAmounts(STRAY_COINBASE, 0) == 0;
  }

  lemma AddMiner() returns (m: Store)
    ensures AddTransaction(EMPTY_STORE, 1, EMPTY_MINER) == Next(m)
    ensures m == Store(EMPTY_STORE.chain, WithTx(EMPTY_STORE.txs, 1, EMPTY_MINER, 0, []), EMPTY_STORE.outputs, {})
  {
    SupportedSpends({}, EMPTY_MINER);
    assert Images(EMPTY_MINER.vin) == {};
    m := AddTransaction(EMPTY_STORE, 1, EMPTY_MINER).state;
  }

  lemma AddStray(m: Store) returns (a: Store)
    requires m == Store(EMPTY_STORE.chain, WithTx(EMPTY_STORE.txs, 1, EMPTY_MINER, 0, []), EMPTY_STORE.outputs, {})
    ensures AddTransaction(m, 2, STRAY_COINBASE) == Next(a)
    ensures a.chain == EMPTY_STORE.chain && ZeroSize(a.outputs) == 1
  {
    SupportedSpends({}, STRAY_COINBASE);
    assert Images(STRAY_COINBASE.vin) == {};
    assert STRAY_COINBASE.vin[0].Gen?;
    AddOne(m.outputs, STRAY_COINBASE, 0);
    a := AddTransaction(m, 2, STRAY_COINBASE).state;
  }

  /** The output of a miner transaction without a gen input is counted and not
      stored under amount 0. */
  lemma SpendingMinerOvercounted(meta: BlockMeta)
    ensures var e := Entry(Block(3, 0, 0, SPENDING_MINER, []), meta, []);
            && CleanEntry(e) && EntryCounted(e) && !CoinbaseMiner(e)
            && AddBlock(EMPTY_STORE, e).Next?
            && NumRctOuts(e) == 1 && ZeroSize(AddBlock(EMPTY_STORE, e).state.outputs) == 0
  {
    var e := Entry(Block(3, 0, 0, SPENDING_MINER, []), meta, []);
    var m := AddSpendingMiner();
    assert AddTransactions(m, [], [], 0) == Next(m);
    assert SPENDING_MINER.vout[0].amount != 0;
    BlockCount(EMPTY_STORE, e);
    assert ZeroAmounts(SPENDING_MINER, 0) == 0;
    assert Stray(e) == 0 && Over(e) == 1;
  }

  lemma AddSpendingMiner() returns (m: Store)
    ensures AddTransaction(EMPTY_STORE, 1, SPENDING_MINER) == Next(m) && m.chain == EMPTY_STORE.chain
  {
    var tx := SPENDING_MINER;
    SupportedSpends({}, tx);
    var empty := Placed(EMPTY_STORE.outputs, []);
    assert Up(OutputAdder(1, tx, 0), empty, 0) == Next(empty);
    assert AcceptsOutput(EMPTY_STORE.outputs, tx, 0);
    assert OutputAdder(1, tx, 0)(empty, 0).Next?;
    m := AddTransaction(EMPTY_STORE, 1, tx).state;
  }

  // ----- a removal that hits the wrong output

  /** A transaction with one output of amount 5 that is stored as such. */
  const PLAIN := Tx(4, 1, [ToKey(9)], [OUTPUT], 0, false)

  const PLAIN_ROW := Row(0, OutKey(0, 0, 0, 0, NoCommitment))

  /** The row of the two-gen transaction's output, entered at the given height. */
  function GenRow(height: nat): Row<OutKey> {
    Row(0, OutKey(1, 0, 0, height, ZeroCommit(5)))
  }

  function AfterPlain(): OutputTables {
    OutputTables([Row(0, OutTx(4, 0))], map[5 := [PLAIN_ROW]])
  }

  function AfterBoth(height: nat): OutputTables {
    OutputTables([Row(0, OutTx(4, 0)), Row(1, OutTx(1, 0))], map[5 := [PLAIN_ROW], 0 := [GenRow(height)]])
  }

  function AfterRemoval(height: nat): OutputTables {
    OutputTables([Row(1, OutTx(1, 0))], map[0 := [GenRow(height)]])
  }

  lemma AddSingle(o: OutputTables, tx: Tx, height: nat)
    requires tx.vout == [OUTPUT] && AcceptsOutput(o, tx, 0) && Bucket(o, StoredAmount(tx, 0)) == []
    ensures AddOutputs(o, tx.hash, tx, height, 1) == Next(Placed(WithOutput(o, tx.hash, tx, 0, height), [0]))
  {
    var empty := Placed(o, []);
    assert Up(OutputAdder(tx.hash, tx, height), empty, 0) == Next(empty);
    assert empty.indices + [0] == [0];
  }

  lemma PlainOutputs()
    ensures AddOutputs(EMPTY_STORE.outputs, 4, PLAIN, 0, 1) == Next(Placed(AfterPlain(), [0]))
  {
    var o := EMPTY_STORE.outputs;
    AddSingle(o, PLAIN, 0);
    assert Bucket(o, 5) + [PLAIN_ROW] == [PLAIN_ROW];
    assert WithOutput(o, 4, PLAIN, 0, 0) == AfterPlain();
  }

  lemma BothOutputs(height: nat)
    ensures AddOutputs(AfterPlain(), 1, TWO_GEN, height, 1) == Next(Placed(AfterBoth(height), [0]))
  {
    var o := AfterPlain();
    assert TWO_GEN.vin[0].Gen?;
    AddSingle(o, TWO_GEN, height);
    assert Bucket(o, 0) + [GenRow(height)] == [GenRow(height)];
    assert WithOutput(o, 1, TWO_GEN, 0, height) == AfterBoth(height);
  }

  lemma OneRow<V>(key: nat, value: V)
    ensures var t := [Row(key, value)]; Has(t, key) && Get(t, key) == value && Without(t, key) == []
  {
    LastRow([], key, value);
    assert [] + [Row(key, value)] == [Row(key, value)];
  }

  lemma DropFirst(t: Table<OutTx>)
    requires t == [Row(0, OutTx(4, 0)), Row(1, OutTx(1, 0))]
    ensures Has(t, 0) && Without(t, 0) == [Row(1, OutTx(1, 0))]
  {
    OneRow(0, OutTx(4, 0));
    assert t[..1] == [Row(0, OutTx(4, 0))];
    assert [] + [t[1]] == [t[1]];
  }

  lemma WrongRow(o: OutputTables, height: nat)
    requires o == AfterBoth(height)
    ensures HasOutput(o, 5, 0) && WithoutOutput(o, 5, 0) == AfterRemoval(height)
  {
    OneRow(0, PLAIN_ROW.value);
    DropFirst(o.outputTxs);
    assert o.amounts - {5} == map[0 := [GenRow(height)]];
  }

  lemma HitsWrong(o: OutputTables, height: nat)
    requires o == AfterBoth(height)
    ensures RemoveOutputs(o, TWO_GEN, [0]) == Next(Placed(AfterRemoval(height), []))
  {
    var p := Placed(o, [0]);
    assert [0][..1] == [0] && [0][..0] == [];
    WrongRow(o, height);
    assert OutputRemover(TWO_GEN)(p, 0) == RemoveOutput(p, TWO_GEN, 0) == Next(Placed(AfterRemoval(height), []));
  }

  /** Stores in which the image of the plain transaction is spent. */
  function Holding(chain: BlockTables, txs: TxTables, outputs: OutputTables): Store {
    Store(chain, txs, outputs, {9})
  }

  function PlainTxs(): TxTables {
    WithTx(EMPTY_STORE.txs, 4, PLAIN, 0, [0])
  }

  lemma PlainTxsDense()
    ensures DenseTxs(PlainTxs()) && 1 !in PlainTxs().indices
  {
    RecordDense(EMPTY_STORE.txs, 4, PLAIN, 0, [0]);
  }

  lemma AddPlain()
    ensures AddTransaction(EMPTY_STORE, 4, PLAIN) == Next(Holding(EMPTY_STORE.chain, PlainTxs(), AfterPlain()))
  {
    SupportedSpends({}, PLAIN);
    assert PLAIN.vin[0].image == 9 && Images(PLAIN.vin) == {9};
    assert EMPTY_STORE.spentKeys + Images(PLAIN.vin) == {9};
    PlainOutputs();
  }

  lemma AddBoth(chain: BlockTables, t: TxTables, height: nat)
    requires height == |chain.blocks| && DenseTxs(t) && 1 !in t.indices
    ensures AddTransaction(Holding(chain, t, AfterPlain()), 1, TWO_GEN)
              == Next(Holding(chain, WithTx(t, 1, TWO_GEN, height, [0]), AfterBoth(height)))
  {
    SupportedSpends({9}, TWO_GEN);
    assert {9} + Images(TWO_GEN.vin) == {9};
    RecordDense(t, 1, TWO_GEN, height, [0]);
    BothOutputs(height);
  }

  lemma RemoveWrong(chain: BlockTables, t: TxTables, height: nat)
    requires 1 !in t.indices
    ensures RemoveTransaction(Holding(chain, WithTx(t, 1, TWO_GEN, height, [0]), AfterBoth(height)), 1)
              == Next(Holding(chain, t, AfterRemoval(height)))
  {
    assert {9} - Images(TWO_GEN.vin) == {9};
    UndoRecord(t, 1, TWO_GEN, height, [0]);
    HitsWrong(AfterBoth(height), height);
  }

  /** With an output of amount 5 in the store, removing the two-gen transaction
      succeeds: it takes off that output and leaves its own behind. */
  lemma WrongOutputRemoved() returns (s: Store, a: Store, r: Store)
    ensures AddTransaction(EMPTY_STORE, 4, PLAIN) == Next(s)
    ensures AddTransaction(s, 1, TWO_GEN) == Next(a)
    ensures RemoveTransaction(a, 1) == Next(r)
    ensures Alike(r, s) && s.outputs == AfterPlain() && r.outputs == AfterRemoval(0)
    ensures 5 in s.outputs.amounts && 5 !in r.outputs.amounts && 0 in r.outputs.amounts
  {
    var (c, t) := (EMPTY_STORE.chain, PlainTxs());
    s := Holding(c, t, AfterPlain());
    a := Holding(c, WithTx(t, 1, TWO_GEN, 0, [0]), AfterBoth(0));
    r := Holding(c, t, AfterRemoval(0));
    PlainTxsDense();
    AddPlain();
    AddBoth(c, t, 0);
    RemoveWrong(c, t, 0);
  }

  // ----- the run on which that happens

  function PlainEntry(meta: BlockMeta): Entry {
    Entry(Block(3, 0, 0, PLAIN, []), meta, [])
  }

  function TwoGenEntry(meta: BlockMeta): Entry {
    Entry(Block(6, 3, 0, TWO_GEN, []), meta, [])
  }

  /** The chain with the plain block on it. */
  function PlainChain(meta: BlockMeta): BlockTables {
    BlockTables([Row(0, BlockRow(PlainEntry(meta).block, meta, 0))], map[3 := 0])
  }

  lemma NoTransactions(s: Store)
    ensures AddTransactions(s, [], [], 0) == Next(s)
    ensures PopTransactions(s, [], 0) == Next(Popped(s, []))
  {}

  lemma AddPlainBlock(meta: BlockMeta)
    ensures AddBlock(EMPTY_STORE, PlainEntry(meta)) == Next(Holding(PlainChain(meta), PlainTxs(), AfterPlain()))
  {
    var e := PlainEntry(meta);
    AddPlain();
    NoTransactions(Holding(EMPTY_STORE.chain, PlainTxs(), AfterPlain()));
    var row := Row(0, BlockRow(e.block, meta, 0));
    assert EMPTY_STORE.chain.blocks + [row] == [row];
    assert EMPTY_STORE.chain.heights[3 := 0] == map[3 := 0];
  }

  lemma AddTwoGenBlock(meta: BlockMeta) returns (a: Store)
    ensures AddBlockTransactions(Holding(PlainChain(meta), PlainTxs(), AfterPlain()), TwoGenEntry(meta))
              == Next(Holding(PlainChain(meta), WithTx(PlainTxs(), 1, TWO_GEN, 1, [0]), AfterBoth(1)))
    ensures AddBlock(Holding(PlainChain(meta), PlainTxs(), AfterPlain()), TwoGenEntry(meta)) == Next(a)
  {
    var (c, e) := (PlainChain(meta), TwoGenEntry(meta));
    var s := Holding(c, PlainTxs(), AfterPlain());
    PlainTxsDense();
    AddBoth(c, PlainTxs(), 1);
    NoTransactions(Holding(c, WithTx(PlainTxs(), 1, TWO_GEN, 1, [0]), AfterBoth(1)));
    assert c.blocks[0].key == 0 && Has(c.blocks, 0);
    assert AddBlockRecord(c, e.block, meta, NumRctOuts(e)).Next?;
    a := AddBlock(s, e).state;
  }

  lemma PopTwoGenBlock(meta: BlockMeta, a: Store)
    requires AddBlockTransactions(Holding(PlainChain(meta), PlainTxs(), AfterPlain()), TwoGenEntry(meta))
               == Next(Holding(PlainChain(meta), WithTx(PlainTxs(), 1, TWO_GEN, 1, [0]), AfterBoth(1)))
    requires AddBlock(Holding(PlainChain(meta), PlainTxs(), AfterPlain()), TwoGenEntry(meta)) == Next(a)
    ensures PopBlock(a).Next?
    ensures PopBlock(a).state.store == Holding(PlainChain(meta), PlainTxs(), AfterRemoval(1))
  {
    var (c, e) := (PlainChain(meta), TwoGenEntry(meta));
    var b := Holding(c, WithTx(PlainTxs(), 1, TWO_GEN, 1, [0]), AfterBoth(1));
    PlainTxsDense();
    PopIsEntryPop(Holding(c, PlainTxs(), AfterPlain()), e, a);
    NoTransactions(b);
    RemoveWrong(c, PlainTxs(), 1);
  }

  /** A block with the plain miner transaction, a block with the two-gen one, and
      a pop: the output list is left with a gap. */
  lemma InconsistentRun(meta: BlockMeta, ops: seq<Op>)
    requires ops == [Add(PlainEntry(meta)), Add(TwoGenEntry(meta)), Pop]
    ensures SupportedOps(ops) && !ShapedPops(ops)
    ensures Run(ops).store.outputs == AfterRemoval(1) && !Consistent(Run(ops).store)
  {
    var s := Holding(PlainChain(meta), PlainTxs(), AfterPlain());
    AddPlainBlock(meta);
    var a := AddTwoGenBlock(meta);
    PopTwoGenBlock(meta, a);
    NotShaped(meta);
    BothSupported(ops, PlainEntry(meta), TwoGenEntry(meta));
    TwoAddsOnePop(ops, PlainEntry(meta), TwoGenEntry(meta), s, a, PopBlock(a).state.store);
    Gap(PopBlock(a).state.store);
  }

  lemma Gap(s: Store)
    requires s.outputs == AfterRemoval(1)
    ensures !Consistent(s)
  {
    assert s.outputs.outputTxs[0].key == 1;
  }

  lemma NotShaped(meta: BlockMeta)
    ensures SupportedEntry(PlainEntry(meta)) && SupportedEntry(TwoGenEntry(meta)) && !ShapedEntry(TwoGenEntry(meta))
  {
    assert TWO_GEN.vin[0].Gen? && TWO_GEN.vout[0].amount != 0;
  }

  lemma BothSupported(ops: seq<Op>, e1: Entry, e2: Entry)
    requires ops == [Add(e1), Add(e2), Pop] && SupportedEntry(e1) && SupportedEntry(e2)
    ensures SupportedOps(ops)
  {
    forall i | 0 <= i < |ops| && ops[i].Add? ensures SupportedEntry(ops[i].entry) {
      assert ops[i] == Add(e1) || ops[i] == Add(e2);
    }
  }

  lemma TwoAddsOnePop(ops: seq<Op>, e1: Entry, e2: Entry, s1: Store, s2: Store, s3: Store)
    requires ops == [Add(e1), Add(e2), Pop]
    requires AddBlock(EMPTY_STORE, e1) == Next(s1) && AddBlock(s1, e2) == Next(s2)
    requires PopBlock(s2).Next? && PopBlock(s2).state.store == s3
    ensures Run(ops).store == s3
    ensures ShapedPops(ops) ==> ShapedEntry(e2)
  {
    var l0 := Ledger(EMPTY_STORE, []);
    var l1 := AppliesAdd(l0, e1, s1);
    var l2 := AppliesAdd(l1, e2, s2);
    ThreeSteps(ops, l0, l1, l2, Apply(l2, Pop));
    PopsLast(ops, l2);
  }

  lemma AppliesAdd(l: Ledger, e: Entry, s: Store) returns (m: Ledger)
    requires AddBlock(l.store, e) == Next(s)
    ensures m == Apply(l, Add(e)) == Ledger(s, l.chain + [e])
  {
    m := Apply(l, Add(e));
  }

  lemma ThreeSteps(ops: seq<Op>, l0: Ledger, l1: Ledger, l2: Ledger, l3: Ledger)
    requires |ops| == 3 && l0 == Run([])
    requires l1 == Apply(l0, ops[0]) && l2 == Apply(l1, ops[1]) && l3 == Apply(l2, ops[2])
    ensures Run(ops[..2]) == l2 && Run(ops) == l3
  {
    assert ops[..0] == [] && ops[..3] == ops;
    RunStep(ops, 0);
    RunStep(ops, 1);
    RunStep(ops, 2);
  }

  lemma PopsLast(ops: seq<Op>, l: Ledger)
    requires |ops| == 3 && ops[2].Pop? && Run(ops[..2]) == l
    ensures ShapedPops(ops) ==> PopsShaped(l)
  {}
}
