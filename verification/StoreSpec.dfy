/**
  What one call of the block store does to its tables, as functions on values.
  The amount buckets, the output list, the transaction tables and the block
  tables are separate records, since each step touches only one of them.
 */
module StoreSpec {
  import opened Steps
  import opened Tables
  import opened Transactions

  datatype Error =
    | KeyImageExists | TxExists | TxDne | OutputDne
    | BlockExists | BlockDne | BlockParentDne
    | DbError | InconsistentSizes

  datatype OutTx = OutTx(txHash: Hash, localIndex: nat)

  /** `commitment` is only kept in the amount-0 bucket. */
  datatype OutKey = OutKey(outputId: nat, key: PubKey, unlockTime: nat, height: nat, commitment: Commitment)

  /** `amounts[a]` is the bucket of amount a, keyed by amount index; a bucket
      whose last row is deleted disappears. */
  datatype OutputTables = OutputTables(outputTxs: Table<OutTx>, amounts: map<nat, Table<OutKey>>)

  datatype TxIndex = TxIndex(txId: nat, unlockTime: nat, blockId: nat)

  datatype TxTables = TxTables(indices: map<Hash, TxIndex>, txs: Table<Tx>, outputIndices: Table<seq<nat>>)

  datatype BlockRow = BlockRow(block: Block, meta: BlockMeta, cumRct: nat)

  datatype BlockTables = BlockTables(blocks: Table<BlockRow>, heights: map<Hash, nat>)

  datatype Store = Store(chain: BlockTables, txs: TxTables, outputs: OutputTables, spentKeys: set<KeyImage>)

  const EMPTY_STORE :=
    Store(BlockTables([], map[]), TxTables(map[], [], []), OutputTables([], map[]), {})

  // ----- key images

  function FirstScript(vin: seq<Input>): (r: nat)
    ensures r <= |vin|
    ensures r < |vin| ==> vin[r].Script?
    ensures forall i :: 0 <= i < r ==> !vin[i].Script?
  {
    if vin == [] then 0
    else
      var n := |vin| - 1;
      var r := FirstScript(vin[..n]);
      if r == n && !vin[n].Script? then n + 1 else r
  }

  predicate FreshImages(spent: set<KeyImage>, vin: seq<Input>) {
    DistinctImages(vin) && Images(vin) !! spent
  }

  datatype SpendOutcome =
    | Rejected
    | RolledBack(spent: set<KeyImage>)
    | Spent(spent: set<KeyImage>)

  /** The input loop of add_transaction: images before the first unsupported
      input are added; meeting one removes every image the transaction names. */
  function SpendInputs(spent: set<KeyImage>, vin: seq<Input>): SpendOutcome {
    var u := FirstScript(vin);
    if !FreshImages(spent, vin[..u]) then Rejected
    else if u < |vin| then RolledBack(spent - Images(vin))
    else Spent(spent + Images(vin))
  }

  // ----- outputs

  function Bucket(o: OutputTables, amount: nat): Table<OutKey> {
    if amount in o.amounts then o.amounts[amount] else []
  }

  function SetBucket(o: OutputTables, amount: nat, b: Table<OutKey>): map<nat, Table<OutKey>> {
    if b == [] then o.amounts - {amount} else o.amounts[amount := b]
  }

  function CommitmentOf(tx: Tx, i: nat): Commitment
    requires i < |tx.vout|
  {
    if StoredAsRct(tx) then ZeroCommit(tx.vout[i].amount)
    else if tx.version >= V2_RINGCT then OutPk(tx.vout[i].mask)
    else NoCommitment
  }

  /** add_output does not throw on output i. */
  predicate AcceptsOutput(o: OutputTables, tx: Tx, i: nat)
    requires i < |tx.vout|
  {
    && tx.vout[i].target.ToPubKey?
    && !(StoredAmount(tx, i) == 0 && CommitmentOf(tx, i).NoCommitment?)
    && CanAppend(Bucket(o, StoredAmount(tx, i)), |Bucket(o, StoredAmount(tx, i))|)
  }

  function OutKeyOf(o: OutputTables, tx: Tx, i: nat, height: nat): OutKey
    requires i < |tx.vout| && AcceptsOutput(o, tx, i)
  {
    OutKey(NextKey(o.outputTxs), tx.vout[i].target.key, UnlockTime(tx, i), height,
           if StoredAmount(tx, i) == 0 then CommitmentOf(tx, i) else NoCommitment)
  }

  /** Appends output i to the output list and to its amount bucket. */
  function WithOutput(o: OutputTables, txHash: Hash, tx: Tx, i: nat, height: nat): OutputTables
    requires i < |tx.vout| && AcceptsOutput(o, tx, i)
  {
    var b := Bucket(o, StoredAmount(tx, i));
    OutputTables(o.outputTxs + [Row(NextKey(o.outputTxs), OutTx(txHash, i))],
                 SetBucket(o, StoredAmount(tx, i), b + [Row(|b|, OutKeyOf(o, tx, i, height))]))
  }

  datatype Placed = Placed(tables: OutputTables, indices: seq<nat>)

  function AddOutput(p: Placed, txHash: Hash, tx: Tx, i: nat, height: nat): Step<Placed, Error> {
    if i < |tx.vout| && AcceptsOutput(p.tables, tx, i) then
      Next(Placed(WithOutput(p.tables, txHash, tx, i, height),
                  p.indices + [|Bucket(p.tables, StoredAmount(tx, i))|]))
    else Fail(DbError)
  }

  function OutputAdder(txHash: Hash, tx: Tx, height: nat): (Placed, nat) -> Step<Placed, Error> {
    (p: Placed, i: nat) => AddOutput(p, txHash, tx, i, height)
  }

  /** The output loop of add_transaction, over the first n outputs. */
  function AddOutputs(o: OutputTables, txHash: Hash, tx: Tx, height: nat, n: nat): Step<Placed, Error> {
    Up(OutputAdder(txHash, tx, height), Placed(o, []), n)
  }

  predicate HasOutput(o: OutputTables, amount: nat, index: nat) {
    Has(Bucket(o, amount), index) && Has(o.outputTxs, Get(Bucket(o, amount), index).outputId)
  }

  function WithoutOutput(o: OutputTables, amount: nat, index: nat): OutputTables
    requires HasOutput(o, amount, index)
  {
    OutputTables(Without(o.outputTxs, Get(Bucket(o, amount), index).outputId),
                 SetBucket(o, amount, Without(Bucket(o, amount), index)))
  }

  /** Takes output i off, whose recorded index is the last of those left. */
  function RemoveOutput(p: Placed, tx: Tx, i: nat): Step<Placed, Error> {
    if i >= |tx.vout| || i + 1 != |p.indices| then Fail(DbError)
    else if !Has(Bucket(p.tables, RemovedAmount(tx, i)), p.indices[i]) then Fail(OutputDne)
    else if !HasOutput(p.tables, RemovedAmount(tx, i), p.indices[i]) then Fail(DbError)
    else Next(Placed(WithoutOutput(p.tables, RemovedAmount(tx, i), p.indices[i]), p.indices[..i]))
  }

  function OutputRemover(tx: Tx): (Placed, nat) -> Step<Placed, Error> {
    (p: Placed, i: nat) => RemoveOutput(p, tx, i)
  }

  /** remove_tx_outputs: the outputs at the recorded indices, last one first. */
  function RemoveOutputs(o: OutputTables, tx: Tx, indices: seq<nat>): Step<Placed, Error> {
    if |indices| < |tx.vout| then Fail(DbError)
    else Down(OutputRemover(tx), Placed(o, indices[..|tx.vout|]), |tx.vout|)
  }

  // ----- transactions

  predicate HasTx(t: TxTables, hash: Hash) {
    hash in t.indices && Has(t.txs, t.indices[hash].txId)
  }

  function GetTx(t: TxTables, hash: Hash): Tx
    requires HasTx(t, hash)
  {
    Get(t.txs, t.indices[hash].txId)
  }

  predicate CanRecord(t: TxTables) {
    CanAppend(t.txs, |t.txs|) && CanAppend(t.outputIndices, |t.txs|)
  }

  /** add_transaction_data, then the index record that add_transaction writes last. */
  function WithTx(t: TxTables, hash: Hash, tx: Tx, height: nat, indices: seq<nat>): TxTables {
    TxTables(t.indices[hash := TxIndex(|t.txs|, tx.unlockTime, height)],
             t.txs + [Row(|t.txs|, tx)],
             t.outputIndices + [Row(|t.txs|, indices)])
  }

  predicate HasIndices(t: TxTables, hash: Hash) {
    HasTx(t, hash) && Has(t.outputIndices, t.indices[hash].txId)
  }

  function GetIndices(t: TxTables, hash: Hash): seq<nat>
    requires HasIndices(t, hash)
  {
    Get(t.outputIndices, t.indices[hash].txId)
  }

  function WithoutTx(t: TxTables, hash: Hash): TxTables
    requires HasIndices(t, hash)
  {
    TxTables(t.indices - {hash}, Without(t.txs, t.indices[hash].txId), Without(t.outputIndices, t.indices[hash].txId))
  }

  function AddTransaction(s: Store, hash: Hash, tx: Tx): Step<Store, Error> {
    match SpendInputs(s.spentKeys, tx.vin)
    case Rejected => Fail(KeyImageExists)
    case RolledBack(spent) => Next(s.(spentKeys := spent))
    case Spent(spent) =>
      if hash in s.txs.indices then Fail(TxExists)
      else if !CanRecord(s.txs) then Fail(DbError)
      else
        match AddOutputs(s.outputs, hash, tx, |s.chain.blocks|, |tx.vout|)
        case Fail(e) => Fail(e)
        case Next(p) => Next(Store(s.chain, WithTx(s.txs, hash, tx, |s.chain.blocks|, p.indices), p.tables, spent))
  }

  /** add_transaction gets past the output loop; only the index record is left to write. */
  predicate PlacesOutputs(s: Store, hash: Hash, tx: Tx) {
    && SpendInputs(s.spentKeys, tx.vin).Spent?
    && hash !in s.txs.indices && CanAppend(s.txs.txs, |s.txs.txs|)
    && AddOutputs(s.outputs, hash, tx, |s.chain.blocks|, |tx.vout|).Next?
  }

  /** The output indices add_transaction puts on the output blacklist. */
  function Flagged(s: Store, hash: Hash, tx: Tx): set<nat> {
    if PlacesOutputs(s, hash, tx) && tx.version >= V2_RINGCT && tx.stakes then
      set i | i in AddOutputs(s.outputs, hash, tx, |s.chain.blocks|, |tx.vout|).state.indices
    else {}
  }

  function RemoveTransaction(s: Store, hash: Hash): Step<Store, Error> {
    if !HasTx(s.txs, hash) then Fail(TxDne)
    else if !HasIndices(s.txs, hash) then Fail(DbError)
    else
      match RemoveOutputs(s.outputs, GetTx(s.txs, hash), GetIndices(s.txs, hash))
      case Fail(e) => Fail(e)
      case Next(p) =>
        Next(Store(s.chain, WithoutTx(s.txs, hash), p.tables, s.spentKeys - Images(GetTx(s.txs, hash).vin)))
  }

  function TxAdder(hashes: seq<Hash>, txs: seq<Tx>): (Store, nat) -> Step<Store, Error> {
    (s: Store, i: nat) =>
      if i < |hashes| && i < |txs| then AddTransaction(s, hashes[i], txs[i]) else Fail(InconsistentSizes)
  }

  /** The transaction loop of add_block, over the first n transactions. */
  function AddTransactions(s: Store, hashes: seq<Hash>, txs: seq<Tx>, n: nat): Step<Store, Error> {
    Up(TxAdder(hashes, txs), s, n)
  }

  /** What the first n transactions put on the output blacklist. */
  function FlaggedBy(s: Store, hashes: seq<Hash>, txs: seq<Tx>, n: nat): set<nat>
    requires n <= |hashes| == |txs|
  {
    if n == 0 then {}
    else
      var before := AddTransactions(s, hashes, txs, n - 1);
      FlaggedBy(s, hashes, txs, n - 1) + if before.Next? then Flagged(before.state, hashes[n - 1], txs[n - 1]) else {}
  }

  /** `txs` in the order they came off. */
  datatype Popped = Popped(store: Store, txs: seq<Tx>)

  function PopTransaction(p: Popped, hash: Hash): Step<Popped, Error> {
    if !HasTx(p.store.txs, hash) then Fail(DbError)
    else
      match RemoveTransaction(p.store, hash)
      case Fail(e) => Fail(e)
      case Next(s) => Next(Popped(s, p.txs + [GetTx(p.store.txs, hash)]))
  }

  function TxPopper(hashes: seq<Hash>): (Popped, nat) -> Step<Popped, Error> {
    (p: Popped, i: nat) => if i < |hashes| then PopTransaction(p, hashes[i]) else Fail(DbError)
  }

  /** The transaction loop of pop_block: the first n hashes, last one first. */
  function PopTransactions(s: Store, hashes: seq<Hash>, n: nat): Step<Popped, Error> {
    Down(TxPopper(hashes), Popped(s, []), n)
  }

  // ----- blocks

  datatype Entry = Entry(block: Block, meta: BlockMeta, txs: seq<Tx>)

  /** Zero-amount outputs of the first n transactions. */
  function ZeroAmountsOf(txs: seq<Tx>, n: nat): nat
    requires n <= |txs|
  {
    if n == 0 then 0 else ZeroAmountsOf(txs, n - 1) + ZeroAmounts(txs[n - 1], |txs[n - 1].vout|)
  }

  /** num_rct_outs as add_block counts it. */
  function NumRctOuts(e: Entry): nat {
    (if e.block.minerTx.version >= V2_RINGCT then |e.block.minerTx.vout| else 0) + ZeroAmountsOf(e.txs, |e.txs|)
  }

  function AddBlockRecord(c: BlockTables, block: Block, meta: BlockMeta, numRct: nat): Step<BlockTables, Error> {
    var height := |c.blocks|;
    if block.hash in c.heights then Fail(BlockExists)
    else if height > 0 && block.prevId !in c.heights then Fail(DbError)
    else if height > 0 && c.heights[block.prevId] != height - 1 then Fail(BlockParentDne)
    else if !CanAppend(c.blocks, height) then Fail(DbError)
    else if height > 0 && !Has(c.blocks, height - 1) then Fail(BlockDne)
    else
      var base := if height > 0 then Get(c.blocks, height - 1).cumRct else 0;
      Next(BlockTables(c.blocks + [Row(height, BlockRow(block, meta, numRct + base))],
                       c.heights[block.hash := height]))
  }

  predicate HasTop(c: BlockTables) {
    |c.blocks| > 0 && Has(c.blocks, |c.blocks| - 1)
  }

  function TopBlock(c: BlockTables): Block
    requires HasTop(c)
  {
    Get(c.blocks, |c.blocks| - 1).block
  }

  function RemoveBlock(c: BlockTables): Step<BlockTables, Error> {
    if !HasTop(c) then Fail(BlockDne)
    else if TopBlock(c).hash !in c.heights then Fail(DbError)
    else Next(BlockTables(Without(c.blocks, |c.blocks| - 1), c.heights - {TopBlock(c).hash}))
  }

  /** add_block up to the block record: miner transaction first, then the others. */
  function AddBlockTransactions(s: Store, e: Entry): Step<Store, Error> {
    match AddTransaction(s, e.block.minerTx.hash, e.block.minerTx)
    case Fail(error) => Fail(error)
    case Next(m) => AddTransactions(m, e.block.txHashes, e.txs, |e.txs|)
  }

  /** What an accepted block puts on the output blacklist. */
  function FlaggedIn(s: Store, e: Entry): set<nat>
    requires |e.block.txHashes| == |e.txs|
  {
    var m := AddTransaction(s, e.block.minerTx.hash, e.block.minerTx);
    Flagged(s, e.block.minerTx.hash, e.block.minerTx)
      + if m.Next? then FlaggedBy(m.state, e.block.txHashes, e.txs, |e.txs|) else {}
  }

  function AddBlock(s: Store, e: Entry): (r: Step<Store, Error>)
    ensures r.Next? ==> |e.block.txHashes| == |e.txs|
  {
    if |e.block.txHashes| != |e.txs| then Fail(InconsistentSizes)
    else
      match AddBlockTransactions(s, e)
      case Fail(error) => Fail(error)
      case Next(a) =>
        match AddBlockRecord(a.chain, e.block, e.meta, NumRctOuts(e))
        case Fail(error) => Fail(error)
        case Next(chain) => Next(a.(chain := chain))
  }

  /** pop_block after the block record: transactions last one first, then the miner's. */
  function PopBlockTransactions(s: Store, block: Block): Step<Popped, Error> {
    match PopTransactions(s, block.txHashes, |block.txHashes|)
    case Fail(e) => Fail(e)
    case Next(p) =>
      match RemoveTransaction(p.store, block.minerTx.hash)
      case Fail(e) => Fail(e)
      case Next(s1) => Next(Popped(s1, p.txs))
  }

  datatype PoppedBlock = PoppedBlock(store: Store, block: Block, txs: seq<Tx>)

  function PopBlock(s: Store): Step<PoppedBlock, Error> {
    match RemoveBlock(s.chain)
    case Fail(e) => Fail(e)
    case Next(chain) =>
      match PopBlockTransactions(s.(chain := chain), TopBlock(s.chain))
      case Fail(e) => Fail(e)
      case Next(p) => Next(PoppedBlock(p.store, TopBlock(s.chain), p.txs))
  }
}
