/** Transactions and blocks, as far as the block store looks at them. */
module Transactions {

  // Hashes, key images, public keys and masks are only ever compared.
  type Hash = nat
  type KeyImage = nat
  type PubKey = nat
  type Mask = nat

  const V2_RINGCT := 2
  const V3_PER_OUTPUT_UNLOCK_TIMES := 3

  /** `Script` stands for the two input kinds the store does not support. */
  datatype Input = ToKey(image: KeyImage) | Gen(height: nat) | Script

  datatype Target = ToPubKey(key: PubKey) | OtherTarget

  datatype Commitment = NoCommitment | ZeroCommit(amount: nat) | OutPk(mask: Mask)

  /** One output together with its entries of the parallel vectors
      `output_unlock_times` and `rct_signatures.outPk`. */
  datatype Output = Output(amount: nat, target: Target, unlockTime: nat, mask: Mask)

  /** `hash` is what get_transaction_hash computes; `stakes` says that the extra
      field names both a transaction secret key and a service node contributor. */
  datatype Tx = Tx(hash: Hash, version: nat, vin: seq<Input>, vout: seq<Output>,
                   unlockTime: nat, stakes: bool)

  datatype Block = Block(hash: Hash, prevId: Hash, timestamp: nat, minerTx: Tx, txHashes: seq<Hash>)

  datatype BlockMeta = BlockMeta(weight: nat, longTermWeight: nat, cumulativeDifficulty: nat, coins: nat)

  function Images(vin: seq<Input>): (r: set<KeyImage>) {
    set i | 0 <= i < |vin| && vin[i].ToKey? :: vin[i].image
  }

  predicate DistinctImages(vin: seq<Input>) {
    forall i, j :: 0 <= i < j < |vin| && vin[i].ToKey? && vin[j].ToKey? ==> vin[i].image != vin[j].image
  }

  predicate Supported(tx: Tx) {
    forall i :: 0 <= i < |tx.vin| ==> !tx.vin[i].Script?
  }

  predicate HasGen(tx: Tx) {
    exists i :: 0 <= i < |tx.vin| && tx.vin[i].Gen?
  }

  /** What add_transaction takes for a coinbase whose outputs go under amount 0. */
  predicate StoredAsRct(tx: Tx) {
    tx.version >= V2_RINGCT && HasGen(tx)
  }

  /** What remove_tx_outputs takes for such a coinbase. */
  predicate RemovedAsRct(tx: Tx) {
    tx.version >= V2_RINGCT && |tx.vin| == 1 && tx.vin[0].Gen?
  }

  function StoredAmount(tx: Tx, i: nat): nat
    requires i < |tx.vout|
  {
    if StoredAsRct(tx) then 0 else tx.vout[i].amount
  }

  function RemovedAmount(tx: Tx, i: nat): nat
    requires i < |tx.vout|
  {
    if RemovedAsRct(tx) then 0 else tx.vout[i].amount
  }

  /** Storing and removing agree on the amount bucket of every output. */
  predicate Shaped(tx: Tx) {
    StoredAsRct(tx) && |tx.vin| != 1 ==> forall i :: 0 <= i < |tx.vout| ==> tx.vout[i].amount == 0
  }

  function UnlockTime(tx: Tx, i: nat): nat
    requires i < |tx.vout|
  {
    if tx.version >= V3_PER_OUTPUT_UNLOCK_TIMES then tx.vout[i].unlockTime else tx.unlockTime
  }

  /** How many of the first n outputs go into the bucket of the given amount. */
  function StoredUnder(tx: Tx, amount: nat, n: nat): nat
    requires n <= |tx.vout|
  {
    if n == 0 then 0
    else StoredUnder(tx, amount, n - 1) + if StoredAmount(tx, n - 1) == amount then 1 else 0
  }

  function RemovedUnder(tx: Tx, amount: nat, n: nat): nat
    requires n <= |tx.vout|
  {
    if n == 0 then 0
    else RemovedUnder(tx, amount, n - 1) + if RemovedAmount(tx, n - 1) == amount then 1 else 0
  }

  /** Outputs whose own amount field is zero. */
  function ZeroAmounts(tx: Tx, n: nat): (r: nat)
    requires n <= |tx.vout|
    ensures r <= n
  {
    if n == 0 then 0
    else ZeroAmounts(tx, n - 1) + if tx.vout[n - 1].amount == 0 then 1 else 0
  }

  lemma ShapedAmounts(tx: Tx)
    ensures Shaped(tx) <==> forall i :: 0 <= i < |tx.vout| ==> StoredAmount(tx, i) == RemovedAmount(tx, i)
  {
    assert RemovedAsRct(tx) <==> StoredAsRct(tx) && |tx.vin| == 1;
    if !Shaped(tx) {
      var i :| 0 <= i < |tx.vout| && tx.vout[i].amount != 0;
      assert StoredAmount(tx, i) != RemovedAmount(tx, i);
    }
  }
}
