/**
  An LMDB table with integer keys: rows held in key order.  A put with
  MDB_APPEND / MDB_APPENDDUP is refused unless the new key is above the last
  one; a delete positions a cursor on a key and removes that row.
 */
module Tables {

  datatype Row<+V> = Row(key: nat, value: V)

  type Table<+V> = seq<Row<V>>

  /** Keys count up from zero without a gap. */
  ghost predicate Dense<V>(t: Table<V>) {
    forall i :: 0 <= i < |t| ==> t[i].key == i
  }

  predicate Has<V>(t: Table<V>, key: nat) {
    exists i :: 0 <= i < |t| && t[i].key == key
  }

  /** The row with the given key, the last one if there were several. */
  function Get<V>(t: Table<V>, key: nat): V
    requires Has(t, key)
  {
    if t[|t| - 1].key == key then t[|t| - 1].value else Get(t[..|t| - 1], key)
  }

  function Without<V>(t: Table<V>, key: nat): (r: Table<V>)
    requires Has(t, key)
    ensures |r| == |t| - 1
  {
    if t[|t| - 1].key == key then t[..|t| - 1] else Without(t[..|t| - 1], key) + [t[|t| - 1]]
  }

  predicate CanAppend<V>(t: Table<V>, key: nat) {
    t == [] || t[|t| - 1].key < key
  }

  function NextKey<V>(t: Table<V>): nat {
    if t == [] then 0 else t[|t| - 1].key + 1
  }

  /** The row just appended is the row found, and deleted, under its key. */
  lemma LastRow<V>(t: Table<V>, key: nat, value: V)
    ensures Has(t + [Row(key, value)], key)
    ensures Get(t + [Row(key, value)], key) == value
    ensures Without(t + [Row(key, value)], key) == t
  {
    assert (t + [Row(key, value)])[|t|].key == key;
    assert (t + [Row(key, value)])[..|t|] == t;
  }

  ghost predicate RowsIn<V>(t: Table<V>, u: Table<V>) {
    forall r :: r in t ==> r in u
  }

  lemma {:induction false} WithoutRows<V>(t: Table<V>, key: nat)
    requires Has(t, key)
    ensures RowsIn(Without(t, key), t)
  {
    var n := |t| - 1;
    assert forall r :: r in t[..n] ==> r in t;
    if t[n].key == key {
    } else {
      WithoutRows(t[..n], key);
    }
  }

  lemma DenseNext<V>(t: Table<V>)
    requires Dense(t)
    ensures NextKey(t) == |t| && CanAppend(t, |t|)
  {
    if t != [] { assert t[|t| - 1].key == |t| - 1; }
  }

  /** A dense table stays dense under its next key, and deleting that undoes it. */
  lemma AppendUndo<V>(t: Table<V>, value: V)
    requires Dense(t)
    ensures NextKey(t) == |t|
    ensures var u := t + [Row(|t|, value)];
            Dense(u) && Has(u, |t|) && Get(u, |t|) == value && Without(u, |t|) == t
  {
    LastRow(t, |t|, value);
    DenseNext(t);
  }

  lemma {:induction false} DenseGet<V>(t: Table<V>, key: nat)
    requires Dense(t)
    ensures Has(t, key) <==> key < |t|
    ensures Has(t, key) ==> Get(t, key) == t[key].value
  {
    if key < |t| { assert t[key].key == key; }
    if key < |t| - 1 { DenseGet(t[..|t| - 1], key); }
  }
}
