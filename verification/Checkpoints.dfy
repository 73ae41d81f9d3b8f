/**
  The checkpoint table and the rule that a checkpoint becomes immutable once
  another one is stacked on it, or at once when it is hard-coded.
 */
module Checkpoints {
  import opened Sequences
  import opened Wrappers

  /** A stored checkpoint; one with signatures reads back as a service node's,
      one without as hard-coded. */
  datatype Checkpoint = Checkpoint(height: nat, blockHash: nat, signatures: nat) {
    predicate ServiceNode() {
      signatures > 0
    }
  }

  /** Rows in key order, one per height. */
  type Table = seq<Checkpoint>

  ghost predicate Sorted(t: Table) {
    forall i, j :: 0 <= i < j < |t| ==> t[i].height < t[j].height
  }

  /** How many rows have a height less than h. */
  function Below(t: Table, h: nat): (r: nat)
    ensures r <= |t|
  {
    if t == [] then 0 else Below(t[..|t| - 1], h) + if t[|t| - 1].height < h then 1 else 0
  }

  lemma {:induction false} BelowSplits(t: Table, h: nat)
    requires Sorted(t)
    ensures forall k :: 0 <= k < |t| ==> (t[k].height < h <==> k < Below(t, h))
  {
    if t == [] {
    } else {
      var n := |t| - 1;
      BelowSplits(t[..n], h);
      assert forall k :: 0 <= k < n ==> t[..n][k] == t[k];
      if t[n].height < h && n > 0 { assert t[..n][n - 1].height < h; }
    }
  }

  lemma BelowIs(t: Table, h: nat, r: nat)
    requires Sorted(t) && r <= |t|
    requires forall k :: 0 <= k < |t| ==> (t[k].height < h <==> k < r)
    ensures Below(t, h) == r
  {
    BelowSplits(t, h);
    var b := Below(t, h);
    assert r < |t| ==> t[r].height >= h;
    assert b < |t| ==> t[b].height >= h;
  }

  function Clamp(x: nat, lo: nat, hi: nat): nat {
    if x < lo then lo else if hi < x then hi else x
  }

  function Take<T>(s: seq<T>, num: nat): seq<T> {
    if num == 0 || |s| <= num then s else s[..num]
  }

  /** The rows between the two bounds, from `start` towards `end`, at most `num`
      of them unless `num` is 0; both bounds first moved into the table's span. */
  function Range(t: Table, start: nat, end: nat, num: nat): Table {
    if t == [] then []
    else
      var (bottom, top) := (t[0].height, t[|t| - 1].height);
      var (s, e) := (Clamp(start, bottom, top), Clamp(end, bottom, top));
      Take(if e >= s then Slice(t, s, e) else Reversed(Slice(t, e, s)), num)
  }

  function Slice(t: Table, lo: nat, hi: nat): Table {
    if Below(t, lo) <= Below(t, hi + 1) then t[Below(t, lo)..Below(t, hi + 1)] else []
  }

  lemma SliceBounds(t: Table, lo: nat, hi: nat)
    requires Sorted(t) && lo <= hi
    ensures Below(t, lo) <= Below(t, hi + 1)
  {
    BelowSplits(t, lo);
    BelowSplits(t, hi + 1);
    assert Below(t, hi + 1) < |t| ==> t[Below(t, hi + 1)].height > hi;
  }

  // ----- the range query as a loop over heights and a cursor

  predicate HasHeight(t: Table, h: nat) {
    Below(t, h) < |t| && t[Below(t, h)].height == h
  }

  /** The loop that looks for a first checkpoint height by height. */
  method FindFirst(t: Table, start: nat, end: nat) returns (found: bool, p: nat)
    requires Sorted(t)
    ensures found <==> exists k :: 0 <= k < |t| && (start <= t[k].height <= end || end <= t[k].height <= start)
    ensures found ==> p < |t|
    ensures found && end >= start ==> p == Below(t, start) && t[p].height <= end
    ensures found && end < start ==> p + 1 == Below(t, start + 1) && t[p].height >= end
  {
    var height := start;
    found, p := false, 0;
    while height != end
      invariant start <= height <= end || end <= height <= start
      invariant forall k :: 0 <= k < |t| ==> !(start <= t[k].height < height || height < t[k].height <= start)
      decreases if end >= height then end - height else height - end
    {
      BelowSplits(t, height);
      if HasHeight(t, height) {
        found, p := true, Below(t, height);
        FirstFound(t, start, height, p);
        return;
      }
      height := if end >= start then height + 1 else height - 1;
    }
    BelowSplits(t, end);
    if HasHeight(t, end) {
      found, p := true, Below(t, end);
      FirstFound(t, start, end, p);
    }
  }

  lemma FirstFound(t: Table, start: nat, height: nat, p: nat)
    requires Sorted(t) && p < |t| && t[p].height == height
    requires forall k :: 0 <= k < |t| ==> !(start <= t[k].height < height || height < t[k].height <= start)
    ensures height >= start ==> p == Below(t, start)
    ensures height <= start ==> p + 1 == Below(t, start + 1)
  {
    if height >= start { BelowIs(t, start, p); }
    if height <= start { BelowIs(t, start + 1, p + 1); }
  }

  /** Cursor steps forward from row p while fewer than `num` rows are taken. */
  method StepForward(t: Table, p: nat, hi: nat, num: nat) returns (result: Table)
    requires Sorted(t) && p < Below(t, hi + 1)
    ensures result == Take(t[p..Below(t, hi + 1)], num)
  {
    BelowSplits(t, hi + 1);
    ghost var b := Below(t, hi + 1);
    result := [t[p]];
    var pos := p + 1;
    while (num == 0 || |result| < num) && pos < |t|
      invariant p < pos <= |t|
      invariant result == t[p..if pos < b then pos else b]
      invariant num == 0 || |result| <= num
    {
      if t[pos].height <= hi { result := result + [t[pos]]; }
      pos := pos + 1;
    }
    assert num != 0 && |result| == num ==> t[p..b][..num] == result;
  }

  /** Cursor steps backward from row p. */
  method StepBackward(t: Table, p: nat, lo: nat, num: nat) returns (result: Table)
    requires Sorted(t) && Below(t, lo) <= p < |t|
    ensures result == Take(Reversed(t[Below(t, lo)..p + 1]), num)
  {
    BelowSplits(t, lo);
    ghost var a := Below(t, lo);
    result := [t[p]];
    var pos := p;
    while (num == 0 || |result| < num) && pos > 0
      invariant 0 <= pos <= p
      invariant result == Reversed(t[if a < pos then pos else a..p + 1])
      invariant num == 0 || |result| <= num
    {
      pos := pos - 1;
      ReversedStep(t, pos, p + 1);
      if t[pos].height >= lo { result := result + [t[pos]]; }
    }
    ReversedPrefix(t, a, if a < pos then pos else a, p + 1);
  }

  lemma ReversedPrefix(t: Table, lo: nat, mid: nat, hi: nat)
    requires lo <= mid <= hi <= |t|
    ensures Reversed(t[lo..hi])[..hi - mid] == Reversed(t[mid..hi])
  {}

  lemma RowBelow(t: Table, p: nat, x: nat)
    requires Sorted(t) && p < |t|
    ensures p < Below(t, x) <==> t[p].height < x
  {
    BelowSplits(t, x);
  }

  /** The query on bounds that lie in the table's span. */
  method RangeWithin(t: Table, s: nat, e: nat, num: nat) returns (result: Table)
    requires Sorted(t)
    ensures result == Take(if e >= s then Slice(t, s, e) else Reversed(Slice(t, e, s)), num)
  {
    var found, p := FindFirst(t, s, e);
    if !found {
      if e >= s { NothingBetween(t, s, e); } else { NothingBetween(t, e, s); }
      return [];
    }
    if e >= s {
      RowBelow(t, p, e + 1);
      result := StepForward(t, p, e, num);
    } else {
      RowBelow(t, p, e);
      result := StepBackward(t, p, e, num);
    }
  }

  method GetCheckpointsRange(t: Table, start: nat, end: nat, num: nat) returns (result: Table)
    requires Sorted(t)
    ensures result == Range(t, start, end, num)
  {
    if t == [] { return []; }
    var s := Clamp(start, t[0].height, t[|t| - 1].height);
    var e := Clamp(end, t[0].height, t[|t| - 1].height);
    result := RangeWithin(t, s, e, num);
  }

  lemma NothingBetween(t: Table, lo: nat, hi: nat)
    requires Sorted(t) && lo <= hi
    requires forall k :: 0 <= k < |t| ==> !(lo <= t[k].height <= hi)
    ensures Slice(t, lo, hi) == []
  {
    SliceBounds(t, lo, hi);
    BelowSplits(t, lo);
    BelowIs(t, hi + 1, Below(t, lo));
  }

  // ----- finality

  type Answer = Option<Checkpoint>

  /** get_immutable_checkpoint on the two checkpoints it asks for. */
  function Decide(found: Table): Answer {
    if found == [] then None
    else if !found[0].ServiceNode() then Some(found[0])
    else if |found| == 2 then Some(found[1])
    else None
  }

  function Immutable(t: Table, h: nat): Answer {
    Decide(Range(t, h, 0, 2))
  }

  method GetImmutableCheckpoint(t: Table, h: nat) returns (answer: Answer)
    requires Sorted(t)
    ensures answer == Immutable(t, h)
  {
    var found := GetCheckpointsRange(t, h, 0, 2);
    if |found| == 0 { return None; }
    if !found[0].ServiceNode() {
      answer := Some(found[0]);
    } else if |found| == 2 {
      answer := Some(found[1]);
    } else {
      answer := None;
    }
  }

  /** Final at height h: hard-coded, or with another checkpoint on top by then. */
  ghost predicate Final(t: Table, h: nat, c: Checkpoint) {
    c in t && c.height <= h && (c.signatures == 0 || exists d :: d in t && c.height < d.height <= h)
  }

  ghost predicate HighestFinal(t: Table, h: nat, answer: Answer) {
    match answer
    case None => forall c :: !Final(t, h, c)
    case Some(c) => Final(t, h, c) && forall d :: Final(t, h, d) ==> d.height <= c.height
  }

  /** What the range query brings back at or above the lowest checkpoint. */
  lemma TopTwo(t: Table, h: nat)
    requires Sorted(t) && t != [] && t[0].height <= h
    ensures 1 <= Below(t, h + 1) <= |t|
    ensures var k := Below(t, h + 1) - 1;
            Range(t, h, 0, 2) == if k == 0 then [t[0]] else [t[k], t[k - 1]]
  {
    var (bottom, top) := (t[0].height, t[|t| - 1].height);
    RowBelow(t, 0, h + 1);
    SameCount(t, h);
    BelowIs(t, bottom, 0);
    SliceOfTwo(t, Clamp(h, bottom, top), Below(t, h + 1) - 1);
  }

  lemma SameCount(t: Table, h: nat)
    requires Sorted(t) && t != [] && t[0].height <= h
    ensures Below(t, Clamp(h, t[0].height, t[|t| - 1].height) + 1) == Below(t, h + 1)
  {
    BelowSplits(t, h + 1);
    BelowIs(t, Clamp(h, t[0].height, t[|t| - 1].height) + 1, Below(t, h + 1));
  }

  lemma SliceOfTwo(t: Table, s: nat, k: nat)
    requires Sorted(t) && t != [] && t[0].height <= s
    requires k + 1 == Below(t, s + 1) && Below(t, t[0].height) == 0
    ensures Take(if t[0].height >= s then Slice(t, s, t[0].height) else Reversed(Slice(t, t[0].height, s)), 2)
              == if k == 0 then [t[0]] else [t[k], t[k - 1]]
  {
    assert Slice(t, t[0].height, s) == t[..k + 1];
    if s == t[0].height {
      BelowIs(t, s + 1, 1);
      assert t[..1] == [t[0]];
    } else {
      LastTwo(t, k);
    }
  }

  lemma LastTwo(t: Table, k: nat)
    requires k < |t|
    ensures Take(Reversed(t[..k + 1]), 2) == if k == 0 then [t[0]] else [t[k], t[k - 1]]
  {
    var r := Reversed(t[..k + 1]);
    assert |r| == k + 1 && r[0] == t[k];
    if k > 0 { assert r[1] == t[k - 1]; }
  }

  /** Below the lowest checkpoint the clamped query brings that one back. */
  lemma ClampedQuery(t: Table, h: nat)
    requires Sorted(t) && t != [] && h < t[0].height
    ensures Range(t, h, 0, 2) == [t[0]]
  {
    var bottom := t[0].height;
    assert Clamp(h, bottom, t[|t| - 1].height) == bottom == Clamp(0, bottom, t[|t| - 1].height);
    BelowIs(t, bottom, 0);
    BelowIs(t, bottom + 1, 1);
  }

  /** The query lies below a lowest checkpoint that is hard-coded. */
  predicate BelowHardCoded(t: Table, h: nat) {
    t != [] && h < t[0].height && t[0].signatures == 0
  }

  /** One hard-coded checkpoint at height 5, asked for at height 0: it is the
      answer although nothing at or below 0 is final. */
  lemma AnswerFromAbove(hash: nat)
    ensures var t := [Checkpoint(5, hash, 0)];
            && Sorted(t) && BelowHardCoded(t, 0)
            && Immutable(t, 0) == Some(Checkpoint(5, hash, 0))
            && !HighestFinal(t, 0, Immutable(t, 0))
  {
    var t := [Checkpoint(5, hash, 0)];
    ClampedQuery(t, 0);
  }

  /** The two-row lookback answers with the highest final checkpoint, or none
      when there is none, unless asked below a hard-coded lowest one. */
  lemma ImmutableIsHighestFinalIff(t: Table, h: nat)
    requires Sorted(t)
    ensures HighestFinal(t, h, Immutable(t, h)) <==> !BelowHardCoded(t, h)
  {
    if t == [] {
    } else if h < t[0].height {
      BelowLowest(t, h);
    } else {
      FromLowest(t, h);
    }
  }

  lemma BelowLowest(t: Table, h: nat)
    requires Sorted(t) && t != [] && h < t[0].height
    ensures HighestFinal(t, h, Immutable(t, h)) <==> t[0].signatures > 0
  {
    ClampedQuery(t, h);
    forall c | c in t ensures c.height > h {
      var i :| 0 <= i < |t| && t[i] == c;
    }
  }

  lemma FromLowest(t: Table, h: nat)
    requires Sorted(t) && t != [] && t[0].height <= h
    ensures HighestFinal(t, h, Immutable(t, h))
  {
    TopTwo(t, h);
    BelowSplits(t, h + 1);
    var k := Below(t, h + 1) - 1;
    assert forall i :: 0 <= i < |t| ==> (t[i].height <= h <==> i <= k);
    LookbackSuffices(t, h, k);
  }

  lemma LookbackSuffices(t: Table, h: nat, k: nat)
    requires Sorted(t) && k < |t|
    requires forall i :: 0 <= i < |t| ==> (t[i].height <= h <==> i <= k)
    ensures HighestFinal(t, h, Decide(if k == 0 then [t[0]] else [t[k], t[k - 1]]))
  {}

  // ----- finality over runs

  /** update_block_checkpoint: inserts, or replaces the row of that height. */
  function Put(t: Table, c: Checkpoint): Table {
    var k := Below(t, c.height);
    if k < |t| && t[k].height == c.height then t[k := c] else t[..k] + [c] + t[k..]
  }

  /** Not an overwrite of a hard-coded checkpoint by a service node's. */
  ghost predicate Allowed(t: Table, c: Checkpoint) {
    forall d :: d in t && d.height == c.height && d.signatures == 0 ==> c.signatures == 0
  }

  /** Every checkpoint is still there, and hard-coded ones still are. */
  ghost predicate Keeps(t: Table, u: Table) {
    forall c :: c in t ==> exists d :: d in u && d.height == c.height && (c.signatures == 0 ==> d.signatures == 0)
  }

  lemma PutHas(t: Table, c: Checkpoint)
    requires Sorted(t)
    ensures Sorted(Put(t, c))
    ensures forall d :: d in Put(t, c) <==> d == c || (d in t && d.height != c.height)
  {
    BelowSplits(t, c.height);
    var k := Below(t, c.height);
    var u := Put(t, c);
    if k < |t| && t[k].height == c.height {
      forall d | d in t && d.height != c.height ensures d in u {
        var i :| 0 <= i < |t| && t[i] == d;
        assert u[i] == d;
      }
      assert u[k] == c;
    } else {
      assert u[k] == c;
      forall d | d in u ensures d == c || d in t {}
    }
  }

  lemma PutKeeps(t: Table, c: Checkpoint)
    requires Sorted(t) && Allowed(t, c)
    ensures Sorted(Put(t, c)) && Keeps(t, Put(t, c))
  {
    PutHas(t, c);
    forall d | d in t
      ensures exists x :: x in Put(t, c) && x.height == d.height && (d.signatures == 0 ==> x.signatures == 0)
    {
      assert (if d.height == c.height then c else d) in Put(t, c);
    }
  }

  lemma KeepsTransitive(t: Table, u: Table, v: Table)
    requires Keeps(t, u) && Keeps(u, v)
    ensures Keeps(t, v)
  {
    forall c | c in t
      ensures exists d :: d in v && d.height == c.height && (c.signatures == 0 ==> d.signatures == 0)
    {
      var x :| x in u && x.height == c.height && (c.signatures == 0 ==> x.signatures == 0);
      var d :| d in v && d.height == x.height && (x.signatures == 0 ==> d.signatures == 0);
    }
  }

  /** What each table keeps of the one before, the last keeps of the first. */
  lemma {:induction false} KeepsThrough(tables: nat -> Table, i: nat, j: nat)
    requires i <= j && forall k: nat :: i <= k < j ==> Keeps(tables(k), tables(k + 1))
    ensures Keeps(tables(i), tables(j))
  {
    if i == j {
    } else {
      KeepsThrough(tables, i, j - 1);
      assert Keeps(tables(j - 1), tables(j - 1 + 1));
      KeepsTransitive(tables(i), tables(j - 1), tables(j));
    }
  }

  /** An answer that is neither lower than an earlier one nor gone. */
  predicate NotBack(before: Answer, after: Answer) {
    before.Some? ==> after.Some? && before.value.height <= after.value.height
  }

  lemma FinalKept(t: Table, h: nat, u: Table, h': nat, c: Checkpoint) returns (d: Checkpoint)
    requires Keeps(t, u) && h <= h' && Final(t, h, c)
    ensures Final(u, h', d) && d.height == c.height
  {
    d :| d in u && d.height == c.height && (c.signatures == 0 ==> d.signatures == 0);
    if c.signatures > 0 {
      var x :| x in t && c.height < x.height <= h;
      var y :| y in u && y.height == x.height && (x.signatures == 0 ==> y.signatures == 0);
      assert d.height < y.height <= h';
    }
  }

  lemma FinalityStays(t: Table, h: nat, u: Table, h': nat)
    requires Sorted(t) && Sorted(u) && Keeps(t, u) && h <= h'
    requires !BelowHardCoded(t, h)
    ensures NotBack(Immutable(t, h), Immutable(u, h'))
  {
    ImmutableIsHighestFinalIff(t, h);
    if Immutable(t, h).Some? {
      var d := FinalKept(t, h, u, h', Immutable(t, h).value);
      assert u[0].height <= d.height;
      ImmutableIsHighestFinalIff(u, h');
    }
  }

  /** Whatever is stored later and however far the chain grows, the answer never
      moves back, if and only if it was not asked below a hard-coded lowest one. */
  lemma FinalityStaysIff(t: Table, h: nat)
    requires Sorted(t)
    ensures (forall u: Table, h': nat :: Sorted(u) && Keeps(t, u) && h <= h' ==> NotBack(Immutable(t, h), Immutable(u, h')))
            <==> !BelowHardCoded(t, h)
  {
    if BelowHardCoded(t, h) {
      var u := MovesBack(t, h);
    } else {
      forall u: Table, h': nat | Sorted(u) && Keeps(t, u) && h <= h'
        ensures NotBack(Immutable(t, h), Immutable(u, h'))
      {
        FinalityStays(t, h, u, h');
      }
    }
  }

  /** A service node's checkpoint stored below makes the premature answer vanish. */
  lemma MovesBack(t: Table, h: nat) returns (u: Table)
    requires Sorted(t) && BelowHardCoded(t, h)
    ensures Sorted(u) && Keeps(t, u) && !NotBack(Immutable(t, h), Immutable(u, h))
  {
    var c := Checkpoint(h, 0, 1);
    u := [c] + t;
    ClampedQuery(t, h);
    BelowIs(u, h + 1, 1);
    TopTwo(u, h);
    assert Range(u, h, 0, 2) == [c];
    forall d | d in t ensures d in u {}
  }

  datatype Op = Store(checkpoint: Checkpoint) | Query(height: nat)

  function TableAfter(ops: seq<Op>): Table {
    if ops == [] then [] else StoreIn(TableAfter(ops[..|ops| - 1]), ops[|ops| - 1])
  }

  ghost predicate AllowedRun(ops: seq<Op>) {
    forall k :: 0 <= k < |ops| && ops[k].Store? ==> Allowed(TableAfter(ops[..k]), ops[k].checkpoint)
  }

  function StoreIn(t: Table, op: Op): Table {
    if op.Store? then Put(t, op.checkpoint) else t
  }

  lemma TableStep(ops: seq<Op>, j: nat)
    requires j < |ops|
    ensures TableAfter(ops[..j + 1]) == StoreIn(TableAfter(ops[..j]), ops[j])
  {
    assert ops[..j + 1][..j] == ops[..j];
  }

  lemma OpKeeps(t: Table, op: Op)
    requires Sorted(t) && (op.Store? ==> Allowed(t, op.checkpoint))
    ensures Sorted(StoreIn(t, op)) && Keeps(t, StoreIn(t, op))
  {
    if op.Store? { PutKeeps(t, op.checkpoint); }
  }

  lemma {:induction false} RunSorted(ops: seq<Op>, j: nat)
    requires AllowedRun(ops) && j <= |ops|
    ensures Sorted(TableAfter(ops[..j]))
  {
    if j == 0 {
    } else {
      RunSorted(ops, j - 1);
      TableStep(ops, j - 1);
      OpKeeps(TableAfter(ops[..j - 1]), ops[j - 1]);
    }
  }

  lemma RunKeepsOne(ops: seq<Op>, k: nat)
    requires AllowedRun(ops) && k < |ops|
    ensures Keeps(TableAfter(ops[..k]), TableAfter(ops[..k + 1]))
  {
    RunSorted(ops, k);
    TableStep(ops, k);
    OpKeeps(TableAfter(ops[..k]), ops[k]);
  }

  lemma RunKeeps(ops: seq<Op>, i: nat, j: nat)
    requires AllowedRun(ops) && i <= j <= |ops|
    ensures Keeps(TableAfter(ops[..i]), TableAfter(ops[..j]))
  {
    var tables := (k: nat) => if k <= |ops| then TableAfter(ops[..k]) else [];
    forall k: nat | i <= k < j ensures Keeps(tables(k), tables(k + 1)) { RunKeepsOne(ops, k); }
    KeepsThrough(tables, i, j);
  }

  /** Over every run that stores checkpoints in any order and never weakens a
      hard-coded one, a later query at the same or a greater height never gives
      a lower answer, and none only if there was none. */
  lemma FinalityNeverMovesBack(ops: seq<Op>, i: nat, j: nat)
    requires AllowedRun(ops) && i <= j < |ops|
    requires ops[i].Query? && ops[j].Query? && ops[i].height <= ops[j].height
    requires !BelowHardCoded(TableAfter(ops[..i]), ops[i].height)
    ensures NotBack(Immutable(TableAfter(ops[..i]), ops[i].height), Immutable(TableAfter(ops[..j]), ops[j].height))
  {
    RunSorted(ops, i);
    RunSorted(ops, j);
    RunKeeps(ops, i, j);
    FinalityStays(TableAfter(ops[..i]), ops[i].height, TableAfter(ops[..j]), ops[j].height);
  }
}
