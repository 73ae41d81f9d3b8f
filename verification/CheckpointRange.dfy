/**
  What the checkpoint range query answers, for every table, both directions and every
  limit: the rows between the two heights, nearest to the first one first.
 */
module CheckpointRange {
  import opened Sequences
  import opened Checkpoints

  /** a comes before b on the way up, or down. */
  predicate Nearer(up: bool, a: Checkpoint, b: Checkpoint) {
    if up then a.height < b.height else a.height > b.height
  }

  ghost predicate InDirection(up: bool, r: Table) {
    forall i, j :: 0 <= i < j < |r| ==> Nearer(up, r[i], r[j])
  }

  predicate Between(c: Checkpoint, start: nat, end: nat) {
    start <= c.height <= end || end <= c.height <= start
  }

  /** The first of the rows w, in their direction: all of them, or the nearest `num`. */
  ghost predicate FirstOf(up: bool, w: Checkpoint -> bool, num: nat, r: Table) {
    && InDirection(up, r)
    && (forall c :: c in r ==> w(c))
    && (num > 0 ==> |r| <= num)
    && (forall c :: w(c) && c !in r ==> num > 0 && |r| == num && forall d :: d in r ==> Nearer(up, d, c))
  }

  lemma SliceRows(t: Table, lo: nat, hi: nat, a: nat, b: nat)
    requires Sorted(t) && a <= b <= |t|
    requires forall k :: 0 <= k < |t| ==> (lo <= t[k].height <= hi <==> a <= k < b)
    ensures InDirection(true, t[a..b])
    ensures forall c :: c in t[a..b] <==> c in t && lo <= c.height <= hi
  {
    forall c | c in t && lo <= c.height <= hi ensures c in t[a..b] {
      var i :| 0 <= i < |t| && t[i] == c;
      assert t[a..b][i - a] == c;
    }
  }

  lemma SliceHas(t: Table, lo: nat, hi: nat)
    requires Sorted(t) && lo <= hi
    ensures InDirection(true, Slice(t, lo, hi))
    ensures forall c :: c in Slice(t, lo, hi) <==> c in t && lo <= c.height <= hi
  {
    SliceBounds(t, lo, hi);
    BelowSplits(t, lo);
    BelowSplits(t, hi + 1);
    SliceRows(t, lo, hi, Below(t, lo), Below(t, hi + 1));
  }

  lemma ReversedHas(w: Table)
    requires InDirection(true, w)
    ensures InDirection(false, Reversed(w))
    ensures forall c :: c in Reversed(w) <==> c in w
  {
    forall c | c in w ensures c in Reversed(w) {
      var i :| 0 <= i < |w| && w[i] == c;
      assert Reversed(w)[|w| - 1 - i] == c;
    }
  }

  lemma TakeFirst(up: bool, w: Table, num: nat, p: Checkpoint -> bool)
    requires InDirection(up, w) && forall c :: p(c) <==> c in w
    ensures FirstOf(up, p, num, Take(w, num))
  {
    var r := Take(w, num);
    assert forall i :: 0 <= i < |r| ==> r[i] == w[i];
    forall c | p(c) && c !in r ensures num > 0 && |r| == num && forall d :: d in r ==> Nearer(up, d, c) {
      var i :| 0 <= i < |w| && w[i] == c;
      assert i >= |r|;
      forall d | d in r ensures Nearer(up, d, c) {
        var j :| 0 <= j < |r| && r[j] == d;
        assert w[j] == d;
      }
    }
  }

  /** A list of at most one row runs either way. */
  lemma SingleEither(w: Table, up: bool)
    requires |w| <= 1
    ensures InDirection(up, w)
  {}

  /** Clamping both heights into the table's span keeps the rows between them, if
      there can be any. */
  lemma ClampKeeps(t: Table, start: nat, end: nat, c: Checkpoint)
    requires Sorted(t) && c in t
    requires var (bottom, top) := (t[0].height, t[|t| - 1].height);
             (start <= top || end <= top) && (bottom <= start || bottom <= end)
    ensures var (bottom, top) := (t[0].height, t[|t| - 1].height);
            Between(c, Clamp(start, bottom, top), Clamp(end, bottom, top)) <==> Between(c, start, end)
  {
    var i :| 0 <= i < |t| && t[i] == c;
    assert t[0].height <= c.height <= t[|t| - 1].height;
  }

  /** The rows between two heights in the direction from one to the other. */
  function Walk(t: Table, s: nat, e: nat): Table {
    if e >= s then Slice(t, s, e) else Reversed(Slice(t, e, s))
  }

  lemma WalkHas(t: Table, s: nat, e: nat)
    requires Sorted(t)
    ensures InDirection(e >= s, Walk(t, s, e))
    ensures forall c :: c in Walk(t, s, e) <==> c in t && Between(c, s, e)
    ensures s == e ==> |Walk(t, s, e)| <= 1
  {
    if e >= s {
      SliceHas(t, s, e);
      if s == e && |Slice(t, s, e)| > 1 { var c := OtherHeight(Slice(t, s, e), s); }
    } else {
      SliceHas(t, e, s);
      ReversedHas(Slice(t, e, s));
    }
  }

  lemma OtherHeight(w: Table, h: nat) returns (c: Checkpoint)
    requires InDirection(true, w) && |w| > 1
    ensures c in w && c.height != h
  {
    c := if w[0].height == h then w[1] else w[0];
    assert Nearer(true, w[0], w[1]);
  }

  ghost predicate Spans(t: Table, start: nat, end: nat) {
    && t != []
    && (start <= t[|t| - 1].height || end <= t[|t| - 1].height)
    && (t[0].height <= start || t[0].height <= end)
  }

  lemma RangeWithinSpan(t: Table, start: nat, end: nat, num: nat)
    requires Sorted(t) && Spans(t, start, end)
    ensures FirstOf(end >= start, c => c in t && Between(c, start, end), num, Range(t, start, end, num))
  {
    var (bottom, top) := (t[0].height, t[|t| - 1].height);
    assert bottom <= top by { if |t| > 1 { assert t[0].height < t[|t| - 1].height; } }
    var (s, e) := (Clamp(start, bottom, top), Clamp(end, bottom, top));
    WalkHas(t, s, e);
    if s == e { SingleEither(Walk(t, s, e), end >= start); }
    forall c ensures c in Walk(t, s, e) <==> c in t && Between(c, start, end) {
      if c in t { ClampKeeps(t, start, end, c); }
    }
    TakeFirst(end >= start, Walk(t, s, e), num, c => c in t && Between(c, start, end));
  }

  lemma OnlyRow(t: Table, h: nat, k: nat, num: nat)
    requires Sorted(t) && k < |t| && t[k].height == h
    ensures Take(Walk(t, h, h), num) == [t[k]]
  {
    WalkHas(t, h, h);
    assert t[k] in Walk(t, h, h);
  }

  /** Where the two heights span part of the table, the answer is the rows between
      them, from the first towards the second, at most `num` unless that is 0; where
      both lie below the table it is the lowest row, where both lie above the highest. */
  lemma RangeIs(t: Table, start: nat, end: nat, num: nat)
    requires Sorted(t)
    ensures t == [] ==> Range(t, start, end, num) == []
    ensures t != [] && start < t[0].height && end < t[0].height ==> Range(t, start, end, num) == [t[0]]
    ensures t != [] && start > t[|t| - 1].height && end > t[|t| - 1].height ==>
              Range(t, start, end, num) == [t[|t| - 1]]
    ensures Spans(t, start, end) ==>
              FirstOf(end >= start, c => c in t && Between(c, start, end), num, Range(t, start, end, num))
  {
    if t != [] {
      OnlyRow(t, t[0].height, 0, num);
      OnlyRow(t, t[|t| - 1].height, |t| - 1, num);
      if Spans(t, start, end) { RangeWithinSpan(t, start, end, num); }
    }
  }
}
