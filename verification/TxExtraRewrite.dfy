/**
  The other half of the round trip: what was decoded with every slice at its full
  length can be written again, and comes out as it was, up to the case of letters.
 */
module TxExtraRewrite {
  import opened Steps
  import opened TxExtra
  import opened TxExtraRoundTrip
  import opened Wrappers

  // ----- equal up to the case of letters

  ghost predicate Same(s: string, t: string) {
    Upper(s) == Upper(t)
  }

  lemma UpperConcat(s: string, t: string)
    ensures Upper(s + t) == Upper(s) + Upper(t)
  {}

  lemma SameConcat(a: string, b: string, c: string, d: string)
    requires Same(a, b) && Same(c, d)
    ensures Same(a + c, b + d)
  {
    UpperConcat(a, c);
    UpperConcat(b, d);
  }

  lemma UpperTwice(s: string)
    ensures Same(Upper(s), s)
  {}

  // ----- numbers

  lemma SameDigit(c: char)
    requires IsHex(c)
    ensures Same([HexDigit(HexValue(c))], [c])
  {}

  lemma TwoDigitsBack(s: string, base: nat)
    requires |s| == 2 && AllHex(s) && (base == 10 || base == 16) && HexValue(s[0]) < base && HexValue(s[1]) < base
    ensures Number(s, base) < base * base && Same(TwoDigits(Number(s, base), base), s)
  {
    var (x, y) := (HexValue(s[0]), HexValue(s[1]));
    NumberOfTwo(s, base);
    DivMod(x, y, base);
    TwoSame(s[0], s[1]);
    assert s == [s[0], s[1]];
  }

  lemma TwoSame(c: char, d: char)
    requires IsHex(c) && IsHex(d)
    ensures Same([HexDigit(HexValue(c)), HexDigit(HexValue(d))], [c, d])
  {
    SameDigit(c);
    SameDigit(d);
    SameConcat([HexDigit(HexValue(c))], [c], [HexDigit(HexValue(d))], [d]);
    assert [HexDigit(HexValue(c))] + [HexDigit(HexValue(d))] == [HexDigit(HexValue(c)), HexDigit(HexValue(d))];
    assert [c] + [d] == [c, d];
  }

  lemma DivMod(x: nat, y: nat, base: nat)
    requires x < base && y < base && (base == 10 || base == 16)
    ensures base * x + y < base * base
    ensures (base * x + y) / base == x && (base * x + y) % base == y
  {
    if base == 10 { assert (10 * x + y) / 10 == x; } else { assert (16 * x + y) / 16 == x; }
  }

  lemma DecimalBack(s: string)
    requires |s| == 2 && AllHex(s) && IsDecimal(s)
    ensures Number(s, 10) < 100 && Same(TwoDigits(Number(s, 10), 10), s)
  {
    assert IsDigit(s[0]) && IsDigit(s[1]);
    TwoDigitsBack(s, 10);
  }

  lemma LowByte(b: nat, n: nat)
    requires b < 256
    ensures (b + 256 * n) % 256 == b && (b + 256 * n) / 256 == n
  {}

  lemma FirstByte(x: nat, y: nat, n: nat)
    requires x < 16 && y < 16
    ensures var a := 16 * x + y + 256 * n; a % 256 / 16 == x && a % 256 % 16 == y && a / 256 == n
  {
    LowByte(16 * x + y, n);
    DivMod(x, y, 16);
  }

  /** a is a number of k bytes, and writing it gives s. */
  ghost predicate Writes(a: nat, k: nat, s: string) {
    a < Power256(k) && Same(LittleEndianBytes(a, k), s)
  }

  lemma ByteBack(x: char, y: char, a: nat, k: nat, rest: string)
    requires IsHex(x) && IsHex(y) && Writes(a, k, rest)
    ensures Writes(16 * HexValue(x) + HexValue(y) + 256 * a, k + 1, [x, y] + rest)
  {
    var digits := [HexDigit(HexValue(x)), HexDigit(HexValue(y))];
    FirstByte(HexValue(x), HexValue(y), a);
    TwoSame(x, y);
    SameConcat(digits, [x, y], LittleEndianBytes(a, k), rest);
  }

  lemma {:induction false} LittleEndianBack(s: string, k: nat)
    requires |s| == 2 * k && AllHex(s)
    ensures Writes(LittleEndian(s), k, s)
    decreases k
  {
    if k == 0 {
    } else {
      var (x, y, rest) := (s[0], s[1], s[2..]);
      assert s == [x, y] + rest;
      LittleEndianFirst(x, y, rest);
      LittleEndianBack(rest, k - 1);
      ByteBack(x, y, LittleEndian(rest), k - 1, rest);
    }
  }

  // ----- parts

  lemma FullCut(s: string, k: nat)
    requires Cut(s, k).full
    ensures s == Cut(s, k).value + Cut(s, k).rest && |Cut(s, k).value| == k
  {}

  lemma Prefix(size: string, digits: string, a: string, b: string)
    requires Same(digits, size)
    ensures Same(size + (a + b), digits + a + b)
  {
    SameConcat(size, digits, a + b, a + b);
    assert digits + a + b == digits + (a + b);
  }

  lemma NonceJoin(size: string, n: nat, tag: string, data: string, rest: string, kind: NonceKind)
    requires 1 <= n < 100 && Same(TwoDigits(n, 10), size) && NonceKindOf(tag) == Some(kind)
    requires AllHex(data) && |data| == (n - 1) * 2
    ensures Fits(Nonce(kind, data)) && Same(size + (tag + (data + rest)), WriteNonce(kind, data) + rest)
  {
    assert |data| / 2 + 1 == n;
    var digits := TwoDigits(n, 10);
    NonceTagBack(tag, kind);
    Prefix(size, digits, tag + data, rest);
    assert tag + data + rest == tag + (data + rest);
  }

  lemma NonceTagBack(tag: string, kind: NonceKind)
    requires NonceKindOf(tag) == Some(kind)
    ensures NonceTag(kind) == tag
  {}

  lemma NonceBack(s: string, p: Part<Record>)
    requires AllHex(s) && EatNonce(s) == Next(p) && p.full
    ensures p.value.Nonce? && Fits(p.value) && Same(s, WriteNonce(p.value.kind, p.value.data) + p.rest)
  {
    var size := Cut(s, 2);
    var tag := Cut(size.rest, 2);
    var n := Number(size.value, 10);
    var data := Cut(tag.rest, (n - 1) * 2);
    FullCut(s, 2);
    FullCut(size.rest, 2);
    FullCut(tag.rest, (n - 1) * 2);
    DecimalBack(size.value);
    NonceJoin(size.value, n, tag.value, data.value, data.rest, p.value.kind);
  }

  lemma OwnerBack(s: string, present: bool)
    requires AllHex(s) && EatOptionalOwner(s, present).full
    ensures var p := EatOptionalOwner(s, present);
            && p.value.Some? == present && (present ==> FitsOwner(p.value.value))
            && s == WriteOwner(p.value) + p.rest
  {
    if present {
      var kind := Cut(s, 2);
      var spend := Cut(kind.rest, 64);
      var view := Cut(spend.rest, 64);
      var sub := Cut(view.rest, 2);
      FullCut(s, 2);
      FullCut(kind.rest, 64);
      FullCut(spend.rest, 64);
      FullCut(view.rest, 2);
      Regroup(kind.value, spend.value, view.value, sub.value, sub.rest);
    } else {
      assert [] + s == s;
    }
  }

  lemma SignatureBack(s: string, present: bool)
    requires AllHex(s) && EatOptionalSignature(s, present).full
    ensures var p := EatOptionalSignature(s, present);
            && p.value.Some? == present && (present ==> Field(p.value.value, 64))
            && s == WriteSignature(p.value) + p.rest
  {
    if present { FullCut(s, 64); } else { assert [] + s == s; }
  }

  lemma ValueJoin(size: string, n: nat, v: string, rest: string)
    requires n < 256 && Same(TwoDigits(n, 16), size) && AllHex(v) && |v| == n * 2
    ensures FitsValue(v) && Same(size + (v + rest), WriteValue(Some(v)) + rest)
  {
    assert |v| / 2 == n;
    Prefix(size, TwoDigits(n, 16), v, rest);
  }

  lemma ValueBack(s: string, present: bool)
    requires AllHex(s) && EatOptionalValue(s, present).Next? && EatOptionalValue(s, present).state.full
    ensures var p := EatOptionalValue(s, present).state;
            && p.value.Some? == present && (present ==> FitsValue(p.value.value))
            && Same(s, WriteValue(p.value) + p.rest)
  {
    if present {
      var size := Cut(s, 2);
      var n := Number(size.value, 16);
      var v := Cut(size.rest, n * 2);
      FullCut(s, 2);
      FullCut(size.rest, n * 2);
      TwoDigitsBack(size.value, 16);
      ValueJoin(size.value, n, v.value, v.rest);
    } else {
      assert [] + s == s;
    }
  }

  // ----- the name-system record

  function WriteHead(h: OnsHead, rest: string): string
    requires h.fields < 100
  {
    h.version + (OnsTypeTag(h.kind) + (h.nameHash + (h.prevTxid + (TwoDigits(h.fields, 10) + rest))))
  }

  lemma HeadBack(s: string, p: Part<OnsHead>)
    requires AllHex(s) && EatOnsHead(s) == Next(p) && p.full
    ensures var h := p.value;
            && Field(h.version, 2) && Field(h.nameHash, 64) && Field(h.prevTxid, 64) && h.fields < 100
            && Same(s, WriteHead(h, p.rest))
  {
    var version := Cut(s, 2);
    var kind := Cut(version.rest, 2);
    var name := Cut(kind.rest, 64);
    var prev := Cut(name.rest, 64);
    var fields := Cut(prev.rest, 2);
    FullCut(s, 2);
    FullCut(version.rest, 2);
    FullCut(kind.rest, 64);
    FullCut(name.rest, 64);
    FullCut(prev.rest, 2);
    DecimalBack(fields.value);
    var digits := TwoDigits(p.value.fields, 10);
    SameConcat(fields.value, digits, fields.rest, fields.rest);
    SameConcat(prev.value, prev.value, prev.rest, digits + fields.rest);
    SameConcat(name.value, name.value, name.rest, prev.value + (digits + fields.rest));
    SameConcat(kind.value, kind.value, kind.rest, name.value + (prev.value + (digits + fields.rest)));
    TypeBack(kind.value, p.value.kind);
    SameConcat(version.value, version.value, version.rest,
               kind.value + (name.value + (prev.value + (digits + fields.rest))));
  }

  lemma TypeBack(tag: string, kind: OnsType)
    requires OnsTypeOf(tag) == Some(kind)
    ensures OnsTypeTag(kind) == tag
  {}

  ghost predicate HeadOf(h: OnsHead, d: OnsData) {
    && d.version == h.version && d.kind == h.kind && d.nameHash == h.nameHash && d.prevTxid == h.prevTxid
    && d.fields == h.fields
  }

  lemma TailBack(s: string, h: OnsHead, p: Part<Record>)
    requires AllHex(s) && EatOnsTail(s, h) == Next(p) && p.full
    ensures p.value.Ons? && HeadOf(h, p.value.ons)
    ensures p.value.ons.fields % 16 == FlagsOf(p.value.ons) && FitsParts(p.value.ons)
    ensures var d := p.value.ons;
            Same(s, WriteOwner(d.owner) + (WriteOwner(d.backupOwner)
                    + (WriteSignature(d.signature) + (WriteValue(d.encryptedValue) + p.rest))))
  {
    var owner := EatOptionalOwner(s, HasBit(h.fields, 1));
    var backup := EatOptionalOwner(owner.rest, HasBit(h.fields, 2));
    var signature := EatOptionalSignature(backup.rest, HasBit(h.fields, 4));
    var value := EatOptionalValue(signature.rest, HasBit(h.fields, 8)).state;
    OwnerBack(s, HasBit(h.fields, 1));
    OwnerBack(owner.rest, HasBit(h.fields, 2));
    SignatureBack(backup.rest, HasBit(h.fields, 4));
    ValueBack(signature.rest, HasBit(h.fields, 8));
    FlagBits(p.value.ons);
    Chain(WriteOwner(owner.value), WriteOwner(backup.value), WriteSignature(signature.value), signature.rest,
          WriteValue(value.value) + value.rest);
  }

  lemma Chain(a: string, b: string, c: string, x: string, y: string)
    requires Same(x, y)
    ensures Same(a + (b + (c + x)), a + (b + (c + y)))
  {
    SameConcat(c, c, x, y);
    SameConcat(b, b, c + x, c + y);
    SameConcat(a, a, b + (c + x), b + (c + y));
  }

  lemma OnsBack(s: string, p: Part<Record>)
    requires AllHex(s) && EatOns(s) == Next(p) && p.full
    ensures p.value.Ons? && FitsOns(p.value.ons) && Same(s, WriteOns(p.value.ons) + p.rest)
  {
    var head := EatOnsHead(s).state;
    HeadBack(s, head);
    TailBack(head.rest, head.value, p);
    var d := p.value.ons;
    TailJoin(d, p.rest);
    HeadJoin(s, head.value, head.rest, d, p.rest);
  }

  lemma TailJoin(d: OnsData, rest: string)
    requires FitsOns(d)
    ensures WriteOnsTail(d) + rest
         == WriteOwner(d.owner) + (WriteOwner(d.backupOwner)
            + (WriteSignature(d.signature) + (WriteValue(d.encryptedValue) + rest)))
  {
    Regroup(WriteOwner(d.owner), WriteOwner(d.backupOwner), WriteSignature(d.signature), WriteValue(d.encryptedValue), rest);
  }

  lemma HeadJoin(s: string, h: OnsHead, t: string, d: OnsData, rest: string)
    requires FitsOns(d) && HeadOf(h, d) && Same(s, WriteHead(h, t)) && Same(t, WriteOnsTail(d) + rest)
    ensures Same(s, WriteOns(d) + rest)
  {
    var (tail, digits) := (WriteOnsTail(d), TwoDigits(d.fields, 10));
    SameConcat(digits, digits, t, tail + rest);
    SameConcat(d.prevTxid, d.prevTxid, digits + t, digits + (tail + rest));
    Chain(d.version, OnsTypeTag(d.kind), d.nameHash, d.prevTxid + (digits + t), d.prevTxid + (digits + (tail + rest)));
    var fixed := d.prevTxid + (digits + tail);
    assert fixed + rest == d.prevTxid + (digits + (tail + rest));
    Regroup(d.version, OnsTypeTag(d.kind), d.nameHash, fixed, rest);
  }

  // ----- one round

  lemma BurnBack(s: string, p: Part<Record>)
    requires AllHex(s) && EatBurn(s) == Next(p) && p.full
    ensures p.value.Burn? && Fits(p.value) && Same(s, LittleEndianBytes(p.value.amount, 8) + p.rest)
  {
    var c := Cut(s, 16);
    FullCut(s, 16);
    LittleEndianBack(c.value, 8);
    SameConcat(c.value, LittleEndianBytes(p.value.amount, 8), c.rest, c.rest);
  }

  /** What follows the tag, as Write writes it. */
  function WriteBody(r: Record): string
    requires Fits(r)
  {
    match r
    case Pubkey(key) => key
    case Nonce(kind, data) => WriteNonce(kind, data)
    case Ons(d) => WriteOns(d)
    case Burn(amount) => LittleEndianBytes(amount, 8)
  }

  function TagOf(r: Record): string {
    match r
    case Pubkey(_) => "01"
    case Nonce(_, _) => "02"
    case Ons(_) => "7A"
    case Burn(_) => "79"
  }

  lemma TaggedBack(tag: string, s: string, p: Part<Record>)
    requires AllHex(s) && EatTagged(tag, s) == Next(p) && p.full
    ensures Fits(p.value) && TagOf(p.value) == tag && Same(s, WriteBody(p.value) + p.rest)
  {
    if tag == "01" {
      FullCut(s, 64);
    } else if tag == "02" {
      NonceBack(s, p);
    } else if tag == "7A" {
      OnsBack(s, p);
    } else {
      BurnBack(s, p);
    }
  }

  lemma RoundBack(s: string, p: Part<Record>)
    requires AllHex(s) && Round(s) == Next(p) && p.full
    ensures Fits(p.value) && Same(s, Write(p.value) + p.rest)
  {
    var c := Cut(s, 2);
    FullCut(s, 2);
    TaggedBack(Upper(c.value), c.rest, p);
    UpperTwice(c.value);
    SameConcat(c.value, Upper(c.value), c.rest, WriteBody(p.value) + p.rest);
    TagAndBody(p.value, p.rest);
  }

  lemma TagAndBody(r: Record, rest: string)
    requires Fits(r)
    ensures TagOf(r) + (WriteBody(r) + rest) == Write(r) + rest
  {
    TagFirst(r);
    Associate(TagOf(r), WriteBody(r), rest);
  }

  lemma TagFirst(r: Record)
    requires Fits(r)
    ensures Write(r) == TagOf(r) + WriteBody(r)
  {}

  lemma Associate(a: string, b: string, c: string)
    ensures a + (b + c) == a + b + c
  {}

  // ----- the whole

  ghost predicate Rewritten(d: Decoded, s: string) {
    && d.stopped == None
    && (forall i :: 0 <= i < |d.records| ==> Fits(d.records[i]))
    && Same(s, WriteAll(d.records))
  }

  lemma RewriteOne(r: Record, d: Decoded, s: string, rest: string)
    requires Fits(r) && Same(s, Write(r) + rest) && Rewritten(d, rest)
    ensures Rewritten(Before(r, d), s)
  {
    var rs := Before(r, d).records;
    assert rs[0] == r && rs[1..] == d.records;
    SameConcat(Write(r), Write(r), rest, WriteAll(d.records));
  }

  lemma {:induction false} RoundsBack(round: string -> Parse<Record>, s: string)
    requires FullRounds(round, s)
    requires forall x :: round(x).Next? && round(x).state.full ==>
               Fits(round(x).state.value) && Same(x, Write(round(x).state.value) + round(x).state.rest)
    ensures Rewritten(Rounds(round, s), s)
    decreases |s|
  {
    if s == [] {
    } else {
      var p := round(s).state;
      RoundsBack(round, p.rest);
      RewriteOne(p.value, Rounds(round, p.rest), s, p.rest);
    }
  }

  /** Whatever decodes with every slice at its full length decodes to records that
      fit, and writing them gives the string back up to the case of letters. */
  lemma WriteDecoded(a: string)
    requires FullDecode(a)
    ensures Decode(a).stopped == None
    ensures forall i :: 0 <= i < |Decode(a).records| ==> Fits(Decode(a).records[i])
    ensures Upper(WriteAll(Decode(a).records)) == Upper(a)
  {
    forall x | OneRound()(x).Next? && OneRound()(x).state.full
      ensures var p := OneRound()(x).state; Fits(p.value) && Same(x, Write(p.value) + p.rest)
    {
      RoundBack(x, OneRound()(x).state);
    }
    RoundsBack(OneRound(), a);
  }
}
