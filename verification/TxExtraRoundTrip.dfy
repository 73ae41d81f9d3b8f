/**
  A writer for the records the tx-extra decoder prints, and the round trip: the
  decoder gives back every list of records that fits its field widths.
 */
module TxExtraRoundTrip {
  import opened Steps
  import opened TxExtra
  import opened Wrappers

  // ----- numbers

  function HexDigit(n: nat): (c: char)
    requires n < 16
    ensures IsHex(c) && HexValue(c) == n
    ensures n < 10 ==> IsDigit(c)
  {
    if n < 10 then ('0' as nat + n) as char else ('a' as nat + n - 10) as char
  }

  function TwoDigits(n: nat, base: nat): (s: string)
    requires 2 <= base <= 16 && n < base * base
    ensures |s| == 2 && AllHex(s)
  {
    assert n / base < base;
    [HexDigit(n / base), HexDigit(n % base)]
  }

  lemma NumberOfTwo(s: string, base: nat)
    requires |s| == 2 && AllHex(s)
    ensures Number(s, base) == base * HexValue(s[0]) + HexValue(s[1])
  {
    assert s[..1] == [s[0]] && s[..1][..0] == [];
    assert Number(s[..1], base) == base * Number(s[..1][..0], base) + HexValue(s[0]);
  }

  lemma TwoDigitsNumber(n: nat, base: nat)
    requires 2 <= base <= 16 && n < base * base
    ensures Number(TwoDigits(n, base), base) == n
    ensures base == 10 ==> IsDecimal(TwoDigits(n, base))
  {
    NumberOfTwo(TwoDigits(n, base), base);
    assert n == base * (n / base) + n % base;
  }

  function Power256(k: nat): nat {
    if k == 0 then 1 else 256 * Power256(k - 1)
  }

  function LittleEndianBytes(a: nat, k: nat): (s: string)
    ensures |s| == 2 * k && AllHex(s)
  {
    if k == 0 then [] else [HexDigit(a % 256 / 16), HexDigit(a % 256 % 16)] + LittleEndianBytes(a / 256, k - 1)
  }

  lemma ByteParts(a: nat, limit: nat)
    requires a < 256 * limit
    ensures 16 * (a % 256 / 16) + a % 256 % 16 + 256 * (a / 256) == a
    ensures a / 256 < limit
  {
    calc {
      16 * (a % 256 / 16) + a % 256 % 16 + 256 * (a / 256);
      a % 256 + 256 * (a / 256);
      a;
    }
  }

  lemma LittleEndianFirst(x: char, y: char, s: string)
    requires IsHex(x) && IsHex(y) && AllHex(s)
    ensures AllHex([x, y] + s)
    ensures LittleEndian([x, y] + s) == 16 * HexValue(x) + HexValue(y) + 256 * LittleEndian(s)
  {}

  lemma {:induction false} LittleEndianRoundTrip(a: nat, k: nat)
    requires a < Power256(k)
    ensures LittleEndian(LittleEndianBytes(a, k)) == a
  {
    if k == 0 {
    } else {
      ByteParts(a, Power256(k - 1));
      LittleEndianRoundTrip(a / 256, k - 1);
      LittleEndianFirst(HexDigit(a % 256 / 16), HexDigit(a % 256 % 16), LittleEndianBytes(a / 256, k - 1));
    }
  }

  /** Reading the nonce size byte as decimal agrees with its value as a byte
      exactly for sizes below ten. */
  lemma SizeByteAgreesIff(s: string)
    requires |s| == 2 && AllHex(s)
    ensures IsDecimal(s) && Number(s, 10) == Number(s, 16) <==> Number(s, 16) < 10
  {
    NumberOfTwo(s, 16);
    NumberOfTwo(s, 10);
    if IsDecimal(s) { assert IsDigit(s[0]) && IsDigit(s[1]); }
  }

  // ----- records

  function NonceTag(kind: NonceKind): (tag: string)
    ensures |tag| == 2 && AllHex(tag) && NonceKindOf(tag) == Some(kind)
  {
    match kind
    case PaymentId => "00"
    case EncryptedPaymentId => "01"
  }

  function OnsTypeTag(kind: OnsType): (tag: string)
    ensures |tag| == 2 && AllHex(tag) && OnsTypeOf(tag) == Some(kind)
  {
    match kind
    case Session => "00"
    case Wallet => "01"
    case Lokinet => "02"
    case Lokinet2Years => "03"
    case Lokinet5Years => "04"
    case Lokinet10Years => "05"
  }

  predicate Field(s: string, n: nat) {
    |s| == n && AllHex(s)
  }

  predicate FitsOwner(o: Owner) {
    Field(o.kind, 2) && Field(o.spendPublicKey, 64) && Field(o.viewPublicKey, 64) && Field(o.isSubaddress, 2)
  }

  predicate FitsOns(d: OnsData) {
    && Field(d.version, 2) && Field(d.nameHash, 64) && Field(d.prevTxid, 64)
    && d.fields < 100 && d.fields % 16 == FlagsOf(d)
    && FitsParts(d)
  }

  /** The optional parts that are there have their widths. */
  predicate FitsParts(d: OnsData) {
    && (d.owner.Some? ==> FitsOwner(d.owner.value))
    && (d.backupOwner.Some? ==> FitsOwner(d.backupOwner.value))
    && (d.signature.Some? ==> Field(d.signature.value, 64))
    && (d.encryptedValue.Some? ==> FitsValue(d.encryptedValue.value))
  }

  predicate FitsValue(v: string) {
    AllHex(v) && |v| % 2 == 0 && |v| < 512
  }

  /** The record fits the widths the decoder reads. */
  predicate Fits(r: Record) {
    match r
    case Pubkey(key) => Field(key, 64)
    case Nonce(kind, data) => AllHex(data) && |data| % 2 == 0 && |data| < 198
    case Ons(d) => FitsOns(d)
    case Burn(amount) => amount < Power256(8)
  }

  function WriteOwner(o: Option<Owner>): string {
    match o
    case None => []
    case Some(w) => w.kind + (w.spendPublicKey + (w.viewPublicKey + w.isSubaddress))
  }

  function WriteSignature(s: Option<string>): string {
    if s.Some? then s.value else []
  }

  function WriteValue(v: Option<string>): string
    requires v.Some? ==> FitsValue(v.value)
  {
    if v.Some? then TwoDigits(|v.value| / 2, 16) + v.value else []
  }

  function WriteOnsTail(d: OnsData): string
    requires FitsOns(d)
  {
    WriteOwner(d.owner) + (WriteOwner(d.backupOwner) + (WriteSignature(d.signature) + WriteValue(d.encryptedValue)))
  }

  function WriteOns(d: OnsData): string
    requires FitsOns(d)
  {
    d.version + (OnsTypeTag(d.kind) + (d.nameHash + (d.prevTxid + (TwoDigits(d.fields, 10) + WriteOnsTail(d)))))
  }

  function WriteNonce(kind: NonceKind, data: string): string
    requires |data| < 198
  {
    TwoDigits(|data| / 2 + 1, 10) + (NonceTag(kind) + data)
  }

  function Write(r: Record): string
    requires Fits(r)
  {
    match r
    case Pubkey(key) => "01" + key
    case Nonce(kind, data) => "02" + WriteNonce(kind, data)
    case Ons(d) => "7A" + WriteOns(d)
    case Burn(amount) => "79" + LittleEndianBytes(amount, 8)
  }

  function WriteAll(rs: seq<Record>): string
    requires forall i :: 0 <= i < |rs| ==> Fits(rs[i])
  {
    if rs == [] then [] else Write(rs[0]) + WriteAll(rs[1..])
  }

  // ----- reading back what was written

  lemma CutExact(x: string, y: string)
    ensures Cut(x + y, |x|) == Part(x, y, true)
  {
    assert (x + y)[..|x|] == x;
    assert (x + y)[|x|..] == y;
  }

  lemma HexConcat(x: string, y: string)
    requires AllHex(x) && AllHex(y)
    ensures AllHex(x + y)
  {}

  lemma Regroup(a: string, b: string, c: string, d: string, e: string)
    ensures a + (b + (c + d)) + e == a + (b + (c + (d + e)))
  {}

  lemma ReadOwner(o: Option<Owner>, rest: string)
    requires o.Some? ==> FitsOwner(o.value)
    ensures EatOptionalOwner(WriteOwner(o) + rest, o.Some?) == Part(o, rest, true)
  {
    if o.Some? {
      var w := o.value;
      var s4 := w.isSubaddress + rest;
      var s3 := w.viewPublicKey + s4;
      var s2 := w.spendPublicKey + s3;
      Regroup(w.kind, w.spendPublicKey, w.viewPublicKey, w.isSubaddress, rest);
      CutExact(w.kind, s2);
      CutExact(w.spendPublicKey, s3);
      CutExact(w.viewPublicKey, s4);
      CutExact(w.isSubaddress, rest);
    } else {
      assert WriteOwner(o) + rest == rest;
    }
  }

  lemma ReadSignature(s: Option<string>, rest: string)
    requires s.Some? ==> Field(s.value, 64)
    ensures EatOptionalSignature(WriteSignature(s) + rest, s.Some?) == Part(s, rest, true)
  {}

  lemma ReadValue(v: Option<string>)
    requires v.Some? ==> FitsValue(v.value)
    ensures AllHex(WriteValue(v))
    ensures EatOptionalValue(WriteValue(v), v.Some?) == Next(Part(v, [], true))
  {
    if v.Some? {
      var size := TwoDigits(|v.value| / 2, 16);
      CutExact(size, v.value);
      TwoDigitsNumber(|v.value| / 2, 16);
      CutExact(v.value, []);
      assert v.value + [] == v.value;
    }
  }

  lemma OnsTailParts(s1: string, s2: string, s3: string, s4: string, d: OnsData)
    requires AllHex(s1)
    requires EatOptionalOwner(s1, HasBit(d.fields, 1)) == Part(d.owner, s2, true)
    requires EatOptionalOwner(s2, HasBit(d.fields, 2)) == Part(d.backupOwner, s3, true)
    requires EatOptionalSignature(s3, HasBit(d.fields, 4)) == Part(d.signature, s4, true)
    requires AllHex(s4) && EatOptionalValue(s4, HasBit(d.fields, 8)) == Next(Part(d.encryptedValue, [], true))
    ensures EatOnsTail(s1, OnsHead(d.version, d.kind, d.nameHash, d.prevTxid, d.fields)) == Next(Part(Ons(d), [], true))
  {}

  lemma OnsTailHex(d: OnsData)
    requires FitsOns(d)
    ensures AllHex(WriteOnsTail(d))
  {
    var s4 := WriteValue(d.encryptedValue);
    var s3 := WriteSignature(d.signature) + s4;
    var s2 := WriteOwner(d.backupOwner) + s3;
    ReadValue(d.encryptedValue);
    HexConcat(WriteSignature(d.signature), s4);
    OwnerHex(d.backupOwner);
    HexConcat(WriteOwner(d.backupOwner), s3);
    OwnerHex(d.owner);
    HexConcat(WriteOwner(d.owner), s2);
  }

  lemma OwnerHex(o: Option<Owner>)
    requires o.Some? ==> FitsOwner(o.value)
    ensures AllHex(WriteOwner(o))
  {
    if o.Some? {
      var w := o.value;
      HexConcat(w.viewPublicKey, w.isSubaddress);
      HexConcat(w.spendPublicKey, w.viewPublicKey + w.isSubaddress);
      HexConcat(w.kind, w.spendPublicKey + (w.viewPublicKey + w.isSubaddress));
    }
  }

  lemma ReadOnsTail(d: OnsData)
    requires FitsOns(d)
    ensures AllHex(WriteOnsTail(d))
    ensures EatOnsTail(WriteOnsTail(d), OnsHead(d.version, d.kind, d.nameHash, d.prevTxid, d.fields))
              == Next(Part(Ons(d), [], true))
  {
    var s4 := WriteValue(d.encryptedValue);
    var s3 := WriteSignature(d.signature) + s4;
    var s2 := WriteOwner(d.backupOwner) + s3;
    ReadOwner(d.owner, s2);
    ReadOwner(d.backupOwner, s3);
    ReadSignature(d.signature, s4);
    ReadValue(d.encryptedValue);
    OnsTailHex(d);
    FlagBits(d);
    OnsTailParts(WriteOwner(d.owner) + s2, s2, s3, s4, d);
  }

  lemma OnsHeadParts(s1: string, s2: string, s3: string, s4: string, s5: string, tail: string, d: OnsData)
    requires AllHex(s1) && d.fields < 100
    requires Cut(s1, 2) == Part(d.version, s2, true)
    requires Cut(s2, 2) == Part(OnsTypeTag(d.kind), s3, true)
    requires Cut(s3, 64) == Part(d.nameHash, s4, true)
    requires Cut(s4, 64) == Part(d.prevTxid, s5, true)
    requires Cut(s5, 2) == Part(TwoDigits(d.fields, 10), tail, true)
    ensures EatOnsHead(s1) == Next(Part(OnsHead(d.version, d.kind, d.nameHash, d.prevTxid, d.fields), tail, true))
  {
    TwoDigitsNumber(d.fields, 10);
  }

  lemma OnsHex(d: OnsData)
    requires FitsOns(d)
    ensures AllHex(WriteOns(d))
  {
    var tail := WriteOnsTail(d);
    var s5 := TwoDigits(d.fields, 10) + tail;
    var s4 := d.prevTxid + s5;
    var s3 := d.nameHash + s4;
    var s2 := OnsTypeTag(d.kind) + s3;
    OnsTailHex(d);
    HexConcat(TwoDigits(d.fields, 10), tail);
    HexConcat(d.prevTxid, s5);
    HexConcat(d.nameHash, s4);
    HexConcat(OnsTypeTag(d.kind), s3);
    HexConcat(d.version, s2);
  }

  lemma ReadOnsHead(d: OnsData)
    requires FitsOns(d)
    ensures AllHex(WriteOns(d))
    ensures EatOnsHead(WriteOns(d))
              == Next(Part(OnsHead(d.version, d.kind, d.nameHash, d.prevTxid, d.fields), WriteOnsTail(d), true))
  {
    var tail := WriteOnsTail(d);
    var s5 := TwoDigits(d.fields, 10) + tail;
    var s4 := d.prevTxid + s5;
    var s3 := d.nameHash + s4;
    var s2 := OnsTypeTag(d.kind) + s3;
    CutExact(d.version, s2);
    CutExact(OnsTypeTag(d.kind), s3);
    CutExact(d.nameHash, s4);
    CutExact(d.prevTxid, s5);
    CutExact(TwoDigits(d.fields, 10), tail);
    OnsHex(d);
    OnsHeadParts(d.version + s2, s2, s3, s4, s5, tail, d);
  }

  lemma ReadOnsData(d: OnsData)
    requires FitsOns(d)
    ensures AllHex(WriteOns(d))
    ensures EatOns(WriteOns(d)) == Next(Part(Ons(d), [], true))
  {
    ReadOnsHead(d);
    ReadOnsTail(d);
  }

  lemma ReadNonce(kind: NonceKind, data: string)
    requires Fits(Nonce(kind, data))
    ensures AllHex(WriteNonce(kind, data))
    ensures EatNonce(WriteNonce(kind, data)) == Next(Part(Nonce(kind, data), [], true))
  {
    var n := |data| / 2 + 1;
    var rest := NonceTag(kind) + data;
    TwoDigitsNumber(n, 10);
    HexConcat(NonceTag(kind), data);
    HexConcat(TwoDigits(n, 10), rest);
    CutExact(TwoDigits(n, 10), rest);
    NonceParts(WriteNonce(kind, data), TwoDigits(n, 10), n, kind, data);
  }

  lemma NonceParts(s: string, size: string, n: nat, kind: NonceKind, data: string)
    requires AllHex(s) && Cut(s, 2) == Part(size, NonceTag(kind) + data, true)
    requires AllHex(size) && IsDecimal(size) && Number(size, 10) == n && |data| == (n - 1) * 2
    ensures EatNonce(s) == Next(Part(Nonce(kind, data), [], true))
  {
    CutExact(NonceTag(kind), data);
    ReadWhole(data);
  }

  /** A round on a tag and what follows it. */
  lemma RoundOf(tag: string, body: string, p: Part<Record>)
    requires AllHex(tag) && AllHex(body) && KnownTag(tag) && Upper(tag) == tag
    requires EatTagged(tag, body) == Next(p)
    ensures AllHex(tag + body) && Round(tag + body) == Next(p)
  {}

  lemma ReadWhole(s: string)
    ensures Cut(s, |s|) == Part(s, [], true)
  {
    CutExact(s, []);
    assert s + [] == s;
  }

  lemma RoundPubkey(key: string)
    requires Field(key, 64)
    ensures AllHex("01" + key) && Round("01" + key) == Next(Part(Pubkey(key), [], true))
  {
    ReadWhole(key);
    RoundOf("01", key, Part(Pubkey(key), [], true));
  }

  lemma RoundNonce(kind: NonceKind, data: string)
    requires Fits(Nonce(kind, data))
    ensures AllHex("02" + WriteNonce(kind, data))
    ensures Round("02" + WriteNonce(kind, data)) == Next(Part(Nonce(kind, data), [], true))
  {
    ReadNonce(kind, data);
    RoundOf("02", WriteNonce(kind, data), Part(Nonce(kind, data), [], true));
  }

  lemma RoundOns(d: OnsData)
    requires FitsOns(d)
    ensures AllHex("7A" + WriteOns(d)) && Round("7A" + WriteOns(d)) == Next(Part(Ons(d), [], true))
  {
    ReadOnsData(d);
    OnsRound(WriteOns(d), Part(Ons(d), [], true));
  }

  lemma OnsRound(s: string, p: Part<Record>)
    requires AllHex(s) && EatOns(s) == Next(p)
    ensures AllHex("7A" + s) && Round("7A" + s) == Next(p)
  {
    OnsTagged("7A", s);
    RoundOf("7A", s, p);
  }

  lemma OnsTagged(tag: string, s: string)
    requires tag == "7A" && AllHex(s)
    ensures AllHex(tag) && KnownTag(tag) && Upper(tag) == tag && EatTagged(tag, s) == EatOns(s)
  {}

  lemma RoundBurn(amount: nat)
    requires amount < Power256(8)
    ensures AllHex("79" + LittleEndianBytes(amount, 8))
    ensures Round("79" + LittleEndianBytes(amount, 8)) == Next(Part(Burn(amount), [], true))
  {
    ReadWhole(LittleEndianBytes(amount, 8));
    LittleEndianRoundTrip(amount, 8);
    RoundOf("79", LittleEndianBytes(amount, 8), Part(Burn(amount), [], true));
  }

  lemma ReadRecord(r: Record)
    requires Fits(r)
    ensures AllHex(Write(r))
    ensures Round(Write(r)) == Next(Part(r, [], true))
  {
    match r
    case Pubkey(key) => RoundPubkey(key);
    case Nonce(kind, data) => RoundNonce(kind, data);
    case Ons(d) => RoundOns(d);
    case Burn(amount) => RoundBurn(amount);
  }

  lemma OneRoundOnly(round: string -> Parse<Record>, s: string, r: Record)
    requires s != [] && round(s) == Next(Part(r, [], true))
    ensures FullRounds(round, s) && Rounds(round, s) == Decoded([r], None)
  {}

  lemma ReadOne(r: Record)
    requires Fits(r)
    ensures FullDecode(Write(r)) && Decode(Write(r)) == Decoded([r], None)
  {
    ReadRecord(r);
    OneRoundOnly(OneRound(), Write(r), r);
  }

  /** Every list of records that fits is read back as it was written. */
  lemma {:induction false} DecodeWriteAll(rs: seq<Record>)
    requires forall i :: 0 <= i < |rs| ==> Fits(rs[i])
    ensures AllHex(WriteAll(rs))
    ensures Decode(WriteAll(rs)) == Decoded(rs, None)
  {
    if rs == [] {
    } else {
      DecodeWriteAll(rs[1..]);
      ReadRecord(rs[0]);
      ReadOne(rs[0]);
      DecodeAppend(Write(rs[0]), WriteAll(rs[1..]));
      assert [rs[0]] + rs[1..] == rs;
    }
  }
}
