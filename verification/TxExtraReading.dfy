/**
  What a completed round of the tx-extra decoder reads, by position in the string:
  each field at its place and with its width, cut short where the string ends.
 */
module TxExtraReading {
  import opened Steps
  import opened TxExtra
  import opened TxExtraOutcome
  import opened Wrappers

  /** The characters from position i up to j, as far as there are any. */
  function Sub(s: string, i: nat, j: nat): string
    requires i <= j
  {
    if |s| <= i then "" else if |s| < j then s[i..] else s[i..j]
  }

  function From(s: string, i: nat): string {
    if |s| <= i then "" else s[i..]
  }

  function AllButTwo(s: string): string {
    if |s| < 2 then "" else s[..|s| - 2]
  }

  function LastTwo(s: string): string {
    if |s| < 2 then s else s[|s| - 2..]
  }

  // ----- the records behind their tags

  function OwnerAt(s: string, k: nat): Owner {
    Owner(Sub(s, k, k + 2), Sub(s, k + 2, k + 66), Sub(s, k + 66, k + 130), Sub(s, k + 130, k + 132))
  }

  function BackupAt(fields: nat): nat {
    134 + 132 * (fields % 2)
  }

  function SignatureAt(fields: nat): nat {
    BackupAt(fields) + 132 * (fields / 2 % 2)
  }

  /** A nonce: the size in decimal, the kind, and one character pair less than the size
      says; with size 00 all but the last two characters. */
  ghost predicate IsNonce(s: string, r: Record, rest: string) {
    && DigitsAt(s, 0) && r.Nonce?
    && NonceKindOf(Sub(s, 2, 4)) == Some(r.kind)
    && IsNonceData(s, DecimalAt(s, 0), r.data, rest)
  }

  ghost predicate IsNonceData(s: string, size: nat, data: string, rest: string) {
    if size == 0 then data == AllButTwo(From(s, 4)) && rest == LastTwo(From(s, 4))
    else data == Sub(s, 4, 2 + 2 * size) && rest == From(s, 2 + 2 * size)
  }

  /** The fixed part of a name-system record. */
  ghost predicate IsHead(s: string, d: OnsData) {
    && DigitsAt(s, 132) && d.fields == DecimalAt(s, 132)
    && d.version == Sub(s, 0, 2) && OnsTypeOf(Sub(s, 2, 4)) == Some(d.kind)
    && d.nameHash == Sub(s, 4, 68) && d.prevTxid == Sub(s, 68, 132)
  }

  /** The parts its flags announce, one behind the other. */
  ghost predicate IsTail(s: string, d: OnsData, rest: string) {
    var f := d.fields;
    && d.owner == (if f % 2 == 1 then Some(OwnerAt(s, 134)) else None)
    && d.backupOwner == (if f / 2 % 2 == 1 then Some(OwnerAt(s, BackupAt(f))) else None)
    && d.signature == (if f / 4 % 2 == 1 then Some(Sub(s, SignatureAt(f), SignatureAt(f) + 64)) else None)
    && IsValue(s, ValueAt(f), f / 8 % 2 == 1, d.encryptedValue, rest)
  }

  /** A value of as many character pairs as the size in hexadecimal says. */
  ghost predicate IsValue(s: string, k: nat, present: bool, v: Option<string>, rest: string) {
    if !present then v == None && rest == From(s, k)
    else AllHex(Sub(s, k, k + 2)) && IsSized(s, k + 2, Number(Sub(s, k, k + 2), 16), v, rest)
  }

  ghost predicate IsSized(s: string, k: nat, size: nat, v: Option<string>, rest: string) {
    v == Some(Sub(s, k, k + 2 * size)) && rest == From(s, k + 2 * size)
  }

  /** The record r was read from s behind the tag, and rest is left. */
  ghost predicate IsRecord(tag: string, s: string, r: Record, rest: string) {
    match r
    case Pubkey(key) => tag == "01" && key == Sub(s, 0, 64) && rest == From(s, 64)
    case Nonce(_, _) => tag == "02" && IsNonce(s, r, rest)
    case Ons(d) => tag == "7A" && IsHead(s, d) && IsTail(s, d, rest)
    case Burn(amount) =>
      tag == "79" && AllHex(Sub(s, 0, 16)) && amount == LittleEndian(Sub(s, 0, 16)) && rest == From(s, 16)
  }

  // ----- slices

  lemma BehindIs(s: string, k: nat, r: string)
    ensures Behind(s, k, r) <==> r == From(s, k)
  {}

  lemma SubIs(s: string, k: nat, n: nat, v: string)
    requires |v| == (if |s| < k then 0 else if |s| < k + n then |s| - k else n)
    requires forall i :: 0 <= i < |v| ==> v[i] == s[k + i]
    ensures v == Sub(s, k, k + n)
  {}

  lemma CutBehind(s: string, k: nat, r: string, n: nat)
    requires Behind(s, k, r)
    ensures Cut(r, n).value == Sub(s, k, k + n) && Behind(s, k + n, Cut(r, n).rest)
    ensures Cut(r, n).rest == From(s, k + n)
  {
    CutIs(r, n);
    SubIs(s, k, n, Cut(r, n).value);
    BehindCut(s, k, r, n);
    BehindIs(s, k + n, Cut(r, n).rest);
  }

  /** The next n characters end at e. */
  lemma CutTo(s: string, k: nat, r: string, n: nat, e: nat, c: Part<string>)
    requires Behind(s, k, r) && e == k + n && c == Cut(r, n)
    ensures c.value == Sub(s, k, e) && c.rest == From(s, e)
  {
    CutBehind(s, k, r, n);
  }

  lemma Whole(s: string)
    ensures Behind(s, 0, s)
  {}

  // ----- the parses

  lemma PubkeyReads(s: string)
    ensures EatPubkey(s).state.value == Pubkey(Sub(s, 0, 64)) && EatPubkey(s).state.rest == From(s, 64)
  {
    Whole(s);
    CutBehind(s, 0, s, 64);
  }

  lemma BurnReads(s: string)
    requires AllHex(s) && EatBurn(s).Next?
    ensures IsRecord("79", s, EatBurn(s).state.value, EatBurn(s).state.rest)
  {
    Whole(s);
    CutBehind(s, 0, s, 16);
  }

  lemma CutBackTwo(s: string)
    ensures Cut(s, -2).value == AllButTwo(s) && Cut(s, -2).rest == LastTwo(s)
  {}

  lemma NonceIs(s: string, n: nat, tag: string, rest: string)
    requires AllHex(s) && EatNonce(s).Next?
    requires Number(Cut(s, 2).value, 10) == n && Cut(Cut(s, 2).rest, 2).value == tag && Cut(Cut(s, 2).rest, 2).rest == rest
    ensures var p := EatNonce(s).state;
            && p.value.Nonce? && NonceKindOf(tag) == Some(p.value.kind)
            && p.value.data == Cut(rest, 2 * n - 2).value && p.rest == Cut(rest, 2 * n - 2).rest
  {}

  lemma NonceDataReads(s: string, n: nat, r: string, c: Part<string>)
    requires Behind(s, 4, r) && r == From(s, 4) && c == Cut(r, 2 * n - 2)
    ensures IsNonceData(s, n, c.value, c.rest)
  {
    if n == 0 { CutBackTwo(r); } else { CutTo(s, 4, r, 2 * n - 2, 2 + 2 * n, c); }
  }

  lemma NonceStart(s: string)
    requires AllHex(s) && EatNonce(s).Next?
    ensures DigitsAt(s, 0) && Number(Cut(s, 2).value, 10) == DecimalAt(s, 0)
    ensures Cut(Cut(s, 2).rest, 2).value == Sub(s, 2, 4) && Cut(Cut(s, 2).rest, 2).rest == From(s, 4)
  {
    Whole(s);
    CutBehind(s, 0, s, 2);
    CutBehind(s, 2, Cut(s, 2).rest, 2);
    DigitsBehind(s, 0, s);
    DecimalBehind(s, 0, s);
  }

  lemma NonceReads(s: string)
    requires AllHex(s) && EatNonce(s).Next?
    ensures IsNonce(s, EatNonce(s).state.value, EatNonce(s).state.rest)
  {
    NonceStart(s);
    var n: int := DecimalAt(s, 0);
    NonceIs(s, n, Sub(s, 2, 4), From(s, 4));
    BehindIs(s, 4, From(s, 4));
    NonceDataReads(s, n, From(s, 4), Cut(From(s, 4), 2 * n - 2));
  }

  lemma FixedReads(s: string)
    ensures var version := Cut(s, 2);
            var kind := Cut(version.rest, 2);
            var name := Cut(kind.rest, 64);
            && version.value == Sub(s, 0, 2) && kind.value == Sub(s, 2, 4) && name.value == Sub(s, 4, 68)
            && Cut(name.rest, 64).value == Sub(s, 68, 132)
  {
    var version := Cut(s, 2);
    var kind := Cut(version.rest, 2);
    var name := Cut(kind.rest, 64);
    Whole(s);
    CutBehind(s, 0, s, 2);
    CutBehind(s, 2, version.rest, 2);
    CutBehind(s, 4, kind.rest, 64);
    CutBehind(s, 68, name.rest, 64);
  }

  lemma OwnerReads(s: string, k: nat, r: string, present: bool)
    requires Behind(s, k, r)
    ensures EatOptionalOwner(r, present).value == if present then Some(OwnerAt(s, k)) else None
  {
    if present {
      var kind := Cut(r, 2);
      var spend := Cut(kind.rest, 64);
      var view := Cut(spend.rest, 64);
      CutBehind(s, k, r, 2);
      CutBehind(s, k + 2, kind.rest, 64);
      CutBehind(s, k + 66, spend.rest, 64);
      CutBehind(s, k + 130, view.rest, 2);
    }
  }

  lemma ValueIs(r: string, size: string, n: nat, rest: string)
    requires AllHex(r) && EatOptionalValue(r, true).Next?
    requires Cut(r, 2).value == size && Cut(r, 2).rest == rest && AllHex(size) && Number(size, 16) == n
    ensures var p := EatOptionalValue(r, true).state;
            p.value == Some(Cut(rest, 2 * n).value) && p.rest == Cut(rest, 2 * n).rest
  {}

  lemma ValueReads(s: string, k: nat, r: string, present: bool)
    requires AllHex(r) && Behind(s, k, r) && EatOptionalValue(r, present).Next?
    ensures var p := EatOptionalValue(r, present).state; IsValue(s, k, present, p.value, p.rest)
  {
    if present { ValueThere(s, k, r); } else { BehindIs(s, k, r); }
  }

  lemma SizedReads(s: string, k: nat, r: string, size: nat)
    requires Behind(s, k, r)
    ensures IsSized(s, k, size, Some(Cut(r, 2 * size).value), Cut(r, 2 * size).rest)
  {
    CutBehind(s, k, r, 2 * size);
  }

  lemma ValueThere(s: string, k: nat, r: string)
    requires AllHex(r) && Behind(s, k, r) && EatOptionalValue(r, true).Next?
    ensures var p := EatOptionalValue(r, true).state; IsValue(s, k, true, p.value, p.rest)
  {
    var size := Cut(r, 2);
    var n := Number(size.value, 16);
    CutBehind(s, k, r, 2);
    ValueIs(r, size.value, n, size.rest);
    SizedReads(s, k + 2, size.rest, n);
  }

  lemma TwoOwners(s: string, r: string, first: bool, second: bool, k: nat)
    requires Behind(s, 134, r) && k == 134 + if first then 132 else 0
    ensures var owner := EatOptionalOwner(r, first);
            var backup := EatOptionalOwner(owner.rest, second);
            && owner.value == (if first then Some(OwnerAt(s, 134)) else None)
            && backup.value == (if second then Some(OwnerAt(s, k)) else None)
            && Behind(s, k + if second then 132 else 0, backup.rest)
  {
    var owner := EatOptionalOwner(r, first);
    OwnerReads(s, 134, r, first);
    OwnerBehind(s, 134, r, first);
    OwnerReads(s, k, owner.rest, second);
    OwnerBehind(s, k, owner.rest, second);
  }

  lemma BitPlaces(f: nat)
    ensures BackupAt(f) == 134 + if HasBit(f, 1) then 132 else 0
    ensures SignatureAt(f) == BackupAt(f) + if HasBit(f, 2) then 132 else 0
  {}

  lemma OwnersRead(s: string, r: string, f: nat)
    requires Behind(s, 134, r)
    ensures var owner := EatOptionalOwner(r, HasBit(f, 1));
            var backup := EatOptionalOwner(owner.rest, HasBit(f, 2));
            && owner.value == (if f % 2 == 1 then Some(OwnerAt(s, 134)) else None)
            && backup.value == (if f / 2 % 2 == 1 then Some(OwnerAt(s, BackupAt(f))) else None)
            && Behind(s, SignatureAt(f), backup.rest)
  {
    BitPlaces(f);
    TwoOwners(s, r, HasBit(f, 1), HasBit(f, 2), BackupAt(f));
  }

  lemma SignatureReads(s: string, r: string, f: nat)
    requires Behind(s, SignatureAt(f), r)
    ensures var signature := EatOptionalSignature(r, HasBit(f, 4));
            && signature.value ==
               (if f / 4 % 2 == 1 then Some(Sub(s, SignatureAt(f), SignatureAt(f) + 64)) else None)
            && Behind(s, ValueAt(f), signature.rest)
  {
    if HasBit(f, 4) { CutBehind(s, SignatureAt(f), r, 64); }
  }

  lemma TailReads(s: string, r: string, h: OnsHead)
    requires AllHex(r) && Behind(s, 134, r) && EatOnsTail(r, h).Next?
    ensures EatOnsTail(r, h).state.value.Ons?
    ensures IsTail(s, EatOnsTail(r, h).state.value.ons, EatOnsTail(r, h).state.rest)
  {
    var f := h.fields;
    var backup := EatOptionalOwner(EatOptionalOwner(r, HasBit(f, 1)).rest, HasBit(f, 2));
    OwnersRead(s, r, f);
    SignatureReads(s, backup.rest, f);
    ValueReads(s, ValueAt(f), ValueRest(r, f), HasBit(f, 8));
  }

  lemma HeadReads(s: string, h: OnsHead, d: OnsData)
    requires AllHex(s) && EatOnsHead(s).Next? && h == EatOnsHead(s).state.value
    requires d.version == h.version && d.kind == h.kind && d.nameHash == h.nameHash && d.prevTxid == h.prevTxid
    requires d.fields == h.fields
    ensures IsHead(s, d)
  {
    FixedReads(s);
    HeadRaises(s);
  }

  lemma OnsReads(s: string)
    requires AllHex(s) && EatOns(s).Next?
    ensures EatOns(s).state.value.Ons?
    ensures IsHead(s, EatOns(s).state.value.ons) && IsTail(s, EatOns(s).state.value.ons, EatOns(s).state.rest)
  {
    var head := EatOnsHead(s).state;
    HeadRaises(s);
    TailReads(s, head.rest, head.value);
    HeadReads(s, head.value, EatOns(s).state.value.ons);
  }

  lemma TaggedReads(tag: string, s: string, p: Part<Record>)
    requires AllHex(s) && EatTagged(tag, s) == Next(p)
    ensures IsRecord(tag, s, p.value, p.rest)
  {
    if tag == "01" {
      PubkeyReads(s);
    } else if tag == "02" {
      NonceReads(s);
    } else if tag == "7A" {
      OnsReads(s);
    } else {
      BurnReads(s);
    }
  }

  /** For every hex string on which a round completes: the record it gives holds the
      characters at the record's positions behind the tag, and what stands behind the
      record is left. */
  lemma RoundReads(s: string)
    requires AllHex(s) && Round(s).Next?
    ensures |s| >= 2 && IsRecord(Upper(s[..2]), s[2..], Round(s).state.value, Round(s).state.rest)
  {
    RoundIs(s);
    var c := Cut(s, 2);
    assert c.value == s[..2] && c.rest == s[2..];
    TaggedReads(Upper(s[..2]), s[2..], EatTagged(Upper(s[..2]), s[2..]).state);
  }
}
