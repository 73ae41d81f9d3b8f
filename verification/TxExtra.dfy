/**
  The tx-extra decoder: a hex string eaten from the front, one tagged record a
  round.  Slices are taken as the list slices of the original: past the end they
  come out short, and a negative bound counts from the end.
 */
module TxExtra {
  import opened Steps
  import opened Wrappers

  // ----- characters and numbers

  predicate IsDigit(c: char) {
    '0' <= c <= '9'
  }

  predicate IsHex(c: char) {
    IsDigit(c) || 'a' <= c <= 'f' || 'A' <= c <= 'F'
  }

  predicate AllHex(s: string) {
    forall i :: 0 <= i < |s| ==> IsHex(s[i])
  }

  function HexValue(c: char): (v: nat)
    requires IsHex(c)
    ensures v < 16
  {
    if IsDigit(c) then c as nat - '0' as nat
    else if 'a' <= c <= 'f' then c as nat - 'a' as nat + 10
    else c as nat - 'A' as nat + 10
  }

  function Upper(s: string): (r: string)
    ensures |r| == |s|
  {
    seq(|s|, i requires 0 <= i < |s| => if 'a' <= s[i] <= 'z' then (s[i] as nat - 32) as char else s[i])
  }

  /** int(s): fails unless s is a nonempty run of decimal digits. */
  predicate IsDecimal(s: string) {
    s != [] && forall i :: 0 <= i < |s| ==> IsDigit(s[i])
  }

  function Number(s: string, base: nat): nat
    requires AllHex(s)
  {
    if s == [] then 0 else base * Number(s[..|s| - 1], base) + HexValue(s[|s| - 1])
  }

  /** int.from_bytes(bytearray.fromhex(s), "little"). */
  function LittleEndian(s: string): nat
    requires AllHex(s)
  {
    if |s| < 2 then 0 else 16 * HexValue(s[0]) + HexValue(s[1]) + 256 * LittleEndian(s[2..])
  }

  // ----- slices

  function TakeTo(s: string, k: int): string {
    if k >= 0 then (if k <= |s| then s[..k] else s)
    else if -k <= |s| then s[..|s| + k]
    else []
  }

  function DropTo(s: string, k: int): string {
    if k >= 0 then (if k <= |s| then s[k..] else [])
    else if -k <= |s| then s[|s| + k..]
    else s
  }

  /** A value read, what is left, and whether every slice had its full length. */
  datatype Part<+T> = Part(value: T, rest: string, full: bool)

  function Cut(s: string, k: int): (r: Part<string>)
    ensures r.value + r.rest == s
    ensures AllHex(s) ==> AllHex(r.value) && AllHex(r.rest)
  {
    Part(TakeTo(s, k), DropTo(s, k), 0 <= k <= |s|)
  }

  lemma CutAppend(s: string, k: int, b: string)
    requires Cut(s, k).full
    ensures Cut(s + b, k) == Part(Cut(s, k).value, Cut(s, k).rest + b, true)
  {
    assert (s + b)[..k] == s[..k];
    assert (s + b)[k..] == s[k..] + b;
  }

  // ----- records

  datatype Owner = Owner(kind: string, spendPublicKey: string, viewPublicKey: string, isSubaddress: string)

  datatype OnsType = Session | Wallet | Lokinet | Lokinet2Years | Lokinet5Years | Lokinet10Years

  datatype NonceKind = PaymentId | EncryptedPaymentId

  datatype OnsData = OnsData(version: string, kind: OnsType, nameHash: string, prevTxid: string, fields: nat,
                             owner: Option<Owner>, backupOwner: Option<Owner>,
                             signature: Option<string>, encryptedValue: Option<string>)

  datatype Record = Pubkey(key: string) | Nonce(kind: NonceKind, data: string) | Ons(ons: OnsData) | Burn(amount: nat)

  datatype Error = UnknownTag | UnhandledTag | UnknownKey | BadNumber

  type Parse<+T> = Step<Part<T>, Error>

  /** The tags of the tag dictionary: 00 to 04, 70 to 79 and 7A. */
  predicate KnownTag(tag: string) {
    && |tag| == 2
    && ((tag[0] == '0' && '0' <= tag[1] <= '4') || (tag[0] == '7' && (IsDigit(tag[1]) || tag[1] == 'A')))
  }

  function NonceKindOf(tag: string): Option<NonceKind> {
    if tag == "00" then Some(PaymentId)
    else if tag == "01" then Some(EncryptedPaymentId)
    else None
  }

  function OnsTypeOf(tag: string): Option<OnsType> {
    if tag == "00" then Some(Session)
    else if tag == "01" then Some(Wallet)
    else if tag == "02" then Some(Lokinet)
    else if tag == "03" then Some(Lokinet2Years)
    else if tag == "04" then Some(Lokinet5Years)
    else if tag == "05" then Some(Lokinet10Years)
    else None
  }

  function EatPubkey(s: string): Parse<Record> {
    var c := Cut(s, 64);
    Next(Part(Pubkey(c.value), c.rest, c.full))
  }

  /** The size byte is read as a decimal number and counts the nonce tag. */
  function EatNonce(s: string): (r: Parse<Record>)
    requires AllHex(s)
    ensures r.Next? ==> AllHex(r.state.rest) && |r.state.rest| <= |s|
  {
    var size := Cut(s, 2);
    if !IsDecimal(size.value) then Fail(BadNumber)
    else
      var tag := Cut(size.rest, 2);
      var data := Cut(tag.rest, (Number(size.value, 10) - 1) * 2);
      match NonceKindOf(tag.value)
      case None => Fail(UnknownKey)
      case Some(kind) => Next(Part(Nonce(kind, data.value), data.rest, size.full && tag.full && data.full))
  }

  function EatOwner(s: string): (r: Part<Owner>)
    ensures AllHex(s) ==> AllHex(r.rest)
    ensures |r.rest| <= |s|
  {
    var kind := Cut(s, 2);
    var spend := Cut(kind.rest, 64);
    var view := Cut(spend.rest, 64);
    var sub := Cut(view.rest, 2);
    Part(Owner(kind.value, spend.value, view.value, sub.value), sub.rest, kind.full && spend.full && view.full && sub.full)
  }

  predicate HasBit(fields: nat, bit: nat)
    requires bit > 0
  {
    (fields / bit) % 2 == 1
  }

  /** The flags of the parts that are there: one for the owner, two for the backup
      owner, four for the signature, eight for the encrypted value. */
  function FlagsOf(d: OnsData): nat {
    (if d.owner.Some? then 1 else 0) + (if d.backupOwner.Some? then 2 else 0)
      + (if d.signature.Some? then 4 else 0) + (if d.encryptedValue.Some? then 8 else 0)
  }

  /** The flags tell which parts are there exactly if they are the low bits of the
      field number. */
  lemma FlagBits(d: OnsData)
    ensures d.fields % 16 == FlagsOf(d) <==>
            && d.owner.Some? == HasBit(d.fields, 1) && d.backupOwner.Some? == HasBit(d.fields, 2)
            && d.signature.Some? == HasBit(d.fields, 4) && d.encryptedValue.Some? == HasBit(d.fields, 8)
  {
    LowBits(d.fields);
  }

  lemma LowBits(f: nat)
    ensures f % 16 == f % 2 + 2 * (f / 2 % 2) + 4 * (f / 4 % 2) + 8 * (f / 8 % 2)
  {
    HalfOf(f, 2);
    HalfOf(f, 4);
    HalfOf(f, 8);
  }

  lemma HalfOf(f: nat, k: nat)
    requires k == 2 || k == 4 || k == 8
    ensures f / (2 * k) == f / k / 2
  {
    if k == 2 { assert f / 4 == f / 2 / 2; }
    if k == 4 { assert f / 8 == f / 4 / 2; }
    if k == 8 { assert f / 16 == f / 8 / 2; }
  }

  function EatOptionalOwner(s: string, present: bool): (r: Part<Option<Owner>>)
    ensures AllHex(s) ==> AllHex(r.rest)
    ensures |r.rest| <= |s|
  {
    if present then var o := EatOwner(s); Part(Some(o.value), o.rest, o.full) else Part(None, s, true)
  }

  function EatOptionalSignature(s: string, present: bool): (r: Part<Option<string>>)
    ensures AllHex(s) ==> AllHex(r.rest)
    ensures |r.rest| <= |s|
  {
    if present then var c := Cut(s, 64); Part(Some(c.value), c.rest, c.full) else Part(None, s, true)
  }

  function EatOptionalValue(s: string, present: bool): (r: Parse<Option<string>>)
    requires AllHex(s)
    ensures r.Next? ==> AllHex(r.state.rest) && |r.state.rest| <= |s|
  {
    if !present then Next(Part(None, s, true))
    else
      var size := Cut(s, 2);
      if size.value == [] then Fail(BadNumber)
      else
        var v := Cut(size.rest, Number(size.value, 16) * 2);
        Next(Part(Some(v.value), v.rest, size.full && v.full))
  }

  datatype OnsHead = OnsHead(version: string, kind: OnsType, nameHash: string, prevTxid: string, fields: nat)

  /** The fixed part; the field flags are read as a decimal number. */
  function EatOnsHead(s: string): (r: Parse<OnsHead>)
    requires AllHex(s)
    ensures r.Next? ==> AllHex(r.state.rest) && |r.state.rest| <= |s|
  {
    var version := Cut(s, 2);
    var kind := Cut(version.rest, 2);
    var name := Cut(kind.rest, 64);
    var prev := Cut(name.rest, 64);
    var fields := Cut(prev.rest, 2);
    if !IsDecimal(fields.value) then Fail(BadNumber)
    else
      match OnsTypeOf(kind.value)
      case None => Fail(UnknownKey)
      case Some(k) =>
        Next(Part(OnsHead(version.value, k, name.value, prev.value, Number(fields.value, 10)), fields.rest,
                 version.full && kind.full && name.full && prev.full && fields.full))
  }

  /** The optional parts that the flags announce, in order. */
  function EatOnsTail(s: string, h: OnsHead): (r: Parse<Record>)
    requires AllHex(s)
    ensures r.Next? ==> AllHex(r.state.rest) && |r.state.rest| <= |s|
  {
    var owner := EatOptionalOwner(s, HasBit(h.fields, 1));
    var backup := EatOptionalOwner(owner.rest, HasBit(h.fields, 2));
    var signature := EatOptionalSignature(backup.rest, HasBit(h.fields, 4));
    match EatOptionalValue(signature.rest, HasBit(h.fields, 8))
    case Fail(e) => Fail(e)
    case Next(value) =>
      Next(Part(Ons(OnsData(h.version, h.kind, h.nameHash, h.prevTxid, h.fields,
                           owner.value, backup.value, signature.value, value.value)),
               value.rest, owner.full && backup.full && signature.full && value.full))
  }

  function EatOns(s: string): (r: Parse<Record>)
    requires AllHex(s)
    ensures r.Next? ==> AllHex(r.state.rest) && |r.state.rest| <= |s|
  {
    match EatOnsHead(s)
    case Fail(e) => Fail(e)
    case Next(head) =>
      match EatOnsTail(head.rest, head.value)
      case Fail(e) => Fail(e)
      case Next(tail) => Next(Part(tail.value, tail.rest, head.full && tail.full))
  }

  function EatBurn(s: string): (r: Parse<Record>)
    requires AllHex(s)
    ensures r.Next? ==> AllHex(r.state.rest) && |r.state.rest| <= |s|
  {
    var c := Cut(s, 16);
    if |c.value| % 2 == 1 then Fail(BadNumber)
    else Next(Part(Burn(LittleEndian(c.value)), c.rest, c.full))
  }

  /** One round of the main loop. */
  function Round(s: string): (r: Parse<Record>)
    requires AllHex(s)
    ensures r.Next? ==> AllHex(r.state.rest) && |r.state.rest| + 2 <= |s|
  {
    var c := Cut(s, 2);
    var tag := Upper(c.value);
    if !KnownTag(tag) then Fail(UnknownTag)
    else
      match EatTagged(tag, c.rest)
      case Fail(e) => Fail(e)
      case Next(p) => Next(Part(p.value, p.rest, c.full && p.full))
  }

  function EatTagged(tag: string, s: string): (r: Parse<Record>)
    requires AllHex(s)
    ensures r.Next? ==> AllHex(r.state.rest) && |r.state.rest| <= |s|
  {
    if tag == "01" then EatPubkey(s)
    else if tag == "02" then EatNonce(s)
    else if tag == "7A" then EatOns(s)
    else if tag == "79" then EatBurn(s)
    else Fail(UnhandledTag)
  }

  // ----- the main loop

  /** The records printed, and how the loop came to its end. */
  datatype Decoded = Decoded(records: seq<Record>, stopped: Option<Error>)

  function Before(r: Record, d: Decoded): Decoded {
    Decoded([r] + d.records, d.stopped)
  }

  function Then(d: Decoded, e: Decoded): Decoded {
    Decoded(d.records + e.records, e.stopped)
  }

  /** Rounds until the list is empty or one raises; a round that took nothing
      would raise, too, but none does. */
  function Rounds(round: string -> Parse<Record>, s: string): Decoded
    decreases |s|
  {
    if s == [] then Decoded([], None)
    else
      match round(s)
      case Fail(e) => Decoded([], Some(e))
      case Next(p) => if |p.rest| < |s| then Before(p.value, Rounds(round, p.rest)) else Decoded([], Some(BadNumber))
  }

  /** Every round completes, each slice at its full length. */
  predicate FullRounds(round: string -> Parse<Record>, s: string)
    decreases |s|
  {
    || s == []
    || (round(s).Next? && round(s).state.full && |round(s).state.rest| < |s| && FullRounds(round, round(s).state.rest))
  }

  /** Hex strings only; anything else is not a tx-extra. */
  function OneRound(): string -> Parse<Record> {
    (s: string) => if AllHex(s) then Round(s) else Fail(BadNumber)
  }

  function Decode(s: string): Decoded {
    Rounds(OneRound(), s)
  }

  predicate FullDecode(s: string) {
    FullRounds(OneRound(), s)
  }

  // ----- decoding is compositional

  lemma OwnerAppend(s: string, b: string)
    requires EatOwner(s).full
    ensures EatOwner(s + b) == Part(EatOwner(s).value, EatOwner(s).rest + b, true)
  {
    var kind := Cut(s, 2);
    var spend := Cut(kind.rest, 64);
    var view := Cut(spend.rest, 64);
    CutAppend(s, 2, b);
    CutAppend(kind.rest, 64, b);
    CutAppend(spend.rest, 64, b);
    CutAppend(view.rest, 2, b);
  }

  lemma OptionalAppend(s: string, present: bool, b: string)
    requires AllHex(s) && AllHex(b)
    ensures EatOptionalOwner(s, present).full ==>
              EatOptionalOwner(s + b, present)
                == Part(EatOptionalOwner(s, present).value, EatOptionalOwner(s, present).rest + b, true)
    ensures EatOptionalSignature(s, present).full ==>
              EatOptionalSignature(s + b, present)
                == Part(EatOptionalSignature(s, present).value, EatOptionalSignature(s, present).rest + b, true)
  {
    if present && EatOptionalOwner(s, present).full { OwnerAppend(s, b); }
    if present && EatOptionalSignature(s, present).full { CutAppend(s, 64, b); }
  }

  lemma ValueAppend(s: string, present: bool, b: string)
    requires AllHex(s) && AllHex(b)
    requires EatOptionalValue(s, present).Next? && EatOptionalValue(s, present).state.full
    ensures var p := EatOptionalValue(s, present).state;
            EatOptionalValue(s + b, present) == Next(Part(p.value, p.rest + b, true))
  {
    if present {
      CutAppend(s, 2, b);
      CutAppend(Cut(s, 2).rest, Number(Cut(s, 2).value, 16) * 2, b);
    }
  }

  lemma NonceAppend(s: string, b: string)
    requires AllHex(s) && AllHex(b)
    requires EatNonce(s).Next? && EatNonce(s).state.full
    ensures EatNonce(s + b) == Next(Part(EatNonce(s).state.value, EatNonce(s).state.rest + b, true))
  {
    var size := Cut(s, 2);
    var tag := Cut(size.rest, 2);
    CutAppend(s, 2, b);
    CutAppend(size.rest, 2, b);
    CutAppend(tag.rest, (Number(size.value, 10) - 1) * 2, b);
  }

  lemma OnsHeadAppend(s: string, b: string)
    requires AllHex(s) && AllHex(b)
    requires EatOnsHead(s).Next? && EatOnsHead(s).state.full
    ensures EatOnsHead(s + b) == Next(Part(EatOnsHead(s).state.value, EatOnsHead(s).state.rest + b, true))
  {
    var version := Cut(s, 2);
    var kind := Cut(version.rest, 2);
    var name := Cut(kind.rest, 64);
    var prev := Cut(name.rest, 64);
    CutAppend(s, 2, b);
    CutAppend(version.rest, 2, b);
    CutAppend(kind.rest, 64, b);
    CutAppend(name.rest, 64, b);
    CutAppend(prev.rest, 2, b);
  }

  lemma OnsTailAppend(s: string, h: OnsHead, b: string)
    requires AllHex(s) && AllHex(b)
    requires EatOnsTail(s, h).Next? && EatOnsTail(s, h).state.full
    ensures EatOnsTail(s + b, h) == Next(Part(EatOnsTail(s, h).state.value, EatOnsTail(s, h).state.rest + b, true))
  {
    var owner := EatOptionalOwner(s, HasBit(h.fields, 1));
    var backup := EatOptionalOwner(owner.rest, HasBit(h.fields, 2));
    var signature := EatOptionalSignature(backup.rest, HasBit(h.fields, 4));
    OptionalAppend(s, HasBit(h.fields, 1), b);
    OptionalAppend(owner.rest, HasBit(h.fields, 2), b);
    OptionalAppend(backup.rest, HasBit(h.fields, 4), b);
    ValueAppend(signature.rest, HasBit(h.fields, 8), b);
  }

  lemma TaggedAppend(tag: string, s: string, b: string)
    requires AllHex(s) && AllHex(b)
    requires EatTagged(tag, s).Next? && EatTagged(tag, s).state.full
    ensures EatTagged(tag, s + b) == Next(Part(EatTagged(tag, s).state.value, EatTagged(tag, s).state.rest + b, true))
  {
    if tag == "01" {
      CutAppend(s, 64, b);
    } else if tag == "02" {
      NonceAppend(s, b);
    } else if tag == "7A" {
      OnsHeadAppend(s, b);
      OnsTailAppend(EatOnsHead(s).state.rest, EatOnsHead(s).state.value, b);
    } else {
      CutAppend(s, 16, b);
    }
  }

  lemma RoundAppend(s: string, b: string)
    requires AllHex(s) && AllHex(b)
    requires Round(s).Next? && Round(s).state.full
    ensures Round(s + b) == Next(Part(Round(s).state.value, Round(s).state.rest + b, true))
  {
    CutAppend(s, 2, b);
    TaggedAppend(Upper(Cut(s, 2).value), Cut(s, 2).rest, b);
  }

  lemma BeforeThen(r: Record, d: Decoded, e: Decoded)
    ensures Then(Before(r, d), e) == Before(r, Then(d, e))
  {}

  lemma {:induction false} RoundsAppend(round: string -> Parse<Record>, a: string, b: string)
    requires FullRounds(round, a)
    requires forall s :: round(s).Next? && round(s).state.full ==>
               round(s + b) == Next(Part(round(s).state.value, round(s).state.rest + b, true))
    ensures Rounds(round, a).stopped == None
    ensures Rounds(round, a + b) == Then(Rounds(round, a), Rounds(round, b))
    decreases |a|
  {
    if a == [] {
      assert a + b == b;
    } else {
      var p := round(a).state;
      RoundsAppend(round, p.rest, b);
      BeforeThen(p.value, Rounds(round, p.rest), Rounds(round, b));
    }
  }

  /** If every slice in a has its full length, then what a decodes to comes
      first and what b decodes to follows, whatever b is. */
  lemma DecodeAppend(a: string, b: string)
    requires AllHex(b) && FullDecode(a)
    ensures Decode(a).stopped == None
    ensures Decode(a + b) == Then(Decode(a), Decode(b))
  {
    forall s | OneRound()(s).Next? && OneRound()(s).state.full
      ensures OneRound()(s + b) == Next(Part(OneRound()(s).state.value, OneRound()(s).state.rest + b, true))
    {
      RoundAppend(s, b);
    }
    RoundsAppend(OneRound(), a, b);
  }
}
