/**
  When a round of the tx-extra decoder raises, and what, read off the characters of
  the string by position; and what the flags of a decoded name-system record say.
 */
module TxExtraOutcome {
  import opened Steps
  import opened TxExtra
  import opened Wrappers

  // ----- by position

  const HANDLED_TAGS := ["01", "02", "79", "7A"]

  const OTHER_TAGS := ["00", "03", "04", "70", "71", "72", "73", "74", "75", "76", "77", "78"]

  const NONCE_TAGS := ["00", "01"]

  const TYPE_TAGS := ["00", "01", "02", "03", "04", "05"]

  /** The one or two characters from position i on are decimal digits. */
  predicate DigitsAt(s: string, i: nat) {
    i < |s| && '0' <= s[i] <= '9' && (i + 1 < |s| ==> '0' <= s[i + 1] <= '9')
  }

  /** The two characters from position i on are among the given pairs. */
  predicate PairAt(s: string, i: nat, pairs: seq<string>) {
    i + 2 <= |s| && s[i..i + 2] in pairs
  }

  /** The decimal number at position i. */
  function DecimalAt(s: string, i: nat): nat
    requires DigitsAt(s, i)
  {
    if i + 1 == |s| then s[i] as nat - '0' as nat
    else 10 * (s[i] as nat - '0' as nat) + (s[i + 1] as nat - '0' as nat)
  }

  /** Where the size of the encrypted value stands behind a name-system tag. */
  function ValueAt(fields: nat): nat {
    134 + 132 * (fields % 2) + 132 * (fields / 2 % 2) + 64 * (fields / 4 % 2)
  }

  /** What a nonce, name-system record or burn with the given text raises. */
  function NonceError(s: string): Option<Error> {
    if !DigitsAt(s, 0) then Some(BadNumber)
    else if !PairAt(s, 2, NONCE_TAGS) then Some(UnknownKey)
    else None
  }

  function OnsError(s: string): Option<Error> {
    if !DigitsAt(s, 132) then Some(BadNumber)
    else if !PairAt(s, 2, TYPE_TAGS) then Some(UnknownKey)
    else if DecimalAt(s, 132) % 16 >= 8 && |s| <= ValueAt(DecimalAt(s, 132)) then Some(BadNumber)
    else None
  }

  function BurnError(s: string): Option<Error> {
    if |s| < 16 && |s| % 2 == 1 then Some(BadNumber) else None
  }

  function TaggedError(tag: string, s: string): Option<Error> {
    if tag in OTHER_TAGS then Some(UnhandledTag)
    else if tag !in HANDLED_TAGS then Some(UnknownTag)
    else if tag == "02" then NonceError(s)
    else if tag == "7A" then OnsError(s)
    else if tag == "79" then BurnError(s)
    else None
  }

  function RoundError(s: string): Option<Error> {
    if |s| < 2 then Some(UnknownTag) else TaggedError(Upper(s[..2]), s[2..])
  }

  /** The parse raises just that, or nothing. */
  predicate Raises<T>(p: Parse<T>, e: Option<Error>) {
    if p.Fail? then e == Some(p.error) else e == None
  }

  // ----- slices by position

  lemma CutIs(s: string, k: nat)
    ensures |Cut(s, k).value| == (if |s| < k then |s| else k)
    ensures |Cut(s, k).rest| == if |s| < k then 0 else |s| - k
    ensures forall i :: 0 <= i < |Cut(s, k).value| ==> Cut(s, k).value[i] == s[i]
    ensures forall i :: 0 <= i < |Cut(s, k).rest| ==> Cut(s, k).rest[i] == s[k + i]
  {}

  /** r is what is left of s behind position k. */
  predicate Behind(s: string, k: nat, r: string) {
    |r| == (if |s| < k then 0 else |s| - k) && forall i :: 0 <= i < |r| ==> r[i] == s[k + i]
  }

  lemma BehindCut(s: string, k: nat, r: string, n: nat)
    requires Behind(s, k, r)
    ensures Behind(s, k + n, Cut(r, n).rest)
  {
    CutIs(r, n);
  }

  lemma DigitsBehind(s: string, k: nat, r: string)
    requires Behind(s, k, r)
    ensures IsDecimal(Cut(r, 2).value) <==> DigitsAt(s, k)
  {
    var v := Cut(r, 2).value;
    CutIs(r, 2);
    assert forall i :: 0 <= i < |v| ==> v[i] == s[k + i];
    if IsDecimal(v) {
      assert IsDigit(v[0]) && (|v| == 2 ==> IsDigit(v[1]));
    }
  }

  lemma DecimalBehind(s: string, k: nat, r: string)
    requires Behind(s, k, r) && AllHex(r) && DigitsAt(s, k)
    ensures Number(Cut(r, 2).value, 10) == DecimalAt(s, k)
  {
    CutIs(r, 2);
    DigitsNumber(Cut(r, 2).value);
  }

  lemma DigitsNumber(v: string)
    requires 1 <= |v| <= 2 && AllHex(v) && IsDecimal(v)
    ensures Number(v, 10) == if |v| == 1 then v[0] as nat - '0' as nat
                             else 10 * (v[0] as nat - '0' as nat) + (v[1] as nat - '0' as nat)
  {
    assert IsDigit(v[0]) && v[..1] == [v[0]];
    assert Number(v[..1], 10) == HexValue(v[0]) by { assert v[..1][..0] == []; }
    if |v| == 2 { assert IsDigit(v[1]); } else { assert v[..1] == v; }
  }

  lemma PairBehind(s: string, k: nat, r: string, pairs: seq<string>)
    requires Behind(s, k, r) && forall i :: 0 <= i < |pairs| ==> |pairs[i]| == 2
    ensures Cut(r, 2).value in pairs <==> PairAt(s, k, pairs)
  {
    CutIs(r, 2);
    if k + 2 <= |s| { assert Cut(r, 2).value == s[k..k + 2]; }
  }

  // ----- the parses

  lemma NonceRaises(s: string)
    requires AllHex(s)
    ensures Raises(EatNonce(s), NonceError(s))
  {
    var size := Cut(s, 2);
    assert Behind(s, 0, s);
    DigitsBehind(s, 0, s);
    BehindCut(s, 0, s, 2);
    PairBehind(s, 2, size.rest, NONCE_TAGS);
    NonceKinds(Cut(size.rest, 2).value);
  }

  lemma NonceKinds(tag: string)
    ensures NonceKindOf(tag).Some? <==> tag in NONCE_TAGS
  {}

  lemma OnsTypes(tag: string)
    ensures OnsTypeOf(tag).Some? <==> tag in TYPE_TAGS
  {}

  /** What is left where the field number stands. */
  function FieldsRest(s: string): string {
    Cut(Cut(Cut(Cut(s, 2).rest, 2).rest, 64).rest, 64).rest
  }

  lemma FieldsBehind(s: string)
    ensures Behind(s, 2, Cut(s, 2).rest) && Behind(s, 132, FieldsRest(s)) && Behind(s, 134, Cut(FieldsRest(s), 2).rest)
  {
    var version := Cut(s, 2);
    var kind := Cut(version.rest, 2);
    var name := Cut(kind.rest, 64);
    assert Behind(s, 0, s);
    BehindCut(s, 0, s, 2);
    BehindCut(s, 2, version.rest, 2);
    BehindCut(s, 4, kind.rest, 64);
    BehindCut(s, 68, name.rest, 64);
    BehindCut(s, 132, FieldsRest(s), 2);
  }

  lemma HeadIs(s: string, fields: Part<string>, kind: Option<OnsType>)
    requires AllHex(s) && fields == Cut(FieldsRest(s), 2) && kind == OnsTypeOf(Cut(Cut(s, 2).rest, 2).value)
    ensures EatOnsHead(s).Fail? <==> !IsDecimal(fields.value) || kind.None?
    ensures EatOnsHead(s).Fail? ==> EatOnsHead(s).error == if IsDecimal(fields.value) then UnknownKey else BadNumber
    ensures AllHex(FieldsRest(s)) && AllHex(fields.value)
    ensures EatOnsHead(s).Next? ==>
              EatOnsHead(s).state.value.fields == Number(fields.value, 10) && EatOnsHead(s).state.rest == fields.rest
  {}

  lemma HeadRaises(s: string)
    requires AllHex(s)
    ensures EatOnsHead(s).Fail? <==> !DigitsAt(s, 132) || !PairAt(s, 2, TYPE_TAGS)
    ensures EatOnsHead(s).Fail? ==> EatOnsHead(s).error == if DigitsAt(s, 132) then UnknownKey else BadNumber
    ensures EatOnsHead(s).Next? ==>
              EatOnsHead(s).state.value.fields == DecimalAt(s, 132) && Behind(s, 134, EatOnsHead(s).state.rest)
  {
    var kind := Cut(Cut(s, 2).rest, 2).value;
    FieldsBehind(s);
    HeadIs(s, Cut(FieldsRest(s), 2), OnsTypeOf(kind));
    PairBehind(s, 2, Cut(s, 2).rest, TYPE_TAGS);
    OnsTypes(kind);
    DigitsBehind(s, 132, FieldsRest(s));
    if DigitsAt(s, 132) { DecimalBehind(s, 132, FieldsRest(s)); }
  }

  lemma OwnerBehind(s: string, k: nat, r: string, present: bool)
    requires Behind(s, k, r)
    ensures Behind(s, k + if present then 132 else 0, EatOptionalOwner(r, present).rest)
  {
    if present {
      var kind := Cut(r, 2);
      var spend := Cut(kind.rest, 64);
      var view := Cut(spend.rest, 64);
      BehindCut(s, k, r, 2);
      BehindCut(s, k + 2, kind.rest, 64);
      BehindCut(s, k + 66, spend.rest, 64);
      BehindCut(s, k + 130, view.rest, 2);
    }
  }

  /** What is left where the size of the encrypted value stands. */
  function ValueRest(r: string, f: nat): string {
    var backup := EatOptionalOwner(EatOptionalOwner(r, HasBit(f, 1)).rest, HasBit(f, 2));
    EatOptionalSignature(backup.rest, HasBit(f, 4)).rest
  }

  lemma PartsBehind(s: string, r: string, f: nat, k1: nat, k2: nat, k4: nat)
    requires Behind(s, 134, r)
    requires k1 == (if HasBit(f, 1) then 132 else 0) && k2 == (if HasBit(f, 2) then 132 else 0)
    requires k4 == if HasBit(f, 4) then 64 else 0
    ensures Behind(s, 134 + k1 + k2 + k4, ValueRest(r, f))
  {
    var owner := EatOptionalOwner(r, HasBit(f, 1));
    var backup := EatOptionalOwner(owner.rest, HasBit(f, 2));
    OwnerBehind(s, 134, r, HasBit(f, 1));
    OwnerBehind(s, 134 + k1, owner.rest, HasBit(f, 2));
    if HasBit(f, 4) { BehindCut(s, 134 + k1 + k2, backup.rest, 64); }
  }

  lemma FlagValues(f: nat)
    ensures ValueAt(f) == 134 + (if HasBit(f, 1) then 132 else 0) + (if HasBit(f, 2) then 132 else 0)
                        + if HasBit(f, 4) then 64 else 0
    ensures f % 16 >= 8 <==> HasBit(f, 8)
  {
    LowBits(f);
  }

  lemma TailIs(r: string, h: OnsHead)
    requires AllHex(r)
    ensures AllHex(ValueRest(r, h.fields))
    ensures var v := EatOptionalValue(ValueRest(r, h.fields), HasBit(h.fields, 8));
            Raises(EatOnsTail(r, h), if v.Fail? then Some(v.error) else None)
  {}

  lemma TailRaises(s: string, r: string, h: OnsHead)
    requires AllHex(r) && Behind(s, 134, r)
    ensures Raises(EatOnsTail(r, h),
                   if h.fields % 16 >= 8 && |s| <= ValueAt(h.fields) then Some(BadNumber) else None)
  {
    var f := h.fields;
    TailIs(r, h);
    FlagValues(f);
    PartsBehind(s, r, f, if HasBit(f, 1) then 132 else 0, if HasBit(f, 2) then 132 else 0, if HasBit(f, 4) then 64 else 0);
    ValueRaises(s, ValueAt(f), ValueRest(r, f), HasBit(f, 8));
  }

  lemma ValueRaises(s: string, k: nat, r: string, present: bool)
    requires AllHex(r) && Behind(s, k, r)
    ensures Raises(EatOptionalValue(r, present), if present && |s| <= k then Some(BadNumber) else None)
  {
    CutIs(r, 2);
  }

  lemma OnsRaises(s: string)
    requires AllHex(s)
    ensures Raises(EatOns(s), OnsError(s))
  {
    HeadRaises(s);
    if EatOnsHead(s).Next? {
      TailRaises(s, EatOnsHead(s).state.rest, EatOnsHead(s).state.value);
    }
  }

  lemma BurnRaises(s: string)
    requires AllHex(s)
    ensures Raises(EatBurn(s), BurnError(s))
  {
    CutIs(s, 16);
  }

  lemma KnownTags(tag: string)
    ensures KnownTag(tag) <==> tag in HANDLED_TAGS || tag in OTHER_TAGS
  {
    if KnownTag(tag) { assert tag == [tag[0], tag[1]]; }
  }

  /** The error of a tag, given those of the four kinds of record. */
  lemma TaggedErrors(tag: string, s: string, nonce: Option<Error>, ons: Option<Error>, burn: Option<Error>)
    requires NonceError(s) == nonce && OnsError(s) == ons && BurnError(s) == burn
    ensures TaggedError(tag, s) ==
            if tag == "01" then None else if tag == "02" then nonce else if tag == "7A" then ons
            else if tag == "79" then burn
            else if tag in OTHER_TAGS then Some(UnhandledTag) else Some(UnknownTag)
  {}

  lemma TaggedParse(tag: string, s: string, e: Option<Error>)
    requires AllHex(s)
    requires tag == "02" ==> Raises(EatNonce(s), e)
    requires tag == "7A" ==> Raises(EatOns(s), e)
    requires tag == "79" ==> Raises(EatBurn(s), e)
    requires tag == "01" ==> e == None
    requires tag !in HANDLED_TAGS ==> e == Some(UnhandledTag)
    ensures Raises(EatTagged(tag, s), e)
  {}

  lemma TaggedRaises(tag: string, s: string)
    requires AllHex(s) && KnownTag(tag)
    ensures Raises(EatTagged(tag, s), TaggedError(tag, s))
  {
    KnownTags(tag);
    NonceRaises(s);
    OnsRaises(s);
    BurnRaises(s);
    TaggedErrors(tag, s, NonceError(s), OnsError(s), BurnError(s));
    TaggedParse(tag, s, TaggedError(tag, s));
  }

  lemma RoundIs(s: string)
    requires AllHex(s)
    ensures |s| < 2 ==> Round(s) == Fail(UnknownTag)
    ensures |s| >= 2 ==>
              var tag := Upper(s[..2]);
              Raises(Round(s), if !KnownTag(tag) then Some(UnknownTag)
                               else if EatTagged(tag, s[2..]).Fail? then Some(EatTagged(tag, s[2..]).error) else None)
  {}

  /** For every hex string: a round raises exactly what its characters say, and
      nothing otherwise.  In particular a burn raises if and only if it ends after
      half a byte. */
  lemma RoundRaises(s: string)
    requires AllHex(s)
    ensures Raises(Round(s), RoundError(s))
  {
    RoundIs(s);
    if |s| >= 2 {
      var tag := Upper(s[..2]);
      KnownTags(tag);
      if KnownTag(tag) { TaggedRaises(tag, s[2..]); }
    }
  }

  // ----- flags

  ghost predicate FlagsRight(r: Record) {
    r.Ons? ==> r.ons.fields % 16 == FlagsOf(r.ons)
  }

  lemma TailFlags(s: string, h: OnsHead)
    requires AllHex(s) && EatOnsTail(s, h).Next?
    ensures FlagsRight(EatOnsTail(s, h).state.value)
  {
    FlagBits(EatOnsTail(s, h).state.value.ons);
  }

  lemma OnsFlags(s: string)
    requires AllHex(s) && EatOns(s).Next?
    ensures FlagsRight(EatOns(s).state.value)
  {
    TailFlags(EatOnsHead(s).state.rest, EatOnsHead(s).state.value);
  }

  lemma TaggedFlags(tag: string, s: string)
    requires AllHex(s) && EatTagged(tag, s).Next?
    ensures FlagsRight(EatTagged(tag, s).state.value)
  {
    if tag == "7A" { OnsFlags(s); } else { NotOns(tag, s); }
  }

  lemma NotOns(tag: string, s: string)
    requires AllHex(s) && EatTagged(tag, s).Next? && tag != "7A"
    ensures !EatTagged(tag, s).state.value.Ons?
  {}

  lemma RoundFlags(s: string)
    requires AllHex(s) && Round(s).Next?
    ensures FlagsRight(Round(s).state.value)
  {
    TaggedFlags(Upper(Cut(s, 2).value), Cut(s, 2).rest);
  }

  lemma {:induction false} RoundsFlags(round: string -> Parse<Record>, s: string)
    requires forall x :: round(x).Next? ==> FlagsRight(round(x).state.value)
    ensures forall i :: 0 <= i < |Rounds(round, s).records| ==> FlagsRight(Rounds(round, s).records[i])
    decreases |s|
  {
    if s != [] && round(s).Next? && |round(s).state.rest| < |s| {
      RoundsFlags(round, round(s).state.rest);
    }
  }

  /** In everything the decoder prints, whatever the string and however it ends, a
      name-system record has exactly the parts that the low four bits of its field
      number announce. */
  lemma DecodedFlags(s: string)
    ensures forall i :: 0 <= i < |Decode(s).records| && Decode(s).records[i].Ons? ==>
              var d := Decode(s).records[i].ons;
              d.fields % 16 == (if d.owner.Some? then 1 else 0) + (if d.backupOwner.Some? then 2 else 0)
                             + (if d.signature.Some? then 4 else 0) + (if d.encryptedValue.Some? then 8 else 0)
  {
    forall x | OneRound()(x).Next? ensures FlagsRight(OneRound()(x).state.value) { RoundFlags(x); }
    RoundsFlags(OneRound(), s);
    forall i | 0 <= i < |Decode(s).records| ensures FlagsRight(Decode(s).records[i]) {}
  }
}
