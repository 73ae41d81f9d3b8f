/**
  Exactly when decoding composes: a string can be followed by anything, each part
  giving what it gives alone, if and only if every round of it completes with
  each slice at its full length.
 */
module TxExtraCompose {
  import opened Steps
  import opened TxExtra
  import opened Wrappers

  // ----- where a slice comes out short, one more character is drawn in

  lemma CutStarved(s: string, k: nat)
    requires !Cut(s, k).full
    ensures Cut(s, k).rest == [] && Cut(s + "f", k).rest == []
  {}

  lemma CutEmpty(k: nat)
    ensures Cut([], k).rest == []
  {}

  lemma OwnerEmpty()
    ensures EatOwner([]).rest == []
  {
    CutEmpty(2);
    CutEmpty(64);
  }

  lemma OwnerStarved(s: string)
    requires !EatOwner(s).full
    ensures EatOwner(s).rest == [] && EatOwner(s + "f").rest == []
  {
    var kind := Cut(s, 2);
    var spend := Cut(kind.rest, 64);
    var view := Cut(spend.rest, 64);
    CutEmpty(2);
    CutEmpty(64);
    if !kind.full {
      CutStarved(s, 2);
    } else {
      CutAppend(s, 2, "f");
      if !spend.full {
        CutStarved(kind.rest, 64);
      } else {
        CutAppend(kind.rest, 64, "f");
        if !view.full {
          CutStarved(spend.rest, 64);
        } else {
          CutAppend(spend.rest, 64, "f");
          CutStarved(view.rest, 2);
        }
      }
    }
  }

  lemma OptionalEmpty(present: bool)
    ensures EatOptionalOwner([], present).rest == [] && EatOptionalSignature([], present).rest == []
    ensures EatOptionalValue([], present).Next? ==> EatOptionalValue([], present).state.rest == []
  {
    OwnerEmpty();
    CutEmpty(64);
  }

  lemma OptionalStarved(s: string, present: bool)
    requires AllHex(s)
    ensures !EatOptionalOwner(s, present).full ==>
              EatOptionalOwner(s, present).rest == [] && EatOptionalOwner(s + "f", present).rest == []
    ensures !EatOptionalSignature(s, present).full ==>
              EatOptionalSignature(s, present).rest == [] && EatOptionalSignature(s + "f", present).rest == []
  {
    if present && !EatOptionalOwner(s, present).full { OwnerStarved(s); }
    if present && !EatOptionalSignature(s, present).full { CutStarved(s, 64); }
  }

  lemma ValueStarved(s: string, present: bool)
    requires AllHex(s)
    requires EatOptionalValue(s, present).Next? && !EatOptionalValue(s, present).state.full
    ensures EatOptionalValue(s + "f", present).Next? ==> EatOptionalValue(s + "f", present).state.rest == []
  {
    var size := Cut(s, 2);
    if !size.full {
      CutStarved(s, 2);
      CutEmpty(Number(Cut(s + "f", 2).value, 16) * 2);
    } else {
      CutAppend(s, 2, "f");
      CutStarved(size.rest, Number(size.value, 16) * 2);
    }
  }

  // ----- what a starved round does when it is fed one more character

  /** It raises, or eats that, too. */
  predicate Drained(r: Parse<Record>) {
    r.Next? ==> r.state.rest == []
  }

  lemma AfterOwner(s: string, h: OnsHead)
    requires AllHex(s) && EatOptionalOwner(s, HasBit(h.fields, 1)).rest == []
    ensures Drained(EatOnsTail(s, h))
  {
    OptionalEmpty(HasBit(h.fields, 2));
    OptionalEmpty(HasBit(h.fields, 4));
    OptionalEmpty(HasBit(h.fields, 8));
  }

  lemma AfterBackup(s: string, h: OnsHead)
    requires AllHex(s)
    requires EatOptionalOwner(EatOptionalOwner(s, HasBit(h.fields, 1)).rest, HasBit(h.fields, 2)).rest == []
    ensures Drained(EatOnsTail(s, h))
  {
    OptionalEmpty(HasBit(h.fields, 4));
    OptionalEmpty(HasBit(h.fields, 8));
  }

  lemma AfterSignature(s: string, h: OnsHead)
    requires AllHex(s)
    requires var backup := EatOptionalOwner(EatOptionalOwner(s, HasBit(h.fields, 1)).rest, HasBit(h.fields, 2));
             EatOptionalSignature(backup.rest, HasBit(h.fields, 4)).rest == []
    ensures Drained(EatOnsTail(s, h))
  {
    OptionalEmpty(HasBit(h.fields, 8));
  }

  lemma TailStarved(s: string, t: string, h: OnsHead)
    requires t == s + "f"
    requires AllHex(s) && EatOnsTail(s, h).Next? && !EatOnsTail(s, h).state.full
    ensures AllHex(t) && Drained(EatOnsTail(t, h))
  {
    OptionalStarved(s, HasBit(h.fields, 1));
    if !EatOptionalOwner(s, HasBit(h.fields, 1)).full {
      AfterOwner(t, h);
    } else {
      OptionalAppend(s, HasBit(h.fields, 1), "f");
      BackupStarved(s, t, h);
    }
  }

  lemma BackupStarved(s: string, t: string, h: OnsHead)
    requires AllHex(s) && AllHex(t) && EatOnsTail(s, h).Next? && !EatOnsTail(s, h).state.full
    requires var owner := EatOptionalOwner(s, HasBit(h.fields, 1));
             owner.full && EatOptionalOwner(t, HasBit(h.fields, 1)).rest == owner.rest + "f"
    ensures Drained(EatOnsTail(t, h))
  {
    var u := EatOptionalOwner(s, HasBit(h.fields, 1)).rest;
    OptionalStarved(u, HasBit(h.fields, 2));
    if !EatOptionalOwner(u, HasBit(h.fields, 2)).full {
      AfterBackup(t, h);
    } else {
      OptionalAppend(u, HasBit(h.fields, 2), "f");
      SignatureStarved(s, t, h);
    }
  }

  function AfterOwners(s: string, h: OnsHead): string {
    EatOptionalOwner(EatOptionalOwner(s, HasBit(h.fields, 1)).rest, HasBit(h.fields, 2)).rest
  }

  lemma SignatureStarved(s: string, t: string, h: OnsHead)
    requires AllHex(s) && AllHex(t) && EatOnsTail(s, h).Next? && !EatOnsTail(s, h).state.full
    requires EatOptionalOwner(s, HasBit(h.fields, 1)).full
    requires EatOptionalOwner(EatOptionalOwner(s, HasBit(h.fields, 1)).rest, HasBit(h.fields, 2)).full
    requires AfterOwners(t, h) == AfterOwners(s, h) + "f"
    ensures Drained(EatOnsTail(t, h))
  {
    var u := AfterOwners(s, h);
    OptionalStarved(u, HasBit(h.fields, 4));
    if !EatOptionalSignature(u, HasBit(h.fields, 4)).full {
      AfterSignature(t, h);
    } else {
      OptionalAppend(u, HasBit(h.fields, 4), "f");
      ValueStarved(EatOptionalSignature(u, HasBit(h.fields, 4)).rest, HasBit(h.fields, 8));
    }
  }

  /** A fixed part with a short slice ends in one digit of its flags; "f" spoils the number. */
  lemma HeadStarved(s: string)
    requires AllHex(s) && EatOnsHead(s).Next? && !EatOnsHead(s).state.full
    ensures EatOnsHead(s + "f").Fail?
  {
    var version := Cut(s, 2);
    var kind := Cut(version.rest, 2);
    var name := Cut(kind.rest, 64);
    var prev := Cut(name.rest, 64);
    var fields := Cut(prev.rest, 2);
    assert fields.value != [];
    CutAppend(s, 2, "f");
    CutAppend(version.rest, 2, "f");
    CutAppend(kind.rest, 64, "f");
    CutAppend(name.rest, 64, "f");
    assert Cut(prev.rest + "f", 2).value == prev.rest + "f";
    assert !IsDigit((prev.rest + "f")[|prev.rest|]);
  }

  lemma OnsStarved(s: string)
    requires AllHex(s) && EatOns(s).Next? && !EatOns(s).state.full
    ensures Drained(EatOns(s + "f"))
  {
    var head := EatOnsHead(s).state;
    if !head.full {
      HeadStarved(s);
    } else {
      OnsHeadAppend(s, "f");
      TailStarved(head.rest, head.rest + "f", head.value);
    }
  }

  lemma BurnStarved(s: string)
    requires AllHex(s) && EatBurn(s).Next? && !EatBurn(s).state.full
    ensures Drained(EatBurn(s + "f"))
  {
    CutStarved(s, 16);
  }

  lemma DataStarved(s: string, k: int)
    requires k >= -2 && !Cut(s, k).full
    ensures |Cut(s + "fff", k).value| > |Cut(s, k).value|
  {}

  /** A nonce whose data slice is not full takes other data when "fff" follows. */
  lemma NonceStarved(s: string)
    requires AllHex(s) && EatNonce(s).Next? && !EatNonce(s).state.full
    ensures EatNonce(s + "fff").Next? ==> EatNonce(s + "fff").state.value != EatNonce(s).state.value
  {
    var size := Cut(s, 2);
    var tag := Cut(size.rest, 2);
    CutAppend(s, 2, "fff");
    CutAppend(size.rest, 2, "fff");
    DataStarved(tag.rest, (Number(size.value, 10) - 1) * 2);
  }

  // ----- rounds

  const PROBES := {"f", "fff"}

  /** Fed b, the round raises, eats it all, or gives another record. */
  predicate Differs(r: Parse<Record>, value: Record) {
    r.Fail? || r.state.rest == [] || r.state.value != value
  }

  lemma TaggedStarved(tag: string, s: string)
    requires AllHex(s) && EatTagged(tag, s).Next? && !EatTagged(tag, s).state.full
    ensures var b := if tag == "02" then "fff" else "f";
            Differs(EatTagged(tag, s + b), EatTagged(tag, s).state.value)
  {
    if tag == "01" {
      CutStarved(s, 64);
    } else if tag == "02" {
      NonceStarved(s);
    } else if tag == "7A" {
      OnsStarved(s);
    } else {
      BurnStarved(s);
    }
  }

  lemma RoundStarved(s: string) returns (b: string)
    requires AllHex(s) && Round(s).Next? && !Round(s).state.full
    ensures b in PROBES && AllHex(b) && Differs(Round(s + b), Round(s).state.value)
  {
    var c := Cut(s, 2);
    var tag := Upper(c.value);
    b := if tag == "02" then "fff" else "f";
    CutAppend(s, 2, b);
    TaggedStarved(tag, c.rest);
  }

  lemma ProbesUnknown(b: string)
    requires b in PROBES
    ensures AllHex(b) && Decode(b) == Decoded([], Some(UnknownTag))
  {
    assert Round(b) == Fail(UnknownTag);
    assert OneRound()(b) == Fail(UnknownTag);
  }

  /** What a round function must do for the argument below. */
  ghost predicate Local(round: string -> Parse<Record>, b: string) {
    forall s :: round(s).Next? && round(s).state.full ==>
      round(s + b) == Next(Part(round(s).state.value, round(s).state.rest + b, true))
  }

  lemma HeadOf(round: string -> Parse<Record>, s: string)
    requires s != []
    ensures round(s).Fail? ==> Rounds(round, s) == Decoded([], Some(round(s).error))
    ensures round(s).Next? && |round(s).state.rest| < |s| ==>
              Rounds(round, s) == Before(round(s).state.value, Rounds(round, round(s).state.rest))
  {}

  /** At a round that is not full, a probe after the string shows it. */
  lemma ProbeShows(round: string -> Parse<Record>, a: string, b: string)
    requires a != [] && round(a).Next? && |round(a).state.rest| < |a|
    requires Differs(round(a + b), round(a).state.value)
    requires round(a + b).Next? ==> |round(a + b).state.rest| < |a + b|
    requires Rounds(round, b) == Decoded([], Some(UnknownTag))
    ensures Rounds(round, a + b) != Then(Rounds(round, a), Rounds(round, b))
  {
    HeadOf(round, a);
    HeadOf(round, a + b);
    var r := Then(Rounds(round, a), Rounds(round, b));
    assert r.records[0] == round(a).state.value;
    if round(a + b).Next? {
      assert Rounds(round, a + b).records[0] == round(a + b).state.value;
    }
  }

  lemma FullRoundSteps(round: string -> Parse<Record>, a: string, b: string)
    requires a != [] && round(a).Next? && round(a).state.full && |round(a).state.rest| < |a|
    requires Local(round, b)
    requires Rounds(round, round(a).state.rest + b)
          != Then(Rounds(round, round(a).state.rest), Rounds(round, b))
    ensures Rounds(round, a + b) != Then(Rounds(round, a), Rounds(round, b))
  {
    var p := round(a).state;
    HeadOf(round, a);
    HeadOf(round, a + b);
    BeforeThen(p.value, Rounds(round, p.rest), Rounds(round, b));
    BeforeInjective(p.value, Rounds(round, p.rest + b), Then(Rounds(round, p.rest), Rounds(round, b)));
  }

  lemma BeforeInjective(r: Record, d: Decoded, e: Decoded)
    requires d != e
    ensures Before(r, d) != Before(r, e)
  {
    if ([r] + d.records) == [r] + e.records {
      assert d.records == ([r] + d.records)[1..];
      assert e.records == ([r] + e.records)[1..];
    }
  }

  /** A string that raises does not even compose with the empty one. */
  lemma RaisingShows(round: string -> Parse<Record>, a: string)
    requires a != [] && round(a).Fail?
    ensures Rounds(round, a + []) != Then(Rounds(round, a), Rounds(round, []))
  {
    assert a + [] == a;
  }

  ghost predicate Shown(round: string -> Parse<Record>, a: string, b: string) {
    (b == [] || b in PROBES) && Rounds(round, a + b) != Then(Rounds(round, a), Rounds(round, b))
  }

  lemma {:induction false} NotFullShows(round: string -> Parse<Record>, a: string) returns (b: string)
    requires !FullRounds(round, a)
    requires forall s :: round(s).Next? ==> |round(s).state.rest| < |s|
    requires Local(round, []) && Local(round, "f") && Local(round, "fff")
    requires forall x :: x in PROBES ==> Rounds(round, x) == Decoded([], Some(UnknownTag))
    requires forall s :: round(s).Next? && !round(s).state.full ==>
               exists x :: x in PROBES && Differs(round(s + x), round(s).state.value)
    ensures Shown(round, a, b)
    decreases |a|
  {
    if round(a).Fail? {
      b := [];
      RaisingShows(round, a);
    } else if round(a).state.full {
      b := NotFullShows(round, round(a).state.rest);
      FullRoundSteps(round, a, b);
    } else {
      b :| b in PROBES && Differs(round(a + b), round(a).state.value);
      ProbeShows(round, a, b);
    }
  }

  lemma RoundLocal(b: string)
    requires AllHex(b)
    ensures Local(OneRound(), b)
  {
    forall s | OneRound()(s).Next? && OneRound()(s).state.full
      ensures OneRound()(s + b) == Next(Part(OneRound()(s).state.value, OneRound()(s).state.rest + b, true))
    {
      RoundAppend(s, b);
    }
  }

  lemma OneRoundStarved(s: string) returns (b: string)
    requires OneRound()(s).Next? && !OneRound()(s).state.full
    ensures b in PROBES && Differs(OneRound()(s + b), OneRound()(s).state.value)
  {
    b := RoundStarved(s);
  }

  lemma NotFullBreaks(a: string) returns (b: string)
    requires !FullDecode(a)
    ensures AllHex(b) && Decode(a + b) != Then(Decode(a), Decode(b))
  {
    RoundLocal([]);
    RoundLocal("f");
    RoundLocal("fff");
    forall x | x in PROBES ensures Rounds(OneRound(), x) == Decoded([], Some(UnknownTag)) { ProbesUnknown(x); }
    forall s | OneRound()(s).Next? && !OneRound()(s).state.full
      ensures exists x :: x in PROBES && Differs(OneRound()(s + x), OneRound()(s).state.value)
    {
      var x := OneRoundStarved(s);
    }
    b := NotFullShows(OneRound(), a);
    assert Shown(OneRound(), a, b);
  }

  /** Decoding a followed by anything gives what a and then the rest decode to,
      if and only if every round of a completes with each slice at full length. */
  lemma DecodeComposesIff(a: string)
    ensures (forall b :: AllHex(b) ==> Decode(a + b) == Then(Decode(a), Decode(b))) <==> FullDecode(a)
  {
    if FullDecode(a) {
      forall b | AllHex(b) ensures Decode(a + b) == Then(Decode(a), Decode(b)) { DecodeAppend(a, b); }
    } else {
      var b := NotFullBreaks(a);
    }
  }
}
