/** Inputs that decode to the end without every slice at its full length, and do
    not compose: what follows is drawn into the last record. */
module TxExtraExamples {
  import opened Steps
  import opened TxExtra
  import opened Wrappers
  import opened TxExtraReading
  import opened TxExtraRoundTrip

  lemma RoundsOnce(s: string, p: Part<Record>)
    requires s != [] && AllHex(s) && Round(s) == Next(p)
    ensures Decode(s) == Before(p.value, Decode(p.rest))
    ensures FullDecode(s) ==> p.full
  {
    assert OneRound()(s) == Next(p);
  }

  /** A last round that raises nothing. */
  lemma LastRound(s: string, p: Part<Record>)
    requires s != [] && AllHex(s) && Round(s) == Next(p) && p.rest == []
    ensures Decode(s) == Decoded([p.value], None)
    ensures FullDecode(s) ==> p.full
  {
    RoundsOnce(s, p);
    assert Decode([]) == Decoded([], None);
  }

  lemma DecodeBurn(s: string, x: string)
    requires AllHex(s) && |s| < 16 && |s| % 2 == 0 && x == "79" + s
    ensures Decode(x) == Decoded([Burn(LittleEndian(s))], None)
    ensures !FullDecode(x)
  {
    var p := Part(Burn(LittleEndian(s)), [], false);
    ShortEat(s);
    RoundOf("79", s, p);
    LastRound(x, p);
  }

  lemma ShortEat(s: string)
    requires AllHex(s) && |s| < 16 && |s| % 2 == 0
    ensures EatBurn(s) == Next(Part(Burn(LittleEndian(s)), [], false))
  {}

  /** One record in all, where two decodings would give more. */
  lemma OneIsNotMore(round: string -> Parse<Record>, x: string, a: string, t: string, r: Record, q: Record)
    requires Rounds(round, x) == Decoded([r], None) && Rounds(round, a) == Decoded([q], None) && t != []
    ensures Rounds(round, x) != Then(Rounds(round, a), Rounds(round, t))
  {}

  lemma TwoBurns(s: string, more: string, t: string, x: string, y: string)
    requires AllHex(s) && AllHex(more) && |s| % 2 == |more| % 2 == 0 && |s| < 16 && |more| < 16 && t != []
    requires x == "79" + s && y == "79" + more
    ensures Decode(y) != Then(Decode(x), Decode(t))
  {
    DecodeBurn(s, x);
    DecodeBurn(more, y);
    OneIsNotMore(OneRound(), y, x, t, Burn(LittleEndian(more)), Burn(LittleEndian(s)));
  }

  /** A burn cut short takes what follows for more of its amount. */
  lemma ShortBurn(s: string, t: string, x: string, y: string)
    requires AllHex(s) && AllHex(t) && |s| % 2 == |t| % 2 == 0 && t != [] && |s + t| < 16
    requires x == "79" + s && y == "79" + (s + t)
    ensures Decode(y) != Then(Decode(x), Decode(t))
  {
    HexConcat(s, t);
    TwoBurns(s, s + t, t, x, y);
  }

  /** The nonce with size byte 00 takes all but the last two characters. */
  lemma NegativeEat(s: string)
    requires AllHex(s)
    ensures AllHex("00" + ("00" + s))
    ensures EatNonce("00" + ("00" + s)) == Next(Part(Nonce(PaymentId, AllButTwo(s)), LastTwo(s), false))
  {
    CutExact("00", "00" + s);
    CutExact("00", s);
    NumberOfTwo("00", 10);
  }

  lemma NegativeRound(s: string)
    requires AllHex(s)
    ensures Decode("02" + ("00" + ("00" + s))) == Before(Nonce(PaymentId, AllButTwo(s)), Decode(LastTwo(s)))
    ensures !FullDecode("02" + ("00" + ("00" + s)))
  {
    var p := Part(Nonce(PaymentId, AllButTwo(s)), LastTwo(s), false);
    NegativeEat(s);
    RoundOf("02", "00" + ("00" + s), p);
    RoundsOnce("02" + ("00" + ("00" + s)), p);
  }

  lemma FirstDiffers(round: string -> Parse<Record>, x: string, a: string, t: string, r: Record, q: Record, d: Decoded)
    requires Rounds(round, x) == Before(r, d) && Rounds(round, a) == Decoded([q], None) && r != q
    ensures Rounds(round, x) != Then(Rounds(round, a), Rounds(round, t))
  {
    assert Before(r, d).records[0] == r;
    assert Then(Rounds(round, a), Rounds(round, t)).records[0] == q;
  }

  lemma ZeroNonceAlone()
    ensures Decode("02" + ("00" + ("00" + []))) == Decoded([Nonce(PaymentId, "")], None)
  {
    NegativeRound([]);
    assert Decode([]) == Decoded([], None);
  }

  /** It draws in what follows, up to the last two characters. */
  lemma NegativeSize(s: string)
    requires AllHex(s) && |s| > 2
    ensures Decode("02" + ("00" + ("00" + s))) != Then(Decode("02" + ("00" + ("00" + []))), Decode(s))
  {
    NegativeRound(s);
    ZeroNonceAlone();
    FirstDiffers(OneRound(), "02" + ("00" + ("00" + s)), "02" + ("00" + ("00" + [])), s,
                 Nonce(PaymentId, s[..|s| - 2]), Nonce(PaymentId, ""), Decode(s[|s| - 2..]));
  }
}
