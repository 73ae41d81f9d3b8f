/** The decoder as it runs: every method reassigns the list it eats from. */
module TxExtraDecoder {
  import opened Steps
  import opened TxExtra
  import opened Wrappers

  lemma ThenBefore(records: seq<Record>, r: Record, d: Decoded)
    ensures Then(Decoded(records, None), Before(r, d)) == Then(Decoded(records + [r], None), d)
  {}

  lemma DecodeHead(s: string)
    requires AllHex(s) && s != []
    ensures Round(s).Fail? ==> Decode(s) == Decoded([], Some(Round(s).error))
    ensures Round(s).Next? ==> Decode(s) == Before(Round(s).state.value, Decode(Round(s).state.rest))
  {}

  lemma Joined(eaten: string, list: string, k: int)
    ensures eaten + TakeTo(list, k) + DropTo(list, k) == eaten + list
  {
    var c := Cut(list, k);
    assert eaten + c.value + c.rest == eaten + (c.value + c.rest);
  }

  class Decoder {
    var list: string
    ghost var eaten: string

    constructor (input: string)
      ensures list == input && eaten == []
    {
      list, eaten := input, [];
    }

    /** Joins list[:k] and leaves list[k:]. */
    method Eat(k: int) returns (slice: string)
      modifies this
      ensures slice == Cut(old(list), k).value && list == Cut(old(list), k).rest
      ensures eaten == old(eaten) + slice && eaten + list == old(eaten + list)
    {
      ghost var before := list;
      slice := TakeTo(list, k);
      list := DropTo(list, k);
      Joined(eaten, before, k);
      eaten := eaten + slice;
    }

    method EatPubkeyData() returns (r: Step<Record, Error>)
      modifies this
      ensures r == Next(EatPubkey(old(list)).state.value) && list == EatPubkey(old(list)).state.rest
      ensures eaten + list == old(eaten + list)
    {
      var key := Eat(64);
      r := Next(Pubkey(key));
    }

    method EatNonceData() returns (r: Step<Record, Error>)
      requires AllHex(list)
      modifies this
      ensures var p := EatNonce(old(list));
              if p.Next? then r == Next(p.state.value) && list == p.state.rest else r == Fail(p.error)
      ensures eaten + list == old(eaten + list)
    {
      if !IsDecimal(TakeTo(list, 2)) { return Fail(BadNumber); }
      var digits := Eat(2);
      var size := (Number(digits, 10) - 1) * 2;
      var tag := Eat(2);
      var data := Eat(size);
      r := if NonceKindOf(tag).None? then Fail(UnknownKey) else Next(Nonce(NonceKindOf(tag).value, data));
    }

    method EatOnsGenericOwner() returns (o: Owner)
      modifies this
      ensures o == EatOwner(old(list)).value && list == EatOwner(old(list)).rest
      ensures eaten + list == old(eaten + list)
    {
      var kind := Eat(2);
      var spend := Eat(64);
      var view := Eat(64);
      var sub := Eat(2);
      o := Owner(kind, spend, view, sub);
    }

    method EatOnsFixed() returns (r: Step<OnsHead, Error>)
      requires AllHex(list)
      modifies this
      ensures var p := EatOnsHead(old(list));
              if p.Next? then r == Next(p.state.value) && list == p.state.rest else r == Fail(p.error)
      ensures eaten + list == old(eaten + list)
    {
      var version := Eat(2);
      var kind := Eat(2);
      var name := Eat(64);
      var prev := Eat(64);
      if !IsDecimal(TakeTo(list, 2)) { return Fail(BadNumber); }
      if OnsTypeOf(kind).None? { return Fail(UnknownKey); }
      var flags := Eat(2);
      r := Next(OnsHead(version, OnsTypeOf(kind).value, name, prev, Number(flags, 10)));
    }

    /** The last optional part, whose size byte is read as hexadecimal. */
    method EatEncryptedValue(present: bool) returns (r: Step<Option<string>, Error>)
      requires AllHex(list)
      modifies this
      ensures var p := EatOptionalValue(old(list), present);
              if p.Next? then r == Next(p.state.value) && list == p.state.rest else r == Fail(p.error)
      ensures eaten + list == old(eaten + list)
    {
      if !present { return Next(None); }
      if TakeTo(list, 2) == [] { return Fail(BadNumber); }
      var digits := Eat(2);
      var value := Eat(Number(digits, 16) * 2);
      r := Next(Some(value));
    }

    method EatOptionalOwnerData(present: bool) returns (o: Option<Owner>)
      modifies this
      ensures o == EatOptionalOwner(old(list), present).value && list == EatOptionalOwner(old(list), present).rest
      ensures eaten + list == old(eaten + list)
    {
      if !present { return None; }
      var owner := EatOnsGenericOwner();
      o := Some(owner);
    }

    /** The parts the flags announce. */
    method EatOnsOptional(h: OnsHead) returns (r: Step<Record, Error>)
      requires AllHex(list)
      modifies this
      ensures var p := EatOnsTail(old(list), h);
              if p.Next? then r == Next(p.state.value) && list == p.state.rest else r == Fail(p.error)
      ensures eaten + list == old(eaten + list)
    {
      var owner := EatOptionalOwnerData(HasBit(h.fields, 1));
      var backup := EatOptionalOwnerData(HasBit(h.fields, 2));
      var signature := None;
      if HasBit(h.fields, 4) { var s := Eat(64); signature := Some(s); }
      var value := EatEncryptedValue(HasBit(h.fields, 8));
      if value.Fail? { return Fail(value.error); }
      r := Next(Ons(OnsData(h.version, h.kind, h.nameHash, h.prevTxid, h.fields,
                                owner, backup, signature, value.state)));
    }

    method EatOnsData() returns (r: Step<Record, Error>)
      requires AllHex(list)
      modifies this
      ensures var p := EatOns(old(list));
              if p.Next? then r == Next(p.state.value) && list == p.state.rest else r == Fail(p.error)
      ensures eaten + list == old(eaten + list)
    {
      var head := EatOnsFixed();
      if head.Fail? { return Fail(head.error); }
      r := EatOnsOptional(head.state);
    }

    method EatBurnData() returns (r: Step<Record, Error>)
      requires AllHex(list)
      modifies this
      ensures var p := EatBurn(old(list));
              if p.Next? then r == Next(p.state.value) && list == p.state.rest else r == Fail(p.error)
      ensures eaten + list == old(eaten + list)
    {
      var amount := Eat(16);
      r := if |amount| % 2 == 1 then Fail(BadNumber) else Next(Burn(LittleEndian(amount)));
    }

    method EatRecord() returns (r: Step<Record, Error>)
      requires AllHex(list)
      modifies this
      ensures var p := Round(old(list));
              if p.Next? then r == Next(p.state.value) && list == p.state.rest else r == Fail(p.error)
      ensures eaten + list == old(eaten + list)
      ensures r.Next? ==> AllHex(list) && |list| + 2 <= |old(list)|
    {
      var tag := Upper(TakeTo(list, 2));
      if !KnownTag(tag) { return Fail(UnknownTag); }
      var _ := Eat(2);
      if tag == "01" {
        r := EatPubkeyData();
      } else if tag == "02" {
        r := EatNonceData();
      } else if tag == "7A" {
        r := EatOnsData();
      } else if tag == "79" {
        r := EatBurnData();
      } else {
        r := Fail(UnhandledTag);
      }
    }

    /** The main loop.  Whatever happens, what was eaten and what is left are the
        input, and the loop ends because each round eats at least a tag. */
    method DecodeAll() returns (decoded: Decoded)
      requires AllHex(list)
      modifies this
      ensures decoded == Decode(old(list))
      ensures decoded.stopped == None ==> list == []
      ensures eaten + list == old(eaten + list)
    {
      ghost var input := list;
      var records: seq<Record> := [];
      assert Then(Decoded([], None), Decode(input)) == Decode(input);
      while |list| > 0
        invariant AllHex(list)
        invariant Then(Decoded(records, None), Decode(list)) == Decode(input)
        invariant eaten + list == old(eaten + list)
        decreases |list|
      {
        DecodeHead(list);
        ghost var before := list;
        var r := EatRecord();
        if r.Fail? { return Decoded(records, Some(r.error)); }
        ThenBefore(records, r.state, Decode(list));
        records := records + [r.state];
      }
      decoded := Decoded(records, None);
    }
  }
}
