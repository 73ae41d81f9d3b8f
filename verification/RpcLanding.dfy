/** What an accepted comment block guarantees about its lines and tags. */
module RpcLanding {
  import opened Sequences
  import opened Steps
  import opened RpcComments
  import opened Wrappers

  // ----- what the position lists contain

  /** The positions below n where f holds, in order. */
  ghost function Where(n: nat, f: nat -> bool): seq<nat> {
    if n == 0 then [] else Where(n - 1, f) + if f(n - 1) then [n - 1] else []
  }

  lemma {:induction false} WhereHas(n: nat, f: nat -> bool)
    ensures forall i: nat :: i in Where(n, f) <==> i < n && f(i)
    ensures Increasing(Where(n, f))
  {
    if n == 0 {
    } else {
      WhereHas(n - 1, f);
      var w := Where(n - 1, f);
      forall j | 0 <= j < |w| ensures w[j] < n - 1 { assert w[j] in w; }
    }
  }

  lemma {:induction false} LandedIsWhere(lines: seq<Line>, n: nat, t: int, f: nat -> bool)
    requires n <= |lines| && forall i: nat {:trigger f(i)} :: i < |lines| ==> f(i) == (lines[i].Text? && Gov(lines, i) == t)
    ensures Landed(lines, n, t) == Where(n, f)
  {
    if n == 0 {
    } else {
      LandedIsWhere(lines, n - 1, t, f);
    }
  }

  lemma {:induction false} LandedInIsWhere(lines: seq<Line>, n: nat, m: Mode, f: nat -> bool)
    requires n <= |lines|
    requires forall i: nat {:trigger f(i)} :: i < |lines| ==> f(i) == (lines[i].Text? && ModeAt(lines, Gov(lines, i)) == m)
    ensures LandedIn(lines, n, m) == Where(n, f)
  {
    if n == 0 {
    } else {
      LandedInIsWhere(lines, n - 1, m, f);
    }
  }

  lemma LandedHas(lines: seq<Line>, n: nat, t: int)
    requires n <= |lines|
    ensures forall i: nat :: i in Landed(lines, n, t) <==> i < n && lines[i].Text? && Gov(lines, i) == t
    ensures Increasing(Landed(lines, n, t))
  {
    var f := (i: nat) => i < |lines| && lines[i].Text? && Gov(lines, i) == t;
    LandedIsWhere(lines, n, t, f);
    WhereHas(n, f);
  }

  lemma LandedInHas(lines: seq<Line>, n: nat, m: Mode)
    requires n <= |lines|
    ensures forall i: nat :: i in LandedIn(lines, n, m) <==> i < n && lines[i].Text? && ModeAt(lines, Gov(lines, i)) == m
    ensures Increasing(LandedIn(lines, n, m))
  {
    var f := (i: nat) => i < |lines| && lines[i].Text? && ModeAt(lines, Gov(lines, i)) == m;
    LandedInIsWhere(lines, n, m, f);
    WhereHas(n, f);
  }

  // ----- every line lands once

  datatype Place = Description | InputPart | OutputPart | InputOf(example: nat) | OutputOf(example: nat)

  /** The positions held at a place. */
  ghost function Held(p: Parts, at: Place): seq<nat> {
    match at
    case Description => p.description
    case InputPart => p.inputs
    case OutputPart => p.outputs
    case InputOf(k) => if k < |p.examples| && p.examples[k].input.Some? then p.examples[k].input.value.lines else []
    case OutputOf(k) => if k < |p.examples| && p.examples[k].output.Written? then p.examples[k].output.section.lines else []
  }

  /** The place says which mode, and for an example which tag, governs its lines. */
  ghost predicate Fits(lines: seq<Line>, p: Parts, at: Place, i: nat)
    requires i < |lines|
  {
    var g := Gov(lines, i);
    match at
    case Description => ModeAt(lines, g) == Desc
    case InputPart => ModeAt(lines, g) == Inputs
    case OutputPart => ModeAt(lines, g) == Outputs
    case InputOf(k) =>
      ModeAt(lines, g) == ExIn && k < |p.examples| && p.examples[k].input.Some? && p.examples[k].input.value.tag == g
    case OutputOf(k) =>
      ModeAt(lines, g) == ExOut && k < |p.examples| && p.examples[k].output.Written? && OutTag(p.examples[k]) == g
  }

  /** A place holds, in order, exactly the text lines that fit it. */
  lemma HeldFits(lines: seq<Line>, p: Parts, at: Place)
    requires PartsLand(lines, |lines|, p)
    ensures forall i: nat :: i in Held(p, at) <==> i < |lines| && lines[i].Text? && Fits(lines, p, at, i)
    ensures Increasing(Held(p, at))
  {
    match at
    case Description => LandedInHas(lines, |lines|, Desc);
    case InputPart => LandedInHas(lines, |lines|, Inputs);
    case OutputPart => LandedInHas(lines, |lines|, Outputs);
    case InputOf(k) =>
      if k < |p.examples| && p.examples[k].input.Some? {
        assert ExampleLands(lines, |lines|, p.examples[k]);
        LandedHas(lines, |lines|, p.examples[k].input.value.tag);
      }
    case OutputOf(k) =>
      if k < |p.examples| && p.examples[k].output.Written? {
        assert ExampleLands(lines, |lines|, p.examples[k]);
        LandedHas(lines, |lines|, p.examples[k].output.section.tag);
      }
  }

  lemma FitsOnce(lines: seq<Line>, p: Parts, i: nat, at: Place, at': Place)
    requires i < |lines| && PartsLand(lines, |lines|, p) && InOrder(p)
    requires Fits(lines, p, at, i) && Fits(lines, p, at', i)
    ensures at == at'
  {}

  /** Unless it is read between sections, a line fits some place. */
  lemma FitsSomewhere(lines: seq<Line>, p: Parts, i: nat) returns (at: Place)
    requires i < |lines| && PartsLand(lines, |lines|, p) && AllTags(lines, |lines|, p) && p.pending.None?
    requires ModeAt(lines, Gov(lines, i)) != NoMode
    ensures Fits(lines, p, at, i)
  {
    var g := Gov(lines, i);
    match ModeAt(lines, g)
    case Desc => at := Description;
    case Inputs => at := InputPart;
    case Outputs => at := OutputPart;
    case ExIn =>
      assert HasInTag(p, g);
      var k :| 0 <= k < |p.examples| && p.examples[k].input.Some? && p.examples[k].input.value.tag == g;
      at := InputOf(k);
    case ExOut =>
      assert HasOutTag(p, g);
      var k :| 0 <= k < |p.examples| && OutTag(p.examples[k]) == g;
      assert ExampleLands(lines, |lines|, p.examples[k]);
      at := OutputOf(k);
  }

  /** Text between sections is blank. */
  lemma BlankBetween(lines: seq<Line>, n: nat, i: nat)
    requires i < n <= |lines| && Run(lines, n).Next?
    requires lines[i].Text? && ModeAt(lines, Gov(lines, i)) == NoMode
    ensures Blank(lines[i].text)
  {
    var s := ReadIn(lines, n, i);
  }

  /** In an accepted block every text line is held once, at one place, in order;
      only blank lines between sections are held nowhere. */
  lemma LandsOnce(lines: seq<Line>, noArgs: bool, i: nat)
    requires AcceptedBlock(lines, noArgs)
    requires i < |lines| && lines[i].Text?
    ensures var p := Run(lines, |lines|).state.parts;
            && (forall at :: Increasing(Held(p, at)))
            && (forall at, at' :: i in Held(p, at) && i in Held(p, at') ==> at == at')
            && ((exists at :: i in Held(p, at)) <==> ModeAt(lines, Gov(lines, i)) != NoMode)
            && (ModeAt(lines, Gov(lines, i)) == NoMode ==> Blank(lines[i].text))
  {
    RunLands(lines, |lines|);
    HeldOnce(lines, Run(lines, |lines|).state.parts, i);
    if ModeAt(lines, Gov(lines, i)) == NoMode { BlankBetween(lines, |lines|, i); }
  }

  lemma HeldOnce(lines: seq<Line>, p: Parts, i: nat)
    requires PartsLand(lines, |lines|, p) && AllTags(lines, |lines|, p) && InOrder(p) && p.pending.None?
    requires i < |lines| && lines[i].Text?
    ensures forall at :: Increasing(Held(p, at))
    ensures forall at, at' :: i in Held(p, at) && i in Held(p, at') ==> at == at'
    ensures (exists at :: i in Held(p, at)) <==> ModeAt(lines, Gov(lines, i)) != NoMode
  {
    forall at ensures Increasing(Held(p, at)) && (i in Held(p, at) <==> Fits(lines, p, at, i)) {
      HeldFits(lines, p, at);
    }
    forall at, at' | i in Held(p, at) && i in Held(p, at') ensures at == at' {
      FitsOnce(lines, p, i, at, at');
    }
    if ModeAt(lines, Gov(lines, i)) != NoMode {
      var at := FitsSomewhere(lines, p, i);
      assert i in Held(p, at);
    }
  }
}
