/**
  The rules written at the head of the generator against what the parser
  enforces: for each, exactly what is let through, and a block on which the rule
  as written fails.
 */
module RpcRules {
  import opened Steps
  import opened RpcComments
  import opened RpcLanding
  import opened Wrappers

  /** Line i is text read in mode m. */
  predicate Under(lines: seq<Line>, i: nat, m: Mode)
    requires i < |lines|
  {
    lines[i].Text? && ModeAt(lines, Gov(lines, i)) == m
  }

  // ----- texts of sections

  lemma {:induction false} EmptyTextIff(lines: seq<Line>, at: seq<nat>)
    requires Positions(lines, at)
    ensures TextOf(lines, at) == "" <==> forall i :: i in at ==> lines[i].text == ""
  {
    if at == [] {
    } else {
      var n := |at| - 1;
      EmptyTextIff(lines, at[..n]);
      assert forall i :: i in at <==> i in at[..n] || i == at[n];
    }
  }

  lemma BlankConcat(s: string, t: string)
    ensures Blank(s + t) <==> Blank(s) && Blank(t)
  {
    if Blank(s + t) {
      assert forall i :: 0 <= i < |s| ==> s[i] == (s + t)[i];
      assert forall i :: 0 <= i < |t| ==> t[i] == (s + t)[|s| + i];
    }
  }

  lemma {:induction false} BlankTextIff(lines: seq<Line>, at: seq<nat>)
    requires Positions(lines, at)
    ensures Blank(TextOf(lines, at)) <==> forall i :: i in at ==> Blank(lines[i].text)
  {
    if at == [] {
    } else {
      var n := |at| - 1;
      BlankTextIff(lines, at[..n]);
      BlankConcat(TextOf(lines, at[..n]), lines[at[n]].text);
      assert forall i :: i in at <==> i in at[..n] || i == at[n];
    }
  }

  /** Nothing has been written in mode m before line n. */
  ghost predicate Unwritten(lines: seq<Line>, n: nat, m: Mode)
    requires n <= |lines|
  {
    forall i: nat :: i < n && Under(lines, i, m) ==> lines[i].text == ""
  }

  lemma UnwrittenIff(lines: seq<Line>, n: nat, m: Mode, at: seq<nat>)
    requires n <= |lines| && at == LandedIn(lines, n, m) && Positions(lines, at)
    ensures TextOf(lines, at) == "" <==> Unwritten(lines, n, m)
  {
    LandedInHas(lines, n, m);
    EmptyTextIff(lines, at);
  }

  // ----- "exactly one Inputs", "exactly one Outputs"

  lemma StepNoInputs(lines: seq<Line>, n: nat, s: State)
    requires n < |lines| && Stepper(lines)(s, n).Next?
    ensures Stepper(lines)(s, n).state.noInputs <==> s.noInputs || lines[n].InNone?
  {}

  lemma NoInputsIff(lines: seq<Line>, n: nat)
    requires n <= |lines| && Run(lines, n).Next?
    ensures Run(lines, n).state.noInputs <==> exists t :: 0 <= t < n && lines[t].InNone?
  {
    forall i: nat, s: State | i < n && Stepper(lines)(s, i).Next?
      ensures Stepper(lines)(s, i).state.noInputs <==> s.noInputs || lines[i].InNone?
    {
      StepNoInputs(lines, i, s);
    }
    NoInputsBy(lines, n, Stepper(lines));
  }

  lemma NoInputsBy(lines: seq<Line>, n: nat, f: (State, nat) -> Parse)
    requires n <= |lines| && Up(f, INITIAL, n).Next?
    requires forall i: nat, s: State :: i < n && f(s, i).Next? ==>
               (f(s, i).state.noInputs <==> s.noInputs || lines[i].InNone?)
    ensures Up(f, INITIAL, n).state.noInputs <==> exists t :: 0 <= t < n && lines[t].InNone?
  {
    var feature := (s: State) => s.noInputs;
    var wanted := (k: nat) => k <= |lines| && exists t :: 0 <= t < k && lines[t].InNone?;
    UpFeature(f, INITIAL, n, feature, wanted);
    assert feature(Up(f, INITIAL, n).state) == wanted(n);
  }

  /** An Inputs heading is let through if and only if there has been no "Inputs:
      none" and no text under an earlier Inputs heading. */
  lemma InputsHeadingIff(lines: seq<Line>, n: nat)
    requires n < |lines| && Run(lines, n).Next? && (lines[n].InNone? || lines[n].InSome?)
    ensures Run(lines, n + 1).Next? <==>
            (forall t :: 0 <= t < n ==> !lines[t].InNone?) && Unwritten(lines, n, Inputs)
  {
    RunLands(lines, n);
    var s := Run(lines, n).state;
    NoInputsIff(lines, n);
    UnwrittenIff(lines, n, Inputs, s.parts.inputs);
    RunNext(lines, n, s);
  }

  /** An Outputs heading is let through if and only if there is no text under an
      earlier one. */
  lemma OutputsHeadingIff(lines: seq<Line>, n: nat)
    requires n < |lines| && Run(lines, n).Next? && lines[n].OutSome?
    ensures Run(lines, n + 1).Next? <==> Unwritten(lines, n, Outputs)
  {
    RunLands(lines, n);
    var s := Run(lines, n).state;
    UnwrittenIff(lines, n, Outputs, s.parts.outputs);
    RunNext(lines, n, s);
  }

  // ----- "Example input must be immediately followed by Example output"

  predicate ExampleTag(l: Line) {
    l.ExampleIn? || l.ExampleOut? || l.JsonFetch?
  }

  /** The last example tag before line n is an input. */
  predicate InputOpen(lines: seq<Line>, n: nat)
    requires n <= |lines|
  {
    n > 0 && if ExampleTag(lines[n - 1]) then lines[n - 1].ExampleIn? else InputOpen(lines, n - 1)
  }

  lemma StepPending(lines: seq<Line>, n: nat, s: State)
    requires n < |lines| && Stepper(lines)(s, n).Next?
    ensures Stepper(lines)(s, n).state.parts.pending.Some? <==>
            if ExampleTag(lines[n]) then lines[n].ExampleIn? else s.parts.pending.Some?
  {}

  lemma PendingIff(lines: seq<Line>, n: nat)
    requires n <= |lines| && Run(lines, n).Next?
    ensures Run(lines, n).state.parts.pending.Some? <==> InputOpen(lines, n)
  {
    forall i: nat, s: State | i < n && Stepper(lines)(s, i).Next?
      ensures Stepper(lines)(s, i).state.parts.pending.Some? <==>
              if ExampleTag(lines[i]) then lines[i].ExampleIn? else s.parts.pending.Some?
    {
      StepPending(lines, i, s);
    }
    PendingBy(lines, n, Stepper(lines));
  }

  lemma PendingBy(lines: seq<Line>, n: nat, f: (State, nat) -> Parse)
    requires n <= |lines| && Up(f, INITIAL, n).Next?
    requires forall i: nat, s: State :: i < n && f(s, i).Next? ==>
               (f(s, i).state.parts.pending.Some? <==>
                if ExampleTag(lines[i]) then lines[i].ExampleIn? else s.parts.pending.Some?)
    ensures Up(f, INITIAL, n).state.parts.pending.Some? <==> InputOpen(lines, n)
  {
    var feature := (s: State) => s.parts.pending.Some?;
    var wanted := (k: nat) => k <= |lines| && InputOpen(lines, k);
    UpFeature(f, INITIAL, n, feature, wanted);
    assert feature(Up(f, INITIAL, n).state) == wanted(n);
  }

  /** An example input is let through if and only if the last example tag before
      it, if any, is not an input itself. */
  lemma ExampleInIff(lines: seq<Line>, n: nat)
    requires n < |lines| && Run(lines, n).Next? && lines[n].ExampleIn?
    ensures Run(lines, n + 1).Next? <==> !InputOpen(lines, n)
  {
    RunLands(lines, n);
    PendingIff(lines, n);
    RunNext(lines, n, Run(lines, n).state);
  }

  /** Example k has its input at tag t and its output at the next example tag. */
  ghost predicate PairedAt(lines: seq<Line>, p: Parts, t: nat, k: nat) {
    && k < |p.examples| && p.examples[k].input.Some? && p.examples[k].input.value.tag == t
    && var u := OutTag(p.examples[k]);
       && t < u < |lines| && (lines[u].ExampleOut? || lines[u].JsonFetch?)
       && forall v :: t < v < u ==> !ExampleTag(lines[v])
  }

  /** In an accepted block every example input is paired with the next example
      tag, and that is an output or a fetch. */
  lemma InputPaired(lines: seq<Line>, noArgs: bool, t: nat) returns (k: nat)
    requires AcceptedBlock(lines, noArgs) && t < |lines| && lines[t].ExampleIn?
    ensures PairedAt(lines, Run(lines, |lines|).state.parts, t, k)
  {
    RunLands(lines, |lines|);
    k := Pairing(lines, Run(lines, |lines|).state.parts, t);
  }

  lemma Pairing(lines: seq<Line>, p: Parts, t: nat) returns (k: nat)
    requires PartsLand(lines, |lines|, p) && AllTags(lines, |lines|, p) && InOrder(p) && p.pending.None?
    requires t < |lines| && lines[t].ExampleIn?
    ensures PairedAt(lines, p, t, k)
  {
    assert HasInTag(p, t);
    k :| 0 <= k < |p.examples| && p.examples[k].input.Some? && p.examples[k].input.value.tag == t;
    assert ExampleLands(lines, |lines|, p.examples[k]);
    NothingBetween(lines, p, k);
  }

  lemma NothingBetween(lines: seq<Line>, p: Parts, k: nat)
    requires PartsLand(lines, |lines|, p) && AllTags(lines, |lines|, p) && InOrder(p) && p.pending.None?
    requires k < |p.examples| && p.examples[k].input.Some? && OutTag(p.examples[k]) < |lines|
    ensures forall v :: p.examples[k].input.value.tag < v < OutTag(p.examples[k]) ==> !ExampleTag(lines[v])
  {
    var t := p.examples[k].input.value.tag;
    forall m | 0 <= m < |p.examples|
      ensures !(t < OutTag(p.examples[m]) < OutTag(p.examples[k]))
      ensures p.examples[m].input.Some? ==> !(t < p.examples[m].input.value.tag < OutTag(p.examples[k]))
    {
      TagsApart(lines, p, k, m);
    }
    forall v: nat | t < v < OutTag(p.examples[k]) ensures !ExampleTag(lines[v]) {
      assert lines[v].ExampleIn? ==> HasInTag(p, v);
      assert lines[v].ExampleOut? || lines[v].JsonFetch? ==> HasOutTag(p, v);
    }
  }

  /** No other example's tags lie between the input and the output of example k. */
  lemma TagsApart(lines: seq<Line>, p: Parts, k: nat, m: nat)
    requires PartsLand(lines, |lines|, p) && InOrder(p)
    requires k < |p.examples| && p.examples[k].input.Some? && m < |p.examples|
    ensures !(p.examples[k].input.value.tag < OutTag(p.examples[m]) < OutTag(p.examples[k]))
    ensures p.examples[m].input.Some? ==>
              !(p.examples[k].input.value.tag < p.examples[m].input.value.tag < OutTag(p.examples[k]))
  {
    if m < k {
      assert OutTag(p.examples[m]) < p.examples[k].input.value.tag;
      assert ExampleLands(lines, |lines|, p.examples[m]);
    }
  }

  // ----- the description

  /** The description check passes if and only if something, be it only a space,
      stands before the first heading. */
  lemma DescriptionIff(lines: seq<Line>)
    requires Run(lines, |lines|).Next?
    ensures Positions(lines, Run(lines, |lines|).state.parts.description)
    ensures TextOf(lines, Run(lines, |lines|).state.parts.description) != "" <==> !Unwritten(lines, |lines|, Desc)
  {
    RunLands(lines, |lines|);
    UnwrittenIff(lines, |lines|, Desc, Run(lines, |lines|).state.parts.description);
  }

  /** The description of an accepted block is blank if and only if every line
      before the first heading is. */
  lemma BlankDescriptionIff(lines: seq<Line>, noArgs: bool)
    requires AcceptedBlock(lines, noArgs)
    ensures Blank(TextOf(lines, Run(lines, |lines|).state.parts.description)) <==>
            forall i: nat :: i < |lines| && Under(lines, i, Desc) ==> Blank(lines[i].text)
  {
    RunLands(lines, |lines|);
    LandedInHas(lines, |lines|, Desc);
    BlankTextIff(lines, Run(lines, |lines|).state.parts.description);
  }

  // ----- "Old names is permitted only once"

  /** The names of the last old-names line among the first n lines. */
  function LastNames(lines: seq<Line>, n: nat): seq<string>
    requires n <= |lines|
  {
    if n == 0 then [] else if lines[n - 1].OldNames? then lines[n - 1].names else LastNames(lines, n - 1)
  }

  lemma StepNames(lines: seq<Line>, n: nat, s: State)
    requires n < |lines| && Stepper(lines)(s, n).Next?
    ensures Stepper(lines)(s, n).state.oldNames == if lines[n].OldNames? then lines[n].names else s.oldNames
  {}

  /** However often old names are given, the last ones count. */
  lemma OldNamesAreLast(lines: seq<Line>, n: nat)
    requires n <= |lines| && Run(lines, n).Next?
    ensures Run(lines, n).state.oldNames == LastNames(lines, n)
  {
    forall i: nat, s: State | i < n && Stepper(lines)(s, i).Next?
      ensures Stepper(lines)(s, i).state.oldNames == if lines[i].OldNames? then lines[i].names else s.oldNames
    {
      StepNames(lines, i, s);
    }
    NamesBy(lines, n, Stepper(lines));
  }

  lemma NamesBy(lines: seq<Line>, n: nat, f: (State, nat) -> Parse)
    requires n <= |lines| && Up(f, INITIAL, n).Next?
    requires forall i: nat, s: State :: i < n && f(s, i).Next? ==>
               f(s, i).state.oldNames == if lines[i].OldNames? then lines[i].names else s.oldNames
    ensures Up(f, INITIAL, n).state.oldNames == LastNames(lines, n)
  {
    var feature := (s: State) => s.oldNames;
    var wanted := (k: nat) => if k <= |lines| then LastNames(lines, k) else [];
    forall i: nat, s: State | i < n && feature(s) == wanted(i) && f(s, i).Next?
      ensures feature(f(s, i).state) == wanted(i + 1)
    {}
    UpFeature(f, INITIAL, n, feature, wanted);
    assert feature(Up(f, INITIAL, n).state) == wanted(n);
  }

  /** An old-names line is let through if and only if it names something and
      every name is plain, whatever came before. */
  lemma OldNamesIff(lines: seq<Line>, n: nat)
    requires n < |lines| && Run(lines, n).Next? && lines[n].OldNames?
    ensures Run(lines, n + 1).Next? <==> lines[n].names != [] && lines[n].ok
  {
    RunLands(lines, n);
    RunNext(lines, n, Run(lines, n).state);
  }

  // ----- a block that keeps none of the rules as written

  /** A whitespace-only description, two Inputs and two Outputs headings, a
      heading between an example's input and output, and old names twice. */
  predicate IsLax(lines: seq<Line>) {
    && |lines| == 13
    && lines[0] == Text(" ")
    && lines[1] == InSome && lines[2] == InSome && lines[3] == Text("i")
    && lines[4] == ExampleIn && lines[5] == Text("x")
    && lines[6] == OutSome && lines[7] == OutSome && lines[8] == Text("o")
    && lines[9] == ExampleOut && lines[10] == Text("y")
    && lines[11] == OldNames(["a"], true) && lines[12] == OldNames(["b"], true)
  }

  predicate At(lines: seq<Line>, n: nat, s: State) {
    Run(lines, n) == Next(s) && StateOk(lines, s)
  }

  lemma OneLine(lines: seq<Line>, i: nat)
    requires i < |lines| && lines[i].Text?
    ensures Positions(lines, [i]) && TextOf(lines, [i]) == lines[i].text
  {
    assert [i][..0] == [];
  }

  /** The first text line of a section. */
  lemma FirstText(lines: seq<Line>, n: nat, s: State)
    requires n < |lines| && lines[n].Text? && At(lines, n, s)
    ensures s.mode == Desc && s.parts.description == [] ==>
              At(lines, n + 1, s.(parts := s.parts.(description := [n])))
    ensures s.mode == Inputs && s.parts.inputs == [] ==> At(lines, n + 1, s.(parts := s.parts.(inputs := [n])))
    ensures s.mode == Outputs && s.parts.outputs == [] ==> At(lines, n + 1, s.(parts := s.parts.(outputs := [n])))
  {
    var none: seq<nat> := [];
    assert none + [n] == [n];
    RunNext(lines, n, s);
  }

  lemma FirstInput(lines: seq<Line>, n: nat, s: State, tag: nat)
    requires n < |lines| && lines[n].Text? && At(lines, n, s)
    requires s.mode == ExIn && s.parts.pending == Some(Section(tag, []))
    ensures At(lines, n + 1, s.(parts := s.parts.(pending := Some(Section(tag, [n])))))
  {
    assert AddTo(Section(tag, []), n) == Section(tag, [n]);
    RunNext(lines, n, s);
  }

  lemma FirstOutput(lines: seq<Line>, n: nat, s: State, input: Option<Section>, tag: nat)
    requires n < |lines| && lines[n].Text? && At(lines, n, s)
    requires s.mode == ExOut && s.parts.examples == [Example(input, Written(Section(tag, [])))]
    ensures At(lines, n + 1, s.(parts := s.parts.(examples := [Example(input, Written(Section(tag, [n])))])))
  {
    var es := s.parts.examples;
    assert AddTo(Section(tag, []), n) == Section(tag, [n]);
    assert AddToLast(es, n) == [Example(input, Written(Section(tag, [n])))];
    RunNext(lines, n, s);
  }

  lemma Heading(lines: seq<Line>, n: nat, s: State)
    requires n < |lines| && At(lines, n, s)
    ensures lines[n].InSome? && !s.noInputs && s.parts.inputs == [] ==> At(lines, n + 1, s.(mode := Inputs))
    ensures lines[n].OutSome? && s.parts.outputs == [] ==> At(lines, n + 1, s.(mode := Outputs))
    ensures lines[n].ExampleIn? && s.parts.pending.None? ==>
              At(lines, n + 1, s.(parts := s.parts.(pending := Some(Section(n, []))), mode := ExIn))
    ensures lines[n].OldNames? && lines[n].ok && lines[n].names != [] ==>
              At(lines, n + 1, s.(oldNames := lines[n].names))
  {
    RunNext(lines, n, s);
  }

  lemma OutputTag(lines: seq<Line>, n: nat, s: State, tag: nat, i: nat)
    requires n < |lines| && lines[n].ExampleOut? && At(lines, n, s)
    requires s.parts.pending == Some(Section(tag, [i])) && s.parts.examples == []
    requires i < |lines| && lines[i].Text? && lines[i].text != ""
    ensures At(lines, n + 1, s.(parts := s.parts.(examples := [Example(s.parts.pending, Written(Section(n, [])))],
                                                  pending := None), mode := ExOut))
  {
    var e := Example(s.parts.pending, Written(Section(n, [])));
    OneLine(lines, i);
    assert s.parts.examples + [e] == [e];
    RunNext(lines, n, s);
  }

  /** The state, given the lines each part holds so far. */
  function Lax(mode: Mode, inputs: seq<nat>, outputs: seq<nat>, pending: Option<Section>, examples: seq<Example>): State {
    State(mode, Parts([0], inputs, outputs, pending, examples), false, [])
  }

  lemma LaxInputs(lines: seq<Line>)
    requires IsLax(lines)
    ensures At(lines, 4, Lax(Inputs, [3], [], None, []))
  {
    FirstText(lines, 0, INITIAL);
    Heading(lines, 1, Lax(Desc, [], [], None, []));
    Heading(lines, 2, Lax(Inputs, [], [], None, []));
    FirstText(lines, 3, Lax(Inputs, [], [], None, []));
  }

  lemma LaxInput(lines: seq<Line>)
    requires IsLax(lines) && At(lines, 4, Lax(Inputs, [3], [], None, []))
    ensures At(lines, 6, Lax(ExIn, [3], [], Some(Section(4, [5])), []))
  {
    var (s, t) := (Lax(Inputs, [3], [], None, []), Lax(ExIn, [3], [], Some(Section(4, [])), []));
    Heading(lines, 4, s);
    assert t == s.(parts := s.parts.(pending := Some(Section(4, []))), mode := ExIn);
    FirstInput(lines, 5, t, 4);
  }

  lemma LaxOutputs(lines: seq<Line>, input: Option<Section>)
    requires IsLax(lines) && At(lines, 6, Lax(ExIn, [3], [], input, []))
    ensures At(lines, 9, Lax(Outputs, [3], [8], input, []))
  {
    Heading(lines, 6, Lax(ExIn, [3], [], input, []));
    Heading(lines, 7, Lax(Outputs, [3], [], input, []));
    FirstText(lines, 8, Lax(Outputs, [3], [], input, []));
  }

  lemma LaxExample(lines: seq<Line>, input: Option<Section>)
    requires IsLax(lines) && input == Some(Section(4, [5])) && At(lines, 9, Lax(Outputs, [3], [8], input, []))
    ensures At(lines, 11, Lax(ExOut, [3], [8], None, [Example(input, Written(Section(9, [10])))]))
  {
    var e := Example(input, Written(Section(9, [])));
    var (s, t) := (Lax(Outputs, [3], [8], input, []), Lax(ExOut, [3], [8], None, [e]));
    OutputTag(lines, 9, s, 4, 5);
    assert t == s.(parts := s.parts.(examples := [e], pending := None), mode := ExOut);
    FirstOutput(lines, 10, t, input, 9);
  }

  lemma LaxNames(lines: seq<Line>, s: State)
    requires IsLax(lines) && At(lines, 11, s)
    ensures At(lines, 13, s.(oldNames := ["b"]))
  {
    Heading(lines, 11, s);
    Heading(lines, 12, s.(oldNames := ["a"]));
  }

  /** The state at the end. */
  function LaxEnd(): State {
    Lax(ExOut, [3], [8], None, [Example(Some(Section(4, [5])), Written(Section(9, [10])))]).(oldNames := ["b"])
  }

  lemma LaxChecks(lines: seq<Line>, s: State)
    requires IsLax(lines) && s == LaxEnd() && StateOk(lines, s)
    ensures Accepts(lines, s, false) && Blank(TextOf(lines, s.parts.description))
  {
    OneLine(lines, 0);
    OneLine(lines, 3);
    OneLine(lines, 5);
    OneLine(lines, 8);
    OneLine(lines, 10);
    assert !IsSpace("i"[0]) && !IsSpace("x"[0]) && !IsSpace("o"[0]) && !IsSpace("y"[0]);
  }

  /** All of that is accepted, with a blank description. */
  lemma LaxAccepted(lines: seq<Line>)
    requires IsLax(lines)
    ensures AcceptedBlock(lines, false)
    ensures Blank(TextOf(lines, Run(lines, |lines|).state.parts.description))
  {
    var input := Some(Section(4, [5]));
    LaxInputs(lines);
    LaxInput(lines);
    LaxOutputs(lines, input);
    LaxExample(lines, input);
    LaxNames(lines, Lax(ExOut, [3], [8], None, [Example(input, Written(Section(9, [10])))]));
    LaxChecks(lines, LaxEnd());
  }

  /** There is such a block. */
  lemma LaxBlock() returns (lines: seq<Line>)
    ensures IsLax(lines) && AcceptedBlock(lines, false)
  {
    lines := [Text(" "), InSome, InSome, Text("i"), ExampleIn, Text("x"), OutSome, OutSome, Text("o"),
              ExampleOut, Text("y"), OldNames(["a"], true), OldNames(["b"], true)];
    LaxAccepted(lines);
  }
}
