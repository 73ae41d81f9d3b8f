/**
  Exactly which comment blocks are accepted, read off the lines alone: each line is
  let through by what stands before it, and the whole block is complete.
 */
module RpcAcceptance {
  import opened Sequences
  import opened Steps
  import opened RpcComments
  import opened RpcLanding
  import opened RpcRules
  import opened Wrappers

  // ----- what is asked of the lines

  /** Some character is none of space, tab, line feed, vertical tab, form feed and
      carriage return. */
  ghost predicate Visible(s: string) {
    exists j :: 0 <= j < |s| && s[j] !in [' ', '\t', '\n', '\U{B}', '\U{C}', '\r']
  }

  lemma VisibleIff(s: string)
    ensures Visible(s) <==> !Blank(s)
  {
    forall j | 0 <= j < |s| ensures IsSpace(s[j]) <==> s[j] in [' ', '\t', '\n', '\U{B}', '\U{C}', '\r'] {
      SpaceIff(s[j]);
    }
  }

  lemma SpaceIff(c: char)
    ensures IsSpace(c) <==> c in [' ', '\t', '\n', '\U{B}', '\U{C}', '\r']
  {}

  /** "Inputs: none" stands among the first n lines. */
  predicate SaysNone(lines: seq<Line>, n: nat)
    requires n <= |lines|
  {
    exists t :: 0 <= t < n && lines[t].InNone?
  }

  /** Line t is an example input, and no example tag stands between it and line n. */
  predicate OpenAt(lines: seq<Line>, n: nat, t: nat)
    requires n <= |lines|
  {
    t < n && lines[t].ExampleIn? && forall v :: t < v < n ==> !ExampleTag(lines[v])
  }

  /** Line i is text that tag t governs. */
  predicate UnderTag(lines: seq<Line>, i: nat, t: nat)
    requires i < |lines|
  {
    lines[i].Text? && Gov(lines, i) == t
  }

  /** Something stands under the example input that is open at line n. */
  ghost predicate InputWritten(lines: seq<Line>, n: nat)
    requires n <= |lines|
  {
    exists t: nat, i: nat :: OpenAt(lines, n, t) && i < n && UnderTag(lines, i, t) && lines[i].text != ""
  }

  /** Line n is let through by the lines before it. */
  ghost predicate Admitted(lines: seq<Line>, n: nat)
    requires n < |lines|
  {
    match lines[n]
    case InNone => !SaysNone(lines, n) && Unwritten(lines, n, Inputs)
    case InSome => !SaysNone(lines, n) && Unwritten(lines, n, Inputs)
    case OutSome => Unwritten(lines, n, Outputs)
    case ExampleIn => forall t: nat :: !OpenAt(lines, n, t)
    case ExampleOut => SaysNone(lines, n) || InputWritten(lines, n)
    case JsonFetch(ok, _) => (SaysNone(lines, n) || InputWritten(lines, n)) && ok
    case OldNames(names, ok) => names != [] && ok
    case Text(text) => ModeAt(lines, Gov(lines, n)) == NoMode ==> !Visible(text)
  }

  /** What is reported at a line that is not. */
  ghost function ErrorAt(lines: seq<Line>, n: nat): Error
    requires n < |lines|
  {
    match lines[n]
    case InNone => MultipleInputs
    case InSome => MultipleInputs
    case OutSome => MultipleOutputs
    case ExampleIn => UnpairedInput
    case ExampleOut => MissingInput
    case JsonFetch(_, _) => if SaysNone(lines, n) || InputWritten(lines, n) then FetchFailed else MissingInput
    case OldNames(_, _) => BadOldNames
    case Text(_) => UnexpectedContent
  }

  /** Some line read in mode m is not blank. */
  ghost predicate Filled(lines: seq<Line>, m: Mode) {
    exists i: nat :: i < |lines| && Under(lines, i, m) && Visible(lines[i].text)
  }

  /** Some line under tag t is not blank. */
  ghost predicate FilledAt(lines: seq<Line>, t: nat) {
    exists i: nat :: i < |lines| && UnderTag(lines, i, t) && Visible(lines[i].text)
  }

  /** The example that ends at tag u has an input that is not blank. */
  ghost predicate InputFilled(lines: seq<Line>, u: nat)
    requires u < |lines|
  {
    exists t: nat :: OpenAt(lines, u, t) && FilledAt(lines, t)
  }

  ghost predicate AllAdmitted(lines: seq<Line>) {
    forall k :: 0 <= k < |lines| ==> Admitted(lines, k)
  }

  /** Nothing is missing from the block. */
  ghost predicate Complete(lines: seq<Line>, noArgs: bool) {
    && !Unwritten(lines, |lines|, Desc)
    && (SaysNone(lines, |lines|) || Filled(lines, Inputs))
    && Filled(lines, Outputs)
    && (forall t: nat :: !OpenAt(lines, |lines|, t))
    && (forall u: nat :: u < |lines| && lines[u].ExampleOut? ==> FilledAt(lines, u))
    && (!SaysNone(lines, |lines|) ==>
          forall u: nat :: u < |lines| && (lines[u].ExampleOut? || lines[u].JsonFetch?) ==> InputFilled(lines, u))
    && (noArgs ==> SaysNone(lines, |lines|))
  }

  // ----- the pending input

  /** The pending input is that of the open example tag. */
  lemma PendingAt(lines: seq<Line>, n: nat, p: Parts, t: nat)
    requires n <= |lines| && PartsLand(lines, n, p) && InOrder(p) && AllTags(lines, n, p)
    ensures OpenAt(lines, n, t) <==> p.pending.Some? && p.pending.value.tag == t
  {
    forall k | 0 <= k < |p.examples| && p.examples[k].input.Some?
      ensures !OpenAt(lines, n, p.examples[k].input.value.tag)
    {
      assert ExampleLands(lines, n, p.examples[k]);
      assert ExampleTag(lines[OutTag(p.examples[k])]);
    }
    if OpenAt(lines, n, t) {
      assert HasInTag(p, t);
    } else if p.pending.Some? && p.pending.value.tag == t {
      NothingAfter(lines, n, p);
    }
  }

  lemma NothingAfter(lines: seq<Line>, n: nat, p: Parts)
    requires n <= |lines| && PartsLand(lines, n, p) && InOrder(p) && AllTags(lines, n, p) && p.pending.Some?
    ensures OpenAt(lines, n, p.pending.value.tag)
  {
    var t := p.pending.value.tag;
    forall k | 0 <= k < |p.examples|
      ensures OutTag(p.examples[k]) < t && (p.examples[k].input.Some? ==> p.examples[k].input.value.tag < t)
    {
      assert ExampleLands(lines, n, p.examples[k]);
    }
    forall v: nat | t < v < n ensures !ExampleTag(lines[v]) {
      assert lines[v].ExampleIn? ==> HasInTag(p, v);
      assert lines[v].ExampleOut? || lines[v].JsonFetch? ==> HasOutTag(p, v);
    }
  }

  lemma WrittenIff(lines: seq<Line>, n: nat, t: nat, at: seq<nat>)
    requires n <= |lines| && at == Landed(lines, n, t) && Positions(lines, at)
    ensures TextOf(lines, at) != "" <==> exists i: nat :: i < n && UnderTag(lines, i, t) && lines[i].text != ""
  {
    LandedHas(lines, n, t);
    EmptyTextIff(lines, at);
    if i: nat :| i < n && UnderTag(lines, i, t) && lines[i].text != "" { assert i in at; }
    if i :| i in at && lines[i].text != "" { assert UnderTag(lines, i, t); }
  }

  lemma HasPendingIff(lines: seq<Line>, n: nat, s: State)
    requires WellPlaced(lines, n, s)
    ensures HasPending(lines, s) <==> InputWritten(lines, n)
  {
    if s.parts.pending.Some? {
      var t := s.parts.pending.value.tag;
      WrittenIff(lines, n, t, s.parts.pending.value.lines);
      PendingAt(lines, n, s.parts, t);
    }
    forall t: nat | OpenAt(lines, n, t) ensures s.parts.pending.Some? && s.parts.pending.value.tag == t {
      PendingAt(lines, n, s.parts, t);
    }
  }

  // ----- each line

  lemma StepIff(lines: seq<Line>, n: nat)
    requires n < |lines| && Run(lines, n).Next?
    ensures Run(lines, n + 1).Next? <==> Admitted(lines, n)
    ensures Run(lines, n + 1).Fail? ==> Run(lines, n + 1).error == ErrorAt(lines, n)
  {
    RunLands(lines, n);
    var s := Run(lines, n).state;
    RunNext(lines, n, s);
    NoInputsIff(lines, n);
    match lines[n]
    case InNone => InputsHeadingIff(lines, n);
    case InSome => InputsHeadingIff(lines, n);
    case OutSome => OutputsHeadingIff(lines, n);
    case ExampleIn => PendingNone(lines, n, s.parts);
    case ExampleOut => HasPendingIff(lines, n, s);
    case JsonFetch(_, _) => HasPendingIff(lines, n, s);
    case OldNames(_, _) =>
    case Text(text) => VisibleIff(text);
  }

  lemma PendingNone(lines: seq<Line>, n: nat, p: Parts)
    requires n <= |lines| && PartsLand(lines, n, p) && InOrder(p) && AllTags(lines, n, p)
    ensures p.pending.None? <==> forall t: nat :: !OpenAt(lines, n, t)
  {
    forall t: nat ensures OpenAt(lines, n, t) <==> p.pending.Some? && p.pending.value.tag == t {
      PendingAt(lines, n, p, t);
    }
    assert p.pending.Some? ==> OpenAt(lines, n, p.pending.value.tag);
  }

  /** The parser gets through the first n lines if and only if each is let through by
      those before it. */
  lemma RunIff(lines: seq<Line>, n: nat)
    requires n <= |lines|
    ensures Run(lines, n).Next? <==> forall k :: 0 <= k < n ==> Admitted(lines, k)
  {
    var ok := (k: nat) => k < |lines| && Admitted(lines, k);
    var f := Stepper(lines);
    forall k: nat | k < n && Up(f, INITIAL, k).Next? ensures Up(f, INITIAL, k + 1).Next? <==> ok(k) {
      StepIff(lines, k);
    }
    UpIff(f, INITIAL, n, ok);
    assert forall k: nat :: k < n ==> ok(k) == Admitted(lines, k);
  }

  lemma RunTo(lines: seq<Line>, k: nat)
    requires k <= |lines| && forall j :: 0 <= j < k ==> Admitted(lines, j)
    ensures Run(lines, k).Next?
  {
    RunIff(lines, k);
  }

  lemma RefusedAt(lines: seq<Line>, k: nat)
    requires k < |lines| && Run(lines, k).Next? && !Admitted(lines, k)
    ensures Run(lines, |lines|) == Fail(ErrorAt(lines, k))
  {
    StepIff(lines, k);
    RunStops(lines, k + 1);
  }

  /** Otherwise it stops at the first that is not, with that line's error. */
  lemma RunStopsAt(lines: seq<Line>, k: nat)
    requires k < |lines| && !Admitted(lines, k) && forall j :: 0 <= j < k ==> Admitted(lines, j)
    ensures Run(lines, |lines|) == Fail(ErrorAt(lines, k))
  {
    RunTo(lines, k);
    RefusedAt(lines, k);
  }

  // ----- the whole block

  lemma FilledIff(lines: seq<Line>, m: Mode, at: seq<nat>)
    requires at == LandedIn(lines, |lines|, m) && Positions(lines, at)
    ensures !Blank(TextOf(lines, at)) <==> Filled(lines, m)
  {
    LandedInHas(lines, |lines|, m);
    BlankTextIff(lines, at);
    forall i | i in at ensures Visible(lines[i].text) <==> !Blank(lines[i].text) { VisibleIff(lines[i].text); }
    if i: nat :| i < |lines| && Under(lines, i, m) && Visible(lines[i].text) { assert i in at; }
    if i :| i in at && !Blank(lines[i].text) { assert Under(lines, i, m) && Visible(lines[i].text); }
  }

  lemma FilledAtIff(lines: seq<Line>, t: nat, at: seq<nat>)
    requires at == Landed(lines, |lines|, t) && Positions(lines, at)
    ensures !Blank(TextOf(lines, at)) <==> FilledAt(lines, t)
  {
    LandedHas(lines, |lines|, t);
    BlankTextIff(lines, at);
    forall i | i in at ensures Visible(lines[i].text) <==> !Blank(lines[i].text) { VisibleIff(lines[i].text); }
    if i: nat :| i < |lines| && UnderTag(lines, i, t) && Visible(lines[i].text) { assert i in at; }
    if i :| i in at && !Blank(lines[i].text) { assert UnderTag(lines, i, t) && Visible(lines[i].text); }
  }

  lemma InputsIff(lines: seq<Line>, s: State)
    requires WellPlaced(lines, |lines|, s) && (s.noInputs <==> SaysNone(lines, |lines|))
    ensures !Blank(InputText(lines, s)) <==> SaysNone(lines, |lines|) || Filled(lines, Inputs)
  {
    if s.noInputs {
      NoInputIsText();
    } else {
      FilledIff(lines, Inputs, s.parts.inputs);
    }
  }

  lemma NoInputIsText()
    ensures !Blank(MD_NO_INPUT)
  {
    var first := "This endpoint takes no inputs. ";
    assert first[0] == 'T';
    BlankConcat(first, "_(An optional empty dict/object may be provided, but is not required.)_");
  }

  lemma FetchedIsText(body: string)
    ensures !Blank(FetchedText(body))
  {
    assert FetchedText(body)[1] == '`' && !IsSpace('`');
  }

  /** Every output of an example is non-blank. */
  ghost predicate OutputsGood(lines: seq<Line>, s: State)
    requires StateOk(lines, s)
  {
    forall k :: 0 <= k < |s.parts.examples| ==> !Blank(ExampleOutput(lines, s.parts.examples[k]))
  }

  lemma OutputIff(lines: seq<Line>, s: State, k: nat)
    requires WellPlaced(lines, |lines|, s) && k < |s.parts.examples|
    ensures !Blank(ExampleOutput(lines, s.parts.examples[k])) <==>
            lines[OutTag(s.parts.examples[k])].ExampleOut? ==> FilledAt(lines, OutTag(s.parts.examples[k]))
  {
    var e := s.parts.examples[k];
    assert ExampleLands(lines, |lines|, e);
    match e.output
    case Written(section) => FilledAtIff(lines, section.tag, section.lines);
    case Fetched(_, body) => FetchedIsText(body);
  }

  lemma OutputsIff(lines: seq<Line>, s: State)
    requires WellPlaced(lines, |lines|, s)
    ensures OutputsGood(lines, s) <==> forall u: nat :: u < |lines| && lines[u].ExampleOut? ==> FilledAt(lines, u)
  {
    forall k | 0 <= k < |s.parts.examples|
      ensures !Blank(ExampleOutput(lines, s.parts.examples[k])) <==>
              lines[OutTag(s.parts.examples[k])].ExampleOut? ==> FilledAt(lines, OutTag(s.parts.examples[k]))
    {
      OutputIff(lines, s, k);
    }
    forall u: nat | u < |lines| && lines[u].ExampleOut? ensures HasOutTag(s.parts, u) {}
  }

  ghost predicate InputGood(lines: seq<Line>, s: State, k: nat)
    requires StateOk(lines, s) && k < |s.parts.examples|
  {
    ExampleInput(lines, s.parts.examples[k]).Some? && !Blank(ExampleInput(lines, s.parts.examples[k]).value)
  }

  /** Every example has a non-blank input. */
  ghost predicate InputsGood(lines: seq<Line>, s: State)
    requires StateOk(lines, s)
  {
    forall k :: 0 <= k < |s.parts.examples| ==> InputGood(lines, s, k)
  }

  lemma OpenIsInput(lines: seq<Line>, p: Parts, k: nat, t: nat)
    requires PartsLand(lines, |lines|, p) && InOrder(p) && AllTags(lines, |lines|, p) && p.pending.None?
    requires k < |p.examples| && OutTag(p.examples[k]) < |lines| && OpenAt(lines, OutTag(p.examples[k]), t)
    ensures p.examples[k].input.Some? && p.examples[k].input.value.tag == t
  {
    assert HasInTag(p, t);
    var m :| 0 <= m < |p.examples| && p.examples[m].input.Some? && p.examples[m].input.value.tag == t;
    EndsNotBefore(lines, p, m, OutTag(p.examples[k]));
    SameExample(p, k, m);
  }

  lemma EndsNotBefore(lines: seq<Line>, p: Parts, m: nat, u: nat)
    requires PartsLand(lines, |lines|, p) && m < |p.examples| && p.examples[m].input.Some?
    requires u <= |lines| && OpenAt(lines, u, p.examples[m].input.value.tag)
    ensures OutTag(p.examples[m]) >= u
  {
    assert ExampleLands(lines, |lines|, p.examples[m]);
    assert ExampleTag(lines[OutTag(p.examples[m])]);
  }

  /** Example m begins before example k ends and does not end before it: they are one. */
  lemma SameExample(p: Parts, k: nat, m: nat)
    requires InOrder(p) && k < |p.examples| && m < |p.examples| && p.examples[m].input.Some?
    requires p.examples[m].input.value.tag < OutTag(p.examples[k]) <= OutTag(p.examples[m])
    ensures k == m
  {}

  /** The input of example k is the one open at its output tag. */
  lemma ExampleInputAt(lines: seq<Line>, p: Parts, k: nat, t: nat)
    requires PartsLand(lines, |lines|, p) && InOrder(p) && AllTags(lines, |lines|, p) && p.pending.None?
    requires k < |p.examples| && OutTag(p.examples[k]) < |lines|
    ensures OpenAt(lines, OutTag(p.examples[k]), t) <==>
            p.examples[k].input.Some? && p.examples[k].input.value.tag == t
  {
    if OpenAt(lines, OutTag(p.examples[k]), t) {
      OpenIsInput(lines, p, k, t);
    } else if p.examples[k].input.Some? && p.examples[k].input.value.tag == t {
      assert ExampleLands(lines, |lines|, p.examples[k]);
      NothingBetween(lines, p, k);
    }
  }

  lemma InputIff(lines: seq<Line>, s: State, k: nat)
    requires WellPlaced(lines, |lines|, s) && s.parts.pending.None? && k < |s.parts.examples|
    ensures OutTag(s.parts.examples[k]) < |lines|
    ensures InputGood(lines, s, k) <==> InputFilled(lines, OutTag(s.parts.examples[k]))
  {
    var e := s.parts.examples[k];
    assert ExampleLands(lines, |lines|, e);
    forall t: nat ensures OpenAt(lines, OutTag(e), t) <==> e.input.Some? && e.input.value.tag == t {
      ExampleInputAt(lines, s.parts, k, t);
    }
    if e.input.Some? {
      FilledAtIff(lines, e.input.value.tag, e.input.value.lines);
      assert OpenAt(lines, OutTag(e), e.input.value.tag);
    }
  }

  lemma GoodAtTag(lines: seq<Line>, s: State, u: nat)
    requires WellPlaced(lines, |lines|, s) && s.parts.pending.None? && InputsGood(lines, s)
    requires u < |lines| && (lines[u].ExampleOut? || lines[u].JsonFetch?)
    ensures InputFilled(lines, u)
  {
    assert HasOutTag(s.parts, u);
    var k :| 0 <= k < |s.parts.examples| && OutTag(s.parts.examples[k]) == u;
    InputIff(lines, s, k);
  }

  lemma TagOfExample(lines: seq<Line>, s: State, k: nat)
    requires WellPlaced(lines, |lines|, s) && k < |s.parts.examples|
    ensures var u := OutTag(s.parts.examples[k]); u < |lines| && (lines[u].ExampleOut? || lines[u].JsonFetch?)
  {
    assert ExampleLands(lines, |lines|, s.parts.examples[k]);
  }

  lemma InputsGoodIff(lines: seq<Line>, s: State)
    requires WellPlaced(lines, |lines|, s) && s.parts.pending.None?
    ensures InputsGood(lines, s) <==>
            forall u: nat :: u < |lines| && (lines[u].ExampleOut? || lines[u].JsonFetch?) ==> InputFilled(lines, u)
  {
    if InputsGood(lines, s) {
      forall u: nat | u < |lines| && (lines[u].ExampleOut? || lines[u].JsonFetch?) ensures InputFilled(lines, u) {
        GoodAtTag(lines, s, u);
      }
    } else {
      var k :| 0 <= k < |s.parts.examples| && !InputGood(lines, s, k);
      TagOfExample(lines, s, k);
      InputIff(lines, s, k);
    }
  }

  lemma AcceptsIff(lines: seq<Line>, s: State, noArgs: bool)
    requires Run(lines, |lines|) == Next(s) && StateOk(lines, s)
    ensures Accepts(lines, s, noArgs) <==> Complete(lines, noArgs)
  {
    RunLands(lines, |lines|);
    NoInputsIff(lines, |lines|);
    DescriptionIff(lines);
    InputsIff(lines, s);
    FilledIff(lines, Outputs, s.parts.outputs);
    PendingNone(lines, |lines|, s.parts);
    OutputsIff(lines, s);
    if s.parts.pending.None? { InputsGoodIff(lines, s); }
    AcceptsParts(lines, s, noArgs);
  }

  lemma InputsGoodAre(lines: seq<Line>, s: State)
    requires StateOk(lines, s)
    ensures InputsGood(lines, s) <==>
            forall k :: 0 <= k < |s.parts.examples| ==>
              var input := ExampleInput(lines, s.parts.examples[k]); input.Some? && !Blank(input.value)
  {
    forall k | 0 <= k < |s.parts.examples|
      ensures InputGood(lines, s, k) <==>
              var input := ExampleInput(lines, s.parts.examples[k]); input.Some? && !Blank(input.value)
    {}
  }

  lemma AcceptsParts(lines: seq<Line>, s: State, noArgs: bool)
    requires StateOk(lines, s)
    ensures Accepts(lines, s, noArgs) <==>
            && TextOf(lines, s.parts.description) != ""
            && !Blank(InputText(lines, s)) && !Blank(TextOf(lines, s.parts.outputs))
            && s.parts.pending.None?
            && (!s.noInputs ==> InputsGood(lines, s)) && OutputsGood(lines, s)
            && (noArgs ==> s.noInputs)
  {
    InputsGoodAre(lines, s);
  }

  /** A block is accepted if and only if each line is let through by those before it
      and nothing is missing. */
  lemma AcceptedIff(lines: seq<Line>, noArgs: bool)
    ensures AcceptedBlock(lines, noArgs) <==> AllAdmitted(lines) && Complete(lines, noArgs)
  {
    RunIff(lines, |lines|);
    if Run(lines, |lines|).Next? {
      RunLands(lines, |lines|);
      AcceptsIff(lines, Run(lines, |lines|).state, noArgs);
    }
  }

  // ----- the examples

  predicate EndsExample(l: Line) {
    l.ExampleOut? || l.JsonFetch?
  }

  /** The output and fetch tags among the first n lines, in order. */
  ghost function Ends(lines: seq<Line>, n: nat): seq<nat> {
    Where(n, EndsAt(lines))
  }

  function EndsAt(lines: seq<Line>): nat -> bool {
    (i: nat) => i < |lines| && EndsExample(lines[i])
  }

  function OutTags(es: seq<Example>): (r: seq<nat>)
    ensures |r| == |es|
  {
    seq(|es|, k requires 0 <= k < |es| => OutTag(es[k]))
  }

  lemma StepEnds(lines: seq<Line>, n: nat, s: State)
    requires n < |lines| && Stepper(lines)(s, n).Next?
    ensures OutTags(Stepper(lines)(s, n).state.parts.examples)
         == OutTags(s.parts.examples) + if EndsExample(lines[n]) then [n] else []
  {}

  /** A list to which step i adds i, if at all, ends up with the steps that did. */
  lemma {:induction false} UpCollects<S(!new), E>(f: (S, nat) -> Step<S, E>, s: S, n: nat,
                                                 list: S -> seq<nat>, adds: nat -> bool)
    requires Up(f, s, n).Next? && list(s) == []
    requires forall i: nat, x: S :: i < n && f(x, i).Next? ==> list(f(x, i).state) == list(x) + if adds(i) then [i] else []
    ensures list(Up(f, s, n).state) == Where(n, adds)
  {
    if n == 0 {
    } else {
      UpCollects(f, s, n - 1, list, adds);
    }
  }

  /** The examples are those of the output and fetch tags, in the order of the lines. */
  lemma ExamplesInOrder(lines: seq<Line>, n: nat)
    requires n <= |lines| && Run(lines, n).Next?
    ensures OutTags(Run(lines, n).state.parts.examples) == Ends(lines, n)
  {
    forall i: nat, s: State | i < n && Stepper(lines)(s, i).Next?
      ensures OutTags(Stepper(lines)(s, i).state.parts.examples)
           == OutTags(s.parts.examples) + if EndsAt(lines)(i) then [i] else []
    {
      StepEnds(lines, i, s);
    }
    EndsBy(n, Stepper(lines), EndsAt(lines));
  }

  lemma EndsBy(n: nat, f: (State, nat) -> Parse, adds: nat -> bool)
    requires Up(f, INITIAL, n).Next?
    requires forall i: nat, s: State :: i < n && f(s, i).Next? ==>
               OutTags(f(s, i).state.parts.examples) == OutTags(s.parts.examples) + if adds(i) then [i] else []
    ensures OutTags(Up(f, INITIAL, n).state.parts.examples) == Where(n, adds)
  {
    var list := (s: State) => OutTags(s.parts.examples);
    UpCollects(f, INITIAL, n, list, adds);
    assert list(Up(f, INITIAL, n).state) == Where(n, adds);
  }
}
