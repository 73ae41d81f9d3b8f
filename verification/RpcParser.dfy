/**
  The inner loop of the generator as it runs, on strings, and its agreement with
  the parse by line positions.
 */
module RpcParser {
  import opened Steps
  import opened RpcComments
  import opened RpcRules
  import opened RpcAcceptance
  import opened Wrappers

  datatype TextExample = TextExample(input: Option<string>, output: string)

  /** The variables of the loop. */
  datatype Draft = Draft(mode: Mode, description: string, inputs: string, outputs: string, noInputs: bool,
                         pending: Option<string>, examples: seq<TextExample>, oldNames: seq<string>)

  const BLANK_DRAFT := Draft(Desc, "", "", "", false, None, [], [])

  // ----- the strings a state stands for

  ghost function ExampleText(lines: seq<Line>, e: Example): TextExample
    requires ExampleOk(lines, e)
  {
    TextExample(ExampleInput(lines, e), ExampleOutput(lines, e))
  }

  ghost function ExampleTexts(lines: seq<Line>, es: seq<Example>): (r: seq<TextExample>)
    requires forall k :: 0 <= k < |es| ==> ExampleOk(lines, es[k])
    ensures |r| == |es| && forall k :: 0 <= k < |es| ==> r[k] == ExampleText(lines, es[k])
  {
    seq(|es|, k requires 0 <= k < |es| => ExampleText(lines, es[k]))
  }

  ghost function PendingText(lines: seq<Line>, s: State): Option<string>
    requires StateOk(lines, s)
  {
    if s.parts.pending.Some? then Some(TextOf(lines, s.parts.pending.value.lines)) else None
  }

  ghost function Render(lines: seq<Line>, s: State): Draft
    requires StateOk(lines, s)
  {
    Draft(s.mode, TextOf(lines, s.parts.description), InputText(lines, s), TextOf(lines, s.parts.outputs), s.noInputs,
          PendingText(lines, s), ExampleTexts(lines, s.parts.examples), s.oldNames)
  }

  lemma TextGrows(lines: seq<Line>, at: seq<nat>, n: nat)
    requires Positions(lines, at) && n < |lines| && lines[n].Text?
    ensures TextOf(lines, at + [n]) == TextOf(lines, at) + lines[n].text
  {}

  lemma ClosedTexts(lines: seq<Line>, es: seq<Example>, e: Example)
    requires forall k :: 0 <= k < |es| ==> ExampleOk(lines, es[k])
    requires ExampleOk(lines, e)
    ensures ExampleTexts(lines, es + [e]) == ExampleTexts(lines, es) + [ExampleText(lines, e)]
  {}

  function AddOutput(examples: seq<TextExample>, text: string): seq<TextExample>
    requires examples != []
  {
    var last := |examples| - 1;
    examples[last := examples[last].(output := examples[last].output + text)]
  }

  lemma GrownTexts(lines: seq<Line>, es: seq<Example>, n: nat)
    requires forall k :: 0 <= k < |es| ==> ExampleOk(lines, es[k])
    requires es != [] && es[|es| - 1].output.Written? && n < |lines| && lines[n].Text?
    ensures forall k :: 0 <= k < |es| ==> ExampleOk(lines, AddToLast(es, n)[k])
    ensures ExampleTexts(lines, AddToLast(es, n)) == AddOutput(ExampleTexts(lines, es), lines[n].text)
  {}

  // ----- one line

  method AddLine(text: string, d: Draft, ghost lines: seq<Line>, ghost n: nat, ghost s: State)
    returns (r: Step<Draft, Error>)
    requires n < |lines| && lines[n] == Text(text) && StateOk(lines, s) && d == Render(lines, s)
    ensures AddText(lines, n, s).Fail? ==> r == Fail(AddText(lines, n, s).error)
    ensures AddText(lines, n, s).Next? ==> r == Next(Render(lines, AddText(lines, n, s).state))
  {
    match d.mode
    case NoMode =>
      if !Blank(text) { return Fail(UnexpectedContent); }
      r := Next(d);
    case Desc =>
      TextGrows(lines, s.parts.description, n);
      r := Next(d.(description := d.description + text));
    case Inputs =>
      TextGrows(lines, s.parts.inputs, n);
      r := Next(d.(inputs := d.inputs + text));
    case Outputs =>
      TextGrows(lines, s.parts.outputs, n);
      r := Next(d.(outputs := d.outputs + text));
    case _ =>
      var grown := AddExampleLine(text, d, lines, n, s);
      r := Next(grown);
  }

  lemma InputGrows(lines: seq<Line>, n: nat, s: State)
    requires n < |lines| && lines[n].Text? && StateOk(lines, s) && s.mode == ExIn
    ensures var d := Render(lines, s);
            && AddText(lines, n, s).Next? && d.pending.Some?
            && Render(lines, AddText(lines, n, s).state) == d.(pending := Some(d.pending.value + lines[n].text))
  {
    TextGrows(lines, s.parts.pending.value.lines, n);
  }

  lemma OutputGrows(lines: seq<Line>, n: nat, s: State)
    requires n < |lines| && lines[n].Text? && StateOk(lines, s) && s.mode == ExOut
    ensures var d := Render(lines, s);
            && AddText(lines, n, s).Next? && d.examples != []
            && Render(lines, AddText(lines, n, s).state) == d.(examples := AddOutput(d.examples, lines[n].text))
  {
    GrownTexts(lines, s.parts.examples, n);
  }

  method AddExampleLine(text: string, d: Draft, ghost lines: seq<Line>, ghost n: nat, ghost s: State) returns (r: Draft)
    requires n < |lines| && lines[n] == Text(text) && StateOk(lines, s) && d == Render(lines, s)
    requires s.mode == ExIn || s.mode == ExOut
    ensures AddText(lines, n, s).Next? && r == Render(lines, AddText(lines, n, s).state)
  {
    if d.mode == ExIn {
      InputGrows(lines, n, s);
      r := d.(pending := Some(d.pending.value + text));
    } else {
      OutputGrows(lines, n, s);
      r := d.(examples := AddOutput(d.examples, text));
    }
  }

  method EndExample(d: Draft, output: string, mode: Mode, ghost lines: seq<Line>, ghost s: State, ghost o: Output)
    returns (r: Step<Draft, Error>)
    requires StateOk(lines, s) && d == Render(lines, s)
    requires o.Written? ==> o.section.lines == []
    requires mode == NoMode || (mode == ExOut && o.Written?)
    requires output == ExampleOutput(lines, Example(s.parts.pending, o))
    ensures var c := CloseExample(lines, s, o, mode);
            r == if c.Fail? then Fail(c.error) else Next(Render(lines, c.state))
  {
    if (d.pending.None? || d.pending.value == "") && !d.noInputs { return Fail(MissingInput); }
    ClosedTexts(lines, s.parts.examples, Example(s.parts.pending, o));
    r := Next(d.(examples := d.examples + [TextExample(d.pending, output)], pending := None, mode := mode));
  }

  method ReadLine(line: Line, d: Draft, ghost lines: seq<Line>, ghost n: nat, ghost s: State)
    returns (r: Step<Draft, Error>)
    requires n < |lines| && lines[n] == line && StateOk(lines, s) && d == Render(lines, s)
    ensures StepOn(lines, n, s).Fail? ==> r == Fail(StepOn(lines, n, s).error)
    ensures StepOn(lines, n, s).Next? ==> r == Next(Render(lines, StepOn(lines, n, s).state))
  {
    match line
    case InNone =>
      if d.inputs != "" { return Fail(MultipleInputs); }
      r := Next(d.(inputs := MD_NO_INPUT, noInputs := true, mode := NoMode));
    case InSome =>
      if d.inputs != "" { return Fail(MultipleInputs); }
      r := Next(d.(mode := Inputs));
    case OutSome =>
      if d.outputs != "" { return Fail(MultipleOutputs); }
      r := Next(d.(mode := Outputs));
    case ExampleIn =>
      if d.pending.Some? { return Fail(UnpairedInput); }
      r := Next(d.(pending := Some(""), mode := ExIn));
    case ExampleOut =>
      r := EndExample(d, "", ExOut, lines, s, Written(Section(n, [])));
    case JsonFetch(ok, body) =>
      if ((d.pending.Some? && d.pending.value != "") || d.noInputs) && !ok { return Fail(FetchFailed); }
      r := EndExample(d, FetchedText(body), NoMode, lines, s, Fetched(n, body));
    case OldNames(names, ok) =>
      if names == [] || !ok { return Fail(BadOldNames); }
      r := Next(d.(oldNames := names));
    case Text(text) =>
      r := AddLine(text, d, lines, n, s);
  }

  // ----- the block

  method CheckDraft(d: Draft, noArgs: bool, ghost lines: seq<Line>, ghost s: State) returns (ok: bool)
    requires StateOk(lines, s) && d == Render(lines, s)
    ensures ok == Accepts(lines, s, noArgs)
  {
    ok := d.description != "" && !Blank(d.inputs) && !Blank(d.outputs) && d.pending.None? && (noArgs ==> d.noInputs);
    var good := GoodExamples(d.examples, d.noInputs);
    ok := ok && good;
    ChecksAgree(lines, s, d);
  }

  method GoodExamples(examples: seq<TextExample>, noInputs: bool) returns (ok: bool)
    ensures ok <==> forall j :: 0 <= j < |examples| ==> GoodExample(examples[j], noInputs)
  {
    ok := true;
    for k := 0 to |examples|
      invariant ok <==> forall j :: 0 <= j < k ==> GoodExample(examples[j], noInputs)
    {
      ok := ok && GoodExample(examples[k], noInputs);
    }
  }

  predicate GoodExample(e: TextExample, noInputs: bool) {
    (noInputs || (e.input.Some? && !Blank(e.input.value))) && !Blank(e.output)
  }

  lemma ChecksAgree(lines: seq<Line>, s: State, d: Draft)
    requires StateOk(lines, s) && d == Render(lines, s)
    ensures (forall j :: 0 <= j < |d.examples| ==> GoodExample(d.examples[j], d.noInputs)) <==>
            && (!s.noInputs ==> forall k :: 0 <= k < |s.parts.examples| ==>
                  var input := ExampleInput(lines, s.parts.examples[k]); input.Some? && !Blank(input.value))
            && (forall k :: 0 <= k < |s.parts.examples| ==> !Blank(ExampleOutput(lines, s.parts.examples[k])))
  {}

  /** After n lines the draft is that of the state. */
  ghost predicate Tracks(lines: seq<Line>, n: nat, s: State, d: Draft) {
    Run(lines, n) == Next(s) && StateOk(lines, s) && d == Render(lines, s)
  }

  /** Either that, or the error is that of the block. */
  ghost predicate Reads(lines: seq<Line>, n: nat, s: State, r: Step<Draft, Error>) {
    if r.Next? then Tracks(lines, n, s, r.state) else Run(lines, |lines|) == Fail(r.error)
  }

  method ReadNext(lines: seq<Line>, n: nat, d: Draft, ghost s: State)
    returns (r: Step<Draft, Error>, ghost t: State)
    requires n < |lines| && Tracks(lines, n, s, d)
    ensures Reads(lines, n + 1, t, r)
  {
    t := s;
    r := ReadLine(lines[n], d, lines, n, s);
    RunNext(lines, n, s);
    if r.Fail? { RunStops(lines, n + 1); } else { t := StepOn(lines, n, s).state; }
  }

  method ReadLines(lines: seq<Line>) returns (r: Step<Draft, Error>, ghost s: State)
    ensures Reads(lines, |lines|, s, r)
  {
    s, r := INITIAL, Next(BLANK_DRAFT);
    var n := 0;
    while n < |lines| && r.Next?
      invariant 0 <= n <= |lines| && Reads(lines, n, s, r)
    {
      r, s := ReadNext(lines, n, r.state, s);
      n := n + 1;
    }
  }

  /** What the block comes to: if it is accepted, the texts of the parts its
      lines land in; otherwise the first error. */
  ghost function Outcome(lines: seq<Line>, noArgs: bool): Step<Draft, Error> {
    var r := Run(lines, |lines|);
    if AcceptedBlock(lines, noArgs) then Next(Render(lines, r.state))
    else if r.Fail? then Fail(r.error) else Fail(Problems)
  }

  /** The outcome read off the lines: accepted if every line is let through and
      nothing is missing; otherwise the error of the first line that is not let
      through, or what is missing. */
  ghost predicate Verdict(lines: seq<Line>, noArgs: bool, r: Step<Draft, Error>) {
    && (r.Next? <==> AllAdmitted(lines) && Complete(lines, noArgs))
    && (AllAdmitted(lines) && !Complete(lines, noArgs) ==> r == Fail(Problems))
    && (forall k :: FirstRefused(lines, k) ==> r == Fail(ErrorAt(lines, k)))
  }

  ghost predicate FirstRefused(lines: seq<Line>, k: nat) {
    k < |lines| && !Admitted(lines, k) && forall j :: 0 <= j < k ==> Admitted(lines, j)
  }

  lemma OutcomeVerdict(lines: seq<Line>, noArgs: bool)
    ensures Verdict(lines, noArgs, Outcome(lines, noArgs))
  {
    AcceptedIff(lines, noArgs);
    RunIff(lines, |lines|);
    forall k | FirstRefused(lines, k) ensures Run(lines, |lines|) == Fail(ErrorAt(lines, k)) { RunStopsAt(lines, k); }
  }

  method ParseBlock(lines: seq<Line>, noArgs: bool) returns (r: Step<Draft, Error>)
    ensures r == Outcome(lines, noArgs)
    ensures Verdict(lines, noArgs, r)
  {
    ghost var s;
    r, s := ReadLines(lines);
    if r.Next? {
      var ok := CheckDraft(r.state, noArgs, lines, s);
      if !ok { r := Fail(Problems); }
    }
    OutcomeVerdict(lines, noArgs);
  }

  /** The example that ends at tag u: the lines under it, or what was fetched, and as
      its input the lines under the example input open there, if any. */
  ghost predicate ExampleIs(lines: seq<Line>, u: nat, x: TextExample) {
    && u < |lines|
    && (match lines[u]
        case JsonFetch(_, body) => x.output == "\n```json\n" + body + "\n```\n"
        case _ => Positions(lines, Landed(lines, |lines|, u)) && x.output == TextOf(lines, Landed(lines, |lines|, u)))
    && (forall t: nat :: OpenAt(lines, u, t) ==>
          && Positions(lines, Landed(lines, |lines|, t))
          && x.input == Some(TextOf(lines, Landed(lines, |lines|, t))))
    && (x.input.Some? ==> exists t: nat :: OpenAt(lines, u, t))
  }

  lemma ExampleTextIs(lines: seq<Line>, s: State, k: nat)
    requires WellPlaced(lines, |lines|, s) && s.parts.pending.None? && k < |s.parts.examples|
    ensures ExampleIs(lines, OutTag(s.parts.examples[k]), ExampleText(lines, s.parts.examples[k]))
  {
    var e := s.parts.examples[k];
    assert ExampleLands(lines, |lines|, e);
    forall t: nat ensures OpenAt(lines, OutTag(e), t) <==> e.input.Some? && e.input.value.tag == t {
      ExampleInputAt(lines, s.parts, k, t);
    }
    assert e.input.Some? ==> OpenAt(lines, OutTag(e), e.input.value.tag);
  }

  /** An accepted block comes out as the texts of its sections: nothing that was
      written under a heading is missing, and no example is blank. */
  lemma AcceptedTexts(lines: seq<Line>, noArgs: bool)
    requires Outcome(lines, noArgs).Next?
    ensures forall m :: Positions(lines, LandedIn(lines, |lines|, m))
    ensures var d := Outcome(lines, noArgs).state;
            && d.description == TextOf(lines, LandedIn(lines, |lines|, Desc)) != ""
            && d.outputs == TextOf(lines, LandedIn(lines, |lines|, Outputs))
            && (if d.noInputs then TextOf(lines, LandedIn(lines, |lines|, Inputs)) == "" && d.inputs == MD_NO_INPUT
                else d.inputs == TextOf(lines, LandedIn(lines, |lines|, Inputs)))
            && (d.noInputs <==> SaysNone(lines, |lines|)) && d.oldNames == LastNames(lines, |lines|)
            && !Blank(d.inputs) && !Blank(d.outputs)
            && forall k :: 0 <= k < |d.examples| ==> GoodExample(d.examples[k], d.noInputs)
  {
    RunLands(lines, |lines|);
    var s := Run(lines, |lines|).state;
    forall m ensures Positions(lines, LandedIn(lines, |lines|, m)) { LandedPositions(lines, |lines|, m); }
    ChecksAgree(lines, s, Render(lines, s));
    NoInputsIff(lines, |lines|);
    OldNamesAreLast(lines, |lines|);
  }

  /** One example for each output or fetch tag, in the order of the lines. */
  ghost predicate ExamplesMatch(lines: seq<Line>, examples: seq<TextExample>) {
    var ends := Ends(lines, |lines|);
    |examples| == |ends| && forall k :: 0 <= k < |ends| ==> ExampleIs(lines, ends[k], examples[k])
  }

  /** An accepted block has those examples. */
  lemma AcceptedExamples(lines: seq<Line>, noArgs: bool)
    requires Outcome(lines, noArgs).Next?
    ensures ExamplesMatch(lines, Outcome(lines, noArgs).state.examples)
  {
    RunLands(lines, |lines|);
    ExamplesAre(lines, Run(lines, |lines|).state);
  }

  lemma ExamplesAre(lines: seq<Line>, s: State)
    requires Run(lines, |lines|) == Next(s) && WellPlaced(lines, |lines|, s) && s.parts.pending.None?
    ensures ExamplesMatch(lines, Render(lines, s).examples)
  {
    var (ends, texts) := (Ends(lines, |lines|), ExampleTexts(lines, s.parts.examples));
    ExamplesInOrder(lines, |lines|);
    forall k | 0 <= k < |ends| ensures ExampleIs(lines, ends[k], texts[k]) {
      assert ends[k] == OutTags(s.parts.examples)[k];
      ExampleTextIs(lines, s, k);
    }
  }

  lemma {:induction false} LandedPositions(lines: seq<Line>, n: nat, m: Mode)
    requires n <= |lines|
    ensures Positions(lines, LandedIn(lines, n, m))
  {
    if n == 0 {
    } else {
      LandedPositions(lines, n - 1, m);
    }
  }

  // ----- the notes added to the description

  const MD_ADMIN :=
    "\n\n> _This endpoint requires admin RPC access; it is not available on public RPC servers._"

  const MD_OLD_NAMES :=
    "\n\n> _For backwards compatibility this endpoint is also accessible via the following deprecated endpoint name"

  function NameLines(names: seq<string>, n: nat): string
    requires n <= |names|
  {
    if n == 0 then "" else NameLines(names, n - 1) + "\n> - _`" + names[n - 1] + "`_"
  }

  function OldNamesNote(names: seq<string>): string {
    if names == [] then ""
    else MD_OLD_NAMES + (if |names| > 1 then "s" else "") + ":_" + NameLines(names, |names|)
  }

  /** No note without names; a note for one name is in the singular, for more in the
      plural, with a line for the last name at its end. */
  lemma NoteIs(names: seq<string>)
    ensures names == [] ==> OldNamesNote(names) == ""
    ensures |names| == 1 ==> OldNamesNote(names) == MD_OLD_NAMES + "" + ":_" + ("" + "\n> - _`" + names[0] + "`_")
    ensures |names| > 1 ==>
              OldNamesNote(names) == MD_OLD_NAMES + "s" + ":_"
                + (NameLines(names, |names| - 1) + "\n> - _`" + names[|names| - 1] + "`_")
  {
    if |names| == 1 { assert NameLines(names, 0) == ""; }
  }

  method AddNotes(description: string, isPublic: bool, names: seq<string>) returns (r: string)
    ensures r == description + ((if isPublic then "" else MD_ADMIN) + OldNamesNote(names))
  {
    var notes := "";
    if !isPublic { notes := MD_ADMIN; }
    if names != [] {
      var list := MD_OLD_NAMES + (if |names| > 1 then "s" else "") + ":_";
      ghost var head := list;
      for k := 0 to |names|
        invariant list == head + NameLines(names, k)
      {
        list := list + ("\n> - _`" + names[k] + "`_");
      }
      notes := notes + list;
    }
    r := description + notes;
  }

  /** The whole treatment of a block: on success the description is what stands
      before the first heading, then the notes, with the names given last. */
  method DocumentBlock(lines: seq<Line>, isPublic: bool, noArgs: bool) returns (r: Step<Draft, Error>)
    ensures Verdict(lines, noArgs, r)
    ensures r.Fail? ==> r == Outcome(lines, noArgs)
    ensures r.Next? ==> Outcome(lines, noArgs).Next?
    ensures Positions(lines, LandedIn(lines, |lines|, Desc))
    ensures r.Next? ==>
              r.state == Outcome(lines, noArgs).state.(
                description := TextOf(lines, LandedIn(lines, |lines|, Desc))
                               + ((if isPublic then "" else MD_ADMIN) + OldNamesNote(LastNames(lines, |lines|))))
  {
    LandedPositions(lines, |lines|, Desc);
    r := ParseBlock(lines, noArgs);
    if r.Next? {
      AcceptedTexts(lines, noArgs);
      OldNamesAreLast(lines, |lines|);
      var description := AddNotes(r.state.description, isPublic, r.state.oldNames);
      r := Next(r.state.(description := description));
    }
  }
}
