/**
  The comment-block parser of the RPC documentation generator: a mode, changed
  by tag lines, decides which part of the endpoint a text line is added to.
  Here each part lists the positions of its lines, so that it can be said where
  every line ends up; its text is the concatenation of those lines.
 */
module RpcComments {
  import opened Steps
  import opened Wrappers

  /** A comment line by the pattern it matches.  A fetch carries what the
      attempt came to, old names whether they are all plain. */
  datatype Line =
    | InNone | InSome | OutSome | ExampleIn | ExampleOut
    | JsonFetch(ok: bool, body: string)
    | OldNames(names: seq<string>, ok: bool)
    | Text(text: string)

  datatype Mode = Desc | Inputs | Outputs | ExIn | ExOut | NoMode

  datatype Error =
    | MultipleInputs | MultipleOutputs | UnpairedInput | MissingInput | FetchFailed | BadOldNames | UnexpectedContent
    | Problems

  /** The lines after an example tag, and where the tag was. */
  datatype Section = Section(tag: nat, lines: seq<nat>)

  datatype Output = Written(section: Section) | Fetched(at: nat, body: string)

  datatype Example = Example(input: Option<Section>, output: Output)

  datatype Parts = Parts(description: seq<nat>, inputs: seq<nat>, outputs: seq<nat>,
                         pending: Option<Section>, examples: seq<Example>)

  datatype State = State(mode: Mode, parts: Parts, noInputs: bool, oldNames: seq<string>)

  type Parse = Step<State, Error>

  const INITIAL := State(Desc, Parts([], [], [], None, []), false, [])

  // ----- text

  predicate IsSpace(c: char) {
    c == ' ' || '\t' <= c <= '\r'
  }

  /** Empty, or whitespace only. */
  predicate Blank(s: string) {
    forall i :: 0 <= i < |s| ==> IsSpace(s[i])
  }

  predicate Positions(lines: seq<Line>, at: seq<nat>) {
    forall k :: 0 <= k < |at| ==> at[k] < |lines| && lines[at[k]].Text?
  }

  function TextOf(lines: seq<Line>, at: seq<nat>): string
    requires Positions(lines, at)
  {
    if at == [] then "" else TextOf(lines, at[..|at| - 1]) + lines[at[|at| - 1]].text
  }

  const MD_NO_INPUT :=
    "This endpoint takes no inputs. " + "_(An optional empty dict/object may be provided, but is not required.)_"

  /** The positions in a state are those of text lines. */
  predicate SectionOk(lines: seq<Line>, s: Option<Section>) {
    s.Some? ==> Positions(lines, s.value.lines)
  }

  predicate ExampleOk(lines: seq<Line>, e: Example) {
    SectionOk(lines, e.input) && (e.output.Written? ==> Positions(lines, e.output.section.lines))
  }

  predicate StateOk(lines: seq<Line>, s: State) {
    && Positions(lines, s.parts.description) && Positions(lines, s.parts.inputs) && Positions(lines, s.parts.outputs)
    && SectionOk(lines, s.parts.pending)
    && (forall k :: 0 <= k < |s.parts.examples| ==> ExampleOk(lines, s.parts.examples[k]))
    && (s.noInputs ==> s.mode != Inputs && TextOf(lines, s.parts.inputs) == "")
    && (s.mode == ExIn ==> s.parts.pending.Some?)
    && (s.mode == ExOut ==> s.parts.examples != [] && s.parts.examples[|s.parts.examples| - 1].output.Written?)
  }

  function InputText(lines: seq<Line>, s: State): string
    requires StateOk(lines, s)
  {
    if s.noInputs then MD_NO_INPUT else TextOf(lines, s.parts.inputs)
  }

  /** The pending example input is there and not empty. */
  predicate HasPending(lines: seq<Line>, s: State)
    requires StateOk(lines, s)
  {
    s.parts.pending.Some? && TextOf(lines, s.parts.pending.value.lines) != ""
  }

  function AddTo(s: Section, n: nat): Section {
    s.(lines := s.lines + [n])
  }

  function AddToLast(examples: seq<Example>, n: nat): seq<Example>
    requires examples != [] && examples[|examples| - 1].output.Written?
  {
    var last := |examples| - 1;
    examples[last := examples[last].(output := Written(AddTo(examples[last].output.section, n)))]
  }

  function Close(p: Parts, output: Output): Parts {
    p.(examples := p.examples + [Example(p.pending, output)], pending := None)
  }

  /** A tag that pairs the pending input with an output. */
  function CloseExample(lines: seq<Line>, s: State, output: Output, mode: Mode): (r: Parse)
    requires StateOk(lines, s) && (output.Written? ==> output.section.lines == [])
    requires mode == NoMode || (mode == ExOut && output.Written?)
    ensures r.Next? ==> StateOk(lines, r.state)
  {
    if !HasPending(lines, s) && !s.noInputs then Fail(MissingInput)
    else Next(s.(parts := Close(s.parts, output), mode := mode))
  }

  function AddText(lines: seq<Line>, n: nat, s: State): (r: Parse)
    requires n < |lines| && lines[n].Text? && StateOk(lines, s)
    ensures r.Next? ==> StateOk(lines, r.state)
  {
    match s.mode
    case NoMode => if Blank(lines[n].text) then Next(s) else Fail(UnexpectedContent)
    case Desc => Next(s.(parts := s.parts.(description := s.parts.description + [n])))
    case Inputs => Next(s.(parts := s.parts.(inputs := s.parts.inputs + [n])))
    case Outputs => Next(s.(parts := s.parts.(outputs := s.parts.outputs + [n])))
    case ExIn => Next(s.(parts := s.parts.(pending := Some(AddTo(s.parts.pending.value, n)))))
    case ExOut => Next(s.(parts := s.parts.(examples := AddToLast(s.parts.examples, n))))
  }

  /** One round of the inner loop, on line n. */
  function StepOn(lines: seq<Line>, n: nat, s: State): (r: Parse)
    requires n < |lines| && StateOk(lines, s)
    ensures r.Next? ==> StateOk(lines, r.state)
  {
    match lines[n]
    case InNone =>
      if InputText(lines, s) != "" then Fail(MultipleInputs) else Next(s.(noInputs := true, mode := NoMode))
    case InSome =>
      if InputText(lines, s) != "" then Fail(MultipleInputs) else Next(s.(mode := Inputs))
    case OutSome =>
      if TextOf(lines, s.parts.outputs) != "" then Fail(MultipleOutputs) else Next(s.(mode := Outputs))
    case ExampleIn =>
      if s.parts.pending.Some? then Fail(UnpairedInput)
      else Next(s.(parts := s.parts.(pending := Some(Section(n, []))), mode := ExIn))
    case ExampleOut => CloseExample(lines, s, Written(Section(n, [])), ExOut)
    case JsonFetch(ok, body) =>
      if (HasPending(lines, s) || s.noInputs) && !ok then Fail(FetchFailed)
      else CloseExample(lines, s, Fetched(n, body), NoMode)
    case OldNames(names, ok) =>
      if names == [] || !ok then Fail(BadOldNames) else Next(s.(oldNames := names))
    case Text(_) => AddText(lines, n, s)
  }

  function Stepper(lines: seq<Line>): (State, nat) -> Parse {
    (s: State, n: nat) => if n < |lines| && StateOk(lines, s) then StepOn(lines, n, s) else Fail(Problems)
  }

  /** The state after the first n lines. */
  function Run(lines: seq<Line>, n: nat): Parse {
    Up(Stepper(lines), INITIAL, n)
  }

  lemma RunNext(lines: seq<Line>, n: nat, s: State)
    requires n < |lines| && Run(lines, n) == Next(s) && StateOk(lines, s)
    ensures Run(lines, n + 1) == StepOn(lines, n, s)
  {}

  lemma RunStops(lines: seq<Line>, n: nat)
    requires n <= |lines| && Run(lines, n).Fail?
    ensures Run(lines, |lines|) == Run(lines, n)
  {
    UpFails(Stepper(lines), INITIAL, n, |lines|);
  }

  // ----- the checks at the end of the block

  function FetchedText(body: string): string {
    "\n```json\n" + body + "\n```\n"
  }

  function ExampleInput(lines: seq<Line>, e: Example): Option<string>
    requires ExampleOk(lines, e)
  {
    if e.input.Some? then Some(TextOf(lines, e.input.value.lines)) else None
  }

  function ExampleOutput(lines: seq<Line>, e: Example): string
    requires ExampleOk(lines, e)
  {
    match e.output
    case Written(s) => TextOf(lines, s.lines)
    case Fetched(_, body) => FetchedText(body)
  }

  /** `noArgs`: the line after the block says NO_ARGS and that is enforced. */
  predicate Accepts(lines: seq<Line>, s: State, noArgs: bool)
    requires StateOk(lines, s)
  {
    && TextOf(lines, s.parts.description) != ""
    && !Blank(InputText(lines, s))
    && !Blank(TextOf(lines, s.parts.outputs))
    && s.parts.pending.None?
    && (!s.noInputs ==> forall k :: 0 <= k < |s.parts.examples| ==>
          var input := ExampleInput(lines, s.parts.examples[k]); input.Some? && !Blank(input.value))
    && (forall k :: 0 <= k < |s.parts.examples| ==> !Blank(ExampleOutput(lines, s.parts.examples[k])))
    && (noArgs ==> s.noInputs)
  }

  predicate AcceptedBlock(lines: seq<Line>, noArgs: bool) {
    var r := Run(lines, |lines|);
    r.Next? && StateOk(lines, r.state) && Accepts(lines, r.state, noArgs)
  }

  // ----- where every line lands

  predicate SetsMode(l: Line) {
    !l.Text? && !l.OldNames?
  }

  /** The last mode-setting tag before line n, or -1. */
  function Gov(lines: seq<Line>, n: nat): (r: int)
    requires n <= |lines|
    ensures -1 <= r < n
    ensures r >= 0 ==> SetsMode(lines[r])
  {
    if n == 0 then -1 else if SetsMode(lines[n - 1]) then n - 1 else Gov(lines, n - 1)
  }

  function ModeAfter(l: Line): Mode {
    match l
    case InSome => Inputs
    case OutSome => Outputs
    case ExampleIn => ExIn
    case ExampleOut => ExOut
    case _ => NoMode
  }

  /** The mode that tag t (or the start of the block) puts the parser in. */
  function ModeAt(lines: seq<Line>, t: int): Mode
    requires -1 <= t < |lines|
  {
    if t < 0 then Desc else ModeAfter(lines[t])
  }

  /** The text lines among the first n that tag t governs, in order. */
  function Landed(lines: seq<Line>, n: nat, t: int): seq<nat>
    requires n <= |lines|
  {
    if n == 0 then []
    else Landed(lines, n - 1, t) + if lines[n - 1].Text? && Gov(lines, n - 1) == t then [n - 1] else []
  }

  /** The text lines among the first n read in mode m, in order. */
  function LandedIn(lines: seq<Line>, n: nat, m: Mode): seq<nat>
    requires n <= |lines|
  {
    if n == 0 then []
    else LandedIn(lines, n - 1, m) + if lines[n - 1].Text? && ModeAt(lines, Gov(lines, n - 1)) == m then [n - 1] else []
  }

  function OutTag(e: Example): nat {
    match e.output
    case Written(s) => s.tag
    case Fetched(at, _) => at
  }

  /** The section holds what its tag governs. */
  ghost predicate SectionLands(lines: seq<Line>, n: nat, s: Section, m: Mode)
    requires n <= |lines|
  {
    s.tag < n && SetsMode(lines[s.tag]) && ModeAfter(lines[s.tag]) == m && s.lines == Landed(lines, n, s.tag)
  }

  ghost predicate ExampleLands(lines: seq<Line>, n: nat, e: Example)
    requires n <= |lines|
  {
    && (e.input.Some? ==> SectionLands(lines, n, e.input.value, ExIn) && e.input.value.tag < OutTag(e))
    && match e.output
       case Written(s) => SectionLands(lines, n, s, ExOut)
       case Fetched(at, body) => at < n && lines[at] == JsonFetch(true, body)
  }

  /** Examples stand in the order of their tags and do not overlap. */
  ghost predicate InOrder(s: Parts) {
    && (forall j, k :: 0 <= j < k < |s.examples| ==> OutTag(s.examples[j]) < OutTag(s.examples[k]))
    && (forall j, k :: 0 <= j < k < |s.examples| && s.examples[k].input.Some? ==>
          OutTag(s.examples[j]) < s.examples[k].input.value.tag)
    && (forall k :: 0 <= k < |s.examples| && s.pending.Some? ==> OutTag(s.examples[k]) < s.pending.value.tag)
  }

  ghost predicate HasInTag(s: Parts, t: nat) {
    || (s.pending.Some? && s.pending.value.tag == t)
    || exists k :: 0 <= k < |s.examples| && s.examples[k].input.Some? && s.examples[k].input.value.tag == t
  }

  ghost predicate HasOutTag(s: Parts, t: nat) {
    exists k :: 0 <= k < |s.examples| && OutTag(s.examples[k]) == t
  }

  /** No example tag is forgotten. */
  ghost predicate AllTags(lines: seq<Line>, n: nat, s: Parts)
    requires n <= |lines|
  {
    && (forall t :: 0 <= t < n && lines[t].ExampleIn? ==> HasInTag(s, t))
    && (forall t :: 0 <= t < n && (lines[t].ExampleOut? || lines[t].JsonFetch?) ==> HasOutTag(s, t))
  }

  /** The mode is that of the governing tag, and the section being written is that tag's. */
  ghost predicate ModeAgrees(lines: seq<Line>, n: nat, s: State)
    requires n <= |lines|
  {
    var g := Gov(lines, n);
    && s.mode == ModeAt(lines, g)
    && (s.mode == ExIn ==> s.parts.pending.Some? && s.parts.pending.value.tag == g)
    && (s.mode == ExOut ==> s.parts.examples != [] && s.parts.examples[|s.parts.examples| - 1].output.Written?
                            && OutTag(s.parts.examples[|s.parts.examples| - 1]) == g)
  }

  ghost predicate PartsLand(lines: seq<Line>, n: nat, s: Parts)
    requires n <= |lines|
  {
    && s.description == LandedIn(lines, n, Desc)
    && s.inputs == LandedIn(lines, n, Inputs)
    && s.outputs == LandedIn(lines, n, Outputs)
    && (s.pending.Some? ==> SectionLands(lines, n, s.pending.value, ExIn))
    && (forall k :: 0 <= k < |s.examples| ==> ExampleLands(lines, n, s.examples[k]))
  }

  ghost predicate Lands(lines: seq<Line>, n: nat, s: State)
    requires n <= |lines|
  {
    ModeAgrees(lines, n, s) && PartsLand(lines, n, s.parts) && InOrder(s.parts) && AllTags(lines, n, s.parts)
  }

  lemma NewSection(lines: seq<Line>, n: nat, k: nat)
    requires k <= n < |lines|
    ensures Landed(lines, k, n) == []
  {}

  /** Nothing moves on a tag line. */
  lemma PartsStay(lines: seq<Line>, n: nat, s: Parts)
    requires n < |lines| && !lines[n].Text? && PartsLand(lines, n, s)
    ensures PartsLand(lines, n + 1, s)
  {}

  lemma TagsStay(lines: seq<Line>, n: nat, s: Parts)
    requires n < |lines| && AllTags(lines, n, s)
    requires !lines[n].ExampleIn? && !lines[n].ExampleOut? && !lines[n].JsonFetch?
    ensures AllTags(lines, n + 1, s)
  {}

  lemma PlainTagLands(lines: seq<Line>, n: nat, s: State, t: State)
    requires n < |lines| && Lands(lines, n, s)
    requires lines[n].InNone? || lines[n].InSome? || lines[n].OutSome? || lines[n].OldNames?
    requires t.mode == (if lines[n].OldNames? then s.mode else ModeAfter(lines[n])) && t.parts == s.parts
    ensures Lands(lines, n + 1, t)
  {
    PartsStay(lines, n, s.parts);
    TagsStay(lines, n, s.parts);
  }

  lemma ExampleInLands(lines: seq<Line>, n: nat, s: State)
    requires n < |lines| && Lands(lines, n, s) && lines[n].ExampleIn? && s.parts.pending.None?
    ensures Lands(lines, n + 1, s.(parts := s.parts.(pending := Some(Section(n, []))), mode := ExIn))
  {
    var p := s.parts.(pending := Some(Section(n, [])));
    PartsStay(lines, n, s.parts);
    NewSection(lines, n, n);
    OpenTags(lines, n, s.parts, p);
  }

  lemma OpenTags(lines: seq<Line>, n: nat, s: Parts, t: Parts)
    requires n < |lines| && AllTags(lines, n, s) && lines[n].ExampleIn? && s.pending.None?
    requires t == s.(pending := Some(Section(n, [])))
    ensures AllTags(lines, n + 1, t)
  {}

  lemma CloseLands(lines: seq<Line>, n: nat, s: State, output: Output, mode: Mode)
    requires n < |lines| && Lands(lines, n, s)
    requires || (lines[n].ExampleOut? && output == Written(Section(n, [])) && mode == ExOut)
             || (lines[n].JsonFetch? && lines[n].ok && output == Fetched(n, lines[n].body) && mode == NoMode)
    ensures Lands(lines, n + 1, s.(parts := Close(s.parts, output), mode := mode))
  {
    var e := Example(s.parts.pending, output);
    PartsStay(lines, n, s.parts);
    NewSection(lines, n, n);
    assert ExampleLands(lines, n + 1, e);
    TagsKept(lines, n, s.parts, Close(s.parts, output), e);
    CloseInOrder(lines, n, s.parts, output);
    ClosePartsLand(lines, n + 1, s.parts, output);
    CloseMode(lines, n, s, output, mode);
  }

  lemma CloseMode(lines: seq<Line>, n: nat, s: State, output: Output, mode: Mode)
    requires n < |lines| && SetsMode(lines[n]) && mode == ModeAfter(lines[n])
    requires (mode == ExOut && output == Written(Section(n, []))) || mode == NoMode
    ensures ModeAgrees(lines, n + 1, s.(parts := Close(s.parts, output), mode := mode))
  {}

  lemma CloseInOrder(lines: seq<Line>, n: nat, p: Parts, output: Output)
    requires n <= |lines| && InOrder(p) && PartsLand(lines, n, p) && OutTag(Example(p.pending, output)) == n
    ensures InOrder(Close(p, output))
  {}

  lemma ClosePartsLand(lines: seq<Line>, n: nat, p: Parts, output: Output)
    requires n <= |lines| && PartsLand(lines, n, p) && ExampleLands(lines, n, Example(p.pending, output))
    ensures PartsLand(lines, n, Close(p, output))
  {}

  /** Closing an example keeps every tag recorded, and records the new one. */
  lemma TagsKept(lines: seq<Line>, n: nat, s: Parts, t: Parts, e: Example)
    requires n < |lines| && AllTags(lines, n, s)
    requires lines[n].ExampleOut? || lines[n].JsonFetch?
    requires t.examples == s.examples + [e] && e.input == s.pending && OutTag(e) == n
    ensures AllTags(lines, n + 1, t)
  {
    var last := |s.examples|;
    assert t.examples[last] == e;
    forall x | 0 <= x < n + 1 && lines[x].ExampleIn? ensures HasInTag(t, x) {
      assert HasInTag(s, x);
      if k :| 0 <= k < |s.examples| && s.examples[k].input.Some? && s.examples[k].input.value.tag == x {
        assert t.examples[k].input.Some? && t.examples[k].input.value.tag == x;
      } else {
        assert t.examples[last].input.Some? && t.examples[last].input.value.tag == x;
      }
    }
    forall x | 0 <= x < n + 1 && (lines[x].ExampleOut? || lines[x].JsonFetch?) ensures HasOutTag(t, x) {
      if x < n {
        assert HasOutTag(s, x);
        var k :| 0 <= k < |s.examples| && OutTag(s.examples[k]) == x;
        assert OutTag(t.examples[k]) == x;
      } else {
        assert OutTag(t.examples[last]) == x;
      }
    }
  }

  // ----- a text line

  lemma TextInExample(lines: seq<Line>, n: nat, s: State)
    requires n < |lines| && lines[n].Text? && Lands(lines, n, s) && s.mode == ExOut
    ensures PartsLand(lines, n + 1, s.parts.(examples := AddToLast(s.parts.examples, n)))
  {}

  lemma TextElsewhere(lines: seq<Line>, n: nat, s: State, q: Parts)
    requires n < |lines| && lines[n].Text? && Lands(lines, n, s) && s.mode != ExOut
    requires q.description == s.parts.description + (if s.mode == Desc then [n] else [])
    requires q.inputs == s.parts.inputs + (if s.mode == Inputs then [n] else [])
    requires q.outputs == s.parts.outputs + (if s.mode == Outputs then [n] else [])
    requires q.examples == s.parts.examples
    requires s.mode == ExIn ==> q.pending == Some(AddTo(s.parts.pending.value, n))
    requires s.mode != ExIn ==> q.pending == s.parts.pending
    ensures PartsLand(lines, n + 1, q)
  {}

  /** Parts that differ in section lines only have the same tags. */
  ghost predicate SameTags(p: Parts, q: Parts) {
    && |p.examples| == |q.examples|
    && p.pending.Some? == q.pending.Some?
    && (p.pending.Some? ==> p.pending.value.tag == q.pending.value.tag)
    && forall k :: 0 <= k < |p.examples| ==>
         OutTag(p.examples[k]) == OutTag(q.examples[k]) && p.examples[k].input == q.examples[k].input
  }

  lemma SameTagsKeep(lines: seq<Line>, n: nat, p: Parts, q: Parts)
    requires n < |lines| && lines[n].Text? && SameTags(p, q) && InOrder(p) && AllTags(lines, n, p)
    ensures InOrder(q) && AllTags(lines, n + 1, q)
  {}

  lemma TextKeepsTags(lines: seq<Line>, n: nat, s: State)
    requires n < |lines| && lines[n].Text? && StateOk(lines, s) && ModeAgrees(lines, n, s)
    requires AddText(lines, n, s).Next?
    ensures SameTags(s.parts, AddText(lines, n, s).state.parts)
    ensures ModeAgrees(lines, n + 1, AddText(lines, n, s).state)
  {}

  lemma TextLands(lines: seq<Line>, n: nat, s: State)
    requires n < |lines| && lines[n].Text? && StateOk(lines, s) && Lands(lines, n, s)
    requires AddText(lines, n, s).Next?
    ensures Lands(lines, n + 1, AddText(lines, n, s).state)
  {
    var t := AddText(lines, n, s).state;
    TextKeepsTags(lines, n, s);
    SameTagsKeep(lines, n, s.parts, t.parts);
    if s.mode == ExOut {
      TextInExample(lines, n, s);
    } else {
      TextElsewhere(lines, n, s, t.parts);
    }
  }

  lemma StepLands(lines: seq<Line>, n: nat, s: State)
    requires n < |lines| && StateOk(lines, s) && Lands(lines, n, s)
    requires StepOn(lines, n, s).Next?
    ensures Lands(lines, n + 1, StepOn(lines, n, s).state)
  {
    match lines[n]
    case ExampleIn => ExampleInLands(lines, n, s);
    case ExampleOut => CloseLands(lines, n, s, Written(Section(n, [])), ExOut);
    case JsonFetch(_, body) => CloseLands(lines, n, s, Fetched(n, body), NoMode);
    case Text(_) => TextLands(lines, n, s);
    case _ => PlainTagLands(lines, n, s, StepOn(lines, n, s).state);
  }

  ghost predicate WellPlaced(lines: seq<Line>, n: nat, s: State) {
    n <= |lines| && StateOk(lines, s) && Lands(lines, n, s)
  }

  lemma StepPlaces(lines: seq<Line>, n: nat, s: State)
    requires WellPlaced(lines, n, s) && Stepper(lines)(s, n).Next?
    ensures WellPlaced(lines, n + 1, Stepper(lines)(s, n).state)
  {
    StepLands(lines, n, s);
  }

  /** After every prefix of every block that does not stop with an error, each
      part holds exactly the lines its tag governs; in the example modes there is
      an example to add to. */
  lemma RunLands(lines: seq<Line>, n: nat)
    requires n <= |lines| && Run(lines, n).Next?
    ensures WellPlaced(lines, n, Run(lines, n).state)
  {
    var f := Stepper(lines);
    var inv := (k: nat, s: State) => WellPlaced(lines, k, s);
    forall k: nat, s: State | k < n && inv(k, s) && f(s, k).Next? ensures inv(k + 1, f(s, k).state) {
      StepPlaces(lines, k, s);
    }
    UpInduction(f, INITIAL, n, inv);
    assert inv(n, Run(lines, n).state);
  }

  /** A line that was read was read in a well-placed state. */
  lemma ReadIn(lines: seq<Line>, n: nat, i: nat) returns (s: State)
    requires i < n <= |lines| && Run(lines, n).Next?
    ensures Run(lines, i) == Next(s) && WellPlaced(lines, i, s) && StepOn(lines, i, s).Next?
  {
    UpStep(Stepper(lines), INITIAL, n, i);
    s := Run(lines, i).state;
    RunLands(lines, i);
  }
}
