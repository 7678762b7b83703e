/**
  The pushdown machine of parserc.go as a function from a state to an event and the next
  state. Comments are left out, so no TAIL-COMMENT event arises. The token list is what the
  scanner delivers; past its end the scanner fails. A token's mark is its number.
 */
module ParserMachine {
  import opened Events

  datatype State =
    | StreamStartState | ImplicitDocumentStartState | DocumentStartState | DocumentContentState | DocumentEndState
    | BlockNodeState | BlockNodeOrIndentlessSequenceState | FlowNodeState
    | BlockSequenceFirstEntryState | BlockSequenceEntryState | IndentlessSequenceEntryState
    | BlockMappingFirstKeyState | BlockMappingKeyState | BlockMappingValueState
    | FlowSequenceFirstEntryState | FlowSequenceEntryState
    | FlowSequenceEntryMappingKeyState | FlowSequenceEntryMappingValueState | FlowSequenceEntryMappingEndState
    | FlowMappingFirstKeyState | FlowMappingKeyState | FlowMappingValueState | FlowMappingEmptyValueState
    | EndState

  datatype Machine = Machine(pos: nat, state: State, states: seq<State>, marks: seq<nat>, directives: seq<Directive>)

  datatype Problem =
    | NoToken | ExpectedStreamStart | ExpectedDocumentStart | DuplicateVersion | IncompatibleVersion | DuplicateTag
    | UndefinedTagHandle | ExpectedNodeContent | ExpectedBlockEntry | ExpectedKey | ExpectedCommaOrBracket | ExpectedCommaOrBrace

  /** `Fault` stands for the panics of the source: an empty stack is popped, or a token that
      is not there is used. */
  datatype Outcome = Produced(event: Event, next: Machine) | Failed(problem: Problem) | Fault

  const INITIAL := Machine(0, StreamStartState, [], [], [])

  const EMPTY_SCALAR := ScalarEvent("", "", "", true, false, Plain)

  function Skip(m: Machine): Machine { m.(pos := m.pos + 1) }

  function Push(m: Machine, s: State): Machine { m.(states := m.states + [s]) }

  function Goto(m: Machine, s: State, e: Event): Outcome { Produced(e, m.(state := s)) }

  /** Returns to the state on top of the stack. */
  function Return(m: Machine, e: Event): Outcome {
    if m.states == [] then Fault
    else
      var n := |m.states| - 1;
      Produced(e, m.(state := m.states[n], states := m.states[..n]))
  }

  /** Returns at the end of a collection, whose mark goes too. */
  function Close(m: Machine, e: Event): Outcome {
    if m.marks == [] then Fault else Return(m.(marks := m.marks[..|m.marks| - 1]), e)
  }

  /** Reports an error at the mark of the collection. */
  function FailAtMark(m: Machine, p: Problem): Outcome {
    if m.marks == [] then Fault else Failed(p)
  }

  /** Marks the beginning of a collection and skips its first token. */
  function Open(m: Machine): Machine { m.(marks := m.marks + [m.pos], pos := m.pos + 1) }

  // ----- documents -----

  function ParseStreamStart(ts: seq<Token>, m: Machine): Outcome {
    if m.pos >= |ts| then Failed(NoToken)
    else if !ts[m.pos].StreamStartToken? then Failed(ExpectedStreamStart)
    else Goto(Skip(m), ImplicitDocumentStartState, StreamStartEvent)
  }

  datatype DirectiveScan =
    | Directives(pos: nat, version: Version, own: seq<Directive>, all: seq<Directive>)
    | BadDirective(problem: Problem)

  predicate HasHandle(ds: seq<Directive>, handle: string) {
    exists i :: 0 <= i < |ds| && ds[i].handle == handle
  }

  function WithDefault(ds: seq<Directive>, d: Directive): seq<Directive> {
    if HasHandle(ds, d.handle) then ds else ds + [d]
  }

  function WithDefaults(ds: seq<Directive>): seq<Directive> {
    WithDefault(WithDefault(ds, Directive("!", "!")), Directive("!!", "tag:yaml.org,2002:"))
  }

  function ProcessDirectives(ts: seq<Token>, pos: nat, version: Version, own: seq<Directive>, all: seq<Directive>): DirectiveScan
    decreases |ts| - pos
  {
    if pos >= |ts| then BadDirective(NoToken)
    else if ts[pos].VersionDirectiveToken? then
      if version.Version? then BadDirective(DuplicateVersion)
      else if ts[pos].major != 1 || ts[pos].minor != 1 then BadDirective(IncompatibleVersion)
      else ProcessDirectives(ts, pos + 1, Version(ts[pos].major, ts[pos].minor), own, all)
    else if ts[pos].TagDirectiveToken? then
      var d := ts[pos].directive;
      if HasHandle(all, d.handle) then BadDirective(DuplicateTag)
      else ProcessDirectives(ts, pos + 1, version, own + [d], all + [d])
    else Directives(pos, version, own, WithDefaults(all))
  }

  /** The first position, from `pos` on, that does not hold a DOCUMENT-END token. */
  function SkipDocumentEnds(ts: seq<Token>, pos: nat): (q: nat)
    ensures pos <= q && (pos <= |ts| ==> q <= |ts|)
    decreases |ts| - pos
  {
    if pos < |ts| && ts[pos].DocumentEndToken? then SkipDocumentEnds(ts, pos + 1) else pos
  }

  predicate StartsExplicitDocument(t: Token) {
    t.VersionDirectiveToken? || t.TagDirectiveToken? || t.DocumentStartToken?
  }

  function ParseDocumentStart(ts: seq<Token>, m: Machine, implicit: bool): Outcome {
    var k := if implicit then m else m.(pos := SkipDocumentEnds(ts, m.pos));
    if k.pos >= |ts| then Failed(NoToken)
    else if ts[k.pos].StreamEndToken? then Goto(Skip(k), EndState, StreamEndEvent)
    else if implicit && !StartsExplicitDocument(ts[k.pos]) then
      Goto(Push(k.(directives := WithDefaults(k.directives)), DocumentEndState), BlockNodeState,
           DocumentStartEvent(Unversioned, []))
    else ParseExplicitDocument(ts, k)
  }

  function ParseExplicitDocument(ts: seq<Token>, k: Machine): Outcome {
    var d := ProcessDirectives(ts, k.pos, Unversioned, [], k.directives);
    if d.BadDirective? then Failed(d.problem)
    else if d.pos >= |ts| then Failed(NoToken)
    else if !ts[d.pos].DocumentStartToken? then Failed(ExpectedDocumentStart)
    else
      Goto(Push(k.(pos := d.pos + 1, directives := d.all), DocumentEndState), DocumentContentState,
           DocumentStartEvent(d.version, d.own))
  }

  predicate EndsDocument(t: Token) {
    StartsExplicitDocument(t) || t.DocumentEndToken? || t.StreamEndToken?
  }

  function ParseDocumentContent(ts: seq<Token>, m: Machine): Outcome {
    if m.pos >= |ts| then Failed(NoToken)
    else if EndsDocument(ts[m.pos]) then Return(m, EMPTY_SCALAR)
    else ParseNode(ts, m, true, false)
  }

  function ParseDocumentEnd(ts: seq<Token>, m: Machine): Outcome {
    if m.pos >= |ts| then Failed(NoToken)
    else
      var explicit := ts[m.pos].DocumentEndToken?;
      var k := if explicit then Skip(m) else m;
      Goto(k.(directives := []), DocumentStartState, DocumentEndEvent(!explicit))
  }

  // ----- nodes -----

  /** An anchor and a tag in either order, and the position behind them. */
  datatype Properties = Properties(anchor: string, tagged: bool, handle: string, suffix: string, pos: nat)

  function ParseProperties(ts: seq<Token>, pos: nat): (p: Properties)
    requires pos < |ts|
    ensures pos <= p.pos <= |ts|
    ensures p.anchor == "" && !p.tagged ==> p.pos == pos || (p.pos == pos + 1 && ts[pos].AnchorToken?)
  {
    if ts[pos].AnchorToken? then
      if pos + 1 < |ts| && ts[pos + 1].TagToken? then
        Properties(ts[pos].name, true, ts[pos + 1].handle, ts[pos + 1].suffix, pos + 2)
      else Properties(ts[pos].name, false, "", "", pos + 1)
    else if ts[pos].TagToken? then
      if pos + 1 < |ts| && ts[pos + 1].AnchorToken? then
        Properties(ts[pos + 1].name, true, ts[pos].handle, ts[pos].suffix, pos + 2)
      else Properties("", true, ts[pos].handle, ts[pos].suffix, pos + 1)
    else Properties("", false, "", "", pos)
  }

  /** The prefix of the first directive with the handle, followed by the suffix. */
  function Resolve(ds: seq<Directive>, handle: string, suffix: string): string {
    if ds == [] then ""
    else if ds[0].handle == handle then ds[0].prefix + suffix
    else Resolve(ds[1..], handle, suffix)
  }

  function ParseNode(ts: seq<Token>, m: Machine, block: bool, indentless: bool): Outcome {
    if m.pos >= |ts| then Failed(NoToken)
    else if ts[m.pos].AliasToken? then Return(Skip(m), AliasEvent(ts[m.pos].name))
    else
      var p := ParseProperties(ts, m.pos);
      if p.pos >= |ts| then Failed(NoToken)
      else
        var tag := if !p.tagged then "" else if p.handle == "" then p.suffix
                   else Resolve(m.directives, p.handle, p.suffix);
        if p.tagged && p.handle != "" && tag == "" then Failed(UndefinedTagHandle)
        else ParseContent(ts[p.pos], m.(pos := p.pos), block, indentless, p.anchor, tag)
  }

  function ParseContent(t: Token, m: Machine, block: bool, indentless: bool, anchor: string, tag: string): Outcome {
    var implicit := tag == "";
    if indentless && t.BlockEntryToken? then
      Goto(m, IndentlessSequenceEntryState, SequenceStartEvent(anchor, tag, implicit, false))
    else if t.ScalarToken? then
      var plain := (tag == "" && t.style.Plain?) || tag == "!";
      Return(Skip(m), ScalarEvent(anchor, tag, t.value, plain, !plain && tag == "", t.style))
    else if t.FlowSequenceStartToken? then
      Goto(m, FlowSequenceFirstEntryState, SequenceStartEvent(anchor, tag, implicit, true))
    else if t.FlowMappingStartToken? then
      Goto(m, FlowMappingFirstKeyState, MappingStartEvent(anchor, tag, implicit, true))
    else if block && t.BlockSequenceStartToken? then
      Goto(m, BlockSequenceFirstEntryState, SequenceStartEvent(anchor, tag, implicit, false))
    else if block && t.BlockMappingStartToken? then
      Goto(m, BlockMappingFirstKeyState, MappingStartEvent(anchor, tag, implicit, false))
    else if anchor != "" || tag != "" then
      Return(m, ScalarEvent(anchor, tag, "", implicit, false, Plain))
    else Failed(ExpectedNodeContent)
  }

  // ----- block collections -----

  function ParseBlockSequenceEntry(ts: seq<Token>, m: Machine, first: bool): Outcome {
    var n := if first then Open(m) else m;
    if n.pos >= |ts| then Failed(NoToken)
    else if ts[n.pos].BlockEntryToken? then
      var k := Skip(n);
      if k.pos >= |ts| then Failed(NoToken)
      else if ts[k.pos].BlockEntryToken? || ts[k.pos].BlockEndToken? then Goto(k, BlockSequenceEntryState, EMPTY_SCALAR)
      else ParseNode(ts, Push(k, BlockSequenceEntryState), true, false)
    else if ts[n.pos].BlockEndToken? then Close(Skip(n), SequenceEndEvent)
    else FailAtMark(n, ExpectedBlockEntry)
  }

  predicate EndsMappingPart(t: Token) { t.KeyToken? || t.ValueToken? || t.BlockEndToken? }

  function ParseIndentlessSequenceEntry(ts: seq<Token>, m: Machine): Outcome {
    if m.pos >= |ts| then Failed(NoToken)
    else if ts[m.pos].BlockEntryToken? then
      var k := Skip(m);
      if k.pos >= |ts| then Failed(NoToken)
      else if ts[k.pos].BlockEntryToken? || EndsMappingPart(ts[k.pos]) then Goto(k, IndentlessSequenceEntryState, EMPTY_SCALAR)
      else ParseNode(ts, Push(k, IndentlessSequenceEntryState), true, false)
    else Return(m, SequenceEndEvent)
  }

  function ParseBlockMappingKey(ts: seq<Token>, m: Machine, first: bool): Outcome {
    var n := if first then Open(m) else m;
    if n.pos >= |ts| then Failed(NoToken)
    else if ts[n.pos].KeyToken? then
      var k := Skip(n);
      if k.pos >= |ts| then Failed(NoToken)
      else if EndsMappingPart(ts[k.pos]) then Goto(k, BlockMappingValueState, EMPTY_SCALAR)
      else ParseNode(ts, Push(k, BlockMappingValueState), true, true)
    else if ts[n.pos].BlockEndToken? then Close(Skip(n), MappingEndEvent)
    else FailAtMark(n, ExpectedKey)
  }

  function ParseBlockMappingValue(ts: seq<Token>, m: Machine): Outcome {
    if m.pos >= |ts| then Failed(NoToken)
    else if ts[m.pos].ValueToken? then
      var k := Skip(m);
      if k.pos >= |ts| then Failed(NoToken)
      else if EndsMappingPart(ts[k.pos]) then Goto(k, BlockMappingKeyState, EMPTY_SCALAR)
      else ParseNode(ts, Push(k, BlockMappingKeyState), true, true)
    else Goto(m, BlockMappingKeyState, EMPTY_SCALAR)
  }

  // ----- flow collections -----

  function ParseFlowSequenceEntry(ts: seq<Token>, m: Machine, first: bool): Outcome {
    var n := if first then Open(m) else m;
    if n.pos >= |ts| then Failed(NoToken)
    else if ts[n.pos].FlowSequenceEndToken? then Close(Skip(n), SequenceEndEvent)
    else if !first && !ts[n.pos].FlowEntryToken? then FailAtMark(n, ExpectedCommaOrBracket)
    else
      var k := if first then n else Skip(n);
      if k.pos >= |ts| then Failed(NoToken)
      else if ts[k.pos].KeyToken? then
        Goto(Skip(k), FlowSequenceEntryMappingKeyState, MappingStartEvent("", "", true, true))
      else if ts[k.pos].FlowSequenceEndToken? then Close(Skip(k), SequenceEndEvent)
      else ParseNode(ts, Push(k, FlowSequenceEntryState), false, false)
  }

  function ParseFlowSequenceEntryMappingKey(ts: seq<Token>, m: Machine): Outcome {
    if m.pos >= |ts| then Failed(NoToken)
    else
      var t := ts[m.pos];
      if t.ValueToken? || t.FlowEntryToken? || t.FlowSequenceEndToken? then
        Goto(Skip(m), FlowSequenceEntryMappingValueState, EMPTY_SCALAR)
      else ParseNode(ts, Push(m, FlowSequenceEntryMappingValueState), false, false)
  }

  function ParseFlowSequenceEntryMappingValue(ts: seq<Token>, m: Machine): Outcome {
    if m.pos >= |ts| then Failed(NoToken)
    else if ts[m.pos].ValueToken? then
      var k := Skip(m);
      if k.pos >= |ts| then Failed(NoToken)
      else if ts[k.pos].FlowEntryToken? || ts[k.pos].FlowSequenceEndToken? then
        Goto(k, FlowSequenceEntryMappingEndState, EMPTY_SCALAR)
      else ParseNode(ts, Push(k, FlowSequenceEntryMappingEndState), false, false)
    else Goto(m, FlowSequenceEntryMappingEndState, EMPTY_SCALAR)
  }

  function ParseFlowSequenceEntryMappingEnd(ts: seq<Token>, m: Machine): Outcome {
    if m.pos >= |ts| then Failed(NoToken) else Goto(m, FlowSequenceEntryState, MappingEndEvent)
  }

  /** The first token of a flow mapping is used without asking whether there is one. */
  function ParseFlowMappingKey(ts: seq<Token>, m: Machine, first: bool): Outcome {
    if first && m.pos >= |ts| then Fault
    else
      var n := if first then Open(m) else m;
      if n.pos >= |ts| then Failed(NoToken)
      else if ts[n.pos].FlowMappingEndToken? then Close(Skip(n), MappingEndEvent)
      else if !first && !ts[n.pos].FlowEntryToken? then FailAtMark(n, ExpectedCommaOrBrace)
      else
        var k := if first then n else Skip(n);
        if k.pos >= |ts| then Failed(NoToken) else ParseFlowMappingEntry(ts, k)
  }

  function ParseFlowMappingEntry(ts: seq<Token>, k: Machine): Outcome
    requires k.pos < |ts|
  {
    if ts[k.pos].KeyToken? then
      var v := Skip(k);
      if v.pos >= |ts| then Failed(NoToken)
      else if ts[v.pos].ValueToken? || ts[v.pos].FlowEntryToken? || ts[v.pos].FlowMappingEndToken? then
        Goto(v, FlowMappingValueState, EMPTY_SCALAR)
      else ParseNode(ts, Push(v, FlowMappingValueState), false, false)
    else if ts[k.pos].FlowMappingEndToken? then Close(Skip(k), MappingEndEvent)
    else ParseNode(ts, Push(k, FlowMappingEmptyValueState), false, false)
  }

  function ParseFlowMappingValue(ts: seq<Token>, m: Machine, empty: bool): Outcome {
    if m.pos >= |ts| then Failed(NoToken)
    else if !empty && ts[m.pos].ValueToken? then
      var k := Skip(m);
      if k.pos >= |ts| then Failed(NoToken)
      else if ts[k.pos].FlowEntryToken? || ts[k.pos].FlowMappingEndToken? then Goto(k, FlowMappingKeyState, EMPTY_SCALAR)
      else ParseNode(ts, Push(k, FlowMappingKeyState), false, false)
    else Goto(m, FlowMappingKeyState, EMPTY_SCALAR)
  }

  // ----- the machine -----

  function Step(ts: seq<Token>, m: Machine): Outcome {
    match m.state
    case StreamStartState => ParseStreamStart(ts, m)
    case ImplicitDocumentStartState => ParseDocumentStart(ts, m, true)
    case DocumentStartState => ParseDocumentStart(ts, m, false)
    case DocumentContentState => ParseDocumentContent(ts, m)
    case DocumentEndState => ParseDocumentEnd(ts, m)
    case BlockNodeState => ParseNode(ts, m, true, false)
    case BlockNodeOrIndentlessSequenceState => ParseNode(ts, m, true, true)
    case FlowNodeState => ParseNode(ts, m, false, false)
    case BlockSequenceFirstEntryState => ParseBlockSequenceEntry(ts, m, true)
    case BlockSequenceEntryState => ParseBlockSequenceEntry(ts, m, false)
    case IndentlessSequenceEntryState => ParseIndentlessSequenceEntry(ts, m)
    case BlockMappingFirstKeyState => ParseBlockMappingKey(ts, m, true)
    case BlockMappingKeyState => ParseBlockMappingKey(ts, m, false)
    case BlockMappingValueState => ParseBlockMappingValue(ts, m)
    case FlowSequenceFirstEntryState => ParseFlowSequenceEntry(ts, m, true)
    case FlowSequenceEntryState => ParseFlowSequenceEntry(ts, m, false)
    case FlowSequenceEntryMappingKeyState => ParseFlowSequenceEntryMappingKey(ts, m)
    case FlowSequenceEntryMappingValueState => ParseFlowSequenceEntryMappingValue(ts, m)
    case FlowSequenceEntryMappingEndState => ParseFlowSequenceEntryMappingEnd(ts, m)
    case FlowMappingFirstKeyState => ParseFlowMappingKey(ts, m, true)
    case FlowMappingKeyState => ParseFlowMappingKey(ts, m, false)
    case FlowMappingValueState => ParseFlowMappingValue(ts, m, false)
    case FlowMappingEmptyValueState => ParseFlowMappingValue(ts, m, true)
    case EndState => Fault
  }
}
