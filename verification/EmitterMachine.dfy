/**
  The state machine of emitterc.go with its queue of events. Only what decides the flow of
  control is kept: the states, the indents, the flow level and the look-ahead. The handle and
  suffix that an event's tag is split into, and whether its text is refused, come in as
  parameters; comments are empty, so the two trailing-comma states are not used.
 */
module EmitterMachine {
  import opened Events
  import SimpleKeyText
  import StyleSelection

  datatype State =
    | StreamStartState | FirstDocumentStartState | DocumentStartState | DocumentContentState | DocumentEndState
    | FlowSequenceFirstItemState | FlowSequenceItemState
    | FlowMappingFirstKeyState | FlowMappingKeyState | FlowMappingSimpleValueState | FlowMappingValueState
    | BlockSequenceFirstItemState | BlockSequenceItemState
    | BlockMappingFirstKeyState | BlockMappingKeyState | BlockMappingSimpleValueState | BlockMappingValueState
    | EndState

  datatype Config = Config(canonical: bool, bestIndent: nat, tag: Event -> TagData, refused: Event -> bool)

  /** What `yaml_emitter_analyze_tag` makes of an event's tag; empty if the tag is left out. */
  datatype TagData = TagData(handle: string, suffix: string)

  datatype Machine = Machine(state: State, states: seq<State>, indent: int, indents: seq<int>, flowLevel: int)

  /** `Fault`: the panic of popping or looking at an empty stack. */
  datatype Outcome = Stepped(next: Machine) | Error | Fault

  const INITIAL := Machine(StreamStartState, [], 0, [], 0)

  // ----- look-ahead -----

  function Accumulate(e: Event): nat {
    if e.DocumentStartEvent? then 1 else if e.SequenceStartEvent? then 2 else if e.MappingStartEvent? then 3 else 0
  }

  function LevelOf(e: Event): int {
    if e.StreamStartEvent? || e.DocumentStartEvent? || e.SequenceStartEvent? || e.MappingStartEvent? then 1
    else if e.StreamEndEvent? || e.DocumentEndEvent? || e.SequenceEndEvent? || e.MappingEndEvent? then -1
    else 0
  }

  /** Openings minus closings of the events from i on, before j. */
  function Level(es: seq<Event>, i: nat, j: nat): int
    requires i <= j <= |es|
  {
    if i == j then 0 else Level(es, i, j - 1) + LevelOf(es[j - 1])
  }

  /** `yaml_emitter_need_more_events`: too few events, and the head is still open. */
  predicate NeedMore(es: seq<Event>, head: nat)
    requires head <= |es|
  {
    head == |es| ||
    (&& 0 < Accumulate(es[head]) && |es| - head <= Accumulate(es[head])
     && forall j :: head < j <= |es| ==> Level(es, head, j) != 0)
  }

  predicate EmptySequence(es: seq<Event>, i: nat) {
    i + 1 < |es| && es[i].SequenceStartEvent? && es[i + 1].SequenceEndEvent?
  }

  predicate EmptyMapping(es: seq<Event>, i: nat) {
    i + 1 < |es| && es[i].MappingStartEvent? && es[i + 1].MappingEndEvent?
  }

  function StyleOf(s: ScalarStyle): StyleSelection.Style {
    match s
    case Plain => StyleSelection.PlainStyle
    case SingleQuoted => StyleSelection.SingleStyle
    case DoubleQuoted => StyleSelection.DoubleStyle
    case Literal => StyleSelection.LiteralStyle
    case Folded => StyleSelection.FoldedStyle
  }

  /** The node that an event begins, as a key; a collection if it is empty. */
  function KeyNode(cfg: Config, e: Event, flow: bool): SimpleKeyText.KeyNode
    requires BeginsNode(e)
  {
    var t := cfg.tag(e);
    match e
    case AliasEvent(name) => SimpleKeyText.AliasKey(name)
    case ScalarEvent(anchor, _, value, implicit, quotedImplicit, style) =>
      var r := StyleSelection.Request(StyleOf(style), implicit, quotedImplicit, t.handle == "" && t.suffix == "", cfg.canonical, true, flow);
      SimpleKeyText.ScalarKey(anchor, t.handle, t.suffix, value, r)
    case SequenceStartEvent(anchor, _, _, _) => SimpleKeyText.EmptySequenceKey(anchor, t.handle, t.suffix)
    case MappingStartEvent(anchor, _, _, _) => SimpleKeyText.EmptyMappingKey(anchor, t.handle, t.suffix)
  }

  /** Is the node at i a simple key? The context does not matter for that. */
  predicate SimpleKey(cfg: Config, es: seq<Event>, i: nat)
    requires i < |es|
  {
    match es[i]
    case AliasEvent(_) => SimpleKeyText.CheckSimpleKey(KeyNode(cfg, es[i], false))
    case ScalarEvent(_, _, _, _, _, _) => SimpleKeyText.CheckSimpleKey(KeyNode(cfg, es[i], false))
    case SequenceStartEvent(_, _, _, _) => EmptySequence(es, i) && SimpleKeyText.CheckSimpleKey(KeyNode(cfg, es[i], false))
    case MappingStartEvent(_, _, _, _) => EmptyMapping(es, i) && SimpleKeyText.CheckSimpleKey(KeyNode(cfg, es[i], false))
    case _ => false
  }

  // ----- stacks -----

  function Push(m: Machine, s: State): Machine { m.(states := m.states + [s]) }

  function Return(m: Machine): Outcome {
    if m.states == [] then Fault
    else
      var n := |m.states| - 1;
      Stepped(m.(state := m.states[n], states := m.states[..n]))
  }

  /** Two more under a sequence item, otherwise the next multiple of the best indent. */
  function NextIndent(best: nat, indent: int, flow: bool, item: bool): int
    requires best > 0
  {
    if indent < 0 then if flow then best else 0
    else if item then indent + 2
    else best * ((indent + best) / best)
  }

  /** Going one level deeper. The return state tells whether this is inside a sequence item. */
  function Deeper(cfg: Config, m: Machine, flow: bool): Outcome
    requires cfg.bestIndent > 0
  {
    if m.indent >= 0 && m.states == [] then Fault
    else
      var item := m.states != [] && m.states[|m.states| - 1].BlockSequenceItemState?;
      Stepped(m.(indents := m.indents + [m.indent], indent := NextIndent(cfg.bestIndent, m.indent, flow, item)))
  }

  /** The end of a collection. */
  function Shallower(m: Machine): Outcome {
    if m.indents == [] then Fault
    else
      var n := |m.indents| - 1;
      Return(m.(indent := m.indents[n], indents := m.indents[..n]))
  }

  // ----- nodes -----

  function EmitNode(cfg: Config, m: Machine, es: seq<Event>, i: nat): Outcome
    requires i < |es| && cfg.bestIndent > 0
  {
    match es[i]
    case AliasEvent(_) => Return(m)
    case ScalarEvent(_, _, _, _, _, _) =>
      var d := Deeper(cfg, m, true);
      if d.Stepped? then Shallower(d.next) else d
    case SequenceStartEvent(_, _, _, flow) =>
      Stepped(m.(state := if m.flowLevel > 0 || cfg.canonical || flow || EmptySequence(es, i)
                          then FlowSequenceFirstItemState else BlockSequenceFirstItemState))
    case MappingStartEvent(_, _, _, flow) =>
      Stepped(m.(state := if m.flowLevel > 0 || cfg.canonical || flow || EmptyMapping(es, i)
                          then FlowMappingFirstKeyState else BlockMappingFirstKeyState))
    case _ => Error
  }

  function EmitFlowSequenceItem(cfg: Config, m: Machine, es: seq<Event>, i: nat): Outcome
    requires i < |es| && cfg.bestIndent > 0
  {
    if es[i].SequenceEndEvent? then Shallower(m.(flowLevel := m.flowLevel - 1))
    else EmitNode(cfg, Push(m, FlowSequenceItemState), es, i)
  }

  function EmitFlowMappingKey(cfg: Config, m: Machine, es: seq<Event>, i: nat): Outcome
    requires i < |es| && cfg.bestIndent > 0
  {
    if es[i].MappingEndEvent? then Shallower(m.(flowLevel := m.flowLevel - 1))
    else
      var simple := !cfg.canonical && SimpleKey(cfg, es, i);
      EmitNode(cfg, Push(m, if simple then FlowMappingSimpleValueState else FlowMappingValueState), es, i)
  }

  function EmitBlockSequenceItem(cfg: Config, m: Machine, es: seq<Event>, i: nat): Outcome
    requires i < |es| && cfg.bestIndent > 0
  {
    if es[i].SequenceEndEvent? then Shallower(m) else EmitNode(cfg, Push(m, BlockSequenceItemState), es, i)
  }

  function EmitBlockMappingKey(cfg: Config, m: Machine, es: seq<Event>, i: nat): Outcome
    requires i < |es| && cfg.bestIndent > 0
  {
    if es[i].MappingEndEvent? then Shallower(m)
    else
      EmitNode(cfg, Push(m, if SimpleKey(cfg, es, i) then BlockMappingSimpleValueState else BlockMappingValueState), es, i)
  }

  /** The first item or key goes one level deeper before anything else. */
  function Enter(cfg: Config, m: Machine, flow: bool): Outcome
    requires cfg.bestIndent > 0
  {
    var d := Deeper(cfg, m, flow);
    if d.Stepped? && flow then Stepped(d.next.(flowLevel := m.flowLevel + 1)) else d
  }

  function EmitDocumentStart(m: Machine, e: Event): Outcome {
    if e.DocumentStartEvent? then Stepped(m.(state := DocumentContentState))
    else if e.StreamEndEvent? then Stepped(m.(state := EndState))
    else Error
  }

  function StateMachine(cfg: Config, m: Machine, es: seq<Event>, i: nat): Outcome
    requires i < |es| && cfg.bestIndent > 0
  {
    match m.state
    case StreamStartState =>
      if es[i].StreamStartEvent? then Stepped(m.(state := FirstDocumentStartState, indent := -1)) else Error
    case FirstDocumentStartState => EmitDocumentStart(m, es[i])
    case DocumentStartState => EmitDocumentStart(m, es[i])
    case DocumentContentState => EmitNode(cfg, Push(m, DocumentEndState), es, i)
    case DocumentEndState => if es[i].DocumentEndEvent? then Stepped(m.(state := DocumentStartState)) else Error
    case FlowSequenceFirstItemState =>
      var d := Enter(cfg, m, true); if d.Stepped? then EmitFlowSequenceItem(cfg, d.next, es, i) else d
    case FlowSequenceItemState => EmitFlowSequenceItem(cfg, m, es, i)
    case FlowMappingFirstKeyState =>
      var d := Enter(cfg, m, true); if d.Stepped? then EmitFlowMappingKey(cfg, d.next, es, i) else d
    case FlowMappingKeyState => EmitFlowMappingKey(cfg, m, es, i)
    case FlowMappingSimpleValueState => EmitNode(cfg, Push(m, FlowMappingKeyState), es, i)
    case FlowMappingValueState => EmitNode(cfg, Push(m, FlowMappingKeyState), es, i)
    case BlockSequenceFirstItemState =>
      var d := Enter(cfg, m, false); if d.Stepped? then EmitBlockSequenceItem(cfg, d.next, es, i) else d
    case BlockSequenceItemState => EmitBlockSequenceItem(cfg, m, es, i)
    case BlockMappingFirstKeyState =>
      var d := Enter(cfg, m, false); if d.Stepped? then EmitBlockMappingKey(cfg, d.next, es, i) else d
    case BlockMappingKeyState => EmitBlockMappingKey(cfg, m, es, i)
    case BlockMappingSimpleValueState => EmitNode(cfg, Push(m, BlockMappingKeyState), es, i)
    case BlockMappingValueState => EmitNode(cfg, Push(m, BlockMappingKeyState), es, i)
    case EndState => Error
  }

  /** Processing event i when the events es are in view. */
  function Step(cfg: Config, m: Machine, es: seq<Event>, i: nat): Outcome
    requires i < |es| && cfg.bestIndent > 0
  {
    if cfg.refused(es[i]) then Error else StateMachine(cfg, m, es, i)
  }

  /** The machine that sees the whole list, after its first k events. */
  function Batch(cfg: Config, es: seq<Event>, k: nat): Outcome
    requires k <= |es| && cfg.bestIndent > 0
  {
    if k == 0 then Stepped(INITIAL)
    else
      var o := Batch(cfg, es, k - 1);
      if o.Stepped? then Step(cfg, o.next, es, k - 1) else o
  }
}
