/**
  The emitter takes exactly the events that a stream may go on with; its stacks never run
  out, its indents increase strictly, and seeing a few events ahead is as good as seeing all.
 */
module EmitterSafety {
  import opened Events
  import opened EmitterMachine
  import opened Indentation
  import BlockMachine
  import ScalarText
  import SimpleKeyText
  import ScalarAnalysis
  import Chars
  import Utf8

  // ----- what a state stands for -----

  function On(s: State, below: Owed): Owed {
    match s
    case StreamStartState => StreamStart
    case FirstDocumentStartState => Documents
    case DocumentStartState => Documents
    case EndState => Nothing
    case DocumentContentState => Node(DocumentEnd(below))
    case DocumentEndState => DocumentEnd(below)
    case FlowSequenceFirstItemState => Items(below)
    case FlowSequenceItemState => Items(below)
    case BlockSequenceFirstItemState => Items(below)
    case BlockSequenceItemState => Items(below)
    case FlowMappingFirstKeyState => Key(below)
    case FlowMappingKeyState => Key(below)
    case BlockMappingFirstKeyState => Key(below)
    case BlockMappingKeyState => Key(below)
    case FlowMappingSimpleValueState => Value(below)
    case FlowMappingValueState => Value(below)
    case BlockMappingSimpleValueState => Value(below)
    case BlockMappingValueState => Value(below)
  }

  function OwedByStack(states: seq<State>): Owed {
    if states == [] then Documents else On(states[|states| - 1], OwedByStack(states[..|states| - 1]))
  }

  function OwedBy(m: Machine): Owed { On(m.state, OwedByStack(m.states)) }

  predicate InFlow(s: State) {
    s.FlowSequenceItemState? || s.FlowMappingKeyState? || s.FlowMappingSimpleValueState? || s.FlowMappingValueState?
  }

  predicate InBlock(s: State) {
    s.BlockSequenceItemState? || s.BlockMappingKeyState? || s.BlockMappingSimpleValueState? || s.BlockMappingValueState?
  }

  predicate First(s: State) {
    s.FlowSequenceFirstItemState? || s.FlowMappingFirstKeyState? || s.BlockSequenceFirstItemState? || s.BlockMappingFirstKeyState?
  }

  predicate Outside(s: State) {
    s.StreamStartState? || s.FirstDocumentStartState? || s.DocumentStartState? || s.EndState?
  }

  function Indented(s: State): nat { if InFlow(s) || InBlock(s) then 1 else 0 }

  function Flows(s: State): nat { if InFlow(s) then 1 else 0 }

  function IndentedByStack(states: seq<State>): nat {
    if states == [] then 0 else IndentedByStack(states[..|states| - 1]) + Indented(states[|states| - 1])
  }

  function FlowsByStack(states: seq<State>): nat {
    if states == [] then 0 else FlowsByStack(states[..|states| - 1]) + Flows(states[|states| - 1])
  }

  lemma PushPop(states: seq<State>, s: State)
    ensures OwedByStack(states + [s]) == On(s, OwedByStack(states))
    ensures IndentedByStack(states + [s]) == IndentedByStack(states) + Indented(s)
    ensures FlowsByStack(states + [s]) == FlowsByStack(states) + Flows(s)
  {
    assert (states + [s])[..|states|] == states;
  }

  // ----- the invariant -----

  /** The end of the document at the bottom, collections above it. */
  predicate InDocument(states: seq<State>) {
    && states != [] && states[0] == DocumentEndState
    && forall i :: 0 < i < |states| ==> InFlow(states[i]) || InBlock(states[i])
  }

  predicate Inv(m: Machine) {
    && |m.indents| == IndentedByStack(m.states) + Indented(m.state)
    && m.flowLevel == FlowsByStack(m.states) + Flows(m.state)
    && (if m.state.StreamStartState? then m.indents == [] else Increasing(m.indents, m.indent))
    && (Outside(m.state) || m.state.DocumentContentState? || m.state.DocumentEndState? ==> m.states == [])
    && (First(m.state) || InFlow(m.state) || InBlock(m.state) ==> InDocument(m.states))
  }

  /** What a step promises when the event is not refused. */
  predicate GoodStep(m: Machine, e: Event, o: Outcome) {
    match Accept(OwedBy(m), e)
    case Rejected => o.Error?
    case Accepted(owed) => o.Stepped? && Inv(o.next) && OwedBy(o.next) == owed
  }

  /** Where a node is due, with the state to return to on the stack. */
  predicate AtNode(m: Machine) {
    && InDocument(m.states) && Increasing(m.indents, m.indent)
    && |m.indents| == IndentedByStack(m.states)
    && m.flowLevel == FlowsByStack(m.states)
  }

  predicate GoodNode(m: Machine, e: Event, o: Outcome) {
    match Begin(OwedByStack(m.states), e)
    case Rejected => o.Error?
    case Accepted(owed) => o.Stepped? && Inv(o.next) && OwedBy(o.next) == owed
  }

  // ----- stacks -----

  lemma Popped(states: seq<State>)
    requires InDocument(states)
    ensures var top, below := states[|states| - 1], states[..|states| - 1];
      && OwedByStack(states) == On(top, OwedByStack(below))
      && IndentedByStack(states) == IndentedByStack(below) + Indented(top)
      && FlowsByStack(states) == FlowsByStack(below) + Flows(top)
      && !Outside(top) && !First(top) && !top.DocumentContentState?
      && (if top.DocumentEndState? then below == [] else InDocument(below))
  {}

  lemma ReturnIsGood(m: Machine)
    requires AtNode(m)
    ensures Return(m).Stepped? && Inv(Return(m).next) && OwedBy(Return(m).next) == OwedByStack(m.states)
  {
    hide OwedByStack, IndentedByStack, FlowsByStack, On, Increasing;
    Popped(m.states);
    hide InDocument;
  }

  ghost predicate MultipleOf(n: int, best: nat) { exists q: int :: n == best * q }

  /** Going deeper gives an indent that is larger: two more in a sequence item, else the next
      multiple of the best indent. */
  lemma IndentGrows(best: nat, indent: int, flow: bool, item: bool)
    requires best > 0 && indent >= -1
    ensures var n := NextIndent(best, indent, flow, item);
      && indent < n && 0 <= n
      && (if indent >= 0 && item then n == indent + 2 else MultipleOf(n, best))
      && (indent >= 0 && !item ==> n <= indent + best)
      && (indent < 0 ==> n <= best)
  {
    if indent < 0 {
      assert best == best * 1 && 0 == best * 0;
    } else if !item {
      Quotient(best, indent + best);
    }
  }

  lemma Quotient(best: nat, x: nat)
    requires best > 0
    ensures x - best < best * (x / best) <= x
  {}

  lemma DeeperIsGood(cfg: Config, m: Machine, flow: bool)
    requires cfg.bestIndent > 0 && Increasing(m.indents, m.indent) && (m.indents == [] || m.states != [])
    ensures var d := Deeper(cfg, m, flow);
      && d.Stepped? && Increasing(d.next.indents, d.next.indent) && d.next.indents == m.indents + [m.indent]
      && d.next.states == m.states && d.next.state == m.state && d.next.flowLevel == m.flowLevel
  {
    hide NextIndent;
    assert m.indent >= -1;
    var item := m.states != [] && m.states[|m.states| - 1].BlockSequenceItemState?;
    IndentGrows(cfg.bestIndent, m.indent, flow, item);
  }

  /** The shallower indent that was pushed is there again. */
  lemma ShallowerIsGood(m: Machine)
    requires InDocument(m.states) && Increasing(m.indents, m.indent)
    requires |m.indents| == IndentedByStack(m.states) + 1 && m.flowLevel == FlowsByStack(m.states)
    ensures var o := Shallower(m);
      o.Stepped? && Inv(o.next) && OwedBy(o.next) == OwedByStack(m.states)
  {
    hide OwedByStack, IndentedByStack, FlowsByStack, On, InDocument;
    var n := |m.indents| - 1;
    ReturnIsGood(m.(indent := m.indents[n], indents := m.indents[..n]));
  }

  lemma NodeIsGood(cfg: Config, m: Machine, es: seq<Event>, i: nat)
    requires i < |es| && cfg.bestIndent > 0 && AtNode(m)
    ensures GoodNode(m, es[i], EmitNode(cfg, m, es, i))
  {
    hide OwedByStack, IndentedByStack, FlowsByStack, Increasing, Deeper, Shallower, Return;
    var e := es[i];
    if e.AliasEvent? {
      ReturnIsGood(m);
    } else if e.ScalarEvent? {
      assert m.states != [];
      hide InDocument;
      DeeperIsGood(cfg, m, true);
      ShallowerIsGood(Deeper(cfg, m, true).next);
    }
  }

  /** A node inside: what is owed with `r` on the stack is what is owed here once a node has
      gone by. */
  lemma ChildIsGood(cfg: Config, m: Machine, k: Machine, r: State, es: seq<Event>, i: nat)
    requires i < |es| && cfg.bestIndent > 0
    requires AtNode(Push(k, r)) && WantsNode(OwedBy(m)) && AfterNode(OwedBy(m)) == OwedByStack(k.states + [r])
    requires BeginsNode(es[i]) || Accept(OwedBy(m), es[i]).Rejected?
    ensures GoodStep(m, es[i], EmitNode(cfg, Push(k, r), es, i))
  {
    hide OwedByStack, EmitNode, AtNode, On;
    NodeIsGood(cfg, Push(k, r), es, i);
    if BeginsNode(es[i]) {
      BeginIsAfterNode(OwedBy(m), es[i]);
    }
  }

  lemma PushInDocument(states: seq<State>, r: State)
    requires InDocument(states) && (InFlow(r) || InBlock(r))
    ensures InDocument(states + [r])
  {}

  /** In a collection that has been entered. */
  predicate Entered(m: Machine) {
    && InDocument(m.states) && Increasing(m.indents, m.indent)
    && |m.indents| == IndentedByStack(m.states) + 1
  }

  lemma ChildInCollection(cfg: Config, m: Machine, k: Machine, r: State, es: seq<Event>, i: nat)
    requires i < |es| && cfg.bestIndent > 0
    requires Entered(k) && k.states == m.states && (InFlow(r) || InBlock(r))
    requires k.flowLevel == FlowsByStack(m.states) + Flows(r)
    requires WantsNode(OwedBy(m)) && AfterNode(OwedBy(m)) == On(r, OwedByStack(m.states))
    requires BeginsNode(es[i]) || Accept(OwedBy(m), es[i]).Rejected?
    ensures GoodStep(m, es[i], EmitNode(cfg, Push(k, r), es, i))
  {
    hide OwedByStack, EmitNode, IndentedByStack, FlowsByStack, Increasing, On, GoodStep;
    PushPop(k.states, r);
    PushInDocument(k.states, r);
    hide InDocument;
    ChildIsGood(cfg, m, k, r, es, i);
  }

  lemma CloseIsGood(m: Machine, k: Machine, e: Event)
    requires Entered(k) && k.states == m.states && k.flowLevel == FlowsByStack(m.states)
    requires Accept(OwedBy(m), e) == Accepted(OwedByStack(m.states))
    ensures GoodStep(m, e, Shallower(k))
  {
    hide OwedByStack, IndentedByStack, FlowsByStack, Increasing, On, InDocument, Accept;
    ShallowerIsGood(k);
  }

  // ----- every state -----

  lemma SequenceIsGood(cfg: Config, m: Machine, k: Machine, flow: bool, es: seq<Event>, i: nat)
    requires i < |es| && cfg.bestIndent > 0 && OwedBy(m) == Items(OwedByStack(m.states))
    requires Entered(k) && k.states == m.states && k.flowLevel == FlowsByStack(m.states) + if flow then 1 else 0
    ensures GoodStep(m, es[i], if flow then EmitFlowSequenceItem(cfg, k, es, i) else EmitBlockSequenceItem(cfg, k, es, i))
  {
    hide OwedByStack, EmitNode, GoodStep, Shallower, FlowsByStack, IndentedByStack, InDocument, Increasing;
    if es[i].SequenceEndEvent? {
      CloseIsGood(m, k.(flowLevel := FlowsByStack(m.states)), es[i]);
    } else {
      ChildInCollection(cfg, m, k, if flow then FlowSequenceItemState else BlockSequenceItemState, es, i);
    }
  }

  lemma MappingKeyIsGood(cfg: Config, m: Machine, k: Machine, flow: bool, es: seq<Event>, i: nat)
    requires i < |es| && cfg.bestIndent > 0 && OwedBy(m) == Key(OwedByStack(m.states))
    requires Entered(k) && k.states == m.states && k.flowLevel == FlowsByStack(m.states) + if flow then 1 else 0
    ensures GoodStep(m, es[i], if flow then EmitFlowMappingKey(cfg, k, es, i) else EmitBlockMappingKey(cfg, k, es, i))
  {
    hide OwedByStack, EmitNode, GoodStep, Shallower, FlowsByStack, IndentedByStack, InDocument, Increasing, SimpleKey;
    if es[i].MappingEndEvent? {
      CloseIsGood(m, k.(flowLevel := FlowsByStack(m.states)), es[i]);
    } else if flow {
      ChildInCollection(cfg, m, k, if !cfg.canonical && SimpleKey(cfg, es, i) then FlowMappingSimpleValueState
                                   else FlowMappingValueState, es, i);
    } else {
      ChildInCollection(cfg, m, k, if SimpleKey(cfg, es, i) then BlockMappingSimpleValueState
                                   else BlockMappingValueState, es, i);
    }
  }

  lemma EnterIsGood(cfg: Config, m: Machine, flow: bool)
    requires cfg.bestIndent > 0 && Inv(m) && First(m.state)
    ensures var d := Enter(cfg, m, flow);
      && d.Stepped? && Entered(d.next) && d.next.states == m.states
      && d.next.flowLevel == FlowsByStack(m.states) + if flow then 1 else 0
  {
    hide IndentedByStack, FlowsByStack, Increasing, Deeper;
    assert m.states != [];
    hide InDocument;
    DeeperIsGood(cfg, m, flow);
  }

  /** The first step in a collection. */
  lemma FirstIsGood(cfg: Config, m: Machine, es: seq<Event>, i: nat)
    requires i < |es| && cfg.bestIndent > 0 && Inv(m) && First(m.state)
    ensures GoodStep(m, es[i], StateMachine(cfg, m, es, i))
  {
    hide GoodStep, Enter, EmitFlowSequenceItem, EmitFlowMappingKey, EmitBlockSequenceItem, EmitBlockMappingKey;
    hide OwedByStack, FlowsByStack, Entered;
    var flow := m.state.FlowSequenceFirstItemState? || m.state.FlowMappingFirstKeyState?;
    EnterIsGood(cfg, m, flow);
    hide Inv;
    var k := Enter(cfg, m, flow).next;
    if m.state.FlowSequenceFirstItemState? || m.state.BlockSequenceFirstItemState? {
      SequenceIsGood(cfg, m, k, flow, es, i);
    } else {
      MappingKeyIsGood(cfg, m, k, flow, es, i);
    }
  }

  /** A later step in a collection. */
  lemma InsideIsGood(cfg: Config, m: Machine, es: seq<Event>, i: nat)
    requires i < |es| && cfg.bestIndent > 0 && Inv(m) && (InFlow(m.state) || InBlock(m.state))
    ensures GoodStep(m, es[i], StateMachine(cfg, m, es, i))
  {
    hide GoodStep, EmitFlowSequenceItem, EmitFlowMappingKey, EmitBlockSequenceItem, EmitBlockMappingKey, EmitNode;
    hide OwedByStack, FlowsByStack, IndentedByStack, Increasing, InDocument;
    assert Entered(m);
    if m.state.FlowSequenceItemState? || m.state.BlockSequenceItemState? {
      SequenceIsGood(cfg, m, m, InFlow(m.state), es, i);
    } else if m.state.FlowMappingKeyState? || m.state.BlockMappingKeyState? {
      MappingKeyIsGood(cfg, m, m, InFlow(m.state), es, i);
    } else {
      ChildInCollection(cfg, m, m, if InFlow(m.state) then FlowMappingKeyState else BlockMappingKeyState, es, i);
    }
  }

  lemma EmptyStacks()
    ensures OwedByStack([]) == Documents && IndentedByStack([]) == 0 && FlowsByStack([]) == 0
  {}

  lemma OnlyDocumentEnd(states: seq<State>)
    requires states == [DocumentEndState]
    ensures InDocument(states) && OwedByStack(states) == DocumentEnd(Documents)
    ensures IndentedByStack(states) == 0 && FlowsByStack(states) == 0
  {
    assert states[..0] == [];
  }

  lemma ContentAtNode(m: Machine)
    requires Inv(m) && m.state.DocumentContentState?
    ensures AtNode(Push(m, DocumentEndState)) && m.states == []
    ensures OwedBy(m) == Node(DocumentEnd(Documents)) && OwedByStack([] + [DocumentEndState]) == DocumentEnd(Documents)
  {
    hide OwedByStack, FlowsByStack, IndentedByStack, InDocument, Increasing;
    EmptyStacks();
    assert [] + [DocumentEndState] == [DocumentEndState];
    OnlyDocumentEnd([] + [DocumentEndState]);
  }

  lemma ContentIsGood(cfg: Config, m: Machine, es: seq<Event>, i: nat)
    requires i < |es| && cfg.bestIndent > 0 && Inv(m) && m.state.DocumentContentState?
    ensures GoodStep(m, es[i], EmitNode(cfg, Push(m, DocumentEndState), es, i))
  {
    hide OwedByStack, EmitNode, GoodStep, AtNode, On;
    ContentAtNode(m);
    hide Inv;
    ChildIsGood(cfg, m, m, DocumentEndState, es, i);
  }

  lemma OutsideIsGood(cfg: Config, m: Machine, es: seq<Event>, i: nat)
    requires i < |es| && cfg.bestIndent > 0 && Inv(m) && (Outside(m.state) || m.state.DocumentEndState?)
    ensures GoodStep(m, es[i], StateMachine(cfg, m, es, i))
  {
    hide GoodStep, Inv;
    match m.state {
      case StreamStartState => StreamEdgeIsGood(m, es[i]);
      case FirstDocumentStartState => DocumentStartIsGood(m, es[i]);
      case DocumentStartState => DocumentStartIsGood(m, es[i]);
      case DocumentEndState => StreamEdgeIsGood(m, es[i]);
      case EndState => StreamEdgeIsGood(m, es[i]);
    }
  }

  /** Between nodes there is nothing on the stacks. */
  lemma NothingStacked(m: Machine)
    requires Inv(m) && (Outside(m.state) || m.state.DocumentEndState?)
    ensures m.states == [] && m.indents == [] && m.flowLevel == 0 && OwedBy(m) == On(m.state, Documents)
    ensures !m.state.StreamStartState? ==> m.indent == -1
  {
    hide OwedByStack, FlowsByStack, IndentedByStack, InDocument;
    EmptyStacks();
  }

  lemma IsNothingStacked(m: Machine)
    requires m.states == [] && m.indents == [] && m.flowLevel == 0 && m.indent == -1
    requires m.state.FirstDocumentStartState? || m.state.DocumentStartState? || m.state.EndState? || m.state.DocumentContentState?
    ensures Inv(m) && OwedBy(m) == On(m.state, Documents)
  {
    hide OwedByStack, FlowsByStack, IndentedByStack, InDocument;
    EmptyStacks();
  }

  lemma StreamEdgeIsGood(m: Machine, e: Event)
    requires Inv(m)
    ensures m.state.StreamStartState? ==>
      GoodStep(m, e, if e.StreamStartEvent? then Stepped(m.(state := FirstDocumentStartState, indent := -1)) else Error)
    ensures m.state.DocumentEndState? ==>
      GoodStep(m, e, if e.DocumentEndEvent? then Stepped(m.(state := DocumentStartState)) else Error)
    ensures m.state.EndState? ==> GoodStep(m, e, Error)
  {
    hide OwedBy, Inv;
    if m.state.StreamStartState? {
      NothingStacked(m);
      IsNothingStacked(m.(state := FirstDocumentStartState, indent := -1));
    } else if m.state.DocumentEndState? {
      NothingStacked(m);
      IsNothingStacked(m.(state := DocumentStartState));
    } else if m.state.EndState? {
      NothingStacked(m);
    }
  }

  lemma DocumentStartIsGood(m: Machine, e: Event)
    requires Inv(m) && (m.state.FirstDocumentStartState? || m.state.DocumentStartState?)
    ensures GoodStep(m, e, EmitDocumentStart(m, e))
  {
    hide OwedBy, Inv;
    NothingStacked(m);
    IsNothingStacked(m.(state := DocumentContentState));
    IsNothingStacked(m.(state := EndState));
  }

  /** The emitter takes an event if and only if the stream may go on with it, and otherwise
      reports an error; it never pops an empty stack, and the invariant is kept. */
  lemma StepIsGood(cfg: Config, m: Machine, es: seq<Event>, i: nat)
    requires i < |es| && cfg.bestIndent > 0 && Inv(m)
    ensures GoodStep(m, es[i], StateMachine(cfg, m, es, i))
  {
    hide GoodStep, Inv;
    if First(m.state) {
      FirstIsGood(cfg, m, es, i);
    } else if InFlow(m.state) || InBlock(m.state) {
      InsideIsGood(cfg, m, es, i);
    } else if m.state.DocumentContentState? {
      ContentIsGood(cfg, m, es, i);
    } else {
      OutsideIsGood(cfg, m, es, i);
    }
  }

  predicate NoneRefused(cfg: Config, es: seq<Event>) {
    forall i :: 0 <= i < |es| ==> !cfg.refused(es[i])
  }

  /** After k events that are not refused, the emitter stands where the acceptor stands. */
  lemma {:induction false} BatchIsGood(cfg: Config, es: seq<Event>, k: nat)
    requires k <= |es| && cfg.bestIndent > 0 && NoneRefused(cfg, es[..k])
    ensures var o := Batch(cfg, es, k);
      match AcceptAll(StreamStart, es[..k])
      case Rejected => o.Error?
      case Accepted(owed) => o.Stepped? && Inv(o.next) && OwedBy(o.next) == owed
    decreases k
  {
    hide StateMachine, Inv, OwedByStack, Accept;
    if k == 0 {
      InitialIsGood();
      NoEvents(StreamStart);
    } else {
      assert es[..k][..k - 1] == es[..k - 1] && es[..k][k - 1] == es[k - 1];
      assert NoneRefused(cfg, es[..k - 1]);
      BatchIsGood(cfg, es, k - 1);
      assert !cfg.refused(es[..k][k - 1]);
      assert es[..k] == es[..k - 1] + [es[k - 1]];
      AcceptStep(StreamStart, es[..k - 1], es[k - 1]);
      var o := Batch(cfg, es, k - 1);
      hide AcceptAll, NoneRefused;
      if o.Stepped? {
        StepIsGood(cfg, o.next, es, k - 1);
      }
    }
  }

  lemma InitialIsGood()
    ensures Inv(INITIAL) && OwedBy(INITIAL) == StreamStart
  {}

  // ----- look-ahead -----

  /** With more events in view, an event that was processed would have been processed the
      same way: what follows it was in view if it mattered. */
  lemma LookaheadIsEnough(cfg: Config, m: Machine, es: seq<Event>, more: seq<Event>, i: nat)
    requires i < |es| && cfg.bestIndent > 0 && es <= more
    requires (es[i].SequenceStartEvent? || es[i].MappingStartEvent?) ==> i + 1 < |es|
    ensures Step(cfg, m, es, i) == Step(cfg, m, more, i)
  {
    hide EmitNode, SimpleKey, Enter, Shallower;
    KeySeenAhead(cfg, es, more, i);
    forall k: Machine
      ensures EmitNode(cfg, k, es, i) == EmitNode(cfg, k, more, i)
    {
      NodeSeenAhead(cfg, k, es, more, i);
    }
  }

  lemma KeySeenAhead(cfg: Config, es: seq<Event>, more: seq<Event>, i: nat)
    requires i < |es| && es <= more
    requires (es[i].SequenceStartEvent? || es[i].MappingStartEvent?) ==> i + 1 < |es|
    ensures SimpleKey(cfg, es, i) == SimpleKey(cfg, more, i)
  {}

  lemma NodeSeenAhead(cfg: Config, k: Machine, es: seq<Event>, more: seq<Event>, i: nat)
    requires i < |es| && cfg.bestIndent > 0 && es <= more
    requires (es[i].SequenceStartEvent? || es[i].MappingStartEvent?) ==> i + 1 < |es|
    ensures EmitNode(cfg, k, es, i) == EmitNode(cfg, k, more, i)
  {
    hide Enter;
  }

  /** What the machine takes for a simple key, in whatever context, is written on one line
      and short enough for the scanner to take it for one. */
  lemma SimpleKeysFit(cfg: Config, es: seq<Event>, i: nat, flow: bool, settings: ScalarText.Settings, pen: ScalarText.Pen, key: BlockMachine.SimpleKey)
    requires i < |es| && SimpleKey(cfg, es, i) && 2 <= settings.bestIndent <= 9
    requires SimpleKeyText.WellFormedKey(KeyNode(cfg, es[i], flow))
    ensures var text := SimpleKeyText.KeyText(settings, KeyNode(cfg, es[i], flow), pen).text;
      && SimpleKeyText.OneLine(text) && |text| < BlockMachine.MAX_KEY_LENGTH
      && !BlockMachine.Expired(key, key.mark.(index := key.mark.index + |text|, column := key.mark.column + |text|))
  {
    SimpleKeyText.SimpleKeyFits(settings, KeyNode(cfg, es[i], flow), pen, key);
  }

  /** An alias, a scalar on one line or an empty collection is a simple key if its name, its
      properties and its value have at most 128 bytes together; nothing else is. */
  lemma SimpleKeyIff(cfg: Config, es: seq<Event>, i: nat)
    requires i < |es| && BeginsNode(es[i])
    ensures var t := cfg.tag(es[i]);
      var tag := |Utf8.EncodeAll(t.handle)| + |Utf8.EncodeAll(t.suffix)|;
      SimpleKey(cfg, es, i) <==> match es[i]
        case AliasEvent(name) => |Utf8.EncodeAll(name)| <= 128
        case ScalarEvent(anchor, _, value, _, _, _) =>
          && (forall k :: 0 <= k < |value| ==> !Chars.IsBreak(value[k]))
          && |Utf8.EncodeAll(anchor)| + tag + |Utf8.EncodeAll(value)| <= 128
        case SequenceStartEvent(anchor, _, _, _) =>
          i + 1 < |es| && es[i + 1].SequenceEndEvent? && |Utf8.EncodeAll(anchor)| + tag <= 128
        case MappingStartEvent(anchor, _, _, _) =>
          i + 1 < |es| && es[i + 1].MappingEndEvent? && |Utf8.EncodeAll(anchor)| + tag <= 128
  {
    if es[i].ScalarEvent? {
      BreaksInside(es[i].value);
    }
  }

  lemma BreaksInside(value: string)
    ensures ScalarAnalysis.HasBreak(value) <==> exists k :: 0 <= k < |value| && Chars.IsBreak(value[k])
  {
    if ScalarAnalysis.HasBreak(value) {
      var k :| 0 <= k < |value| && ScalarAnalysis.BreakAt(value, k);
      assert Chars.IsBreak(value[k]);
    }
    if k :| 0 <= k < |value| && Chars.IsBreak(value[k]) {
      assert ScalarAnalysis.BreakAt(value, k);
    }
  }

  /** The look-ahead is asked for until the next event is in view. */
  lemma NextInView(es: seq<Event>, i: nat)
    requires i < |es| && !NeedMore(es, i) && (es[i].SequenceStartEvent? || es[i].MappingStartEvent?)
    ensures i + 1 < |es|
  {
    if i + 1 == |es| {
      LastIsOpen(es, i);
    }
  }

  lemma LastIsOpen(es: seq<Event>, i: nat)
    requires i + 1 == |es| && (es[i].SequenceStartEvent? || es[i].MappingStartEvent?)
    ensures NeedMore(es, i)
  {
    assert Level(es, i, i + 1) == Level(es, i, i) + 1;
  }

  /** Every processed collection start has its follower in view. */
  predicate FollowerInView(es: seq<Event>, k: nat)
    requires k <= |es|
  {
    k == |es| && k > 0 ==> !es[k - 1].SequenceStartEvent? && !es[k - 1].MappingStartEvent?
  }

  /** More events in view do not change what has been done. */
  lemma {:induction false} BatchExtends(cfg: Config, es: seq<Event>, more: seq<Event>, k: nat)
    requires k <= |es| && cfg.bestIndent > 0 && es <= more && FollowerInView(es, k)
    ensures Batch(cfg, es, k) == Batch(cfg, more, k)
    decreases k
  {
    hide Step;
    if k > 0 {
      BatchExtends(cfg, es, more, k - 1);
      var o := Batch(cfg, es, k - 1);
      if o.Stepped? {
        LookaheadIsEnough(cfg, o.next, es, more, k - 1);
      }
    }
  }

  // ----- the queue is empty after a document -----

  function Nesting(owed: Owed): nat {
    match owed
    case Nothing => 0
    case StreamStart => 0
    case Documents => 1
    case DocumentEnd(below) => Nesting(below) + 1
    case Node(below) => Nesting(below)
    case Items(below) => Nesting(below) + 1
    case Key(below) => Nesting(below) + 1
    case Value(below) => Nesting(below) + 1
  }

  lemma NestingStep(owed: Owed, e: Event)
    requires Accept(owed, e).Accepted?
    ensures Nesting(Accept(owed, e).owed) == Nesting(owed) + LevelOf(e)
  {}

  /** The level counts how much deeper the events go. */
  lemma {:induction false} LevelIsNesting(es: seq<Event>, i: nat, j: nat, before: Owed)
    requires i <= j <= |es| && AcceptAll(StreamStart, es[..i]) == Accepted(before) && AcceptAll(StreamStart, es[..j]).Accepted?
    ensures Nesting(AcceptAll(StreamStart, es[..j]).owed) == Nesting(before) + Level(es, i, j)
    decreases j - i
  {
    hide Accept;
    if i < j {
      assert es[..j] == es[..j - 1] + [es[j - 1]];
      AcceptStep(StreamStart, es[..j - 1], es[j - 1]);
      LevelIsNesting(es, i, j - 1, before);
      NestingStep(AcceptAll(StreamStart, es[..j - 1]).owed, es[j - 1]);
    }
  }

  /** A level that starts above zero and ends at zero or below is zero somewhere. */
  lemma {:induction false} CrossesZero(es: seq<Event>, i: nat, j: nat)
    requires i < j <= |es| && Level(es, i, i + 1) > 0 && Level(es, i, j) <= 0
    ensures exists k :: i < k <= j && Level(es, i, k) == 0
    decreases j - i
  {
    if Level(es, i, j) < 0 {
      assert j > i + 1;
      CrossesZero(es, i, j - 1);
    } else {
      assert i < j <= j && Level(es, i, j) == 0;
    }
  }

  lemma {:induction false} PrefixAccepted(es: seq<Event>, k: nat)
    requires k <= |es| && AcceptAll(StreamStart, es).Accepted?
    ensures AcceptAll(StreamStart, es[..k]).Accepted?
  {
    assert es == es[..k] + es[k..];
    AcceptConcat(StreamStart, es[..k], es[k..]);
  }

  /** Nothing can wait in the queue once the events are no deeper than one document's level. */
  lemma QueueEmpty(es: seq<Event>, head: nat)
    requires head <= |es| && AcceptAll(StreamStart, es).Accepted? && NeedMore(es, head)
    requires Nesting(AcceptAll(StreamStart, es).owed) <= 1
    ensures head == |es|
  {
    hide AcceptAll;
    if head < |es| {
      PrefixAccepted(es, head);
      var before := AcceptAll(StreamStart, es[..head]).owed;
      assert es[..|es|] == es;
      LevelIsNesting(es, head, |es|, before);
      OpensInside(es, head, before);
      CrossesZero(es, head, |es|);
    }
  }

  predicate EndsSomething(e: Event) {
    e.StreamEndEvent? || e.DocumentEndEvent? || e.SequenceEndEvent? || e.MappingEndEvent?
  }

  predicate StartsSomething(e: Event) {
    e.StreamStartEvent? || e.DocumentStartEvent? || e.SequenceStartEvent? || e.MappingStartEvent?
  }

  /** What the emitter waits for: one event behind a document's start, two behind a sequence's
      and three behind a mapping's, or fewer if these close it; nothing behind others. */
  lemma WaitsIff(es: seq<Event>, head: nat)
    requires head < |es|
    ensures var n, open := |es| - head - 1, !(head + 1 < |es| && EndsSomething(es[head + 1]));
      NeedMore(es, head) <==> match es[head]
        case DocumentStartEvent(_, _) => n < 1
        case SequenceStartEvent(_, _, _, _) => n < 1 || (n < 2 && open)
        case MappingStartEvent(_, _, _, _) =>
          n < 1 || (n < 2 && open) || (n < 3 && open && (StartsSomething(es[head + 1]) || !EndsSomething(es[head + 2])))
        case _ => false
  {
    LevelsAhead(es, head);
  }

  lemma LevelsAhead(es: seq<Event>, head: nat)
    requires head < |es|
    ensures StartsSomething(es[head]) ==> Level(es, head, head + 1) == 1
    ensures StartsSomething(es[head]) && head + 1 < |es| ==> (Level(es, head, head + 2) == 0 <==> EndsSomething(es[head + 1]))
    ensures StartsSomething(es[head]) && head + 2 < |es| && !EndsSomething(es[head + 1]) ==>
      (Level(es, head, head + 3) == 0 <==> !StartsSomething(es[head + 1]) && EndsSomething(es[head + 2]))
  {
    assert Level(es, head, head) == 0;
    if head + 1 < |es| {
      assert Level(es, head, head + 2) == Level(es, head, head + 1) + Level(es, head + 1, head + 2) by { LevelOne(es, head, head + 1); }
    }
    if head + 2 < |es| {
      LevelOne(es, head, head + 2);
      LevelOne(es, head, head + 1);
    }
  }

  lemma LevelOne(es: seq<Event>, head: nat, k: nat)
    requires head <= k < |es|
    ensures Level(es, head, k + 1) == Level(es, head, k) + Level(es, k, k + 1)
  {
    assert Level(es, k, k) == 0;
  }

  /** What the look-ahead comes to, whenever the emitter waits for more events: at most three
      wait, none after the end of a document or of the stream, and then every stack is empty. */
  lemma EmitterKeepsUp(cfg: Config, es: seq<Event>, head: nat)
    requires cfg.bestIndent > 0 && head <= |es| && NeedMore(es, head)
    requires NoneRefused(cfg, es) && AcceptAll(StreamStart, es).Accepted?
    ensures |es| - head <= 3
    ensures Batch(cfg, es, head).Stepped?
    ensures es != [] && es[|es| - 1].DocumentEndEvent? ==> head == |es|
    ensures AcceptAll(StreamStart, es) == Accepted(Nothing) ==>
      var m := Batch(cfg, es, head).next;
      head == |es| && m.state == EndState && m.states == [] && m.indents == [] && m.flowLevel == 0
  {
    hide AcceptAll, Inv, OwedByStack, Batch;
    PrefixAccepted(es, head);
    BatchIsGood(cfg, es, head);
    assert es[..|es|] == es;
    if es != [] && es[|es| - 1].DocumentEndEvent? {
      AfterDocument(es);
      QueueEmpty(es, head);
    }
    if AcceptAll(StreamStart, es) == Accepted(Nothing) {
      QueueEmpty(es, head);
      NothingStacked(Batch(cfg, es, head).next);
    }
  }

  /** Only a document's end is owed right above the level of documents, and a lone node only
      in a document. */
  lemma {:induction false} OwedShape(z: Built)
    requires WellBuilt(z)
    ensures Events.OwedBy(z).DocumentEnd? ==> Events.OwedBy(z) == DocumentEnd(Documents)
    ensures Events.OwedBy(z).Node? ==> Events.OwedBy(z) == Node(DocumentEnd(Documents))
  {}

  lemma ReachedShape(es: seq<Event>, owed: Owed)
    requires AcceptAll(StreamStart, es) == Accepted(owed)
    ensures owed.DocumentEnd? ==> owed == DocumentEnd(Documents)
    ensures owed.Node? ==> owed == Node(DocumentEnd(Documents))
  {
    hide AcceptAll, WellBuilt, Events.OwedBy;
    var z := AcceptedIsBuilt(es);
    OwedShape(z);
  }

  lemma AfterDocument(es: seq<Event>)
    requires es != [] && AcceptAll(StreamStart, es).Accepted? && es[|es| - 1].DocumentEndEvent?
    ensures es[..|es|] == es && Nesting(AcceptAll(StreamStart, es).owed) == 1
  {
    PrefixAccepted(es, |es| - 1);
    var before := AcceptAll(StreamStart, es[..|es| - 1]).owed;
    ReachedShape(es[..|es| - 1], before);
    AcceptStep(StreamStart, es[..|es| - 1], es[|es| - 1]);
    assert es[..|es| - 1] + [es[|es| - 1]] == es;
    hide AcceptAll;
  }

  lemma OpensInside(es: seq<Event>, head: nat, before: Owed)
    requires head < |es| && AcceptAll(StreamStart, es[..head]) == Accepted(before) && AcceptAll(StreamStart, es).Accepted?
    requires 0 < Accumulate(es[head])
    ensures Nesting(before) >= 1 && Level(es, head, head + 1) == 1
  {
    hide AcceptAll, Accept, Nesting;
    PrefixAccepted(es, head + 1);
    assert es[..head + 1] == es[..head] + [es[head]];
    AcceptStep(StreamStart, es[..head], es[head]);
    ReachedShape(es[..head], before);
    OpeningNests(before, es[head]);
    assert Level(es, head, head) == 0;
  }

  lemma OpeningNests(owed: Owed, e: Event)
    requires Accept(owed, e).Accepted? && 0 < Accumulate(e) && (owed.Node? ==> owed == Node(DocumentEnd(Documents)))
    ensures Nesting(owed) >= 1
  {}
}
