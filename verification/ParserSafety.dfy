/**
  Whatever the tokens, well formed or not, the machine never pops an empty stack, its
  events are the beginning of a stream, and it stops after a number of events that is
  linear in the number of tokens.
 */
module ParserSafety {
  import opened Events
  import opened ParserMachine

  // ----- what the state, the return stack and the mark stack mean -----

  /** What is owed when `s` is the state to go on with, above what is owed below it. */
  function On(s: State, below: Owed): Owed {
    match s
    case StreamStartState => StreamStart
    case ImplicitDocumentStartState => Documents
    case DocumentStartState => Documents
    case EndState => Nothing
    case DocumentEndState => DocumentEnd(below)
    case DocumentContentState => Node(below)
    case BlockNodeState => Node(below)
    case BlockNodeOrIndentlessSequenceState => Node(below)
    case FlowNodeState => Node(below)
    case BlockSequenceFirstEntryState => Items(below)
    case BlockSequenceEntryState => Items(below)
    case IndentlessSequenceEntryState => Items(below)
    case BlockMappingFirstKeyState => Key(below)
    case BlockMappingKeyState => Key(below)
    case BlockMappingValueState => Value(below)
    case FlowSequenceFirstEntryState => Items(below)
    case FlowSequenceEntryState => Items(below)
    case FlowSequenceEntryMappingKeyState => Key(Items(below))
    case FlowSequenceEntryMappingValueState => Value(Items(below))
    case FlowSequenceEntryMappingEndState => Key(Items(below))
    case FlowMappingFirstKeyState => Key(below)
    case FlowMappingKeyState => Key(below)
    case FlowMappingValueState => Value(below)
    case FlowMappingEmptyValueState => Value(below)
  }

  function OwedByStack(states: seq<State>): Owed {
    if states == [] then Documents else On(states[|states| - 1], OwedByStack(states[..|states| - 1]))
  }

  function OwedBy(m: Machine): Owed { On(m.state, OwedByStack(m.states)) }

  /** The number of marks that a state stands for. */
  function Marked(s: State): nat {
    match s
    case BlockSequenceEntryState => 1
    case BlockMappingKeyState => 1
    case BlockMappingValueState => 1
    case FlowSequenceEntryState => 1
    case FlowSequenceEntryMappingKeyState => 1
    case FlowSequenceEntryMappingValueState => 1
    case FlowSequenceEntryMappingEndState => 1
    case FlowMappingKeyState => 1
    case FlowMappingValueState => 1
    case FlowMappingEmptyValueState => 1
    case _ => 0
  }

  function MarkedByStack(states: seq<State>): nat {
    if states == [] then 0 else MarkedByStack(states[..|states| - 1]) + Marked(states[|states| - 1])
  }

  /** Bounds the events that a state can still produce without a token. */
  function Weight(s: State): nat {
    match s
    case EndState => 0
    case ImplicitDocumentStartState => 5
    case FlowSequenceEntryMappingKeyState => 5
    case FlowSequenceEntryMappingValueState => 3
    case FlowSequenceEntryMappingEndState => 2
    case DocumentEndState => 2
    case DocumentContentState => 2
    case BlockNodeState => 2
    case BlockNodeOrIndentlessSequenceState => 2
    case FlowNodeState => 2
    case BlockMappingValueState => 2
    case FlowMappingValueState => 2
    case FlowMappingEmptyValueState => 2
    case _ => 1
  }

  function WeightOfStack(states: seq<State>): nat {
    if states == [] then 0 else WeightOfStack(states[..|states| - 1]) + Weight(states[|states| - 1])
  }

  function Measure(ts: seq<Token>, m: Machine): nat
    requires m.pos <= |ts|
  {
    5 * (|ts| - m.pos) + WeightOfStack(m.states) + Weight(m.state)
  }

  lemma PushPop(states: seq<State>, s: State)
    ensures OwedByStack(states + [s]) == On(s, OwedByStack(states))
    ensures MarkedByStack(states + [s]) == MarkedByStack(states) + Marked(s)
    ensures WeightOfStack(states + [s]) == WeightOfStack(states) + Weight(s)
  {
    assert (states + [s])[..|states|] == states;
  }

  // ----- the invariant -----

  predicate Outside(s: State) {
    s.StreamStartState? || s.ImplicitDocumentStartState? || s.DocumentStartState? || s.EndState?
  }

  /** The states in which the token that opens the collection has not been skipped yet. */
  predicate First(s: State) {
    s.BlockSequenceFirstEntryState? || s.BlockMappingFirstKeyState? || s.FlowSequenceFirstEntryState? || s.FlowMappingFirstKeyState?
  }

  predicate HeadFits(ts: seq<Token>, pos: nat, s: State) {
    First(s) ==>
      && pos < |ts|
      && (s.BlockSequenceFirstEntryState? ==> ts[pos].BlockSequenceStartToken?)
      && (s.BlockMappingFirstKeyState? ==> ts[pos].BlockMappingStartToken?)
      && (s.FlowSequenceFirstEntryState? ==> ts[pos].FlowSequenceStartToken?)
      && (s.FlowMappingFirstKeyState? ==> ts[pos].FlowMappingStartToken?)
  }

  predicate Inner(s: State) { !Outside(s) && !s.DocumentEndState? }

  /** The return stack inside a document: its end at the bottom, and nodes above it. */
  predicate InDocument(states: seq<State>) {
    && states != [] && states[0] == DocumentEndState
    && forall i :: 0 < i < |states| ==> Inner(states[i]) && !First(states[i])
  }

  /** The tag directives in force in a document: no handle twice, the two defaults among them. */
  predicate InForce(ds: seq<Directive>) {
    && HasHandle(ds, "!") && HasHandle(ds, "!!")
    && forall i, j :: 0 <= i < j < |ds| ==> ds[i].handle != ds[j].handle
  }

  predicate Inv(ts: seq<Token>, m: Machine) {
    && m.pos <= |ts|
    && |m.marks| == MarkedByStack(m.states) + Marked(m.state)
    && (if Outside(m.state) then m.states == [] && m.directives == [] else InForce(m.directives))
    && (m.state.DocumentEndState? ==> m.states == [])
    && (Inner(m.state) ==> InDocument(m.states))
    && HeadFits(ts, m.pos, m.state)
  }

  /** What one step promises. */
  predicate GoodStep(ts: seq<Token>, m: Machine, o: Outcome)
    requires m.pos <= |ts|
  {
    match o
    case Fault => false
    case Failed(_) => true
    case Produced(e, n) =>
      && Inv(ts, n)
      && Accept(OwedBy(m), e) == Accepted(OwedBy(n))
      && Measure(ts, n) < Measure(ts, m)
  }

  /** Where a node is expected: the state to return to is on the stack already. */
  predicate AtNode(ts: seq<Token>, m: Machine) {
    && m.pos <= |ts|
    && InDocument(m.states)
    && InForce(m.directives)
    && |m.marks| == MarkedByStack(m.states)
  }

  /** What reading the beginning of a node promises. */
  predicate GoodNode(ts: seq<Token>, m: Machine, o: Outcome)
    requires m.pos <= |ts|
  {
    match o
    case Fault => false
    case Failed(_) => true
    case Produced(e, n) =>
      && Inv(ts, n) && BeginsNode(e)
      && Begin(OwedByStack(m.states), e) == Accepted(OwedBy(n))
      && Measure(ts, n) < 5 * (|ts| - m.pos) + WeightOfStack(m.states) + 2
  }

  // ----- nodes -----

  /** The state on top of the return stack of a document. */
  lemma Popped(states: seq<State>)
    requires InDocument(states)
    ensures var top, below := states[|states| - 1], states[..|states| - 1];
      && OwedByStack(states) == On(top, OwedByStack(below))
      && MarkedByStack(states) == MarkedByStack(below) + Marked(top)
      && WeightOfStack(states) == WeightOfStack(below) + Weight(top)
      && !Outside(top) && !First(top)
      && (if top.DocumentEndState? then below == [] else Inner(top) && InDocument(below))
  {}

  lemma ReturnsFromNode(ts: seq<Token>, m: Machine, e: Event)
    requires AtNode(ts, m) && (e.AliasEvent? || e.ScalarEvent?)
    ensures GoodNode(ts, m, Return(m, e))
  {
    hide OwedByStack, MarkedByStack, WeightOfStack, InForce, On, Weight, Marked, Outside;
    Popped(m.states);
    hide InDocument;
  }

  lemma OpensNode(ts: seq<Token>, m: Machine, s: State, e: Event)
    requires AtNode(ts, m) && m.pos < |ts|
    requires Inner(s) && Marked(s) == 0 && Weight(s) == 1 && HeadFits(ts, m.pos, s)
    requires BeginsNode(e) && forall owed :: Begin(owed, e) == Accepted(On(s, owed))
    ensures GoodNode(ts, m, Goto(m, s, e))
  {
    hide OwedByStack, MarkedByStack, WeightOfStack, InForce, InDocument, On, Weight, Marked;
  }

  /** Tokens that were skipped before a node only help. */
  lemma NodeAhead(ts: seq<Token>, m: Machine, pos: nat, o: Outcome)
    requires m.pos <= pos <= |ts| && GoodNode(ts, m.(pos := pos), o)
    ensures GoodNode(ts, m, o)
  {
    hide OwedByStack, WeightOfStack, Inv, Begin;
  }

  lemma ContentIsGood(ts: seq<Token>, m: Machine, block: bool, indentless: bool, anchor: string, tag: string)
    requires AtNode(ts, m) && m.pos < |ts|
    ensures GoodNode(ts, m, ParseContent(ts[m.pos], m, block, indentless, anchor, tag))
  {
    hide GoodNode, Return;
    var t := ts[m.pos];
    var o := ParseContent(t, m, block, indentless, anchor, tag);
    if indentless && t.BlockEntryToken? {
      OpensNode(ts, m, IndentlessSequenceEntryState, o.event);
    } else if t.ScalarToken? {
      var plain := (tag == "" && t.style.Plain?) || tag == "!";
      var e := ScalarEvent(anchor, tag, t.value, plain, !plain && tag == "", t.style);
      ReturnsFromNode(ts, Skip(m), e);
      NodeAhead(ts, m, m.pos + 1, o);
    } else if t.FlowSequenceStartToken? {
      OpensNode(ts, m, FlowSequenceFirstEntryState, o.event);
    } else if t.FlowMappingStartToken? {
      OpensNode(ts, m, FlowMappingFirstKeyState, o.event);
    } else if block && t.BlockSequenceStartToken? {
      OpensNode(ts, m, BlockSequenceFirstEntryState, o.event);
    } else if block && t.BlockMappingStartToken? {
      OpensNode(ts, m, BlockMappingFirstKeyState, o.event);
    } else if anchor != "" || tag != "" {
      ReturnsFromNode(ts, m, ScalarEvent(anchor, tag, "", tag == "", false, Plain));
    } else {
      FailureIsGood(ts, m, ExpectedNodeContent);
    }
  }

  lemma FailureIsGood(ts: seq<Token>, m: Machine, p: Problem)
    requires m.pos <= |ts|
    ensures GoodNode(ts, m, Failed(p)) && GoodStep(ts, m, Failed(p))
  {}

  lemma NodeIsGood(ts: seq<Token>, m: Machine, block: bool, indentless: bool)
    requires AtNode(ts, m)
    ensures GoodNode(ts, m, ParseNode(ts, m, block, indentless))
  {
    hide GoodNode, Return, ParseContent, Resolve, InForce, InDocument, MarkedByStack;
    var o := ParseNode(ts, m, block, indentless);
    if m.pos < |ts| && ts[m.pos].AliasToken? {
      ReturnsFromNode(ts, Skip(m), AliasEvent(ts[m.pos].name));
      NodeAhead(ts, m, m.pos + 1, o);
    } else if o.Failed? {
      FailureIsGood(ts, m, o.problem);
    } else {
      var p := ParseProperties(ts, m.pos);
      var tag := if !p.tagged then "" else if p.handle == "" then p.suffix
                 else Resolve(m.directives, p.handle, p.suffix);
      ContentIsGood(ts, m.(pos := p.pos), block, indentless, p.anchor, tag);
      NodeAhead(ts, m, p.pos, o);
    }
  }

  // ----- steps inside a document -----

  /** A child node: `r` is pushed, and what is owed there is what is owed here once a node
      has gone by. */
  lemma ChildIsGood(ts: seq<Token>, m: Machine, k: Machine, r: State, block: bool, indentless: bool)
    requires Inv(ts, m) && Inner(m.state) && Inner(r) && !First(r)
    requires m.pos <= k.pos <= |ts| && k.states == m.states && k.directives == m.directives
    requires |k.marks| == MarkedByStack(m.states) + Marked(r)
    requires WantsNode(OwedBy(m)) && AfterNode(OwedBy(m)) == On(r, OwedByStack(m.states))
    requires Weight(r) + 2 <= 5 * (k.pos - m.pos) + Weight(m.state)
    ensures GoodStep(ts, m, ParseNode(ts, Push(k, r), block, indentless))
  {
    hide ParseNode, MarkedByStack, WeightOfStack, InForce, OwedByStack, On, Weight, Marked;
    PushPop(m.states, r);
    PushInDocument(m.states, r);
    NodeIsGood(ts, Push(k, r), block, indentless);
    var o := ParseNode(ts, Push(k, r), block, indentless);
    if o.Produced? {
      BeginIsAfterNode(OwedBy(m), o.event);
    }
  }

  lemma PushInDocument(states: seq<State>, r: State)
    requires InDocument(states) && Inner(r) && !First(r)
    ensures InDocument(states + [r])
  {}

  /** An empty node. */
  lemma EmptyIsGood(ts: seq<Token>, m: Machine, k: Machine, s: State)
    requires Inv(ts, m) && Inner(m.state) && Inner(s) && !First(s)
    requires m.pos <= k.pos <= |ts| && k.states == m.states && k.directives == m.directives
    requires |k.marks| == MarkedByStack(m.states) + Marked(s)
    requires WantsNode(OwedBy(m)) && AfterNode(OwedBy(m)) == On(s, OwedByStack(m.states))
    requires Weight(s) < 5 * (k.pos - m.pos) + Weight(m.state)
    ensures GoodStep(ts, m, Goto(k, s, EMPTY_SCALAR))
  {
    hide MarkedByStack, WeightOfStack, InForce, OwedByStack, On, Weight, Marked, InDocument;
    BeginIsAfterNode(OwedBy(m), EMPTY_SCALAR);
  }

  /** The end of a collection. */
  lemma CloseIsGood(ts: seq<Token>, m: Machine, k: Machine, e: Event)
    requires Inv(ts, m) && Inner(m.state)
    requires m.pos <= k.pos <= |ts| && k.states == m.states && k.directives == m.directives
    requires |k.marks| == MarkedByStack(m.states) + 1
    requires Accept(OwedBy(m), e) == Accepted(OwedByStack(m.states)) && Weight(m.state) > 0
    ensures GoodStep(ts, m, Close(k, e))
  {
    hide MarkedByStack, WeightOfStack, InForce, OwedByStack, On, Weight, Marked, Accept;
    Popped(m.states);
    hide InDocument;
  }

  // ----- every state -----

  lemma BlockSequenceIsGood(ts: seq<Token>, m: Machine, first: bool)
    requires Inv(ts, m) && m.state == if first then BlockSequenceFirstEntryState else BlockSequenceEntryState
    ensures GoodStep(ts, m, ParseBlockSequenceEntry(ts, m, first))
  {
    hide GoodStep, ParseNode, Close, MarkedByStack, OwedByStack, InForce, InDocument;
    var n := if first then Open(m) else m;
    var o := ParseBlockSequenceEntry(ts, m, first);
    if o.Failed? {
      FailureIsGood(ts, m, o.problem);
    } else if ts[n.pos].BlockEndToken? {
      CloseIsGood(ts, m, Skip(n), SequenceEndEvent);
    } else {
      var k := Skip(n);
      if ts[k.pos].BlockEntryToken? || ts[k.pos].BlockEndToken? {
        EmptyIsGood(ts, m, k, BlockSequenceEntryState);
      } else {
        ChildIsGood(ts, m, k, BlockSequenceEntryState, true, false);
      }
    }
  }

  lemma IndentlessSequenceIsGood(ts: seq<Token>, m: Machine)
    requires Inv(ts, m) && m.state == IndentlessSequenceEntryState
    ensures GoodStep(ts, m, ParseIndentlessSequenceEntry(ts, m))
  {
    hide GoodStep, ParseNode, Return, MarkedByStack, OwedByStack, InForce, InDocument;
    if m.pos < |ts| && !ts[m.pos].BlockEntryToken? {
      ReturnIsGood(ts, m, SequenceEndEvent);
    } else if m.pos + 1 >= |ts| {
      FailureIsGood(ts, m, NoToken);
    } else {
      var k := Skip(m);
      if ts[k.pos].BlockEntryToken? || EndsMappingPart(ts[k.pos]) {
        EmptyIsGood(ts, m, k, IndentlessSequenceEntryState);
      } else {
        ChildIsGood(ts, m, k, IndentlessSequenceEntryState, true, false);
      }
    }
  }

  /** The end of a collection that has no mark, without a token of its own. */
  lemma ReturnIsGood(ts: seq<Token>, m: Machine, e: Event)
    requires Inv(ts, m) && Inner(m.state) && Marked(m.state) == 0 && Weight(m.state) > 0
    requires Accept(OwedBy(m), e) == Accepted(OwedByStack(m.states))
    ensures GoodStep(ts, m, Return(m, e))
  {
    hide MarkedByStack, WeightOfStack, InForce, OwedByStack, On, Weight, Marked, Accept;
    Popped(m.states);
    hide InDocument;
  }

  lemma BlockMappingKeyIsGood(ts: seq<Token>, m: Machine, first: bool)
    requires Inv(ts, m) && m.state == if first then BlockMappingFirstKeyState else BlockMappingKeyState
    ensures GoodStep(ts, m, ParseBlockMappingKey(ts, m, first))
  {
    hide GoodStep, ParseNode, Close, MarkedByStack, OwedByStack, InForce, InDocument;
    var n := if first then Open(m) else m;
    var o := ParseBlockMappingKey(ts, m, first);
    if n.pos >= |ts| || n.pos + 1 > |ts| {
      FailureIsGood(ts, m, NoToken);
    } else if ts[n.pos].BlockEndToken? {
      CloseIsGood(ts, m, Skip(n), MappingEndEvent);
    } else if !ts[n.pos].KeyToken? {
      FailureIsGood(ts, m, ExpectedKey);
    } else if n.pos + 1 >= |ts| {
      FailureIsGood(ts, m, NoToken);
    } else if EndsMappingPart(ts[n.pos + 1]) {
      EmptyIsGood(ts, m, Skip(n), BlockMappingValueState);
    } else {
      ChildIsGood(ts, m, Skip(n), BlockMappingValueState, true, true);
    }
  }

  lemma BlockMappingValueIsGood(ts: seq<Token>, m: Machine)
    requires Inv(ts, m) && m.state == BlockMappingValueState
    ensures GoodStep(ts, m, ParseBlockMappingValue(ts, m))
  {
    hide GoodStep, ParseNode, MarkedByStack, OwedByStack, InForce, InDocument;
    if m.pos >= |ts| || (ts[m.pos].ValueToken? && m.pos + 1 >= |ts|) {
      FailureIsGood(ts, m, NoToken);
    } else if !ts[m.pos].ValueToken? {
      EmptyIsGood(ts, m, m, BlockMappingKeyState);
    } else if EndsMappingPart(ts[m.pos + 1]) {
      EmptyIsGood(ts, m, Skip(m), BlockMappingKeyState);
    } else {
      ChildIsGood(ts, m, Skip(m), BlockMappingKeyState, true, true);
    }
  }

  lemma FlowSequenceIsGood(ts: seq<Token>, m: Machine, first: bool)
    requires Inv(ts, m) && m.state == if first then FlowSequenceFirstEntryState else FlowSequenceEntryState
    ensures GoodStep(ts, m, ParseFlowSequenceEntry(ts, m, first))
  {
    hide GoodStep, ParseNode, Close, MarkedByStack, OwedByStack, InForce, InDocument;
    var n := if first then Open(m) else m;
    var k := if first then n else Skip(n);
    if n.pos >= |ts| {
      FailureIsGood(ts, m, NoToken);
    } else if ts[n.pos].FlowSequenceEndToken? {
      CloseIsGood(ts, m, Skip(n), SequenceEndEvent);
    } else if !first && !ts[n.pos].FlowEntryToken? {
      FailureIsGood(ts, m, ExpectedCommaOrBracket);
    } else if k.pos >= |ts| {
      FailureIsGood(ts, m, NoToken);
    } else if ts[k.pos].KeyToken? {
      FlowPairIsGood(ts, m, Skip(k));
    } else if ts[k.pos].FlowSequenceEndToken? {
      CloseIsGood(ts, m, Skip(k), SequenceEndEvent);
    } else {
      ChildIsGood(ts, m, k, FlowSequenceEntryState, false, false);
    }
  }

  /** A KEY in a flow sequence begins a mapping of one pair. */
  lemma FlowPairIsGood(ts: seq<Token>, m: Machine, k: Machine)
    requires Inv(ts, m) && (m.state.FlowSequenceFirstEntryState? || m.state.FlowSequenceEntryState?)
    requires m.pos < k.pos <= |ts| && k.states == m.states && k.directives == m.directives
    requires |k.marks| == MarkedByStack(m.states) + 1
    ensures GoodStep(ts, m, Goto(k, FlowSequenceEntryMappingKeyState, MappingStartEvent("", "", true, true)))
  {
    hide MarkedByStack, WeightOfStack, InForce, OwedByStack, InDocument;
  }

  lemma FlowPairKeyIsGood(ts: seq<Token>, m: Machine)
    requires Inv(ts, m) && m.state == FlowSequenceEntryMappingKeyState
    ensures GoodStep(ts, m, ParseFlowSequenceEntryMappingKey(ts, m))
  {
    hide GoodStep, ParseNode, MarkedByStack, OwedByStack, InForce, InDocument;
    if m.pos >= |ts| {
      FailureIsGood(ts, m, NoToken);
    } else if ts[m.pos].ValueToken? || ts[m.pos].FlowEntryToken? || ts[m.pos].FlowSequenceEndToken? {
      EmptyIsGood(ts, m, Skip(m), FlowSequenceEntryMappingValueState);
    } else {
      ChildIsGood(ts, m, m, FlowSequenceEntryMappingValueState, false, false);
    }
  }

  lemma FlowPairValueIsGood(ts: seq<Token>, m: Machine)
    requires Inv(ts, m) && m.state == FlowSequenceEntryMappingValueState
    ensures GoodStep(ts, m, ParseFlowSequenceEntryMappingValue(ts, m))
  {
    hide GoodStep, ParseNode, MarkedByStack, OwedByStack, InForce, InDocument;
    if m.pos >= |ts| || (ts[m.pos].ValueToken? && m.pos + 1 >= |ts|) {
      FailureIsGood(ts, m, NoToken);
    } else if !ts[m.pos].ValueToken? {
      EmptyIsGood(ts, m, m, FlowSequenceEntryMappingEndState);
    } else if ts[m.pos + 1].FlowEntryToken? || ts[m.pos + 1].FlowSequenceEndToken? {
      EmptyIsGood(ts, m, Skip(m), FlowSequenceEntryMappingEndState);
    } else {
      ChildIsGood(ts, m, Skip(m), FlowSequenceEntryMappingEndState, false, false);
    }
  }

  lemma FlowPairEndIsGood(ts: seq<Token>, m: Machine)
    requires Inv(ts, m) && m.state == FlowSequenceEntryMappingEndState
    ensures GoodStep(ts, m, ParseFlowSequenceEntryMappingEnd(ts, m))
  {
    hide MarkedByStack, WeightOfStack, InForce, OwedByStack, InDocument;
  }

  lemma FlowMappingKeyIsGood(ts: seq<Token>, m: Machine, first: bool)
    requires Inv(ts, m) && m.state == if first then FlowMappingFirstKeyState else FlowMappingKeyState
    ensures GoodStep(ts, m, ParseFlowMappingKey(ts, m, first))
  {
    hide GoodStep, ParseFlowMappingEntry, Close, MarkedByStack, OwedByStack, InForce, InDocument;
    var n := if first then Open(m) else m;
    var k := if first then n else Skip(n);
    if n.pos >= |ts| {
      FailureIsGood(ts, m, NoToken);
    } else if ts[n.pos].FlowMappingEndToken? {
      CloseIsGood(ts, m, Skip(n), MappingEndEvent);
    } else if !first && !ts[n.pos].FlowEntryToken? {
      FailureIsGood(ts, m, ExpectedCommaOrBrace);
    } else if k.pos >= |ts| {
      FailureIsGood(ts, m, NoToken);
    } else {
      FlowMappingEntryIsGood(ts, m, k);
    }
  }

  lemma FlowMappingEntryIsGood(ts: seq<Token>, m: Machine, k: Machine)
    requires Inv(ts, m) && (m.state == FlowMappingFirstKeyState || m.state == FlowMappingKeyState)
    requires m.pos < k.pos < |ts| && k.states == m.states && k.directives == m.directives
    requires |k.marks| == MarkedByStack(m.states) + 1
    ensures GoodStep(ts, m, ParseFlowMappingEntry(ts, k))
  {
    hide GoodStep, ParseNode, Close, MarkedByStack, OwedByStack, InForce, InDocument;
    if ts[k.pos].KeyToken? && k.pos + 1 >= |ts| {
      FailureIsGood(ts, m, NoToken);
    } else if ts[k.pos].KeyToken? {
      var t := ts[k.pos + 1];
      if t.ValueToken? || t.FlowEntryToken? || t.FlowMappingEndToken? {
        EmptyIsGood(ts, m, Skip(k), FlowMappingValueState);
      } else {
        ChildIsGood(ts, m, Skip(k), FlowMappingValueState, false, false);
      }
    } else if ts[k.pos].FlowMappingEndToken? {
      CloseIsGood(ts, m, Skip(k), MappingEndEvent);
    } else {
      ChildIsGood(ts, m, k, FlowMappingEmptyValueState, false, false);
    }
  }

  lemma FlowMappingValueIsGood(ts: seq<Token>, m: Machine, empty: bool)
    requires Inv(ts, m) && m.state == if empty then FlowMappingEmptyValueState else FlowMappingValueState
    ensures GoodStep(ts, m, ParseFlowMappingValue(ts, m, empty))
  {
    hide GoodStep, ParseNode, MarkedByStack, OwedByStack, InForce, InDocument;
    if m.pos >= |ts| || (!empty && ts[m.pos].ValueToken? && m.pos + 1 >= |ts|) {
      FailureIsGood(ts, m, NoToken);
    } else if empty || !ts[m.pos].ValueToken? {
      EmptyIsGood(ts, m, m, FlowMappingKeyState);
    } else if ts[m.pos + 1].FlowEntryToken? || ts[m.pos + 1].FlowMappingEndToken? {
      EmptyIsGood(ts, m, Skip(m), FlowMappingKeyState);
    } else {
      ChildIsGood(ts, m, Skip(m), FlowMappingKeyState, false, false);
    }
  }

  // ----- documents -----

  predicate NoHandleTwice(ds: seq<Directive>) {
    forall i, j :: 0 <= i < j < |ds| ==> ds[i].handle != ds[j].handle
  }

  lemma DefaultsAreInForce(ds: seq<Directive>)
    requires NoHandleTwice(ds)
    ensures InForce(WithDefaults(ds))
  {
    var one := WithDefault(ds, Directive("!", "!"));
    assert NoHandleTwice(one) && HasHandle(one, "!") by { WithDefaultKeeps(ds, Directive("!", "!")); }
    WithDefaultKeeps(one, Directive("!!", "tag:yaml.org,2002:"));
    assert HasHandle(WithDefaults(ds), "!");
  }

  lemma WithDefaultKeeps(ds: seq<Directive>, d: Directive)
    requires NoHandleTwice(ds)
    ensures NoHandleTwice(WithDefault(ds, d)) && HasHandle(WithDefault(ds, d), d.handle)
    ensures forall h :: HasHandle(ds, h) ==> HasHandle(WithDefault(ds, d), h)
  {
    var r := WithDefault(ds, d);
    if !HasHandle(ds, d.handle) {
      assert r[|ds|].handle == d.handle;
      forall h | HasHandle(ds, h)
        ensures HasHandle(r, h)
      {
        var i :| 0 <= i < |ds| && ds[i].handle == h;
        assert r[i].handle == h;
      }
    }
  }

  lemma {:induction false} DirectivesAreGood(ts: seq<Token>, pos: nat, version: Version, own: seq<Directive>, all: seq<Directive>)
    requires pos <= |ts| && NoHandleTwice(all)
    ensures var d := ProcessDirectives(ts, pos, version, own, all);
      d.Directives? ==> pos <= d.pos < |ts| && InForce(d.all)
    decreases |ts| - pos
  {
    hide WithDefaults, InForce;
    if pos < |ts| {
      if ts[pos].VersionDirectiveToken? {
        DirectivesAreGood(ts, pos + 1, Version(ts[pos].major, ts[pos].minor), own, all);
      } else if ts[pos].TagDirectiveToken? {
        var d := ts[pos].directive;
        if !HasHandle(all, d.handle) {
          DirectivesAreGood(ts, pos + 1, version, own + [d], all + [d]);
        }
      } else {
        DefaultsAreInForce(all);
      }
    }
  }

  lemma DocumentStartIsGood(ts: seq<Token>, m: Machine, implicit: bool)
    requires Inv(ts, m) && m.state == if implicit then ImplicitDocumentStartState else DocumentStartState
    ensures GoodStep(ts, m, ParseDocumentStart(ts, m, implicit))
  {
    hide WithDefaults, InForce, ParseExplicitDocument, GoodStep, OwedByStack, MarkedByStack, WeightOfStack;
    EmptyStacks();
    var k := if implicit then m else m.(pos := SkipDocumentEnds(ts, m.pos));
    if k.pos >= |ts| {
      FailureIsGood(ts, m, NoToken);
    } else if ts[k.pos].StreamEndToken? {
      StreamEndIsGood(ts, m, Skip(k));
    } else if implicit && !StartsExplicitDocument(ts[k.pos]) {
      DefaultsAreInForce([]);
      OpensDocument(ts, m, k.(directives := WithDefaults([])), BlockNodeState, DocumentStartEvent(Unversioned, []));
    } else {
      ExplicitDocumentIsGood(ts, m, k);
    }
  }

  lemma StreamEndIsGood(ts: seq<Token>, m: Machine, k: Machine)
    requires Inv(ts, m) && OwedBy(m) == Documents && Outside(m.state)
    requires k.states == [] && k.marks == [] && k.directives == [] && m.pos < k.pos <= |ts|
    ensures GoodStep(ts, m, Goto(k, EndState, StreamEndEvent))
  {
    hide InForce, OwedByStack;
    EmptyStacks();
  }

  lemma ExplicitDocumentIsGood(ts: seq<Token>, m: Machine, k: Machine)
    requires Inv(ts, m) && (m.state.ImplicitDocumentStartState? || m.state.DocumentStartState?)
    requires k.states == [] && k.marks == [] && k.directives == [] && m.pos <= k.pos < |ts|
    ensures GoodStep(ts, m, ParseExplicitDocument(ts, k))
  {
    hide ProcessDirectives, InForce, GoodStep, Inv, OwedByStack;
    DirectivesAreGood(ts, k.pos, Unversioned, [], []);
    var d := ProcessDirectives(ts, k.pos, Unversioned, [], []);
    var o := ParseExplicitDocument(ts, k);
    assert m.pos <= |ts|;
    if o.Failed? {
      FailureIsGood(ts, m, o.problem);
    } else {
      OpensDocument(ts, m, k.(pos := d.pos + 1, directives := d.all), DocumentContentState, o.event);
    }
  }

  /** The end of the document goes to the bottom of the return stack. */
  lemma OpensDocument(ts: seq<Token>, m: Machine, k: Machine, s: State, e: Event)
    requires Inv(ts, m) && (m.state.ImplicitDocumentStartState? || (m.state.DocumentStartState? && m.pos < k.pos))
    requires k.states == [] && k.marks == [] && m.pos <= k.pos <= |ts| && InForce(k.directives)
    requires (s.BlockNodeState? || s.DocumentContentState?) && e.DocumentStartEvent?
    ensures GoodStep(ts, m, Goto(Push(k, DocumentEndState), s, e))
  {
    hide InForce;
    PushPop([], DocumentEndState);
    EmptyStacks();
    hide OwedByStack, MarkedByStack, WeightOfStack;
  }

  lemma EmptyStacks()
    ensures OwedByStack([]) == Documents && MarkedByStack([]) == 0 && WeightOfStack([]) == 0
  {}

  lemma DocumentContentIsGood(ts: seq<Token>, m: Machine)
    requires Inv(ts, m) && Inner(m.state) && OwedBy(m) == Node(OwedByStack(m.states)) && Weight(m.state) == 2
    requires Marked(m.state) == 0
    ensures GoodStep(ts, m, ParseDocumentContent(ts, m))
    ensures forall block, indentless :: GoodStep(ts, m, ParseNode(ts, m, block, indentless))
  {
    hide ParseNode, Return, OwedByStack, MarkedByStack, WeightOfStack, InForce, InDocument, On;
    forall block, indentless
      ensures GoodStep(ts, m, ParseNode(ts, m, block, indentless))
    {
      NodeIsGood(ts, m, block, indentless);
      NodeIsGoodStep(ts, m, ParseNode(ts, m, block, indentless));
    }
    if m.pos < |ts| && EndsDocument(ts[m.pos]) {
      ReturnsFromNode(ts, m, EMPTY_SCALAR);
      NodeIsGoodStep(ts, m, Return(m, EMPTY_SCALAR));
    }
  }

  lemma NodeIsGoodStep(ts: seq<Token>, m: Machine, o: Outcome)
    requires m.pos <= |ts| && GoodNode(ts, m, o) && OwedBy(m) == Node(OwedByStack(m.states)) && Weight(m.state) == 2
    ensures GoodStep(ts, m, o)
  {
    hide OwedByStack, WeightOfStack, Inv, On, Weight;
  }

  lemma DocumentEndIsGood(ts: seq<Token>, m: Machine)
    requires Inv(ts, m) && m.state == DocumentEndState
    ensures GoodStep(ts, m, ParseDocumentEnd(ts, m))
  {
    EmptyStacks();
  }

  lemma StreamStartIsGood(ts: seq<Token>, m: Machine)
    requires Inv(ts, m) && m.state == StreamStartState
    ensures GoodStep(ts, m, ParseStreamStart(ts, m))
  {
    EmptyStacks();
  }

  /** No step from a state that satisfies the invariant pops an empty stack; the invariant is
      kept, the event is one that the stream may go on with, and the measure goes down. */
  lemma StepIsGood(ts: seq<Token>, m: Machine)
    requires Inv(ts, m) && !m.state.EndState?
    ensures GoodStep(ts, m, Step(ts, m))
  {
    hide GoodStep, Inv, OwedByStack;
    hide ParseStreamStart, ParseDocumentStart, ParseDocumentContent, ParseDocumentEnd, ParseNode;
    hide ParseBlockSequenceEntry, ParseIndentlessSequenceEntry, ParseBlockMappingKey, ParseBlockMappingValue;
    hide ParseFlowSequenceEntry, ParseFlowSequenceEntryMappingKey, ParseFlowSequenceEntryMappingValue;
    hide ParseFlowSequenceEntryMappingEnd, ParseFlowMappingKey, ParseFlowMappingValue;
    match m.state {
      case StreamStartState => StreamStartIsGood(ts, m);
      case ImplicitDocumentStartState => DocumentStartIsGood(ts, m, true);
      case DocumentStartState => DocumentStartIsGood(ts, m, false);
      case DocumentContentState => DocumentContentIsGood(ts, m);
      case DocumentEndState => DocumentEndIsGood(ts, m);
      case BlockNodeState => DocumentContentIsGood(ts, m);
      case BlockNodeOrIndentlessSequenceState => DocumentContentIsGood(ts, m);
      case FlowNodeState => DocumentContentIsGood(ts, m);
      case BlockSequenceFirstEntryState => BlockSequenceIsGood(ts, m, true);
      case BlockSequenceEntryState => BlockSequenceIsGood(ts, m, false);
      case IndentlessSequenceEntryState => IndentlessSequenceIsGood(ts, m);
      case BlockMappingFirstKeyState => BlockMappingKeyIsGood(ts, m, true);
      case BlockMappingKeyState => BlockMappingKeyIsGood(ts, m, false);
      case BlockMappingValueState => BlockMappingValueIsGood(ts, m);
      case FlowSequenceFirstEntryState => FlowSequenceIsGood(ts, m, true);
      case FlowSequenceEntryState => FlowSequenceIsGood(ts, m, false);
      case FlowSequenceEntryMappingKeyState => FlowPairKeyIsGood(ts, m);
      case FlowSequenceEntryMappingValueState => FlowPairValueIsGood(ts, m);
      case FlowSequenceEntryMappingEndState => FlowPairEndIsGood(ts, m);
      case FlowMappingFirstKeyState => FlowMappingKeyIsGood(ts, m, true);
      case FlowMappingKeyState => FlowMappingKeyIsGood(ts, m, false);
      case FlowMappingValueState => FlowMappingValueIsGood(ts, m, false);
      case FlowMappingEmptyValueState => FlowMappingValueIsGood(ts, m, true);
      case EndState =>
    }
  }

  // ----- whole runs -----

  /** The events from a state to the end of the stream or to an error. */
  datatype Run = Run(events: seq<Event>, ended: bool)

  function RunFrom(ts: seq<Token>, m: Machine): Run
    requires Inv(ts, m)
    decreases Measure(ts, m)
  {
    if m.state.EndState? then Run([], true)
    else
      StepIsGood(ts, m);
      match Step(ts, m)
      case Produced(e, n) => var rest := RunFrom(ts, n); Run([e] + rest.events, rest.ended)
      case _ => Run([], false)
  }

  /** One step of a run. */
  lemma RunStep(ts: seq<Token>, m: Machine, e: Event, n: Machine)
    requires Inv(ts, m) && Step(ts, m) == Produced(e, n)
    ensures Inv(ts, n) && RunFrom(ts, m) == Run([e] + RunFrom(ts, n).events, RunFrom(ts, n).ended)
  {
    assert !m.state.EndState?;
    hide Step, OwedByStack, WeightOfStack, Weight, Accept;
    StepIsGood(ts, m);
    hide Inv;
  }

  lemma {:induction false} RunIsAccepted(ts: seq<Token>, m: Machine)
    requires Inv(ts, m)
    ensures var r := RunFrom(ts, m);
      && AcceptAll(OwedBy(m), r.events).Accepted?
      && (r.ended ==> AcceptAll(OwedBy(m), r.events) == Accepted(Nothing))
      && |r.events| <= Measure(ts, m)
    decreases Measure(ts, m)
  {
    hide Inv, Step, Accept, AcceptAll, OwedByStack, WeightOfStack, Weight;
    var r := RunFrom(ts, m);
    if m.state.EndState? {
      NoEvents(OwedBy(m));
    } else {
      StepIsGood(ts, m);
      var o := Step(ts, m);
      if o.Produced? {
        RunIsAccepted(ts, o.next);
        AcceptOne(OwedBy(m), o.event);
        AcceptConcat(OwedBy(m), [o.event], RunFrom(ts, o.next).events);
      } else {
        NoEvents(OwedBy(m));
      }
    }
  }

  lemma InitialIsGood(ts: seq<Token>)
    ensures Inv(ts, INITIAL) && OwedBy(INITIAL) == StreamStart && Measure(ts, INITIAL) == 5 * |ts| + 1
  {}

  /** For every token sequence, well formed or not: the events produced before an error or
      the end are the beginning of a stream, a whole stream if the end was reached, and at
      most five for each token and one more. */
  lemma EventsAreWellNested(ts: seq<Token>)
    ensures Inv(ts, INITIAL)
    ensures var r := RunFrom(ts, INITIAL);
      && AcceptAll(StreamStart, r.events).Accepted?
      && (exists rest: seq<Event> :: IsStream(r.events + rest))
      && (r.ended ==> IsStream(r.events))
      && |r.events| <= 5 * |ts| + 1
  {
    hide AcceptAll;
    InitialIsGood(ts);
    RunIsAccepted(ts, INITIAL);
    PrefixIffAccepted(RunFrom(ts, INITIAL).events);
    StreamIffAccepted(RunFrom(ts, INITIAL).events);
  }
}
