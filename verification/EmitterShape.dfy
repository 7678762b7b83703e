/**
  Where the emitter stands, told from the events alone: the collections that are open, which
  of them are written in flow style, where in each of them the next node goes, and how far it
  is indented.
 */
module EmitterShape {
  import opened Events
  import opened EmitterMachine
  import opened EmitterSafety

  // ----- what the events say -----

  /** Before the first node, before another item or key, or before the value of the key whose
      node begins at event `key`. */
  datatype Place = First | Within | ValueDue(key: nat)

  /** An open collection: the event that started it and the place reached in it. */
  datatype Frame = Frame(start: nat, place: Place)

  predicate IsSequence(es: seq<Event>, j: nat) { j < |es| && es[j].SequenceStartEvent? }

  predicate IsMapping(es: seq<Event>, j: nat) { j < |es| && es[j].MappingStartEvent? }

  /** A node begins at event i inside the innermost collection. */
  function Passed(es: seq<Event>, f: seq<Frame>, i: nat): seq<Frame> {
    if f == [] then []
    else
      var top := f[|f| - 1];
      var place := if IsMapping(es, top.start) && !top.place.ValueDue? then ValueDue(i) else Within;
      f[..|f| - 1] + [Frame(top.start, place)]
  }

  /** The collections that are open after the first k events, outermost first. */
  function Frames(es: seq<Event>, k: nat): seq<Frame>
    requires k <= |es|
  {
    if k == 0 then []
    else
      var f := Frames(es, k - 1);
      match es[k - 1]
      case AliasEvent(_) => Passed(es, f, k - 1)
      case ScalarEvent(_, _, _, _, _, _) => Passed(es, f, k - 1)
      case SequenceStartEvent(_, _, _, _) => Passed(es, f, k - 1) + [Frame(k - 1, First)]
      case MappingStartEvent(_, _, _, _) => Passed(es, f, k - 1) + [Frame(k - 1, First)]
      case SequenceEndEvent => if f == [] then [] else f[..|f| - 1]
      case MappingEndEvent => if f == [] then [] else f[..|f| - 1]
      case _ => f
  }

  /** Flow style is asked for, or needed since the collection is empty. */
  predicate Asks(cfg: Config, es: seq<Event>, j: nat) {
    || cfg.canonical
    || (IsSequence(es, j) && (es[j].flow || (j + 1 < |es| && es[j + 1].SequenceEndEvent?)))
    || (IsMapping(es, j) && (es[j].flow || (j + 1 < |es| && es[j + 1].MappingEndEvent?)))
  }

  /** Is the innermost collection in flow style: does it ask for that, or one around it? */
  predicate InFlow(cfg: Config, es: seq<Event>, f: seq<Frame>) {
    exists c :: 0 <= c < |f| && Asks(cfg, es, f[c].start)
  }

  // ----- what that comes to -----

  /** The state for the innermost collection. */
  function StateOf(cfg: Config, es: seq<Event>, f: seq<Frame>): State
    requires f != []
  {
    var top, flow := f[|f| - 1], InFlow(cfg, es, f);
    if IsSequence(es, top.start) then
      if top.place.First? then if flow then FlowSequenceFirstItemState else BlockSequenceFirstItemState
      else if flow then FlowSequenceItemState else BlockSequenceItemState
    else
      match top.place
      case First => if flow then FlowMappingFirstKeyState else BlockMappingFirstKeyState
      case Within => if flow then FlowMappingKeyState else BlockMappingKeyState
      case ValueDue(key) =>
        var simple := key < |es| && SimpleKey(cfg, es, key);
        if flow then if simple && !cfg.canonical then FlowMappingSimpleValueState else FlowMappingValueState
        else if simple then BlockMappingSimpleValueState else BlockMappingValueState
  }

  function StatesOf(cfg: Config, es: seq<Event>, f: seq<Frame>): seq<State> {
    if f == [] then [] else StatesOf(cfg, es, f[..|f| - 1]) + [StateOf(cfg, es, f)]
  }

  /** How many collections in flow style have been entered. */
  function FlowsIn(cfg: Config, es: seq<Event>, f: seq<Frame>): nat {
    if f == [] then 0
    else FlowsIn(cfg, es, f[..|f| - 1]) + if !f[|f| - 1].place.First? && InFlow(cfg, es, f) then 1 else 0
  }

  /** The indent of a collection at the top is 0, or the best indent in flow style; in an item
      of a block sequence it is two more; otherwise it is the next multiple of the best indent. */
  ghost predicate IndentFits(cfg: Config, es: seq<Event>, f: seq<Frame>, outer: int, indent: int)
    requires f != [] && cfg.bestIndent > 0
  {
    var n := |f| - 1;
    if n == 0 then indent == if InFlow(cfg, es, f) then cfg.bestIndent else 0
    else if IsSequence(es, f[n - 1].start) && !InFlow(cfg, es, f[..n]) then indent == outer + 2
    else outer < indent <= outer + cfg.bestIndent && MultipleOf(indent, cfg.bestIndent)
  }

  /** -1, then an indent for each collection that has been entered. */
  ghost predicate IndentsFit(cfg: Config, es: seq<Event>, f: seq<Frame>, indents: seq<int>)
    requires cfg.bestIndent > 0
  {
    if f == [] then indents == [-1]
    else if f[|f| - 1].place.First? then IndentsFit(cfg, es, f[..|f| - 1], indents)
    else
      var n := |indents| - 1;
      && n > 0 && IndentsFit(cfg, es, f[..|f| - 1], indents[..n])
      && IndentFits(cfg, es, f, indents[n - 1], indents[n])
  }

  predicate Outside(s: State) {
    || s.StreamStartState? || s.FirstDocumentStartState? || s.DocumentStartState?
    || s.DocumentContentState? || s.DocumentEndState? || s.EndState?
  }

  /** The machine stands where the events say. */
  ghost predicate Stands(cfg: Config, es: seq<Event>, f: seq<Frame>, m: Machine)
    requires cfg.bestIndent > 0
  {
    && (if f == [] then Outside(m.state) && m.states == []
        else m.states + [m.state] == [DocumentEndState] + StatesOf(cfg, es, f))
    && m.flowLevel == FlowsIn(cfg, es, f)
    && (!m.state.StreamStartState? ==> IndentsFit(cfg, es, f, m.indents + [m.indent]))
    && (m.state.StreamStartState? ==> m.indents == [])
  }

  /** All frames are of collections, and all but the last have been entered. */
  predicate Proper(es: seq<Event>, f: seq<Frame>) {
    && (forall d :: 0 <= d < |f| ==> IsSequence(es, f[d].start) || IsMapping(es, f[d].start))
    && (forall d :: 0 <= d < |f| - 1 ==> !f[d].place.First?)
    && (forall d :: 0 <= d < |f| && IsSequence(es, f[d].start) ==> !f[d].place.ValueDue?)
  }

  // ----- frames -----

  lemma {:induction false} AllProper(es: seq<Event>, k: nat)
    requires k <= |es|
    ensures Proper(es, Frames(es, k))
  {
    if k > 0 {
      AllProper(es, k - 1);
      var f := Frames(es, k - 1);
      assert Proper(es, Passed(es, f, k - 1));
    }
  }

  /** A collection is in flow style if the one around it is, or if it asks for it. */
  lemma FlowInside(cfg: Config, es: seq<Event>, f: seq<Frame>)
    requires f != []
    ensures InFlow(cfg, es, f) <==> InFlow(cfg, es, f[..|f| - 1]) || Asks(cfg, es, f[|f| - 1].start)
  {
    var g := f[..|f| - 1];
    if InFlow(cfg, es, g) {
      var c :| 0 <= c < |g| && Asks(cfg, es, g[c].start);
      assert Asks(cfg, es, f[c].start);
    }
    if InFlow(cfg, es, f) {
      var c :| 0 <= c < |f| && Asks(cfg, es, f[c].start);
      assert c < |g| ==> Asks(cfg, es, g[c].start);
    }
  }

  /** When all collections have been entered, the level says whether one is in flow style. */
  lemma {:induction false} LevelIsFlow(cfg: Config, es: seq<Event>, f: seq<Frame>)
    requires forall d :: 0 <= d < |f| ==> !f[d].place.First?
    ensures FlowsIn(cfg, es, f) > 0 <==> InFlow(cfg, es, f)
    decreases |f|
  {
    hide Asks, InFlow;
    if f != [] {
      LevelIsFlow(cfg, es, f[..|f| - 1]);
      FlowInside(cfg, es, f);
    } else {
      assert !InFlow(cfg, es, f) by { NoFlow(cfg, es); }
    }
  }

  lemma NoFlow(cfg: Config, es: seq<Event>)
    ensures !InFlow(cfg, es, [])
  {}

  // ----- nodes -----

  /** A scalar's deeper indent is gone again behind it. */
  lemma NodeMoves(cfg: Config, m: Machine, es: seq<Event>, i: nat)
    requires i < |es| && cfg.bestIndent > 0 && m.states != [] && EmitNode(cfg, m, es, i).Stepped?
    ensures BeginsNode(es[i])
    ensures var o := EmitNode(cfg, m, es, i).next;
      && o.flowLevel == m.flowLevel && o.indent == m.indent && o.indents == m.indents
      && (es[i].AliasEvent? || es[i].ScalarEvent? ==> o.states + [o.state] == m.states)
      && (es[i].SequenceStartEvent? || es[i].MappingStartEvent? ==> o.states == m.states)
      && (es[i].SequenceStartEvent? ==>
            o.state == if m.flowLevel > 0 || Asks(cfg, es, i) then FlowSequenceFirstItemState else BlockSequenceFirstItemState)
      && (es[i].MappingStartEvent? ==>
            o.state == if m.flowLevel > 0 || Asks(cfg, es, i) then FlowMappingFirstKeyState else BlockMappingFirstKeyState)
  {
    hide NextIndent;
    if es[i].ScalarEvent? {
      assert (m.indents + [m.indent])[..|m.indents|] == m.indents;
    }
  }

  lemma StatesStep(cfg: Config, es: seq<Event>, f: seq<Frame>, x: Frame)
    ensures (f + [x])[..|f|] == f
    ensures StatesOf(cfg, es, f + [x]) == StatesOf(cfg, es, f) + [StateOf(cfg, es, f + [x])]
    ensures FlowsIn(cfg, es, f + [x]) == FlowsIn(cfg, es, f) + if !x.place.First? && InFlow(cfg, es, f + [x]) then 1 else 0
    ensures InFlow(cfg, es, f + [x]) <==> InFlow(cfg, es, f) || Asks(cfg, es, x.start)
  {
    hide StateOf, InFlow, Asks;
    assert (f + [x])[..|f|] == f;
    FlowInside(cfg, es, f + [x]);
  }

  /** The states below, with the state to return to on top, and everything entered. */
  ghost predicate StandsAtNode(cfg: Config, es: seq<Event>, f: seq<Frame>, m: Machine)
    requires cfg.bestIndent > 0
  {
    && m.states == [DocumentEndState] + StatesOf(cfg, es, f)
    && m.flowLevel == FlowsIn(cfg, es, f) && IndentsFit(cfg, es, f, m.indents + [m.indent])
    && forall d :: 0 <= d < |f| ==> !f[d].place.First?
  }

  lemma NodeStands(cfg: Config, m: Machine, es: seq<Event>, i: nat, f: seq<Frame>)
    requires i < |es| && cfg.bestIndent > 0 && StandsAtNode(cfg, es, f, m) && EmitNode(cfg, m, es, i).Stepped?
    ensures BeginsNode(es[i])
    ensures Stands(cfg, es, if IsSequence(es, i) || IsMapping(es, i) then f + [Frame(i, First)] else f, EmitNode(cfg, m, es, i).next)
  {
    hide StatesOf, StateOf, FlowsIn, InFlow, EmitNode, IndentsFit, Asks;
    NodeMoves(cfg, m, es, i);
    var o := EmitNode(cfg, m, es, i).next;
    if IsSequence(es, i) || IsMapping(es, i) {
      LevelIsFlow(cfg, es, f);
      StatesStep(cfg, es, f, Frame(i, First));
      FirstState(cfg, es, f, i);
      IndentsAtFirst(cfg, es, f, i, m.indents + [m.indent]);
      assert o.states + [o.state] == [DocumentEndState] + (StatesOf(cfg, es, f) + [o.state]);
    } else {
      NodeEnds(cfg, es, f, o);
    }
  }

  /** Nothing open: the document's end comes next. */
  lemma NodeEnds(cfg: Config, es: seq<Event>, f: seq<Frame>, o: Machine)
    requires cfg.bestIndent > 0 && o.states + [o.state] == [DocumentEndState] + StatesOf(cfg, es, f)
    ensures f == [] ==> o.state == DocumentEndState && o.states == []
    ensures f != [] ==> !o.state.StreamStartState?
  {
    var s := o.states + [o.state];
    assert s[|s| - 1] == o.state;
    hide InFlow, SimpleKey;
    if f == [] {
      assert s == [DocumentEndState];
      assert |o.states| == 0;
    } else {
      assert s[|s| - 1] == StateOf(cfg, es, f);
    }
  }

  lemma FirstState(cfg: Config, es: seq<Event>, f: seq<Frame>, i: nat)
    requires IsSequence(es, i) || IsMapping(es, i)
    ensures var flow := InFlow(cfg, es, f + [Frame(i, First)]);
      StateOf(cfg, es, f + [Frame(i, First)]) ==
        if IsSequence(es, i) then if flow then FlowSequenceFirstItemState else BlockSequenceFirstItemState
        else if flow then FlowMappingFirstKeyState else BlockMappingFirstKeyState
  {
    hide InFlow;
  }

  lemma IndentsAtFirst(cfg: Config, es: seq<Event>, f: seq<Frame>, i: nat, indents: seq<int>)
    requires cfg.bestIndent > 0
    ensures IndentsFit(cfg, es, f + [Frame(i, First)], indents) == IndentsFit(cfg, es, f, indents)
  {
    hide IndentFits;
    assert (f + [Frame(i, First)])[..|f|] == f;
  }

  // ----- collections -----

  /** In a collection that has been entered: `below` is around it. */
  ghost predicate StandsInside(cfg: Config, es: seq<Event>, below: seq<Frame>, start: nat, m: Machine)
    requires cfg.bestIndent > 0
  {
    && m.states == [DocumentEndState] + StatesOf(cfg, es, below)
    && m.flowLevel == FlowsIn(cfg, es, below + [Frame(start, Within)])
    && IndentsFit(cfg, es, below + [Frame(start, Within)], m.indents + [m.indent])
    && forall d :: 0 <= d < |below| ==> !below[d].place.First?
  }

  /** The indents and the level do not depend on the place behind the first one. */
  lemma AnyPlace(cfg: Config, es: seq<Event>, below: seq<Frame>, start: nat, place: Place, indents: seq<int>)
    requires cfg.bestIndent > 0 && !place.First?
    ensures var f, g := below + [Frame(start, Within)], below + [Frame(start, place)];
      && FlowsIn(cfg, es, f) == FlowsIn(cfg, es, g) && IndentsFit(cfg, es, f, indents) == IndentsFit(cfg, es, g, indents)
      && InFlow(cfg, es, f) == InFlow(cfg, es, g)
  {
    var f, g := below + [Frame(start, Within)], below + [Frame(start, place)];
    assert f[..|f| - 1] == below && g[..|g| - 1] == below;
    StatesStep(cfg, es, below, Frame(start, Within));
    StatesStep(cfg, es, below, Frame(start, place));
    assert |below| > 0 ==> f[|below| - 1] == g[|below| - 1];
    hide InFlow;
  }

  /** Going into a collection. */
  lemma EnterStands(cfg: Config, es: seq<Event>, below: seq<Frame>, start: nat, m: Machine)
    requires cfg.bestIndent > 0 && Stands(cfg, es, below + [Frame(start, First)], m)
    requires Proper(es, below + [Frame(start, First)])
    ensures var d := Enter(cfg, m, InFlow(cfg, es, below + [Frame(start, First)]));
      d.Stepped? && StandsInside(cfg, es, below, start, d.next)
  {
    hide InFlow, StateOf, NextIndent;
    var f := below + [Frame(start, First)];
    assert f[..|below|] == below;
    StatesStep(cfg, es, below, Frame(start, First));
    StatesStep(cfg, es, below, Frame(start, Within));
    StandsSplit(cfg, es, f, m);
    assert forall d :: 0 <= d < |below| ==> below[d] == f[d];
    EnteredIndent(cfg, es, below, start, m);
  }

  lemma StandsSplit(cfg: Config, es: seq<Event>, f: seq<Frame>, m: Machine)
    requires cfg.bestIndent > 0 && f != [] && m.states + [m.state] == [DocumentEndState] + StatesOf(cfg, es, f)
    ensures m.states == [DocumentEndState] + StatesOf(cfg, es, f[..|f| - 1]) && m.state == StateOf(cfg, es, f)
    ensures !m.state.StreamStartState? && !Outside(m.state)
  {
    hide InFlow, SimpleKey;
    var all, below := m.states + [m.state], StatesOf(cfg, es, f[..|f| - 1]);
    assert [DocumentEndState] + StatesOf(cfg, es, f) == [DocumentEndState] + below + [StateOf(cfg, es, f)];
    assert all[|all| - 1] == m.state && all[..|all| - 1] == m.states;
  }

  lemma {:induction false} IndentsHigh(cfg: Config, es: seq<Event>, f: seq<Frame>, indents: seq<int>)
    requires cfg.bestIndent > 0 && IndentsFit(cfg, es, f, indents) && forall d :: 0 <= d < |f| ==> !f[d].place.First?
    ensures |indents| == |f| + 1 && (f == [] ==> indents[0] == -1) && (f != [] ==> indents[|f|] >= 0)
    decreases |f|
  {
    hide InFlow;
    if f != [] {
      IndentsHigh(cfg, es, f[..|f| - 1], indents[..|indents| - 1]);
    }
  }

  lemma EnteredIndent(cfg: Config, es: seq<Event>, below: seq<Frame>, start: nat, m: Machine)
    requires cfg.bestIndent > 0 && IndentsFit(cfg, es, below + [Frame(start, First)], m.indents + [m.indent])
    requires forall d :: 0 <= d < |below| ==> !below[d].place.First?
    requires Proper(es, below + [Frame(start, First)]) && m.states == [DocumentEndState] + StatesOf(cfg, es, below)
    ensures var flow := InFlow(cfg, es, below + [Frame(start, First)]);
      var d := Deeper(cfg, m, flow);
      && d.Stepped? && d.next.states == m.states && d.next.flowLevel == m.flowLevel
      && IndentsFit(cfg, es, below + [Frame(start, Within)], d.next.indents + [d.next.indent])
  {
    hide InFlow, NextIndent;
    var f, g := below + [Frame(start, First)], below + [Frame(start, Within)];
    var was := m.indents + [m.indent];
    assert f[..|f| - 1] == below && g[..|g| - 1] == below;
    StatesStep(cfg, es, below, Frame(start, First));
    StatesStep(cfg, es, below, Frame(start, Within));
    IndentsHigh(cfg, es, below, was);
    var item := m.states[|m.states| - 1].BlockSequenceItemState?;
    ItemBelow(cfg, es, below, m.states);
    var next := NextIndent(cfg.bestIndent, m.indent, InFlow(cfg, es, f), item);
    assert (was + [next])[..|was|] == was;
    IndentChosen(cfg, es, below, start, m.indent, item);
  }

  /** The state below tells an item of a block sequence. */
  lemma ItemBelow(cfg: Config, es: seq<Event>, below: seq<Frame>, states: seq<State>)
    requires states == [DocumentEndState] + StatesOf(cfg, es, below)
    requires forall d :: 0 <= d < |below| ==> !below[d].place.First?
    ensures states[|states| - 1].BlockSequenceItemState? <==>
      below != [] && IsSequence(es, below[|below| - 1].start) && !InFlow(cfg, es, below)
  {
    hide InFlow, SimpleKey;
  }

  lemma IndentChosen(cfg: Config, es: seq<Event>, below: seq<Frame>, start: nat, indent: int, item: bool)
    requires cfg.bestIndent > 0 && (if below == [] then indent == -1 else indent >= 0)
    requires item <==> below != [] && IsSequence(es, below[|below| - 1].start) && !InFlow(cfg, es, below)
    ensures var g := below + [Frame(start, Within)];
      var flow := InFlow(cfg, es, below + [Frame(start, First)]);
      IndentFits(cfg, es, g, indent, NextIndent(cfg.bestIndent, indent, flow, item))
  {
    var g := below + [Frame(start, Within)];
    assert g[..|below|] == below;
    StatesStep(cfg, es, below, Frame(start, First));
    StatesStep(cfg, es, below, Frame(start, Within));
    hide InFlow;
    IndentGrows(cfg.bestIndent, indent, InFlow(cfg, es, below + [Frame(start, First)]), item);
  }

  /** The end of a collection. */
  lemma CloseStands(cfg: Config, es: seq<Event>, below: seq<Frame>, start: nat, m: Machine)
    requires cfg.bestIndent > 0 && StandsInside(cfg, es, below, start, m)
    ensures var flow := InFlow(cfg, es, below + [Frame(start, Within)]);
      var o := Shallower(m.(flowLevel := m.flowLevel - if flow then 1 else 0));
      o.Stepped? && Stands(cfg, es, below, o.next)
  {
    hide InFlow, StateOf, IndentFits;
    var f := below + [Frame(start, Within)];
    var all := m.indents + [m.indent];
    StatesStep(cfg, es, below, Frame(start, Within));
    assert f[..|f| - 1] == below && all[..|all| - 1] == m.indents;
    var n, k := |m.indents| - 1, |m.states| - 1;
    assert m.indents == m.indents[..n] + [m.indents[n]];
    assert m.states == m.states[..k] + [m.states[k]];
    var o := Shallower(m.(flowLevel := m.flowLevel - if InFlow(cfg, es, f) then 1 else 0));
    NodeEnds(cfg, es, below, o.next);
  }

  /** A node in a collection that has been entered. */
  lemma ChildStands(cfg: Config, es: seq<Event>, i: nat, below: seq<Frame>, start: nat, place: Place, m: Machine)
    requires i < |es| && cfg.bestIndent > 0 && StandsInside(cfg, es, below, start, m) && !place.First?
    requires var r := StateOf(cfg, es, below + [Frame(start, place)]);
      EmitNode(cfg, Push(m, r), es, i).Stepped?
    ensures BeginsNode(es[i])
    ensures var r, g := StateOf(cfg, es, below + [Frame(start, place)]), below + [Frame(start, place)];
      Stands(cfg, es, if IsSequence(es, i) || IsMapping(es, i) then g + [Frame(i, First)] else g, EmitNode(cfg, Push(m, r), es, i).next)
  {
    hide StateOf, InFlow, FlowsIn, IndentsFit, EmitNode, StatesOf, Stands;
    var g := below + [Frame(start, place)];
    var r := StateOf(cfg, es, g);
    AnyPlace(cfg, es, below, start, place, m.indents + [m.indent]);
    StatesStep(cfg, es, below, Frame(start, place));
    assert m.states + [r] == [DocumentEndState] + (StatesOf(cfg, es, below) + [r]);
    assert forall d :: 0 <= d < |g| ==> !g[d].place.First?;
    NodeStands(cfg, Push(m, r), es, i, g);
  }

  /** The place behind a node that begins at event i. */
  function PlaceBehind(es: seq<Event>, top: Frame, i: nat): (p: Place)
    ensures !p.First?
  {
    if IsMapping(es, top.start) && !top.place.ValueDue? then ValueDue(i) else Within
  }

  /** A step in a collection that has been entered, for the state that the place stands for. */
  function InsideStep(cfg: Config, es: seq<Event>, f: seq<Frame>, m: Machine, i: nat): Outcome
    requires i < |es| && cfg.bestIndent > 0 && f != []
  {
    var top, flow := f[|f| - 1], InFlow(cfg, es, f);
    if IsSequence(es, top.start) then if flow then EmitFlowSequenceItem(cfg, m, es, i) else EmitBlockSequenceItem(cfg, m, es, i)
    else if top.place.ValueDue? then EmitNode(cfg, Push(m, if flow then FlowMappingKeyState else BlockMappingKeyState), es, i)
    else if flow then EmitFlowMappingKey(cfg, m, es, i)
    else EmitBlockMappingKey(cfg, m, es, i)
  }

  lemma FramesNext(es: seq<Event>, i: nat)
    requires i < |es|
    ensures var f, e := Frames(es, i), es[i];
      && (e.SequenceEndEvent? || e.MappingEndEvent? ==> f != [] ==> Frames(es, i + 1) == f[..|f| - 1])
      && (BeginsNode(e) && (IsSequence(es, i) || IsMapping(es, i)) ==> Frames(es, i + 1) == Passed(es, f, i) + [Frame(i, First)])
      && (BeginsNode(e) && !(IsSequence(es, i) || IsMapping(es, i)) ==> Frames(es, i + 1) == Passed(es, f, i))
  {}

  lemma InsideStands(cfg: Config, es: seq<Event>, i: nat, f: seq<Frame>, m: Machine)
    requires i < |es| && cfg.bestIndent > 0 && f != [] && Proper(es, f) && f == Frames(es, i)
    requires StandsInside(cfg, es, f[..|f| - 1], f[|f| - 1].start, m) && InsideStep(cfg, es, f, m, i).Stepped?
    ensures Stands(cfg, es, Frames(es, i + 1), InsideStep(cfg, es, f, m, i).next)
  {
    var below, top := f[..|f| - 1], f[|f| - 1];
    var flow := InFlow(cfg, es, f);
    assert flow == InFlow(cfg, es, below + [Frame(top.start, Within)]) by { FlowOfTop(cfg, es, f, Within); }
    hide InFlow, FlowsIn, IndentsFit, EmitNode, StatesOf, Stands, Shallower, StandsInside, SimpleKey, Frames;
    FramesNext(es, i);
    if (IsSequence(es, top.start) && es[i].SequenceEndEvent?)
       || (IsMapping(es, top.start) && !top.place.ValueDue? && es[i].MappingEndEvent?) {
      CloseStands(cfg, es, below, top.start, m);
    } else {
      var place := PlaceBehind(es, top, i);
      FlowOfTop(cfg, es, f, place);
      var r := StateOf(cfg, es, below + [Frame(top.start, place)]);
      assert InsideStep(cfg, es, f, m, i) == EmitNode(cfg, Push(m, r), es, i);
      hide InsideStep, StateOf;
      ChildStands(cfg, es, i, below, top.start, place, m);
      assert Passed(es, f, i) == below + [Frame(top.start, place)];
    }
  }

  lemma FlowOfTop(cfg: Config, es: seq<Event>, f: seq<Frame>, place: Place)
    requires f != []
    ensures InFlow(cfg, es, f[..|f| - 1] + [Frame(f[|f| - 1].start, place)]) == InFlow(cfg, es, f)
  {
    hide InFlow, Asks;
    FlowInside(cfg, es, f);
    StatesStep(cfg, es, f[..|f| - 1], Frame(f[|f| - 1].start, place));
  }

  /** The state machine in a collection: it is entered first if it has not been yet. */
  lemma CollectionStands(cfg: Config, es: seq<Event>, i: nat, m: Machine)
    requires i < |es| && cfg.bestIndent > 0 && Frames(es, i) != [] && Stands(cfg, es, Frames(es, i), m)
    requires StateMachine(cfg, m, es, i).Stepped?
    ensures Stands(cfg, es, Frames(es, i + 1), StateMachine(cfg, m, es, i).next)
  {
    hide Frames, InFlow, FlowsIn, IndentsFit, StatesOf, EmitFlowSequenceItem, EmitBlockSequenceItem, EmitFlowMappingKey, EmitBlockMappingKey, EmitNode, Enter, SimpleKey;
    var f := Frames(es, i);
    var n := |f| - 1;
    AllProper(es, i);
    StandsSplit(cfg, es, f, m);
    assert f == f[..n] + [Frame(f[n].start, f[n].place)];
    if f[n].place.First? {
      EnterStands(cfg, es, f[..n], f[n].start, m);
      var k := Enter(cfg, m, InFlow(cfg, es, f)).next;
      assert StateMachine(cfg, m, es, i) == InsideStep(cfg, es, f, k, i);
      InsideStands(cfg, es, i, f, k);
    } else {
      AnyPlace(cfg, es, f[..n], f[n].start, f[n].place, m.indents + [m.indent]);
      assert StandsInside(cfg, es, f[..n], f[n].start, m);
      assert StateMachine(cfg, m, es, i) == InsideStep(cfg, es, f, m, i);
      InsideStands(cfg, es, i, f, m);
    }
  }

  lemma OutsideStands(cfg: Config, es: seq<Event>, i: nat, m: Machine)
    requires i < |es| && cfg.bestIndent > 0 && Frames(es, i) == [] && Stands(cfg, es, [], m)
    requires StateMachine(cfg, m, es, i).Stepped?
    ensures Stands(cfg, es, Frames(es, i + 1), StateMachine(cfg, m, es, i).next)
  {
    hide EmitNode;
    if m.state.DocumentContentState? {
      assert [] + [DocumentEndState] == [DocumentEndState] + StatesOf(cfg, es, []);
      NodeStands(cfg, Push(m, DocumentEndState), es, i, []);
      assert [] + [Frame(i, First)] == [Frame(i, First)];
    }
  }

  /** After any number of events that are taken, the emitter stands where the events say: the
      states are those of the open collections, each in flow style exactly if it or one around
      it asks for that, the flow level counts the ones entered, and the indents fit. */
  lemma {:induction false} BatchStands(cfg: Config, es: seq<Event>, k: nat)
    requires k <= |es| && cfg.bestIndent > 0 && Batch(cfg, es, k).Stepped?
    ensures Stands(cfg, es, Frames(es, k), Batch(cfg, es, k).next)
  {
    hide StateMachine, Stands, Frames;
    if k == 0 {
      InitialStands(cfg, es);
    } else {
      BatchStands(cfg, es, k - 1);
      var m := Batch(cfg, es, k - 1).next;
      if Frames(es, k - 1) == [] {
        OutsideStands(cfg, es, k - 1, m);
      } else {
        CollectionStands(cfg, es, k - 1, m);
      }
    }
  }

  lemma InitialStands(cfg: Config, es: seq<Event>)
    requires cfg.bestIndent > 0
    ensures Stands(cfg, es, Frames(es, 0), INITIAL)
  {}
}
