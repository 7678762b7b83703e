/**
  The emitter object of emitterc.go as far as its queue of events and its stacks go: events
  come in one at a time, and each call processes as many as it can.
 */
module EventEmitter {
  import opened Events
  import opened EmitterMachine
  import opened EmitterSafety
  import SimpleKeyText
  import ScalarAnalysis

  class Emitter {
    const cfg: Config
    var events: seq<Event>
    var head: nat
    var state: State
    var states: seq<State>
    var indent: int
    var indents: seq<int>
    var flowLevel: int
    var error: bool

    function Snapshot(): Machine
      reads this
    {
      Machine(state, states, indent, indents, flowLevel)
    }

    ghost predicate Did(o: Outcome, ok: bool)
      reads this
    {
      if ok then o == Stepped(Snapshot()) else o.Error?
    }

    /** The machine is where one that sees all the events so far would be. */
    ghost predicate Valid()
      reads this
    {
      && cfg.bestIndent > 0 && head <= |events| && FollowerInView(events, head)
      && (if error then Batch(cfg, events, if head < |events| then head + 1 else head).Error?
          else Batch(cfg, events, head) == Stepped(Snapshot()) && Inv(Snapshot()))
    }

    constructor (cfg: Config)
      requires cfg.bestIndent > 0
      ensures Valid() && this.cfg == cfg && events == [] && !error
    {
      hide Inv, Batch, Step;
      this.cfg := cfg;
      events, head, error := [], 0, false;
      state, states, indent, indents, flowLevel := StreamStartState, [], 0, [], 0;
      new;
      StartsValid(cfg);
    }

    // ----- look-ahead -----

    method NeedMoreEvents() returns (more: bool)
      requires head <= |events|
      ensures more == NeedMore(events, head)
    {
      if head == |events| {
        return true;
      }
      var accumulate := 0;
      if events[head].DocumentStartEvent? {
        accumulate := 1;
      } else if events[head].SequenceStartEvent? {
        accumulate := 2;
      } else if events[head].MappingStartEvent? {
        accumulate := 3;
      } else {
        return false;
      }
      if |events| - head > accumulate {
        return false;
      }
      var level := 0;
      for i := head to |events|
        invariant level == Level(events, head, i)
        invariant forall j :: head < j <= i ==> Level(events, head, j) != 0
      {
        if LevelOf(events[i]) == 1 {
          level := level + 1;
        } else if LevelOf(events[i]) == -1 {
          level := level - 1;
        }
        if level == 0 {
          assert Level(events, head, i + 1) == 0;
          return false;
        }
      }
      return true;
    }

    method CheckEmptySequence() returns (r: bool)
      requires head < |events|
      ensures r == EmptySequence(events, head)
    {
      if |events| - head < 2 {
        return false;
      }
      return events[head].SequenceStartEvent? && events[head + 1].SequenceEndEvent?;
    }

    method CheckEmptyMapping() returns (r: bool)
      requires head < |events|
      ensures r == EmptyMapping(events, head)
    {
      if |events| - head < 2 {
        return false;
      }
      return events[head].MappingStartEvent? && events[head + 1].MappingEndEvent?;
    }

    method CheckSimpleKey() returns (r: bool)
      requires head < |events|
      ensures r == SimpleKey(cfg, events, head)
    {
      var e := events[head];
      var length := 0;
      var tag := cfg.tag(e);
      match e {
        case AliasEvent(name) => length := length + SimpleKeyText.Bytes(name);
        case ScalarEvent(anchor, _, value, _, _, _) =>
          if ScalarAnalysis.HasBreak(value) {
            return false;
          }
          length := length + SimpleKeyText.Bytes(anchor) + SimpleKeyText.Bytes(tag.handle)
            + SimpleKeyText.Bytes(tag.suffix) + SimpleKeyText.Bytes(value);
        case SequenceStartEvent(anchor, _, _, _) =>
          var empty := CheckEmptySequence();
          if !empty {
            return false;
          }
          length := length + SimpleKeyText.Bytes(anchor) + SimpleKeyText.Bytes(tag.handle) + SimpleKeyText.Bytes(tag.suffix);
        case MappingStartEvent(anchor, _, _, _) =>
          var empty := CheckEmptyMapping();
          if !empty {
            return false;
          }
          length := length + SimpleKeyText.Bytes(anchor) + SimpleKeyText.Bytes(tag.handle) + SimpleKeyText.Bytes(tag.suffix);
        case _ => return false;
      }
      return length <= SimpleKeyText.MAX_KEY_BYTES;
    }

    // ----- stacks -----

    method PopState()
      requires states != []
      modifies this`state, this`states
      ensures Stepped(Snapshot()) == Return(old(Snapshot()))
    {
      state := states[|states| - 1];
      states := states[..|states| - 1];
    }

    method PopIndent()
      requires indents != []
      modifies this`indent, this`indents
      ensures indent == old(indents)[|old(indents)| - 1] && indents == old(indents)[..|old(indents)| - 1]
    {
      indent := indents[|indents| - 1];
      indents := indents[..|indents| - 1];
    }

    method IncreaseIndent(flow: bool)
      requires cfg.bestIndent > 0 && Deeper(cfg, Snapshot(), flow).Stepped?
      modifies this`indent, this`indents
      ensures Stepped(Snapshot()) == Deeper(cfg, old(Snapshot()), flow)
    {
      indents := indents + [indent];
      if indent < 0 {
        if flow {
          indent := cfg.bestIndent;
        } else {
          indent := 0;
        }
      } else if states[|states| - 1].BlockSequenceItemState? {
        indent := indent + 2;
      } else {
        indent := cfg.bestIndent * ((indent + cfg.bestIndent) / cfg.bestIndent);
      }
    }

    method CloseCollection()
      requires Shallower(Snapshot()).Stepped?
      modifies this`indent, this`indents, this`state, this`states
      ensures Stepped(Snapshot()) == Shallower(old(Snapshot()))
    {
      PopIndent();
      PopState();
    }

    // ----- nodes -----

    method EmitNode() returns (ok: bool)
      requires head < |events| && cfg.bestIndent > 0
      requires !EmitterMachine.EmitNode(cfg, Snapshot(), events, head).Fault?
      modifies this`state, this`states, this`indent, this`indents
      ensures Did(EmitterMachine.EmitNode(cfg, old(Snapshot()), events, head), ok)
    {
      hide Deeper, Shallower, Return;
      var e := events[head];
      ok := true;
      if e.AliasEvent? {
        ReturnNeedsState(Snapshot());
        PopState();
      } else if e.ScalarEvent? {
        DeeperSteps(cfg, Snapshot(), true);
        IncreaseIndent(true);
        ShallowerSteps(Snapshot());
        CloseCollection();
      } else if e.SequenceStartEvent? {
        var flow := flowLevel > 0 || cfg.canonical || e.flow;
        if !flow {
          flow := CheckEmptySequence();
        }
        state := if flow then FlowSequenceFirstItemState else BlockSequenceFirstItemState;
      } else if e.MappingStartEvent? {
        var flow := flowLevel > 0 || cfg.canonical || e.flow;
        if !flow {
          flow := CheckEmptyMapping();
        }
        state := if flow then FlowMappingFirstKeyState else BlockMappingFirstKeyState;
      } else {
        ok := false;
      }
    }

    method EmitFlowSequenceItem() returns (ok: bool)
      requires head < |events| && cfg.bestIndent > 0
      requires !EmitterMachine.EmitFlowSequenceItem(cfg, Snapshot(), events, head).Fault?
      modifies this`state, this`states, this`indent, this`indents, this`flowLevel
      ensures Did(EmitterMachine.EmitFlowSequenceItem(cfg, old(Snapshot()), events, head), ok)
    {
      hide EmitterMachine.EmitNode, Shallower;
      if events[head].SequenceEndEvent? {
        flowLevel := flowLevel - 1;
        ShallowerSteps(Snapshot());
        CloseCollection();
        return true;
      }
      states := states + [FlowSequenceItemState];
      ok := EmitNode();
    }

    method EmitFlowMappingKey() returns (ok: bool)
      requires head < |events| && cfg.bestIndent > 0
      requires !EmitterMachine.EmitFlowMappingKey(cfg, Snapshot(), events, head).Fault?
      modifies this`state, this`states, this`indent, this`indents, this`flowLevel
      ensures Did(EmitterMachine.EmitFlowMappingKey(cfg, old(Snapshot()), events, head), ok)
    {
      hide EmitterMachine.EmitNode, Shallower, SimpleKey;
      if events[head].MappingEndEvent? {
        flowLevel := flowLevel - 1;
        ShallowerSteps(Snapshot());
        CloseCollection();
        return true;
      }
      var simple := CheckSimpleKey();
      if !cfg.canonical && simple {
        states := states + [FlowMappingSimpleValueState];
      } else {
        states := states + [FlowMappingValueState];
      }
      ok := EmitNode();
    }

    method EmitBlockSequenceItem() returns (ok: bool)
      requires head < |events| && cfg.bestIndent > 0
      requires !EmitterMachine.EmitBlockSequenceItem(cfg, Snapshot(), events, head).Fault?
      modifies this`state, this`states, this`indent, this`indents
      ensures Did(EmitterMachine.EmitBlockSequenceItem(cfg, old(Snapshot()), events, head), ok)
    {
      hide EmitterMachine.EmitNode, Shallower;
      if events[head].SequenceEndEvent? {
        ShallowerSteps(Snapshot());
        CloseCollection();
        return true;
      }
      states := states + [BlockSequenceItemState];
      ok := EmitNode();
    }

    method EmitBlockMappingKey() returns (ok: bool)
      requires head < |events| && cfg.bestIndent > 0
      requires !EmitterMachine.EmitBlockMappingKey(cfg, Snapshot(), events, head).Fault?
      modifies this`state, this`states, this`indent, this`indents
      ensures Did(EmitterMachine.EmitBlockMappingKey(cfg, old(Snapshot()), events, head), ok)
    {
      hide EmitterMachine.EmitNode, Shallower, SimpleKey;
      if events[head].MappingEndEvent? {
        ShallowerSteps(Snapshot());
        CloseCollection();
        return true;
      }
      var simple := CheckSimpleKey();
      states := states + [if simple then BlockMappingSimpleValueState else BlockMappingValueState];
      ok := EmitNode();
    }

    /** The root node, or the value of a mapping: `r` is the state to return to. */
    method EmitUnder(r: State) returns (ok: bool)
      requires head < |events| && cfg.bestIndent > 0
      requires !EmitterMachine.EmitNode(cfg, Push(Snapshot(), r), events, head).Fault?
      modifies this`state, this`states, this`indent, this`indents
      ensures Did(EmitterMachine.EmitNode(cfg, Push(old(Snapshot()), r), events, head), ok)
    {
      hide EmitterMachine.EmitNode;
      states := states + [r];
      ok := EmitNode();
    }

    /** The first item or key: the indicator has been written, and it goes deeper. */
    method EnterCollection(flow: bool)
      requires cfg.bestIndent > 0 && Enter(cfg, Snapshot(), flow).Stepped?
      modifies this`indent, this`indents, this`flowLevel
      ensures Stepped(Snapshot()) == Enter(cfg, old(Snapshot()), flow)
    {
      hide Deeper;
      IncreaseIndent(flow);
      if flow {
        flowLevel := flowLevel + 1;
      }
    }

    method EmitDocumentStart() returns (ok: bool)
      requires head < |events|
      modifies this`state
      ensures Did(EmitterMachine.EmitDocumentStart(old(Snapshot()), events[head]), ok)
    {
      ok := true;
      if events[head].DocumentStartEvent? {
        state := DocumentContentState;
      } else if events[head].StreamEndEvent? {
        state := EndState;
      } else {
        ok := false;
      }
    }

    /** `yaml_emitter_state_machine`. */
    method RunStateMachine() returns (ok: bool)
      requires head < |events| && cfg.bestIndent > 0 && !StateMachine(cfg, Snapshot(), events, head).Fault?
      modifies this`state, this`states, this`indent, this`indents, this`flowLevel
      ensures Did(StateMachine(cfg, old(Snapshot()), events, head), ok)
    {
      hide EmitterMachine.EmitNode, EmitterMachine.EmitFlowSequenceItem, EmitterMachine.EmitFlowMappingKey;
      hide EmitterMachine.EmitBlockSequenceItem, EmitterMachine.EmitBlockMappingKey, EmitterMachine.EmitDocumentStart, Enter;
      match state {
        case StreamStartState =>
          ok := events[head].StreamStartEvent?;
          if ok {
            indent := -1;
            state := FirstDocumentStartState;
          }
        case FirstDocumentStartState => ok := EmitDocumentStart();
        case DocumentStartState => ok := EmitDocumentStart();
        case DocumentContentState => ok := EmitUnder(DocumentEndState);
        case DocumentEndState =>
          ok := events[head].DocumentEndEvent?;
          if ok {
            state := DocumentStartState;
          }
        case FlowSequenceFirstItemState =>
          EnterSteps(cfg, Snapshot(), true);
          EnterCollection(true);
          ok := EmitFlowSequenceItem();
        case FlowSequenceItemState => ok := EmitFlowSequenceItem();
        case FlowMappingFirstKeyState =>
          EnterSteps(cfg, Snapshot(), true);
          EnterCollection(true);
          ok := EmitFlowMappingKey();
        case FlowMappingKeyState => ok := EmitFlowMappingKey();
        case FlowMappingSimpleValueState => ok := EmitUnder(FlowMappingKeyState);
        case FlowMappingValueState => ok := EmitUnder(FlowMappingKeyState);
        case BlockSequenceFirstItemState =>
          EnterSteps(cfg, Snapshot(), false);
          EnterCollection(false);
          ok := EmitBlockSequenceItem();
        case BlockSequenceItemState => ok := EmitBlockSequenceItem();
        case BlockMappingFirstKeyState =>
          EnterSteps(cfg, Snapshot(), false);
          EnterCollection(false);
          ok := EmitBlockMappingKey();
        case BlockMappingKeyState => ok := EmitBlockMappingKey();
        case BlockMappingSimpleValueState => ok := EmitUnder(BlockMappingKeyState);
        case BlockMappingValueState => ok := EmitUnder(BlockMappingKeyState);
        case EndState => ok := false;
      }
    }

    /** `yaml_emitter_emit`. */
    method Emit(e: Event) returns (ok: bool)
      requires Valid() && !error
      modifies this
      ensures Valid() && events == old(events) + [e] && error == !ok
      ensures ok ==> NeedMore(events, head)
      ensures !ok ==> head < |events| && Batch(cfg, events, head + 1).Error?
    {
      hide Batch, StateMachine, NeedMore, Inv, Step;
      BatchExtends(cfg, events, events + [e], head);
      events := events + [e];
      var more := NeedMoreEvents();
      while !more
        invariant Valid() && !error && events == old(events) + [e] && more == NeedMore(events, head)
        decreases |events| - head
      {
        AtHead(events, head);
        OneStep(cfg, Snapshot(), events, head);
        BatchStep(cfg, events, head);
        if cfg.refused(events[head]) {
          error := true;
          return false;
        }
        ok := RunStateMachine();
        if !ok {
          error := true;
          return;
        }
        head := head + 1;
        more := NeedMoreEvents();
      }
      return true;
    }
  }

  lemma StartsValid(cfg: Config)
    requires cfg.bestIndent > 0
    ensures Batch(cfg, [], 0) == Stepped(Machine(StreamStartState, [], 0, [], 0))
    ensures Inv(Machine(StreamStartState, [], 0, [], 0))
  {
    hide Inv, Step;
    InitialIsGood();
  }

  lemma ReturnNeedsState(m: Machine)
    ensures Return(m).Fault? <==> m.states == []
  {}

  lemma ShallowerSteps(m: Machine)
    ensures Shallower(m).Fault? || Shallower(m).Stepped?
  {}

  lemma DeeperSteps(cfg: Config, m: Machine, flow: bool)
    requires cfg.bestIndent > 0
    ensures Deeper(cfg, m, flow).Fault? || Deeper(cfg, m, flow).Stepped?
  {}

  lemma EnterSteps(cfg: Config, m: Machine, flow: bool)
    requires cfg.bestIndent > 0
    ensures Enter(cfg, m, flow).Fault? || Enter(cfg, m, flow).Stepped?
  {}

  /** When no more events are needed there is one to process, and what follows it is in view. */
  lemma AtHead(es: seq<Event>, head: nat)
    requires head <= |es| && !NeedMore(es, head)
    ensures head < |es| && FollowerInView(es, head + 1)
  {
    if head < |es| && (es[head].SequenceStartEvent? || es[head].MappingStartEvent?) {
      NextInView(es, head);
    }
  }

  lemma OneStep(cfg: Config, m: Machine, es: seq<Event>, i: nat)
    requires i < |es| && cfg.bestIndent > 0 && Inv(m)
    ensures var o := StateMachine(cfg, m, es, i);
      && !o.Fault? && (o.Stepped? ==> Inv(o.next))
      && Step(cfg, m, es, i) == if cfg.refused(es[i]) then Error else o
  {
    hide StateMachine, Inv, Accept;
    StepIsGood(cfg, m, es, i);
  }

  lemma BatchStep(cfg: Config, es: seq<Event>, k: nat)
    requires k < |es| && cfg.bestIndent > 0
    ensures Batch(cfg, es, k).Stepped? ==> Batch(cfg, es, k + 1) == Step(cfg, Batch(cfg, es, k).next, es, k)
  {
    hide Step;
  }
}
