/**
  The parser object of parserc.go: its methods change the state, the return stack, the mark
  stack, the tag directives and the position in the token queue step by step, and each is
  proved to do what ParserMachine says. The requirement that the machine does not fault is
  what ParserSafety proves of every reachable state.
 */
module Parser {
  import opened Basics
  import opened Events
  import opened ParserMachine
  import opened ParserSafety

  datatype Parsed = NoEvent | Event(event: Events.Event)

  class Parser {
    const tokens: seq<Token>
    var pos: nat
    var state: State
    var states: seq<State>
    var marks: seq<nat>
    var directives: seq<Directive>
    var streamEndProduced: bool
    var error: bool
    var problem: Problem

    function Snapshot(): Machine
      reads this
    {
      Machine(pos, state, states, marks, directives)
    }

    /** A method has done what the machine says. */
    ghost predicate Did(o: Outcome, ok: bool, e: Events.Event)
      reads this
    {
      && (if ok then o == Produced(e, Snapshot()) else o == Failed(problem))
      && error == !ok
      && (ok && streamEndProduced ==> state.EndState?)
    }

    ghost predicate Valid()
      reads this
    {
      && (!error ==> Inv(tokens, Snapshot()))
      && (!error && streamEndProduced ==> state.EndState?)
    }

    constructor (tokens: seq<Token>)
      ensures this.tokens == tokens && Snapshot() == INITIAL && Valid() && !error
    {
      this.tokens := tokens;
      pos, state, states, marks, directives := 0, StreamStartState, [], [], [];
      streamEndProduced, error, problem := false, false, NoToken;
      new;
      InitialIsGood(tokens);
    }

    // ----- tokens and errors -----

    method Peek() returns (ok: bool, t: Token)
      requires !error
      modifies this`problem, this`error
      ensures ok == (pos < |tokens|) && error == !ok
      ensures if ok then t == tokens[pos] && problem == old(problem) else problem == NoToken
    {
      if pos < |tokens| {
        return true, tokens[pos];
      }
      t := StreamEndToken;
      ok := SetError(NoToken);
    }

    method SkipToken()
      requires pos < |tokens|
      modifies this`pos, this`streamEndProduced
      ensures pos == old(pos) + 1 && streamEndProduced == tokens[old(pos)].StreamEndToken?
    {
      streamEndProduced := tokens[pos].StreamEndToken?;
      pos := pos + 1;
    }

    method SetError(p: Problem) returns (ok: bool)
      modifies this`problem, this`error
      ensures !ok && problem == p && error
    {
      error, problem := true, p;
      ok := false;
    }

    method PopState()
      requires states != []
      modifies this`state, this`states
      ensures state == old(states)[|old(states)| - 1] && states == old(states)[..|old(states)| - 1]
    {
      state := states[|states| - 1];
      states := states[..|states| - 1];
    }

    method PopMark()
      requires marks != []
      modifies this`marks
      ensures marks == old(marks)[..|old(marks)| - 1]
    {
      marks := marks[..|marks| - 1];
    }

    /** Marks the beginning of a collection at its first token. */
    method OpenMark() returns (ok: bool)
      requires !error
      modifies this`pos, this`marks, this`streamEndProduced, this`problem, this`error
      ensures ok == (old(pos) < |tokens|) && error == !ok
      ensures ok ==> Snapshot() == Open(old(Snapshot())) && streamEndProduced == tokens[old(pos)].StreamEndToken?
      ensures !ok ==> problem == NoToken
    {
      var t;
      ok, t := Peek();
      if ok {
        marks := marks + [pos];
        SkipToken();
      }
    }

    // ----- nodes -----

    method FindTag(handle: string, suffix: string) returns (tag: string)
      ensures tag == Resolve(directives, handle, suffix)
    {
      tag := "";
      for i := 0 to |directives|
        invariant Resolve(directives, handle, suffix) == Resolve(directives[i..], handle, suffix)
      {
        if directives[i].handle == handle {
          return directives[i].prefix + suffix;
        }
        assert directives[i..][1..] == directives[i + 1..];
      }
    }

    method ReadProperties() returns (ok: bool, p: Properties)
      requires !error && pos < |tokens| && !tokens[pos].AliasToken?
      requires !streamEndProduced
      modifies this`pos, this`streamEndProduced, this`problem, this`error
      ensures !streamEndProduced
      ensures p == ParseProperties(tokens, old(pos)) && pos == p.pos
      ensures ok == (pos < |tokens|) && error == !ok && (!ok ==> problem == NoToken)
    {
      ok := true;
      var anchor, tagged, handle, suffix := "", false, "", "";
      var t := tokens[pos];
      if t.AnchorToken? {
        anchor := t.name;
        SkipToken();
        ok, t := Peek();
        if ok && t.TagToken? {
          tagged, handle, suffix := true, t.handle, t.suffix;
          SkipToken();
          ok, t := Peek();
        }
      } else if t.TagToken? {
        tagged, handle, suffix := true, t.handle, t.suffix;
        SkipToken();
        ok, t := Peek();
        if ok && t.AnchorToken? {
          anchor := t.name;
          SkipToken();
          ok, t := Peek();
        }
      }
      p := Properties(anchor, tagged, handle, suffix, pos);
    }

    method ParseNode(block: bool, indentless: bool) returns (ok: bool, e: Events.Event)
      requires !error && !streamEndProduced
      requires !ParserMachine.ParseNode(tokens, Snapshot(), block, indentless).Fault?
      modifies this
      ensures Did(ParserMachine.ParseNode(tokens, old(Snapshot()), block, indentless), ok, e)
    {
      hide ParserMachine.ParseContent, ParseProperties, Resolve;
      e := StreamEndEvent;
      var t;
      ok, t := Peek();
      if !ok {
        return;
      }
      if t.AliasToken? {
        PopState();
        SkipToken();
        return true, AliasEvent(t.name);
      }
      var p;
      ok, p := ReadProperties();
      if !ok {
        return;
      }
      var tag := "";
      if p.tagged {
        if p.handle == "" {
          tag := p.suffix;
        } else {
          tag := FindTag(p.handle, p.suffix);
          if tag == "" {
            ok := SetError(UndefinedTagHandle);
            return;
          }
        }
      }
      ok, e := ParseContent(block, indentless, p.anchor, tag);
    }

    method ParseContent(block: bool, indentless: bool, anchor: string, tag: string) returns (ok: bool, e: Events.Event)
      requires !error && !streamEndProduced && pos < |tokens|
      requires !ParserMachine.ParseContent(tokens[pos], Snapshot(), block, indentless, anchor, tag).Fault?
      modifies this
      ensures Did(ParserMachine.ParseContent(tokens[old(pos)], old(Snapshot()), block, indentless, anchor, tag), ok, e)
    {
      var t := tokens[pos];
      var implicit := tag == "";
      ok, e := true, StreamEndEvent;
      if indentless && t.BlockEntryToken? {
        state := IndentlessSequenceEntryState;
        return true, SequenceStartEvent(anchor, tag, implicit, false);
      }
      if t.ScalarToken? {
        var plainImplicit, quotedImplicit := false, false;
        if (tag == "" && t.style.Plain?) || (|tag| == 1 && tag[0] == '!') {
          plainImplicit := true;
        } else if tag == "" {
          quotedImplicit := true;
        }
        PopState();
        SkipToken();
        return true, ScalarEvent(anchor, tag, t.value, plainImplicit, quotedImplicit, t.style);
      }
      if t.FlowSequenceStartToken? {
        state := FlowSequenceFirstEntryState;
        return true, SequenceStartEvent(anchor, tag, implicit, true);
      }
      if t.FlowMappingStartToken? {
        state := FlowMappingFirstKeyState;
        return true, MappingStartEvent(anchor, tag, implicit, true);
      }
      if block && t.BlockSequenceStartToken? {
        state := BlockSequenceFirstEntryState;
        return true, SequenceStartEvent(anchor, tag, implicit, false);
      }
      if block && t.BlockMappingStartToken? {
        state := BlockMappingFirstKeyState;
        return true, MappingStartEvent(anchor, tag, implicit, false);
      }
      if anchor != "" || tag != "" {
        PopState();
        return true, ScalarEvent(anchor, tag, "", implicit, false, Plain);
      }
      ok := SetError(ExpectedNodeContent);
    }

    method EmptyScalar() returns (ok: bool, e: Events.Event)
      ensures ok && e == EMPTY_SCALAR
    {
      return true, ScalarEvent("", "", "", true, false, Plain);
    }

    // ----- block collections -----

    method ParseBlockSequenceEntry(first: bool) returns (ok: bool, e: Events.Event)
      requires !error && !streamEndProduced && (first ==> pos < |tokens| && !tokens[pos].StreamEndToken?)
      requires !ParserMachine.ParseBlockSequenceEntry(tokens, Snapshot(), first).Fault?
      modifies this
      ensures Did(ParserMachine.ParseBlockSequenceEntry(tokens, old(Snapshot()), first), ok, e)
    {
      hide ParserMachine.ParseNode;
      e := StreamEndEvent;
      if first {
        ok := OpenMark();
        if !ok {
          return;
        }
      }
      var t;
      ok, t := Peek();
      if !ok {
        return;
      }
      if t.BlockEntryToken? {
        SkipToken();
        ok, t := Peek();
        if !ok {
          return;
        }
        if !t.BlockEntryToken? && !t.BlockEndToken? {
          states := states + [BlockSequenceEntryState];
          ok, e := ParseNode(true, false);
        } else {
          state := BlockSequenceEntryState;
          ok, e := EmptyScalar();
        }
      } else if t.BlockEndToken? {
        PopState();
        PopMark();
        SkipToken();
        return true, SequenceEndEvent;
      } else {
        PopMark();
        ok := SetError(ExpectedBlockEntry);
      }
    }

    method ParseIndentlessSequenceEntry() returns (ok: bool, e: Events.Event)
      requires !error && !streamEndProduced
      requires !ParserMachine.ParseIndentlessSequenceEntry(tokens, Snapshot()).Fault?
      modifies this
      ensures Did(ParserMachine.ParseIndentlessSequenceEntry(tokens, old(Snapshot())), ok, e)
    {
      hide ParserMachine.ParseNode;
      e := StreamEndEvent;
      var t;
      ok, t := Peek();
      if !ok {
        return;
      }
      if t.BlockEntryToken? {
        SkipToken();
        ok, t := Peek();
        if !ok {
          return;
        }
        if !t.BlockEntryToken? && !t.KeyToken? && !t.ValueToken? && !t.BlockEndToken? {
          states := states + [IndentlessSequenceEntryState];
          ok, e := ParseNode(true, false);
        } else {
          state := IndentlessSequenceEntryState;
          ok, e := EmptyScalar();
        }
      } else {
        PopState();
        return true, SequenceEndEvent;
      }
    }

    method ParseBlockMappingKey(first: bool) returns (ok: bool, e: Events.Event)
      requires !error && !streamEndProduced && (first ==> pos < |tokens| && !tokens[pos].StreamEndToken?)
      requires !ParserMachine.ParseBlockMappingKey(tokens, Snapshot(), first).Fault?
      modifies this
      ensures Did(ParserMachine.ParseBlockMappingKey(tokens, old(Snapshot()), first), ok, e)
    {
      hide ParserMachine.ParseNode;
      e := StreamEndEvent;
      if first {
        ok := OpenMark();
        if !ok {
          return;
        }
      }
      var t;
      ok, t := Peek();
      if !ok {
        return;
      }
      if t.KeyToken? {
        SkipToken();
        ok, t := Peek();
        if !ok {
          return;
        }
        if !t.KeyToken? && !t.ValueToken? && !t.BlockEndToken? {
          states := states + [BlockMappingValueState];
          ok, e := ParseNode(true, true);
        } else {
          state := BlockMappingValueState;
          ok, e := EmptyScalar();
        }
      } else if t.BlockEndToken? {
        PopState();
        PopMark();
        SkipToken();
        return true, MappingEndEvent;
      } else {
        PopMark();
        ok := SetError(ExpectedKey);
      }
    }

    method ParseBlockMappingValue() returns (ok: bool, e: Events.Event)
      requires !error && !streamEndProduced
      requires !ParserMachine.ParseBlockMappingValue(tokens, Snapshot()).Fault?
      modifies this
      ensures Did(ParserMachine.ParseBlockMappingValue(tokens, old(Snapshot())), ok, e)
    {
      hide ParserMachine.ParseNode;
      e := StreamEndEvent;
      var t;
      ok, t := Peek();
      if !ok {
        return;
      }
      if t.ValueToken? {
        SkipToken();
        ok, t := Peek();
        if !ok {
          return;
        }
        if !t.KeyToken? && !t.ValueToken? && !t.BlockEndToken? {
          states := states + [BlockMappingKeyState];
          ok, e := ParseNode(true, true);
          return;
        }
      }
      state := BlockMappingKeyState;
      ok, e := EmptyScalar();
    }

    // ----- flow collections -----

    method ParseFlowSequenceEntry(first: bool) returns (ok: bool, e: Events.Event)
      requires !error && !streamEndProduced && (first ==> pos < |tokens| && !tokens[pos].StreamEndToken?)
      requires !ParserMachine.ParseFlowSequenceEntry(tokens, Snapshot(), first).Fault?
      modifies this
      ensures Did(ParserMachine.ParseFlowSequenceEntry(tokens, old(Snapshot()), first), ok, e)
    {
      hide ParserMachine.ParseNode;
      e := StreamEndEvent;
      if first {
        ok := OpenMark();
        if !ok {
          return;
        }
      }
      var t;
      ok, t := Peek();
      if !ok {
        return;
      }
      if !t.FlowSequenceEndToken? {
        if !first {
          if t.FlowEntryToken? {
            SkipToken();
            ok, t := Peek();
            if !ok {
              return;
            }
          } else {
            PopMark();
            ok := SetError(ExpectedCommaOrBracket);
            return;
          }
        }
        if t.KeyToken? {
          state := FlowSequenceEntryMappingKeyState;
          SkipToken();
          return true, MappingStartEvent("", "", true, true);
        } else if !t.FlowSequenceEndToken? {
          states := states + [FlowSequenceEntryState];
          ok, e := ParseNode(false, false);
          return;
        }
      }
      PopState();
      PopMark();
      SkipToken();
      return true, SequenceEndEvent;
    }

    method ParseFlowSequenceEntryMappingKey() returns (ok: bool, e: Events.Event)
      requires !error && !streamEndProduced
      requires !ParserMachine.ParseFlowSequenceEntryMappingKey(tokens, Snapshot()).Fault?
      modifies this
      ensures Did(ParserMachine.ParseFlowSequenceEntryMappingKey(tokens, old(Snapshot())), ok, e)
    {
      hide ParserMachine.ParseNode;
      e := StreamEndEvent;
      var t;
      ok, t := Peek();
      if !ok {
        return;
      }
      if !t.ValueToken? && !t.FlowEntryToken? && !t.FlowSequenceEndToken? {
        states := states + [FlowSequenceEntryMappingValueState];
        ok, e := ParseNode(false, false);
        return;
      }
      SkipToken();
      state := FlowSequenceEntryMappingValueState;
      ok, e := EmptyScalar();
    }

    method ParseFlowSequenceEntryMappingValue() returns (ok: bool, e: Events.Event)
      requires !error && !streamEndProduced
      requires !ParserMachine.ParseFlowSequenceEntryMappingValue(tokens, Snapshot()).Fault?
      modifies this
      ensures Did(ParserMachine.ParseFlowSequenceEntryMappingValue(tokens, old(Snapshot())), ok, e)
    {
      hide ParserMachine.ParseNode;
      e := StreamEndEvent;
      var t;
      ok, t := Peek();
      if !ok {
        return;
      }
      if t.ValueToken? {
        SkipToken();
        ok, t := Peek();
        if !ok {
          return;
        }
        if !t.FlowEntryToken? && !t.FlowSequenceEndToken? {
          states := states + [FlowSequenceEntryMappingEndState];
          ok, e := ParseNode(false, false);
          return;
        }
      }
      state := FlowSequenceEntryMappingEndState;
      ok, e := EmptyScalar();
    }

    method ParseFlowSequenceEntryMappingEnd() returns (ok: bool, e: Events.Event)
      requires !error && !streamEndProduced
      modifies this
      ensures Did(ParserMachine.ParseFlowSequenceEntryMappingEnd(tokens, old(Snapshot())), ok, e)
    {
      e := StreamEndEvent;
      var t;
      ok, t := Peek();
      if ok {
        state := FlowSequenceEntryState;
        e := MappingEndEvent;
      }
    }

    method ParseFlowMappingKey(first: bool) returns (ok: bool, e: Events.Event)
      requires !error && !streamEndProduced && (first ==> pos < |tokens| && !tokens[pos].StreamEndToken?)
      requires !ParserMachine.ParseFlowMappingKey(tokens, Snapshot(), first).Fault?
      modifies this
      ensures Did(ParserMachine.ParseFlowMappingKey(tokens, old(Snapshot()), first), ok, e)
    {
      hide ParserMachine.ParseFlowMappingEntry;
      e := StreamEndEvent;
      if first {
        marks := marks + [pos];
        SkipToken();
      }
      var t;
      ok, t := Peek();
      if !ok {
        return;
      }
      if !t.FlowMappingEndToken? {
        if !first {
          if t.FlowEntryToken? {
            SkipToken();
            ok, t := Peek();
            if !ok {
              return;
            }
          } else {
            PopMark();
            ok := SetError(ExpectedCommaOrBrace);
            return;
          }
        }
        ok, e := ParseFlowMappingEntry();
        return;
      }
      PopState();
      PopMark();
      SkipToken();
      return true, MappingEndEvent;
    }

    /** An entry, or the brace that closes the mapping behind a comma. */
    method ParseFlowMappingEntry() returns (ok: bool, e: Events.Event)
      requires !error && !streamEndProduced && pos < |tokens|
      requires !ParserMachine.ParseFlowMappingEntry(tokens, Snapshot()).Fault?
      modifies this
      ensures Did(ParserMachine.ParseFlowMappingEntry(tokens, old(Snapshot())), ok, e)
    {
      hide ParserMachine.ParseNode;
      e := StreamEndEvent;
      var t := tokens[pos];
      if t.KeyToken? {
        SkipToken();
        ok, t := Peek();
        if !ok {
          return;
        }
        if !t.ValueToken? && !t.FlowEntryToken? && !t.FlowMappingEndToken? {
          states := states + [FlowMappingValueState];
          ok, e := ParseNode(false, false);
        } else {
          state := FlowMappingValueState;
          ok, e := EmptyScalar();
        }
      } else if !t.FlowMappingEndToken? {
        states := states + [FlowMappingEmptyValueState];
        ok, e := ParseNode(false, false);
      } else {
        PopState();
        PopMark();
        SkipToken();
        return true, MappingEndEvent;
      }
    }

    method ParseFlowMappingValue(empty: bool) returns (ok: bool, e: Events.Event)
      requires !error && !streamEndProduced
      requires !ParserMachine.ParseFlowMappingValue(tokens, Snapshot(), empty).Fault?
      modifies this
      ensures Did(ParserMachine.ParseFlowMappingValue(tokens, old(Snapshot()), empty), ok, e)
    {
      hide ParserMachine.ParseNode;
      e := StreamEndEvent;
      var t;
      ok, t := Peek();
      if !ok {
        return;
      }
      if empty {
        state := FlowMappingKeyState;
        ok, e := EmptyScalar();
        return;
      }
      if t.ValueToken? {
        SkipToken();
        ok, t := Peek();
        if !ok {
          return;
        }
        if !t.FlowEntryToken? && !t.FlowMappingEndToken? {
          states := states + [FlowMappingKeyState];
          ok, e := ParseNode(false, false);
          return;
        }
      }
      state := FlowMappingKeyState;
      ok, e := EmptyScalar();
    }

    // ----- documents -----

    method ParseStreamStart() returns (ok: bool, e: Events.Event)
      requires !error && !streamEndProduced
      modifies this
      ensures Did(ParserMachine.ParseStreamStart(tokens, old(Snapshot())), ok, e)
    {
      e := StreamStartEvent;
      var t;
      ok, t := Peek();
      if !ok {
        return;
      }
      if !t.StreamStartToken? {
        ok := SetError(ExpectedStreamStart);
        return;
      }
      state := ImplicitDocumentStartState;
      SkipToken();
    }

    method AppendTagDirective(d: Directive, allowDuplicates: bool) returns (ok: bool)
      modifies this`directives, this`error, this`problem
      ensures ok == (allowDuplicates || !HasHandle(old(directives), d.handle))
      ensures ok ==> directives == WithDefault(old(directives), d) && error == old(error)
      ensures !ok ==> error && problem == DuplicateTag
    {
      for i := 0 to |directives|
        invariant forall j :: 0 <= j < i ==> directives[j].handle != d.handle
      {
        if directives[i].handle == d.handle {
          if allowDuplicates {
            return true;
          }
          ok := SetError(DuplicateTag);
          return;
        }
      }
      directives := directives + [d];
      return true;
    }

    method ReadDirectives() returns (ok: bool, version: Version, own: seq<Directive>)
      requires !error && !streamEndProduced
      modifies this`pos, this`directives, this`streamEndProduced, this`error, this`problem
      ensures error == !ok && !streamEndProduced
      ensures ProcessDirectives(tokens, old(pos), Unversioned, [], old(directives))
           == if ok then Directives(pos, version, own, directives) else BadDirective(problem)
      ensures ok ==> pos < |tokens|
    {
      ghost var goal := ProcessDirectives(tokens, pos, Unversioned, [], directives);
      version, own := Unversioned, [];
      var t;
      ok, t := Peek();
      if !ok {
        return;
      }
      while t.VersionDirectiveToken? || t.TagDirectiveToken?
        invariant pos < |tokens| && t == tokens[pos] && !error && !streamEndProduced
        invariant goal == ProcessDirectives(tokens, pos, version, own, directives)
        decreases |tokens| - pos
      {
        if t.VersionDirectiveToken? {
          if version.Version? {
            ok := SetError(DuplicateVersion);
            return;
          }
          if t.major != 1 || t.minor != 1 {
            ok := SetError(IncompatibleVersion);
            return;
          }
          version := Version(t.major, t.minor);
        } else {
          ok := AppendTagDirective(t.directive, false);
          if !ok {
            return;
          }
          own := own + [t.directive];
        }
        SkipToken();
        ok, t := Peek();
        if !ok {
          return;
        }
      }
      ok := AppendTagDirective(Directive("!", "!"), true);
      ok := AppendTagDirective(Directive("!!", "tag:yaml.org,2002:"), true);
    }

    method ParseDocumentStart(implicit: bool) returns (ok: bool, e: Events.Event)
      requires !error && !streamEndProduced
      modifies this
      ensures Did(ParserMachine.ParseDocumentStart(tokens, old(Snapshot()), implicit), ok, e)
    {
      hide ProcessDirectives, WithDefaults;
      e := StreamEndEvent;
      var t;
      ok, t := Peek();
      if !ok {
        return;
      }
      if !implicit {
        ghost var q := SkipDocumentEnds(tokens, pos);
        while t.DocumentEndToken?
          invariant pos < |tokens| && t == tokens[pos] && !error && !streamEndProduced
          invariant q == SkipDocumentEnds(tokens, pos) && Snapshot() == old(Snapshot()).(pos := pos)
          decreases |tokens| - pos
        {
          SkipToken();
          ok, t := Peek();
          if !ok {
            return;
          }
        }
      }
      if implicit && !t.VersionDirectiveToken? && !t.TagDirectiveToken? && !t.DocumentStartToken? && !t.StreamEndToken? {
        ProcessNoDirectives(tokens, pos, directives);
        var version, own;
        ok, version, own := ReadDirectives();
        states := states + [DocumentEndState];
        state := BlockNodeState;
        e := DocumentStartEvent(Unversioned, []);
      } else if !t.StreamEndToken? {
        ok, e := ParseExplicitDocument();
      } else {
        state := EndState;
        SkipToken();
      }
    }

    method ParseExplicitDocument() returns (ok: bool, e: Events.Event)
      requires !error && !streamEndProduced
      modifies this
      ensures Did(ParserMachine.ParseExplicitDocument(tokens, old(Snapshot())), ok, e)
    {
      hide ProcessDirectives;
      e := StreamEndEvent;
      var version, own;
      ok, version, own := ReadDirectives();
      if !ok {
        return;
      }
      if !tokens[pos].DocumentStartToken? {
        ok := SetError(ExpectedDocumentStart);
        return;
      }
      states := states + [DocumentEndState];
      state := DocumentContentState;
      e := DocumentStartEvent(version, own);
      SkipToken();
    }

    method ParseDocumentContent() returns (ok: bool, e: Events.Event)
      requires !error && !streamEndProduced
      requires !ParserMachine.ParseDocumentContent(tokens, Snapshot()).Fault?
      modifies this
      ensures Did(ParserMachine.ParseDocumentContent(tokens, old(Snapshot())), ok, e)
    {
      hide ParserMachine.ParseNode;
      e := StreamEndEvent;
      var t;
      ok, t := Peek();
      if !ok {
        return;
      }
      if t.VersionDirectiveToken? || t.TagDirectiveToken? || t.DocumentStartToken? || t.DocumentEndToken? || t.StreamEndToken? {
        PopState();
        ok, e := EmptyScalar();
      } else {
        ok, e := ParseNode(true, false);
      }
    }

    method ParseDocumentEnd() returns (ok: bool, e: Events.Event)
      requires !error && !streamEndProduced
      modifies this
      ensures Did(ParserMachine.ParseDocumentEnd(tokens, old(Snapshot())), ok, e)
    {
      e := StreamEndEvent;
      var t;
      ok, t := Peek();
      if !ok {
        return;
      }
      var implicit := true;
      if t.DocumentEndToken? {
        SkipToken();
        implicit := false;
      }
      directives := [];
      state := DocumentStartState;
      e := DocumentEndEvent(implicit);
    }

    // ----- the machine -----

    /** `yaml_parser_state_machine`; the state is never one for which the source panics. */
    method StateMachine() returns (ok: bool, e: Events.Event)
      requires !error && Inv(tokens, Snapshot()) && !streamEndProduced && !state.EndState?
      modifies this
      ensures Did(Step(tokens, old(Snapshot())), ok, e) && GoodStep(tokens, old(Snapshot()), Step(tokens, old(Snapshot())))
    {
      hide ParserMachine.ParseStreamStart, ParserMachine.ParseDocumentStart, ParserMachine.ParseDocumentContent;
      hide ParserMachine.ParseDocumentEnd, ParserMachine.ParseNode, ParserMachine.ParseBlockSequenceEntry;
      hide ParserMachine.ParseIndentlessSequenceEntry, ParserMachine.ParseBlockMappingKey, ParserMachine.ParseBlockMappingValue;
      hide ParserMachine.ParseFlowSequenceEntry, ParserMachine.ParseFlowSequenceEntryMappingKey;
      hide ParserMachine.ParseFlowSequenceEntryMappingValue, ParserMachine.ParseFlowSequenceEntryMappingEnd;
      hide ParserMachine.ParseFlowMappingKey, ParserMachine.ParseFlowMappingValue;
      hide OwedByStack, Accept, Measure;
      StepIsGood(tokens, Snapshot());
      match state {
        case StreamStartState => ok, e := ParseStreamStart();
        case ImplicitDocumentStartState => ok, e := ParseDocumentStart(true);
        case DocumentStartState => ok, e := ParseDocumentStart(false);
        case DocumentContentState => ok, e := ParseDocumentContent();
        case DocumentEndState => ok, e := ParseDocumentEnd();
        case BlockNodeState => ok, e := ParseNode(true, false);
        case BlockNodeOrIndentlessSequenceState => ok, e := ParseNode(true, true);
        case FlowNodeState => ok, e := ParseNode(false, false);
        case BlockSequenceFirstEntryState => ok, e := ParseBlockSequenceEntry(true);
        case BlockSequenceEntryState => ok, e := ParseBlockSequenceEntry(false);
        case IndentlessSequenceEntryState => ok, e := ParseIndentlessSequenceEntry();
        case BlockMappingFirstKeyState => ok, e := ParseBlockMappingKey(true);
        case BlockMappingKeyState => ok, e := ParseBlockMappingKey(false);
        case BlockMappingValueState => ok, e := ParseBlockMappingValue();
        case FlowSequenceFirstEntryState => ok, e := ParseFlowSequenceEntry(true);
        case FlowSequenceEntryState => ok, e := ParseFlowSequenceEntry(false);
        case FlowSequenceEntryMappingKeyState => ok, e := ParseFlowSequenceEntryMappingKey();
        case FlowSequenceEntryMappingValueState => ok, e := ParseFlowSequenceEntryMappingValue();
        case FlowSequenceEntryMappingEndState => ok, e := ParseFlowSequenceEntryMappingEnd();
        case FlowMappingFirstKeyState => ok, e := ParseFlowMappingKey(true);
        case FlowMappingKeyState => ok, e := ParseFlowMappingKey(false);
        case FlowMappingValueState => ok, e := ParseFlowMappingValue(false);
        case FlowMappingEmptyValueState => ok, e := ParseFlowMappingValue(true);
        case EndState =>
      }
    }

    /** `yaml_parser_parse`: nothing more after the end of the stream or an error. */
    method Parse() returns (ok: bool, r: Parsed)
      requires Valid()
      modifies this
      ensures Valid()
      ensures old(error) || old(state).EndState? ==> ok && r.NoEvent? && Snapshot() == old(Snapshot()) && error == old(error)
      ensures !old(error) && !old(state).EndState? ==>
        && error == !ok && r.Event? == ok
        && Step(tokens, old(Snapshot())) == if ok then Produced(r.event, Snapshot()) else Failed(problem)
    {
      hide Step, Inv, Accept;
      if streamEndProduced || error || state.EndState? {
        return true, NoEvent;
      }
      var e;
      ok, e := StateMachine();
      r := if ok then Event(e) else NoEvent;
    }

    /** Asks for events until there are no more: the calls come to an end. */
    method ParseAll() returns (events: seq<Events.Event>)
      requires Valid() && !error
      modifies this
      ensures Run(events, !error) == RunFrom(tokens, old(Snapshot()))
    {
      hide Step, OwedByStack, Accept;
      events := [];
      ghost var goal := RunFrom(tokens, Snapshot());
      while !error && !state.EndState?
        invariant Valid()
        invariant error ==> goal == Run(events, false)
        invariant !error ==>
          var rest := RunFrom(tokens, Snapshot());
          goal == Run(events + rest.events, rest.ended)
        decreases if error then 0 else 1 + Measure(tokens, Snapshot())
      {
        ghost var before := events;
        StepIsGood(tokens, Snapshot());
        var ok, r := Parse();
        if r.Event? {
          events := events + [r.event];
          Assoc(before, [r.event], RunFrom(tokens, Snapshot()).events);
        }
      }
    }
  }

  lemma ProcessNoDirectives(ts: seq<Token>, pos: nat, ds: seq<Directive>)
    requires pos < |ts| && !ts[pos].VersionDirectiveToken? && !ts[pos].TagDirectiveToken?
    ensures ProcessDirectives(ts, pos, Unversioned, [], ds) == Directives(pos, Unversioned, [], WithDefaults(ds))
  {}
}
