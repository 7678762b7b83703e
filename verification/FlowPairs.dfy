/**
  Pairs in a flow sequence, `KEY flow_node? (VALUE flow_node?)?`. The machine loses the token
  behind the KEY of an empty key. So it reads a sequence as it is written if and only if each
  of its pairs has a key, or has an empty value behind a VALUE.
 */
module FlowPairs {
  import opened Events
  import opened ParserMachine
  import opened ParserCompleteness

  // ----- entries of a flow sequence -----

  datatype Part = Absent | Present(node: Derivation)

  datatype Entry =
    | Single(node: Derivation)
    | Pair(key: Part, colon: bool, value: Part)

  predicate FitsPart(p: Part) { p.Present? ==> Derives(p.node) && Fits(p.node, false, false) }

  predicate FitsEntry(e: Entry) {
    match e
    case Single(d) => Derives(d) && Fits(d, false, false)
    case Pair(key, colon, value) => FitsPart(key) && FitsPart(value) && (value.Present? ==> colon)
  }

  function PartTokens(p: Part): seq<Token>
    requires FitsPart(p)
  {
    if p.Absent? then [] else Tokens(p.node)
  }

  function ColonTokens(colon: bool, value: Part): seq<Token>
    requires FitsPart(value)
  {
    if colon then [ValueToken] + PartTokens(value) else []
  }

  function EntryTokens(e: Entry): (ts: seq<Token>)
    requires FitsEntry(e)
  {
    match e
    case Single(d) => Tokens(d)
    case Pair(key, colon, value) =>
      [KeyToken] + (PartTokens(key) + ColonTokens(colon, value))
  }

  function PartEvents(p: Part): (es: seq<Event>)
    ensures es != []
  {
    if p.Absent? then [EMPTY_SCALAR] else Flatten(p.node)
  }

  const PAIR_START := MappingStartEvent("", "", true, true)

  function EntryEvents(e: Entry): (es: seq<Event>)
    ensures es != []
  {
    match e
    case Single(d) => Flatten(d)
    case Pair(key, _, value) => [PAIR_START] + (PartEvents(key) + (PartEvents(value) + [MappingEndEvent]))
  }

  /** A key is there, or else only a VALUE with nothing behind it. */
  predicate Readable(e: Entry) {
    e.Pair? ==> e.key.Present? || (e.colon && e.value.Absent?)
  }

  predicate AllFit(es: seq<Entry>) { forall i :: 0 <= i < |es| ==> FitsEntry(es[i]) }

  /** The entries from the nth on, with the commas in front of them. */
  function RestTokens(es: seq<Entry>, n: nat): seq<Token>
    requires AllFit(es) && n <= |es|
    decreases |es| - n
  {
    if n == |es| then [] else Separator(FlowSequence, n) + (EntryTokens(es[n]) + RestTokens(es, n + 1))
  }

  function RestEvents(es: seq<Entry>, n: nat): seq<Event>
    requires n <= |es|
    decreases |es| - n
  {
    if n == |es| then [SequenceEndEvent] else EntryEvents(es[n]) + RestEvents(es, n + 1)
  }

  // ----- what follows from a run -----

  /** A run goes on from where its beginning leads. */
  lemma {:induction false} RunsAfter(ts: seq<Token>, m: Machine, a: seq<Event>, x: Machine, b: seq<Event>, n: Machine)
    requires Runs(ts, m, a, x)
    ensures Runs(ts, m, a + b, n) <==> Runs(ts, x, b, n)
    decreases |a|
  {
    hide Step;
    if a == [] {
      assert a + b == b;
    } else {
      RunsAfter(ts, Step(ts, m).next, a[1..], x, b, n);
      assert (a + b)[1..] == a[1..] + b;
    }
  }

  /** Where there is no next event, no longer run begins. */
  lemma {:induction false} RunsStuck(ts: seq<Token>, m: Machine, a: seq<Event>, x: Machine, es: seq<Event>, n: Machine)
    requires Runs(ts, m, a, x) && !Step(ts, x).Produced? && |es| > |a|
    ensures !Runs(ts, m, es, n)
    decreases |a|
  {
    hide Step;
    if a != [] && Runs(ts, m, es, n) {
      RunsStuck(ts, Step(ts, m).next, a[1..], x, es[1..], n);
    }
  }

  lemma NodeMoves(ts: seq<Token>, m: Machine, block: bool, indentless: bool)
    ensures var o := ParseNode(ts, m, block, indentless); o.Produced? ==> o.next.pos >= m.pos
  {
    hide Resolve, ParseProperties;
  }

  lemma {:induction false} DirectivesMove(ts: seq<Token>, pos: nat, version: Version, own: seq<Directive>, all: seq<Directive>)
    ensures var d := ProcessDirectives(ts, pos, version, own, all); d.Directives? ==> d.pos >= pos
    decreases |ts| - pos
  {
    hide WithDefaults, HasHandle;
    if pos < |ts| && ts[pos].VersionDirectiveToken? {
      DirectivesMove(ts, pos + 1, Version(ts[pos].major, ts[pos].minor), own, all);
    } else if pos < |ts| && ts[pos].TagDirectiveToken? {
      DirectivesMove(ts, pos + 1, version, own + [ts[pos].directive], all + [ts[pos].directive]);
    }
  }

  /** No step moves back. */
  lemma StepMoves(ts: seq<Token>, m: Machine)
    ensures Step(ts, m).Produced? ==> Step(ts, m).next.pos >= m.pos
  {
    hide ParseNode, ParseDocumentStart, ParseStreamStart, ParseDocumentContent, ParseDocumentEnd, ParseFlowMappingKey, ParseFlowMappingValue;
    hide EndsMappingPart, ParseFlowSequenceEntry, ParseFlowSequenceEntryMappingKey, ParseFlowSequenceEntryMappingValue, ParseFlowSequenceEntryMappingEnd;
    forall k: Machine, block, indentless
      ensures var o := ParseNode(ts, k, block, indentless); o.Produced? ==> o.next.pos >= k.pos
    {
      NodeMoves(ts, k, block, indentless);
    }
    DocumentMoves(ts, m);
    FlowMoves(ts, m);
  }

  lemma DocumentMoves(ts: seq<Token>, m: Machine)
    ensures forall implicit :: var o := ParseDocumentStart(ts, m, implicit); o.Produced? ==> o.next.pos >= m.pos
    ensures var o := ParseStreamStart(ts, m); o.Produced? ==> o.next.pos >= m.pos
    ensures var o := ParseDocumentContent(ts, m); o.Produced? ==> o.next.pos >= m.pos
    ensures var o := ParseDocumentEnd(ts, m); o.Produced? ==> o.next.pos >= m.pos
  {
    hide ParseNode, ProcessDirectives, WithDefaults, EndsDocument, StartsExplicitDocument, SkipDocumentEnds;
    NodeMoves(ts, m, true, false);
    DirectivesMove(ts, m.pos, Unversioned, [], m.directives);
    DirectivesMove(ts, SkipDocumentEnds(ts, m.pos), Unversioned, [], m.directives);
  }

  lemma FlowMoves(ts: seq<Token>, m: Machine)
    ensures forall first :: var o := ParseFlowSequenceEntry(ts, m, first); o.Produced? ==> o.next.pos >= m.pos
    ensures forall first :: var o := ParseFlowMappingKey(ts, m, first); o.Produced? ==> o.next.pos >= m.pos
    ensures forall empty :: var o := ParseFlowMappingValue(ts, m, empty); o.Produced? ==> o.next.pos >= m.pos
    ensures var o := ParseFlowSequenceEntryMappingKey(ts, m); o.Produced? ==> o.next.pos >= m.pos
    ensures var o := ParseFlowSequenceEntryMappingValue(ts, m); o.Produced? ==> o.next.pos >= m.pos
    ensures var o := ParseFlowSequenceEntryMappingEnd(ts, m); o.Produced? ==> o.next.pos >= m.pos
  {
    hide ParseNode;
    forall k: Machine, block, indentless
      ensures var o := ParseNode(ts, k, block, indentless); o.Produced? ==> o.next.pos >= k.pos
    {
      NodeMoves(ts, k, block, indentless);
    }
  }

  lemma {:induction false} RunMoves(ts: seq<Token>, m: Machine, es: seq<Event>, n: Machine)
    requires Runs(ts, m, es, n)
    ensures n.pos >= m.pos
    decreases |es|
  {
    hide Step;
    if es != [] {
      StepMoves(ts, m);
      RunMoves(ts, Step(ts, m).next, es[1..], n);
    }
  }

  // ----- the steps of a pair -----

  /** The machine inside the flow sequence that began at m0. */
  function Inside(m0: Machine, pos: nat, state: State): Machine {
    Machine(pos, state, m0.states, m0.marks + [m0.pos], m0.directives)
  }

  /** A part that is there, behind what leads to it. */
  lemma PartRuns(ts: seq<Token>, m0: Machine, x: Machine, pos: nat, at: State, to: State, d: Derivation)
    requires Derives(d) && Fits(d, false, false) && Here(ts, pos, Tokens(d))
    requires Step(ts, x) == ParseNode(ts, Push(Inside(m0, pos, at), to), false, false)
    ensures Runs(ts, x, Flatten(d), Inside(m0, pos + |Tokens(d)|, to))
  {
    hide Tokens, Step, ParseNode, Runs, NodeRuns, Here, Derives, Fits;
    var m := Push(Inside(m0, pos, at), to);
    NodeIsRead(ts, m, false, false, d);
    StepIntoNode(ts, x, m, false, false, d);
    assert m.states[..|m0.states|] == m0.states;
  }

  lemma PairStarts(ts: seq<Token>, m0: Machine, n: nat, len: nat)
    requires n == 0 ==> len == 0
    requires Here(ts, m0.pos, [FlowSequenceStartToken])
    requires var p := m0.pos + 1 + len; Here(ts, p, Separator(FlowSequence, n) + [KeyToken])
    ensures Step(ts, After(m0, FlowSequence, n, len)) == Produced(PAIR_START,
      Inside(m0, m0.pos + 1 + len + |Separator(FlowSequence, n)| + 1, FlowSequenceEntryMappingKeyState))
  {
    hide ParseNode, Here;
    FirstHere(ts, m0.pos, [FlowSequenceStartToken]);
    FirstHere(ts, m0.pos + 1 + len, Separator(FlowSequence, n) + [KeyToken]);
  }

  lemma KeyStep(ts: seq<Token>, m0: Machine, p: nat)
    requires p < |ts|
    ensures var x := Inside(m0, p, FlowSequenceEntryMappingKeyState);
      Step(ts, x) ==
        if ts[p].ValueToken? || ts[p].FlowEntryToken? || ts[p].FlowSequenceEndToken?
        then Produced(EMPTY_SCALAR, Inside(m0, p + 1, FlowSequenceEntryMappingValueState))
        else ParseNode(ts, Push(x, FlowSequenceEntryMappingValueState), false, false)
  {
    hide ParseNode;
  }

  lemma ValueStep(ts: seq<Token>, m0: Machine, p: nat)
    requires p < |ts| && (ts[p].ValueToken? ==> p + 1 < |ts|)
    ensures var x := Inside(m0, p, FlowSequenceEntryMappingValueState);
      Step(ts, x) ==
        if !ts[p].ValueToken? then Produced(EMPTY_SCALAR, Inside(m0, p, FlowSequenceEntryMappingEndState))
        else if ts[p + 1].FlowEntryToken? || ts[p + 1].FlowSequenceEndToken? then
          Produced(EMPTY_SCALAR, Inside(m0, p + 1, FlowSequenceEntryMappingEndState))
        else
          ParseNode(ts, Push(Inside(m0, p + 1, FlowSequenceEntryMappingValueState), FlowSequenceEntryMappingEndState), false, false)
  {
    hide ParseNode;
  }

  lemma PairEnds(ts: seq<Token>, m0: Machine, p: nat)
    requires p < |ts|
    ensures Step(ts, Inside(m0, p, FlowSequenceEntryMappingEndState))
         == Produced(MappingEndEvent, Inside(m0, p, FlowSequenceEntryState))
  {}

  /** Behind an entry there is a comma or the end, or the sequence is refused. */
  lemma BehindEntry(ts: seq<Token>, m0: Machine, p: nat)
    requires p < |ts| && m0.states != []
    ensures var x := Inside(m0, p, FlowSequenceEntryState);
      && (!ts[p].FlowEntryToken? && !ts[p].FlowSequenceEndToken? <==> Step(ts, x) == Failed(ExpectedCommaOrBracket))
      && (Step(ts, x).Produced? ==> Step(ts, x).next.pos > p)
  {}

  // ----- an entry -----

  predicate EndsEntry(t: Token) { t.FlowEntryToken? || t.FlowSequenceEndToken? }

  /** The nth entry is there, and behind it a comma or the end of the sequence. */
  ghost predicate AtEntry(ts: seq<Token>, m0: Machine, n: nat, len: nat, e: Entry)
    requires FitsEntry(e)
  {
    var p := m0.pos + 1 + len;
    var q := p + |Separator(FlowSequence, n)| + |EntryTokens(e)|;
    && (n == 0 ==> len == 0) && m0.states != []
    && Here(ts, m0.pos, [FlowSequenceStartToken]) && Here(ts, p, Separator(FlowSequence, n) + EntryTokens(e))
    && q < |ts| && EndsEntry(ts[q])
  }

  lemma AfterEntry(m0: Machine, n: nat, len: nat)
    ensures After(m0, FlowSequence, n + 1, len) == Inside(m0, m0.pos + 1 + len, FlowSequenceEntryState)
  {}

  lemma SingleRuns(ts: seq<Token>, m0: Machine, n: nat, len: nat, e: Entry)
    requires e.Single? && FitsEntry(e) && AtEntry(ts, m0, n, len, e)
    ensures Runs(ts, After(m0, FlowSequence, n, len), EntryEvents(e),
      After(m0, FlowSequence, n + 1, len + |Separator(FlowSequence, n)| + |EntryTokens(e)|))
  {
    hide Tokens, Here, Step, ParseNode, Runs, NodeRuns, Derives, Fits, After, Entered, Past, BeginsTokens;
    var d, sep := e.node, Separator(FlowSequence, n);
    var p := m0.pos + 1 + len;
    HereConcat(ts, p, sep, Tokens(d));
    FirstToken(d, false, false);
    FirstHere(ts, p + |sep|, Tokens(d));
    Enters(ts, m0, FlowSequence, n, len, CANONICAL);
    var m := Entered(m0, FlowSequence, n, len);
    EnteredAt(m0, FlowSequence, n, len, CANONICAL);
    NodeIsRead(ts, m, false, false, d);
    StepIntoNode(ts, After(m0, FlowSequence, n, len), m, false, false, d);
    PastEntered(m0, FlowSequence, n, len, |Tokens(d)|);
  }

  /** The first token of a node is none that ends an entry or a part of one. */
  lemma NodeBegins(ts: seq<Token>, p: nat, d: Derivation)
    requires Derives(d) && Fits(d, false, false) && Here(ts, p, Tokens(d))
    ensures p < |ts| && !ts[p].ValueToken? && !EndsEntry(ts[p]) && !ts[p].KeyToken?
  {
    hide Tokens, Here, Derives, Fits;
    FirstToken(d, false, false);
    FirstHere(ts, p, Tokens(d));
  }

  /** The key of a pair, if it is there. */
  lemma KeyRuns(ts: seq<Token>, m0: Machine, p: nat, d: Derivation)
    requires Derives(d) && Fits(d, false, false) && Here(ts, p, Tokens(d))
    ensures Runs(ts, Inside(m0, p, FlowSequenceEntryMappingKeyState), Flatten(d),
      Inside(m0, p + |Tokens(d)|, FlowSequenceEntryMappingValueState))
  {
    hide Tokens, Here, Step, ParseNode, Runs, Derives, Fits;
    NodeBegins(ts, p, d);
    KeyStep(ts, m0, p);
    var x := Inside(m0, p, FlowSequenceEntryMappingKeyState);
    PartRuns(ts, m0, x, p, FlowSequenceEntryMappingKeyState, FlowSequenceEntryMappingValueState, d);
  }

  /** The value of a pair, or none, behind its key. */
  lemma ValueRuns(ts: seq<Token>, m0: Machine, p: nat, colon: bool, value: Part)
    requires FitsPart(value) && (value.Present? ==> colon) && Here(ts, p, ColonTokens(colon, value))
    requires var q := p + |ColonTokens(colon, value)|; q < |ts| && EndsEntry(ts[q])
    ensures Runs(ts, Inside(m0, p, FlowSequenceEntryMappingValueState), PartEvents(value),
      Inside(m0, p + |ColonTokens(colon, value)|, FlowSequenceEntryMappingEndState))
  {
    hide Tokens, Here, Step, ParseNode, Runs, Derives, Fits, Flatten;
    var x := Inside(m0, p, FlowSequenceEntryMappingValueState);
    FirstHere(ts, p, ColonTokens(colon, value));
    if value.Present? {
      HereConcat(ts, p, [ValueToken], Tokens(value.node));
      NodeBegins(ts, p + 1, value.node);
      ValueStep(ts, m0, p);
      PartRuns(ts, m0, x, p + 1, FlowSequenceEntryMappingValueState, FlowSequenceEntryMappingEndState, value.node);
    } else {
      ValueStep(ts, m0, p);
      RunsOne(ts, x, EMPTY_SCALAR, Inside(m0, p + |ColonTokens(colon, value)|, FlowSequenceEntryMappingEndState));
    }
  }

  /** A pair with its end, from where its value is looked for. */
  lemma ValueAndEndRun(ts: seq<Token>, m0: Machine, p: nat, colon: bool, value: Part)
    requires FitsPart(value) && (value.Present? ==> colon) && Here(ts, p, ColonTokens(colon, value))
    requires var q := p + |ColonTokens(colon, value)|; q < |ts| && EndsEntry(ts[q])
    ensures Runs(ts, Inside(m0, p, FlowSequenceEntryMappingValueState), PartEvents(value) + [MappingEndEvent],
      Inside(m0, p + |ColonTokens(colon, value)|, FlowSequenceEntryState))
  {
    hide Here, Step, Runs, FitsPart, PartEvents, ColonTokens;
    var q := p + |ColonTokens(colon, value)|;
    ValueRuns(ts, m0, p, colon, value);
    PairEnds(ts, m0, q);
    RunsOne(ts, Inside(m0, q, FlowSequenceEntryMappingEndState), MappingEndEvent, Inside(m0, q, FlowSequenceEntryState));
    RunsConcat(ts, Inside(m0, p, FlowSequenceEntryMappingValueState), PartEvents(value),
               Inside(m0, q, FlowSequenceEntryMappingEndState), [MappingEndEvent], Inside(m0, q, FlowSequenceEntryState));
  }

  /** The parts of a pair's tokens. */
  lemma PairSegments(ts: seq<Token>, m0: Machine, n: nat, len: nat, e: Entry)
    requires e.Pair? && FitsEntry(e) && AtEntry(ts, m0, n, len, e)
    ensures var p := m0.pos + 1 + len + |Separator(FlowSequence, n)| + 1;
      && Here(ts, m0.pos + 1 + len, Separator(FlowSequence, n) + [KeyToken])
      && Here(ts, p, PartTokens(e.key)) && Here(ts, p + |PartTokens(e.key)|, ColonTokens(e.colon, e.value))
      && p + |PartTokens(e.key)| + |ColonTokens(e.colon, e.value)| == p - 1 + |EntryTokens(e)|
  {
    hide Here, FitsPart, PartTokens;
    var sep, k, c := Separator(FlowSequence, n), PartTokens(e.key), ColonTokens(e.colon, e.value);
    var p := m0.pos + 1 + len;
    assert sep + ([KeyToken] + (k + c)) == (sep + [KeyToken]) + (k + c);
    HereConcat(ts, p, sep + [KeyToken], k + c);
    HereConcat(ts, p + |sep| + 1, k, c);
  }

  /** The key is there, or only a VALUE is: both come to where the value is looked for. */
  lemma PairRuns(ts: seq<Token>, m0: Machine, n: nat, len: nat, e: Entry)
    requires e.Pair? && FitsEntry(e) && AtEntry(ts, m0, n, len, e) && Readable(e)
    ensures Runs(ts, After(m0, FlowSequence, n, len), EntryEvents(e),
      After(m0, FlowSequence, n + 1, len + |Separator(FlowSequence, n)| + |EntryTokens(e)|))
  {
    hide Here, Step, Runs, Derives, Fits, After, Tokens, Flatten;
    var p := m0.pos + 1 + len + |Separator(FlowSequence, n)| + 1;
    var q := p - 1 + |EntryTokens(e)|;
    PairSegments(ts, m0, n, len, e);
    PairStarts(ts, m0, n, len);
    var a, b := Inside(m0, p, FlowSequenceEntryMappingKeyState), Inside(m0, q, FlowSequenceEntryState);
    AfterEntry(m0, n, len + |Separator(FlowSequence, n)| + |EntryTokens(e)|);
    var tail := PartEvents(e.value) + [MappingEndEvent];
    if e.key.Present? {
      KeyRuns(ts, m0, p, e.key.node);
      var x := p + |PartTokens(e.key)|;
      ValueAndEndRun(ts, m0, x, e.colon, e.value);
      RunsConcat(ts, a, PartEvents(e.key), Inside(m0, x, FlowSequenceEntryMappingValueState), tail, b);
    } else {
      FirstHere(ts, p, ColonTokens(e.colon, e.value));
      EmptyKeyRuns(ts, m0, p);
      NoValueRuns(ts, m0, q);
      RunsConcat(ts, a, [EMPTY_SCALAR], Inside(m0, q, FlowSequenceEntryMappingValueState), tail, b);
    }
    RunsOne(ts, After(m0, FlowSequence, n, len), PAIR_START, a);
    RunsConcat(ts, After(m0, FlowSequence, n, len), [PAIR_START], a, PartEvents(e.key) + tail, b);
  }

  /** The token behind the KEY of an empty key is lost. */
  lemma EmptyKeyRuns(ts: seq<Token>, m0: Machine, p: nat)
    requires p < |ts| && (ts[p].ValueToken? || EndsEntry(ts[p]))
    ensures Runs(ts, Inside(m0, p, FlowSequenceEntryMappingKeyState), [EMPTY_SCALAR],
      Inside(m0, p + 1, FlowSequenceEntryMappingValueState))
  {
    hide Step;
    KeyStep(ts, m0, p);
    RunsOne(ts, Inside(m0, p, FlowSequenceEntryMappingKeyState), EMPTY_SCALAR, Inside(m0, p + 1, FlowSequenceEntryMappingValueState));
  }

  /** Without a VALUE the pair ends at once. */
  lemma NoValueRuns(ts: seq<Token>, m0: Machine, p: nat)
    requires p < |ts| && !ts[p].ValueToken?
    ensures Runs(ts, Inside(m0, p, FlowSequenceEntryMappingValueState), [EMPTY_SCALAR] + [MappingEndEvent],
      Inside(m0, p, FlowSequenceEntryState))
  {
    hide Step, Runs;
    var x, y := Inside(m0, p, FlowSequenceEntryMappingValueState), Inside(m0, p, FlowSequenceEntryMappingEndState);
    ValueStep(ts, m0, p);
    PairEnds(ts, m0, p);
    RunsOne(ts, x, EMPTY_SCALAR, y);
    RunsOne(ts, y, MappingEndEvent, Inside(m0, p, FlowSequenceEntryState));
    RunsConcat(ts, x, [EMPTY_SCALAR], y, [MappingEndEvent], Inside(m0, p, FlowSequenceEntryState));
  }

  // ----- entries that are not read -----

  /** The token behind the KEY of an empty key is one that gets lost. */
  lemma EmptyKeyAhead(ts: seq<Token>, m0: Machine, n: nat, len: nat, e: Entry)
    requires e.Pair? && FitsEntry(e) && AtEntry(ts, m0, n, len, e) && e.key.Absent?
    ensures var p := m0.pos + 1 + len + |Separator(FlowSequence, n)| + 1;
      && Here(ts, m0.pos, [FlowSequenceStartToken])
      && Here(ts, m0.pos + 1 + len, Separator(FlowSequence, n) + [KeyToken])
      && p < |ts| && (ts[p].ValueToken? || EndsEntry(ts[p]))
  {
    hide Here, Separator, FitsPart, AtEntry, EntryTokens, ColonTokens;
    PairSegments(ts, m0, n, len, e);
    EntryEnds(ts, m0, n, len, e);
    ColonAhead(ts, m0.pos + 1 + len + |Separator(FlowSequence, n)| + 1, e.colon, e.value);
  }

  lemma EntryEnds(ts: seq<Token>, m0: Machine, n: nat, len: nat, e: Entry)
    requires FitsEntry(e) && AtEntry(ts, m0, n, len, e)
    ensures var q := m0.pos + 1 + len + |Separator(FlowSequence, n)| + |EntryTokens(e)|;
      Here(ts, m0.pos, [FlowSequenceStartToken]) && q < |ts| && EndsEntry(ts[q])
  {}

  lemma ColonAhead(ts: seq<Token>, p: nat, colon: bool, value: Part)
    requires FitsPart(value) && Here(ts, p, ColonTokens(colon, value))
    requires var q := p + |ColonTokens(colon, value)|; q < |ts| && EndsEntry(ts[q])
    ensures p < |ts| && (ts[p].ValueToken? || EndsEntry(ts[p]))
  {
    hide Here, FitsPart, PartTokens;
    FirstHere(ts, p, ColonTokens(colon, value));
  }

  /** The pair of an empty key ends behind the lost token, whatever was meant to follow. */
  lemma EmptyPairRuns(ts: seq<Token>, m0: Machine, n: nat, len: nat)
    requires n == 0 ==> len == 0
    requires Here(ts, m0.pos, [FlowSequenceStartToken])
    requires Here(ts, m0.pos + 1 + len, Separator(FlowSequence, n) + [KeyToken])
    requires var p := m0.pos + 1 + len + |Separator(FlowSequence, n)| + 1;
      p + 1 < |ts| && (ts[p].ValueToken? || EndsEntry(ts[p])) && !ts[p + 1].ValueToken?
    ensures Runs(ts, After(m0, FlowSequence, n, len), [PAIR_START] + ([EMPTY_SCALAR] + ([EMPTY_SCALAR] + [MappingEndEvent])),
      Inside(m0, m0.pos + 1 + len + |Separator(FlowSequence, n)| + 2, FlowSequenceEntryState))
  {
    hide Here, Step, Runs, After;
    var p := m0.pos + 1 + len + |Separator(FlowSequence, n)| + 1;
    PairStarts(ts, m0, n, len);
    var a, b := Inside(m0, p, FlowSequenceEntryMappingKeyState), Inside(m0, p + 1, FlowSequenceEntryState);
    EmptyKeyRuns(ts, m0, p);
    NoValueRuns(ts, m0, p + 1);
    RunsConcat(ts, a, [EMPTY_SCALAR], Inside(m0, p + 1, FlowSequenceEntryMappingValueState), [EMPTY_SCALAR] + [MappingEndEvent], b);
    RunsOne(ts, After(m0, FlowSequence, n, len), PAIR_START, a);
    RunsConcat(ts, After(m0, FlowSequence, n, len), [PAIR_START], a, [EMPTY_SCALAR] + ([EMPTY_SCALAR] + [MappingEndEvent]), b);
  }

  /** What comes behind the entry: the end, or a comma and another entry. */
  ghost predicate Continues(ts: seq<Token>, q: nat, last: bool) {
    && q + 1 < |ts|
    && (if last then ts[q].FlowSequenceEndToken?
        else ts[q].FlowEntryToken? && !ts[q + 1].ValueToken? && !EndsEntry(ts[q + 1]))
  }

  /** An entry that is not readable: no run gives its events and what comes behind it, and
      ends where the sequence does. */
  lemma UnreadableFails(ts: seq<Token>, m0: Machine, n: nat, len: nat, e: Entry, tail: seq<Event>, end: Machine)
    requires FitsEntry(e) && AtEntry(ts, m0, n, len, e) && !Readable(e) && tail != []
    requires var q := m0.pos + 1 + len + |Separator(FlowSequence, n)| + |EntryTokens(e)|;
      && Continues(ts, q, |tail| == 1)
      && (|tail| == 1 ==> end.pos == q + 1)
    ensures !Runs(ts, After(m0, FlowSequence, n, len), EntryEvents(e) + tail, end)
  {
    hide Here, Step, Runs, FitsEntry, After, AtEntry, Separator, EntryTokens, ParseNode, EntryEvents;
    UnreadableShape(e);
    if !e.colon && |tail| == 1 {
      EndIsLost(ts, m0, n, len, e, tail, end);
    } else {
      var x := After(m0, FlowSequence, n, len);
      var p := m0.pos + 1 + len + |Separator(FlowSequence, n)| + 1;
      var es := [PAIR_START] + ([EMPTY_SCALAR] + ([EMPTY_SCALAR] + [MappingEndEvent]));
      BehindLostToken(ts, m0, n, len, e, |tail| == 1);
      EmptyKeyAhead(ts, m0, n, len, e);
      EntryStarts(ts, m0, n, len, e);
      EmptyPairRuns(ts, m0, n, len);
      AtLeastFour(e);
      RunsStuck(ts, x, es, Inside(m0, p + 1, FlowSequenceEntryState), EntryEvents(e) + tail, end);
    }
  }

  lemma UnreadableShape(e: Entry)
    requires FitsEntry(e) && !Readable(e)
    ensures e.Pair? && e.key.Absent? && (e.colon ==> e.value.Present?)
    ensures !e.colon ==> e == Pair(Absent, false, Absent) && |EntryTokens(e)| == 1
  {}

  lemma AtLeastFour(e: Entry)
    requires e.Pair?
    ensures |EntryEvents(e)| >= 4
  {}

  /** Behind the lost token there is a node or a KEY, and that is refused. */
  lemma BehindLostToken(ts: seq<Token>, m0: Machine, n: nat, len: nat, e: Entry, last: bool)
    requires FitsEntry(e) && AtEntry(ts, m0, n, len, e) && !Readable(e) && (e.colon || !last)
    requires var q := m0.pos + 1 + len + |Separator(FlowSequence, n)| + |EntryTokens(e)|; Continues(ts, q, last)
    ensures var p := m0.pos + 1 + len + |Separator(FlowSequence, n)| + 1;
      p + 1 < |ts| && !ts[p + 1].ValueToken? && !Step(ts, Inside(m0, p + 1, FlowSequenceEntryState)).Produced?
  {
    hide Here, Step, Derives, Fits, Separator, Tokens, Inside;
    var p := m0.pos + 1 + len + |Separator(FlowSequence, n)| + 1;
    if e.colon {
      PairSegments(ts, m0, n, len, e);
      HereConcat(ts, p, [ValueToken], Tokens(e.value.node));
      NodeBegins(ts, p + 1, e.value.node);
    }
    BehindEntry(ts, m0, p + 1);
  }

  /** A lost end: what comes behind it is taken for a part of the sequence. */
  lemma EndIsLost(ts: seq<Token>, m0: Machine, n: nat, len: nat, e: Entry, tail: seq<Event>, end: Machine)
    requires FitsEntry(e) && AtEntry(ts, m0, n, len, e) && e == Pair(Absent, false, Absent) && |tail| == 1
    requires var q := m0.pos + 1 + len + |Separator(FlowSequence, n)| + 1; q + 1 < |ts| && end.pos == q + 1
    ensures !Runs(ts, After(m0, FlowSequence, n, len), EntryEvents(e) + tail, end)
  {
    hide Here, Step, Runs, After, Separator, AtEntry, EndsEntry;
    var x := After(m0, FlowSequence, n, len);
    var p := m0.pos + 1 + len + |Separator(FlowSequence, n)| + 1;
    EmptyKeyAhead(ts, m0, n, len, e);
    assert n == 0 ==> len == 0 by { EntryStarts(ts, m0, n, len, e); }
    PairStarts(ts, m0, n, len);
    EmptyKeyRuns(ts, m0, p);
    var a, b := Inside(m0, p, FlowSequenceEntryMappingKeyState), Inside(m0, p + 1, FlowSequenceEntryMappingValueState);
    RunsOne(ts, x, PAIR_START, a);
    RunsConcat(ts, x, [PAIR_START], a, [EMPTY_SCALAR], b);
    var rest := ([EMPTY_SCALAR] + [MappingEndEvent]) + tail;
    assert EntryEvents(e) + tail == [PAIR_START] + [EMPTY_SCALAR] + rest;
    RunsAfter(ts, x, [PAIR_START] + [EMPTY_SCALAR], b, rest, end);
    EntryStarts(ts, m0, n, len, e);
    ValueStateMoves(ts, m0, p + 1, tail, end);
  }

  lemma EntryStarts(ts: seq<Token>, m0: Machine, n: nat, len: nat, e: Entry)
    requires FitsEntry(e) && AtEntry(ts, m0, n, len, e)
    ensures (n == 0 ==> len == 0) && m0.states != []
  {}

  /** Whatever is there, a pair's value and end and one more event take a token. */
  lemma ValueStateMoves(ts: seq<Token>, m0: Machine, p: nat, tail: seq<Event>, end: Machine)
    requires p < |ts| && m0.states != [] && |tail| == 1 && end.pos <= p
    ensures !Runs(ts, Inside(m0, p, FlowSequenceEntryMappingValueState), ([EMPTY_SCALAR] + [MappingEndEvent]) + tail, end)
  {
    hide Step, Runs;
    var b := Inside(m0, p, FlowSequenceEntryMappingValueState);
    var rest := ([EMPTY_SCALAR] + [MappingEndEvent]) + tail;
    if Runs(ts, b, rest, end) {
      if ts[p].ValueToken? {
        ValueMoves(ts, m0, p, rest, end);
      } else {
        NoValueRuns(ts, m0, p);
        var y := Inside(m0, p, FlowSequenceEntryState);
        RunsAfter(ts, b, [EMPTY_SCALAR] + [MappingEndEvent], y, tail, end);
        BehindEntry(ts, m0, p);
        OneEvent(ts, y, tail, end);
      }
    }
  }

  lemma ValueMoves(ts: seq<Token>, m0: Machine, p: nat, es: seq<Event>, end: Machine)
    requires p < |ts| && ts[p].ValueToken? && es != []
    requires Runs(ts, Inside(m0, p, FlowSequenceEntryMappingValueState), es, end)
    ensures end.pos > p
  {
    var x := Inside(m0, p, FlowSequenceEntryMappingValueState);
    NodeMoves(ts, Push(Inside(m0, p + 1, FlowSequenceEntryMappingValueState), FlowSequenceEntryMappingEndState), false, false);
    hide ParseNode;
    assert Step(ts, x).next.pos > p;
    RunMoves(ts, Step(ts, x).next, es[1..], end);
  }

  lemma OneEvent(ts: seq<Token>, y: Machine, tail: seq<Event>, end: Machine)
    requires |tail| == 1
    ensures Runs(ts, y, tail, end) ==> Step(ts, y).Produced? && end == Step(ts, y).next
  {
    hide Step;
    if Runs(ts, y, tail, end) {
      assert tail[1..] == [];
      assert Runs(ts, Step(ts, y).next, [], end);
    }
  }

  // ----- a sequence -----

  lemma FirstOfEntry(ts: seq<Token>, p: nat, e: Entry)
    requires FitsEntry(e) && Here(ts, p, EntryTokens(e))
    ensures p < |ts| && !ts[p].ValueToken? && !EndsEntry(ts[p])
  {
    hide Here, Tokens, Derives, Fits;
    if e.Single? {
      NodeBegins(ts, p, e.node);
    } else {
      FirstHere(ts, p, EntryTokens(e));
    }
  }

  /** The parts of the tokens from the nth entry on. */
  lemma RestSegments(ts: seq<Token>, m0: Machine, es: seq<Entry>, n: nat, len: nat)
    requires AllFit(es) && n < |es| && m0.states != [] && (n == 0 ==> len == 0)
    requires Here(ts, m0.pos, [FlowSequenceStartToken])
    requires Here(ts, m0.pos + 1 + len, RestTokens(es, n) + [FlowSequenceEndToken])
    requires m0.pos + 1 + len + |RestTokens(es, n)| + 1 < |ts|
    ensures AtEntry(ts, m0, n, len, es[n])
    ensures var size := |Separator(FlowSequence, n)| + |EntryTokens(es[n])|;
      var q := m0.pos + 1 + len + size;
      && Here(ts, q, RestTokens(es, n + 1) + [FlowSequenceEndToken])
      && |RestTokens(es, n)| == size + |RestTokens(es, n + 1)|
      && Continues(ts, q, n + 1 == |es|)
  {
    hide Here, EntryTokens, FitsEntry;
    assert FitsEntry(es[n]);
    var sep, e, rest := Separator(FlowSequence, n), EntryTokens(es[n]), RestTokens(es, n + 1) + [FlowSequenceEndToken];
    var p := m0.pos + 1 + len;
    assert RestTokens(es, n) + [FlowSequenceEndToken] == (sep + e) + rest;
    HereConcat(ts, p, sep + e, rest);
    var q := p + |sep + e|;
    FirstHere(ts, q, rest);
    if n + 1 < |es| {
      CommaAhead(ts, q, es, n + 1);
    } else {
      assert rest == [FlowSequenceEndToken];
    }
  }

  lemma CommaAhead(ts: seq<Token>, q: nat, es: seq<Entry>, n: nat)
    requires AllFit(es) && 0 < n < |es| && Here(ts, q, RestTokens(es, n) + [FlowSequenceEndToken])
    ensures q + 1 < |ts| && ts[q].FlowEntryToken? && !ts[q + 1].ValueToken? && !EndsEntry(ts[q + 1])
  {
    hide Here, EntryTokens, FitsEntry;
    assert FitsEntry(es[n]);
    var e, rest := EntryTokens(es[n]), RestTokens(es, n + 1) + [FlowSequenceEndToken];
    assert RestTokens(es, n) + [FlowSequenceEndToken] == [FlowEntryToken] + (e + rest);
    HereConcat(ts, q, [FlowEntryToken], e + rest);
    HereConcat(ts, q + 1, e, rest);
    FirstHere(ts, q, [FlowEntryToken]);
    FirstOfEntry(ts, q + 1, es[n]);
  }

  lemma ReadableRuns(ts: seq<Token>, m0: Machine, n: nat, len: nat, e: Entry)
    requires FitsEntry(e) && AtEntry(ts, m0, n, len, e) && Readable(e)
    ensures Runs(ts, After(m0, FlowSequence, n, len), EntryEvents(e),
      After(m0, FlowSequence, n + 1, len + |Separator(FlowSequence, n)| + |EntryTokens(e)|))
  {
    hide AtEntry, Runs, Readable, EntryEvents, EntryTokens, After;
    if e.Single? {
      SingleRuns(ts, m0, n, len, e);
    } else {
      PairRuns(ts, m0, n, len, e);
    }
  }

  /** From the nth entry on, the sequence is read to its end if and only if each of its
      entries is readable. */
  lemma {:induction false} RestReadIff(ts: seq<Token>, m0: Machine, es: seq<Entry>, n: nat, len: nat)
    requires AllFit(es) && n <= |es| && m0.states != [] && (n == 0 ==> len == 0)
    requires Here(ts, m0.pos, [FlowSequenceStartToken])
    requires Here(ts, m0.pos + 1 + len, RestTokens(es, n) + [FlowSequenceEndToken])
    requires m0.pos + 1 + len + |RestTokens(es, n)| + 1 < |ts|
    ensures Runs(ts, After(m0, FlowSequence, n, len), RestEvents(es, n), Past(m0, 1 + len + |RestTokens(es, n)| + 1))
      <==> forall i :: n <= i < |es| ==> Readable(es[i])
    decreases |es| - n
  {
    hide *;
    var x := After(m0, FlowSequence, n, len);
    var end := Past(m0, 1 + len + |RestTokens(es, n)| + 1);
    if n == |es| {
      SequenceEnds(ts, m0, es, len);
    } else {
      RestStep(es, n);
      var size := |Separator(FlowSequence, n)| + |EntryTokens(es[n])|;
      RestSegments(ts, m0, es, n, len);
      LastEvent(es, n + 1);
      PastAt(m0, 1 + len + |RestTokens(es, n)| + 1);
      if Readable(es[n]) {
        var y := After(m0, FlowSequence, n + 1, len + size);
        ReadableRuns(ts, m0, n, len, es[n]);
        RunsAfter(ts, x, EntryEvents(es[n]), y, RestEvents(es, n + 1), end);
        RestReadIff(ts, m0, es, n + 1, len + size);
      } else {
        UnreadableFails(ts, m0, n, len, es[n], RestEvents(es, n + 1), end);
      }
    }
  }

  lemma RestStep(es: seq<Entry>, n: nat)
    requires AllFit(es) && n < |es|
    ensures FitsEntry(es[n]) && RestEvents(es, n) == EntryEvents(es[n]) + RestEvents(es, n + 1)
  {}

  lemma SequenceEnds(ts: seq<Token>, m0: Machine, es: seq<Entry>, len: nat)
    requires AllFit(es) && m0.states != [] && (|es| == 0 ==> len == 0)
    requires Here(ts, m0.pos, [FlowSequenceStartToken])
    requires Here(ts, m0.pos + 1 + len, RestTokens(es, |es|) + [FlowSequenceEndToken])
    ensures Runs(ts, After(m0, FlowSequence, |es|, len), RestEvents(es, |es|), Past(m0, 1 + len + |RestTokens(es, |es|)| + 1))
  {
    hide Here, Step, Runs, Past, After;
    assert [] + [FlowSequenceEndToken] == [FlowSequenceEndToken];
    Leaves(ts, m0, FlowSequence, |es|, len, CANONICAL);
    RunsOne(ts, After(m0, FlowSequence, |es|, len), SequenceEndEvent, Past(m0, 1 + len + 1));
  }

  lemma LastEvent(es: seq<Entry>, n: nat)
    requires n <= |es|
    ensures RestEvents(es, n) != [] && (|RestEvents(es, n)| == 1 <==> n == |es|)
    ensures AllFit(es) && n == |es| ==> RestTokens(es, n) == []
  {
    if n < |es| {
      assert RestEvents(es, n + 1) != [];
    }
  }

  lemma PastAt(m: Machine, n: nat)
    requires m.states != []
    ensures Past(m, n).pos == m.pos + n
  {}

  /** A flow sequence of nodes and pairs, entered at its first token: its events come, and the
      machine returns just behind its last token, if and only if every pair has a key, or a
      VALUE with nothing behind it. */
  lemma SequenceReadIff(ts: seq<Token>, m: Machine, es: seq<Entry>)
    requires AllFit(es) && m.states != []
    requires var xs := [FlowSequenceStartToken] + (RestTokens(es, 0) + [FlowSequenceEndToken]);
      Here(ts, m.pos, xs) && m.pos + |xs| < |ts|
    ensures Runs(ts, m.(state := FlowSequenceFirstEntryState), RestEvents(es, 0), Past(m, |RestTokens(es, 0)| + 2))
      <==> forall i :: 0 <= i < |es| ==> Readable(es[i])
  {
    hide *;
    HereConcat(ts, m.pos, [FlowSequenceStartToken], RestTokens(es, 0) + [FlowSequenceEndToken]);
    AtFirstEntry(m);
    RestReadIff(ts, m, es, 0, 0);
  }

  lemma AtFirstEntry(m: Machine)
    ensures After(m, FlowSequence, 0, 0) == m.(state := FlowSequenceFirstEntryState)
  {}

  // ----- an entry by itself -----

  /** Runs of as many events end alike. */
  lemma {:induction false} RunsSame(ts: seq<Token>, m: Machine, a: seq<Event>, x: Machine, b: seq<Event>, y: Machine)
    requires Runs(ts, m, a, x) && Runs(ts, m, b, y) && |a| == |b|
    ensures x == y
    decreases |a|
  {
    hide Step;
    if a != [] {
      RunsSame(ts, Step(ts, m).next, a[1..], x, b[1..], y);
    }
  }

  lemma UnreadableEntry(ts: seq<Token>, m0: Machine, n: nat, len: nat, e: Entry)
    requires FitsEntry(e) && AtEntry(ts, m0, n, len, e) && !Readable(e)
    ensures !Runs(ts, After(m0, FlowSequence, n, len), EntryEvents(e),
      After(m0, FlowSequence, n + 1, len + |Separator(FlowSequence, n)| + |EntryTokens(e)|))
  {
    hide Here, Step, Runs, FitsEntry, After, AtEntry, Separator, EntryTokens, ParseNode, EntryEvents;
    UnreadableShape(e);
    EntryStarts(ts, m0, n, len, e);
    EmptyKeyAhead(ts, m0, n, len, e);
    AfterEntry(m0, n, len + |Separator(FlowSequence, n)| + |EntryTokens(e)|);
    var end := After(m0, FlowSequence, n + 1, len + |Separator(FlowSequence, n)| + |EntryTokens(e)|);
    if !e.colon {
      EndPassed(ts, m0, n, len, end);
    } else {
      var p := m0.pos + 1 + len + |Separator(FlowSequence, n)| + 1;
      var es := [PAIR_START] + ([EMPTY_SCALAR] + ([EMPTY_SCALAR] + [MappingEndEvent]));
      var x, y := After(m0, FlowSequence, n, len), Inside(m0, p + 1, FlowSequenceEntryState);
      BehindLostValue(ts, m0, n, len, e);
      EmptyPairRuns(ts, m0, n, len);
      AtLeastFour(e);
      if |EntryEvents(e)| > 4 {
        RunsStuck(ts, x, es, y, EntryEvents(e), end);
      } else if Runs(ts, x, EntryEvents(e), end) {
        RunsSame(ts, x, es, y, EntryEvents(e), end);
      }
    }
  }

  lemma BehindLostValue(ts: seq<Token>, m0: Machine, n: nat, len: nat, e: Entry)
    requires e.Pair? && e.key.Absent? && e.colon && e.value.Present?
    requires FitsEntry(e) && AtEntry(ts, m0, n, len, e)
    ensures var p := m0.pos + 1 + len + |Separator(FlowSequence, n)| + 1;
      && p + 1 < |ts| && !ts[p + 1].ValueToken? && !Step(ts, Inside(m0, p + 1, FlowSequenceEntryState)).Produced?
      && |EntryTokens(e)| > 2
  {
    hide *;
    var p := m0.pos + 1 + len + |Separator(FlowSequence, n)| + 1;
    var d := e.value.node;
    LostValueTokens(e);
    PairSegments(ts, m0, n, len, e);
    HereConcat(ts, p, [ValueToken], Tokens(d));
    NodeBegins(ts, p + 1, d);
    FirstToken(d, false, false);
    StatesThere(ts, m0, n, len, e);
    NoCommaThere(ts, m0, p + 1);
  }

  lemma LostValueTokens(e: Entry)
    requires e.Pair? && e.key.Absent? && e.colon && e.value.Present? && FitsEntry(e)
    ensures FitsPart(e.key) && FitsPart(e.value) && Derives(e.value.node) && Fits(e.value.node, false, false)
    ensures PartTokens(e.key) == [] && ColonTokens(e.colon, e.value) == [ValueToken] + Tokens(e.value.node)
    ensures |EntryTokens(e)| == 2 + |Tokens(e.value.node)|
  {
    hide Tokens, Derives, Fits;
  }

  lemma StatesThere(ts: seq<Token>, m0: Machine, n: nat, len: nat, e: Entry)
    requires FitsEntry(e) && AtEntry(ts, m0, n, len, e)
    ensures m0.states != []
  {
    hide Here, Separator, EntryTokens, FitsEntry;
  }

  lemma NoCommaThere(ts: seq<Token>, m0: Machine, p: nat)
    requires p < |ts| && m0.states != [] && !EndsEntry(ts[p])
    ensures !Step(ts, Inside(m0, p, FlowSequenceEntryState)).Produced?
  {
    BehindEntry(ts, m0, p);
  }

  /** With its end lost, a sequence goes on behind it. */
  lemma EndPassed(ts: seq<Token>, m0: Machine, n: nat, len: nat, end: Machine)
    requires n == 0 ==> len == 0
    requires Here(ts, m0.pos, [FlowSequenceStartToken])
    requires Here(ts, m0.pos + 1 + len, Separator(FlowSequence, n) + [KeyToken])
    requires var p := m0.pos + 1 + len + |Separator(FlowSequence, n)| + 1;
      p < |ts| && (ts[p].ValueToken? || EndsEntry(ts[p])) && end.pos == p
    ensures !Runs(ts, After(m0, FlowSequence, n, len), EntryEvents(Pair(Absent, false, Absent)), end)
  {
    hide Here, Step, Runs, After, Separator, EndsEntry;
    var x := After(m0, FlowSequence, n, len);
    var p := m0.pos + 1 + len + |Separator(FlowSequence, n)| + 1;
    PairStarts(ts, m0, n, len);
    EmptyKeyRuns(ts, m0, p);
    var a, b := Inside(m0, p, FlowSequenceEntryMappingKeyState), Inside(m0, p + 1, FlowSequenceEntryMappingValueState);
    RunsOne(ts, x, PAIR_START, a);
    RunsConcat(ts, x, [PAIR_START], a, [EMPTY_SCALAR], b);
    var rest := [EMPTY_SCALAR] + [MappingEndEvent];
    assert EntryEvents(Pair(Absent, false, Absent)) == [PAIR_START] + [EMPTY_SCALAR] + rest;
    RunsAfter(ts, x, [PAIR_START] + [EMPTY_SCALAR], b, rest, end);
    if Runs(ts, b, rest, end) {
      RunMoves(ts, b, rest, end);
    }
  }

  /** The token behind the KEY, and the one behind that, tell whether a pair is readable. */
  lemma ReadableByTokens(ts: seq<Token>, m0: Machine, n: nat, len: nat, e: Entry)
    requires e.Pair? && FitsEntry(e) && AtEntry(ts, m0, n, len, e)
    ensures var p := m0.pos + 1 + len + |Separator(FlowSequence, n)| + 1;
      && p < |ts| && (ts[p].ValueToken? ==> p + 1 < |ts|)
      && (Readable(e) <==>
          (!ts[p].ValueToken? && !EndsEntry(ts[p])) || (ts[p].ValueToken? && EndsEntry(ts[p + 1])))
  {
    hide Here, Separator, FitsPart, AtEntry, EntryTokens, ColonTokens, PartTokens;
    PairSegments(ts, m0, n, len, e);
    EntryEnds(ts, m0, n, len, e);
    PartsAhead(ts, m0.pos + 1 + len + |Separator(FlowSequence, n)| + 1, e);
  }

  lemma PartsAhead(ts: seq<Token>, p: nat, e: Entry)
    requires e.Pair? && FitsEntry(e)
    requires Here(ts, p, PartTokens(e.key)) && Here(ts, p + |PartTokens(e.key)|, ColonTokens(e.colon, e.value))
    requires var q := p + |PartTokens(e.key)| + |ColonTokens(e.colon, e.value)|; q < |ts| && EndsEntry(ts[q])
    ensures p < |ts| && (ts[p].ValueToken? ==> p + 1 < |ts|)
    ensures Readable(e) <==>
      (!ts[p].ValueToken? && !EndsEntry(ts[p])) || (ts[p].ValueToken? && EndsEntry(ts[p + 1]))
  {
    hide Here, Derives, Fits, Tokens;
    if e.key.Present? {
      NodeBegins(ts, p, e.key.node);
      FirstToken(e.key.node, false, false);
    } else {
      FirstHere(ts, p, ColonTokens(e.colon, e.value));
      if e.value.Present? {
        HereConcat(ts, p, [ValueToken], Tokens(e.value.node));
        NodeBegins(ts, p + 1, e.value.node);
      }
    }
  }

  /** `KEY flow_node? (VALUE flow_node?)?` in front of a comma or the end: MAPPING-START, the
      key or an empty scalar, the value or an empty scalar, and MAPPING-END come, and the
      machine stands just behind the entry, if and only if the token behind the KEY is none
      of VALUE, FLOW-ENTRY and FLOW-SEQUENCE-END, or a VALUE with nothing behind it. */
  lemma EntryReadIff(ts: seq<Token>, m0: Machine, n: nat, len: nat, e: Entry)
    requires e.Pair? && FitsEntry(e) && AtEntry(ts, m0, n, len, e)
    ensures var sep := Separator(FlowSequence, n);
      var p := m0.pos + 1 + len + |sep| + 1;
      && p < |ts| && (ts[p].ValueToken? ==> p + 1 < |ts|)
      && (Runs(ts, After(m0, FlowSequence, n, len), EntryEvents(e), After(m0, FlowSequence, n + 1, len + |sep| + |EntryTokens(e)|))
          <==> (!ts[p].ValueToken? && !EndsEntry(ts[p])) || (ts[p].ValueToken? && EndsEntry(ts[p + 1])))
  {
    hide Runs, AtEntry, Readable, EntryEvents, EntryTokens, FitsEntry, EndsEntry, Separator, After;
    ReadableByTokens(ts, m0, n, len, e);
    if Readable(e) {
      ReadableRuns(ts, m0, n, len, e);
    } else {
      UnreadableEntry(ts, m0, n, len, e);
    }
  }

  // ----- from the beginning of a stream -----

  /** A scalar `v` as its token and as its event. */
  const V := ScalarToken("v", Plain)
  const OPENING := [StreamStartEvent, DocumentStartEvent(Unversioned, []), SequenceStartEvent("", "", true, true), PAIR_START]

  /** The machine in a flow sequence that is the root of an implicit document. */
  function InRoot(pos: nat, state: State): Machine {
    Machine(pos, state, [DocumentEndState], [1], WithDefaults([]))
  }

  /** `[?` */
  lemma RootOpens(ts: seq<Token>)
    requires |ts| > 3 && ts[..3] == [StreamStartToken, FlowSequenceStartToken, KeyToken]
    ensures Runs(ts, INITIAL, OPENING, InRoot(3, FlowSequenceEntryMappingKeyState))
  {
    hide Step, Runs, WithDefaults;
    assert ts[0] == ts[..3][0] && ts[1] == ts[..3][1] && ts[2] == ts[..3][2];
    var a := Machine(1, ImplicitDocumentStartState, [], [], []);
    var b := Machine(1, BlockNodeState, [DocumentEndState], [], WithDefaults([]));
    var c := b.(state := FlowSequenceFirstEntryState);
    var d := InRoot(3, FlowSequenceEntryMappingKeyState);
    RootSteps(ts);
    RunsOne(ts, INITIAL, OPENING[0], a);
    RunsOne(ts, a, OPENING[1], b);
    RunsOne(ts, b, OPENING[2], c);
    RunsOne(ts, c, OPENING[3], d);
    RunsConcat(ts, INITIAL, [OPENING[0]], a, [OPENING[1]], b);
    RunsConcat(ts, INITIAL, [OPENING[0]] + [OPENING[1]], b, [OPENING[2]], c);
    RunsConcat(ts, INITIAL, [OPENING[0]] + [OPENING[1]] + [OPENING[2]], c, [OPENING[3]], d);
    assert OPENING == [OPENING[0]] + [OPENING[1]] + [OPENING[2]] + [OPENING[3]];
  }

  lemma RootSteps(ts: seq<Token>)
    requires |ts| > 3 && ts[0] == StreamStartToken && ts[1] == FlowSequenceStartToken && ts[2] == KeyToken
    ensures var a := Machine(1, ImplicitDocumentStartState, [], [], []);
      var b := Machine(1, BlockNodeState, [DocumentEndState], [], WithDefaults([]));
      var c := b.(state := FlowSequenceFirstEntryState);
      && Step(ts, INITIAL) == Produced(OPENING[0], a)
      && Step(ts, a) == Produced(OPENING[1], b)
      && Step(ts, b) == Produced(OPENING[2], c)
      && Step(ts, c) == Produced(OPENING[3], InRoot(3, FlowSequenceEntryMappingKeyState))
  {
    hide WithDefaults, Resolve;
    assert [] + [DocumentEndState] == [DocumentEndState] && [] + [1] == [1];
  }

  /** `[? : v]` and `[?]`, each by itself in a stream, are refused behind an empty pair; `[? :]`
      is read to the end. */
  lemma EmptyKeysFromTheBeginning()
    ensures var ts := [StreamStartToken, FlowSequenceStartToken, KeyToken, ValueToken, V, FlowSequenceEndToken, StreamEndToken];
      var n := InRoot(4, FlowSequenceEntryState);
      Runs(ts, INITIAL, OPENING + [EMPTY_SCALAR, EMPTY_SCALAR, MappingEndEvent], n) && Step(ts, n) == Failed(ExpectedCommaOrBracket)
    ensures var ts := [StreamStartToken, FlowSequenceStartToken, KeyToken, FlowSequenceEndToken, StreamEndToken];
      var n := InRoot(4, FlowSequenceEntryState);
      Runs(ts, INITIAL, OPENING + [EMPTY_SCALAR, EMPTY_SCALAR, MappingEndEvent], n) && Step(ts, n) == Failed(ExpectedCommaOrBracket)
    ensures var ts := [StreamStartToken, FlowSequenceStartToken, KeyToken, ValueToken, FlowSequenceEndToken, StreamEndToken];
      Runs(ts, INITIAL, OPENING + [EMPTY_SCALAR, EMPTY_SCALAR, MappingEndEvent] + [SequenceEndEvent, DocumentEndEvent(true), StreamEndEvent],
        Machine(6, EndState, [], [], []))
  {
    hide Step, Runs, WithDefaults;
    RefusedBehind([StreamStartToken, FlowSequenceStartToken, KeyToken, ValueToken, V, FlowSequenceEndToken, StreamEndToken]);
    RefusedBehind([StreamStartToken, FlowSequenceStartToken, KeyToken, FlowSequenceEndToken, StreamEndToken]);
    var ts := [StreamStartToken, FlowSequenceStartToken, KeyToken, ValueToken, FlowSequenceEndToken, StreamEndToken];
    EmptyPairInRoot(ts);
    RootCloses(ts);
    RunsConcat(ts, INITIAL, OPENING + [EMPTY_SCALAR, EMPTY_SCALAR, MappingEndEvent], InRoot(4, FlowSequenceEntryState),
               [SequenceEndEvent, DocumentEndEvent(true), StreamEndEvent], Machine(6, EndState, [], [], []));
  }

  lemma EmptyPairInRoot(ts: seq<Token>)
    requires |ts| > 4 && ts[..3] == [StreamStartToken, FlowSequenceStartToken, KeyToken]
    requires (ts[3].ValueToken? || EndsEntry(ts[3])) && !ts[4].ValueToken?
    ensures Runs(ts, INITIAL, OPENING + [EMPTY_SCALAR, EMPTY_SCALAR, MappingEndEvent], InRoot(4, FlowSequenceEntryState))
  {
    hide Step, Runs, WithDefaults;
    var m0 := Machine(1, BlockNodeState, [DocumentEndState], [], WithDefaults([]));
    assert [] + [1] == [1];
    RootOpens(ts);
    EmptyKeyRuns(ts, m0, 3);
    NoValueRuns(ts, m0, 4);
    RunsConcat(ts, InRoot(3, FlowSequenceEntryMappingKeyState), [EMPTY_SCALAR],
               InRoot(4, FlowSequenceEntryMappingValueState), [EMPTY_SCALAR] + [MappingEndEvent], InRoot(4, FlowSequenceEntryState));
    assert [EMPTY_SCALAR] + ([EMPTY_SCALAR] + [MappingEndEvent]) == [EMPTY_SCALAR, EMPTY_SCALAR, MappingEndEvent];
    RunsConcat(ts, INITIAL, OPENING, InRoot(3, FlowSequenceEntryMappingKeyState),
               [EMPTY_SCALAR, EMPTY_SCALAR, MappingEndEvent], InRoot(4, FlowSequenceEntryState));
  }

  lemma RefusedBehind(ts: seq<Token>)
    requires |ts| > 4 && ts[..3] == [StreamStartToken, FlowSequenceStartToken, KeyToken]
    requires (ts[3].ValueToken? || EndsEntry(ts[3])) && !ts[4].ValueToken? && !EndsEntry(ts[4])
    ensures var n := InRoot(4, FlowSequenceEntryState);
      Runs(ts, INITIAL, OPENING + [EMPTY_SCALAR, EMPTY_SCALAR, MappingEndEvent], n) && Step(ts, n) == Failed(ExpectedCommaOrBracket)
  {
    hide Runs, Step, WithDefaults;
    EmptyPairInRoot(ts);
    BehindEntry(ts, Machine(1, BlockNodeState, [DocumentEndState], [], WithDefaults([])), 4);
    assert [] + [1] == [1];
  }

  lemma RootCloses(ts: seq<Token>)
    requires |ts| == 6 && ts[4] == FlowSequenceEndToken && ts[5] == StreamEndToken
    ensures Runs(ts, InRoot(4, FlowSequenceEntryState), [SequenceEndEvent, DocumentEndEvent(true), StreamEndEvent],
      Machine(6, EndState, [], [], []))
  {
    hide Runs, WithDefaults;
    var b := Machine(5, DocumentEndState, [], [], WithDefaults([]));
    var c := Machine(5, DocumentStartState, [], [], []);
    var d := Machine(6, EndState, [], [], []);
    RunsOne(ts, InRoot(4, FlowSequenceEntryState), SequenceEndEvent, b);
    RunsOne(ts, b, DocumentEndEvent(true), c);
    RunsOne(ts, c, StreamEndEvent, d);
    RunsConcat(ts, InRoot(4, FlowSequenceEntryState), [SequenceEndEvent], b, [DocumentEndEvent(true)], c);
    RunsConcat(ts, InRoot(4, FlowSequenceEntryState), [SequenceEndEvent] + [DocumentEndEvent(true)], c, [StreamEndEvent], d);
    assert [SequenceEndEvent] + [DocumentEndEvent(true)] + [StreamEndEvent] == [SequenceEndEvent, DocumentEndEvent(true), StreamEndEvent];
  }
}
