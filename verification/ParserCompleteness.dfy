/**
  The machine reads what it should: on the canonical tokens of a node, from any state that
  expects one, it gives the events of that node and returns to the state on top of the stack.
 */
module ParserCompleteness {
  import opened Basics
  import opened Events
  import opened ParserMachine
  import ParserSafety

  // ----- canonical tokens -----

  /** The ways in which a collection is laid out. */
  datatype Layout = BlockSequence | IndentlessSequence | BlockMapping | FlowSequence | FlowMapping

  /** The choices there are in writing a node: its tag in front of its anchor; no token for an
      empty plain scalar; no KEY or VALUE in front of the node, as a key or value of a mapping;
      a comma behind the last node of a flow collection. `parts` has the choices for the nodes
      inside, those of CANONICAL past its end. */
  datatype Spelling = Spelling(tagFirst: bool, bare: bool, omitted: bool, comma: bool, parts: seq<Spelling>)

  const CANONICAL := Spelling(false, false, false, false, [])

  function Part(sp: Spelling, n: nat): Spelling { if n < |sp.parts| then sp.parts[n] else CANONICAL }

  function PropertyTokens(anchor: string, tag: string, tagFirst: bool): seq<Token> {
    var a := if anchor == "" then [] else [AnchorToken(anchor)];
    var t := if tag == "" then [] else [TagToken("", tag)];
    if tagFirst then t + a else a + t
  }

  /** Is only the anchor or the tag of the scalar written? */
  predicate PropertiesOnly(e: Event, sp: Spelling) {
    sp.bare && e.ScalarEvent? && e.value == "" && e.style.Plain? && (e.anchor != "" || e.tag != "")
  }

  /** Is nothing at all written for the node? In a flow sequence the commas would not show it. */
  predicate Missing(l: Layout, d: Derivation, sp: Spelling) {
    d == Leaf(EMPTY_SCALAR) && sp.bare && !l.FlowSequence?
  }

  function Opening(l: Layout): seq<Token> {
    match l
    case BlockSequence => [BlockSequenceStartToken]
    case IndentlessSequence => []
    case BlockMapping => [BlockMappingStartToken]
    case FlowSequence => [FlowSequenceStartToken]
    case FlowMapping => [FlowMappingStartToken]
  }

  /** The tokens behind the last of n nodes. */
  function Closing(l: Layout, n: nat, sp: Spelling): seq<Token> {
    match l
    case BlockSequence => [BlockEndToken]
    case IndentlessSequence => []
    case BlockMapping => [BlockEndToken]
    case FlowSequence => Comma(n, sp) + [FlowSequenceEndToken]
    case FlowMapping => Comma(n, sp) + [FlowMappingEndToken]
  }

  function Comma(n: nat, sp: Spelling): seq<Token> { if n > 0 && sp.comma then [FlowEntryToken] else [] }

  /** The tokens in front of the nth node of a collection. */
  function Separator(l: Layout, n: nat, sp: Spelling := CANONICAL): seq<Token> {
    var omitted := Part(sp, n).omitted;
    match l
    case BlockSequence => [BlockEntryToken]
    case IndentlessSequence => [BlockEntryToken]
    case BlockMapping => if n % 2 == 0 then [KeyToken] else if omitted then [] else [ValueToken]
    case FlowSequence => if n == 0 then [] else [FlowEntryToken]
    case FlowMapping =>
      if n % 2 == 1 then if omitted then [] else [ValueToken]
      else if n == 0 then if omitted then [] else [KeyToken]
      else if omitted then [FlowEntryToken]
      else [FlowEntryToken, KeyToken]
  }

  function LayoutOf(d: Derivation): Layout
    requires !d.Leaf? && (d.Sequence? ==> d.start.SequenceStartEvent?) && (d.Mapping? ==> d.start.MappingStartEvent?)
  {
    if d.Sequence? then
      if d.start.flow then FlowSequence else if d.indentless then IndentlessSequence else BlockSequence
    else if d.start.flow then FlowMapping
    else BlockMapping
  }

  function Children(d: Derivation): (cs: seq<Derivation>)
    requires !d.Leaf?
    ensures forall i :: 0 <= i < |cs| ==> cs[i] < d
  {
    if d.Sequence? then d.items else d.entries
  }

  function Tokens(d: Derivation, sp: Spelling := CANONICAL): seq<Token>
    requires Derives(d)
    decreases d, 1
  {
    if d.Leaf? then
      if d.event.AliasEvent? then [AliasToken(d.event.name)]
      else
        PropertyTokens(d.event.anchor, d.event.tag, sp.tagFirst)
        + if PropertiesOnly(d.event, sp) then [] else [ScalarToken(d.event.value, d.event.style)]
    else
      var l := LayoutOf(d);
      PropertyTokens(d.start.anchor, d.start.tag, sp.tagFirst) + Opening(l) + ListTokens(d, l, Children(d), sp) + Closing(l, |Children(d)|, sp)
  }

  /** The tokens of a node of a collection. */
  function NodeTokens(l: Layout, d: Derivation, sp: Spelling): seq<Token>
    requires Derives(d)
    decreases d, 2
  {
    if Missing(l, d, sp) then [] else Tokens(d, sp)
  }

  function ListTokens(parent: Derivation, l: Layout, ds: seq<Derivation>, sp: Spelling): (ts: seq<Token>)
    requires forall i :: 0 <= i < |ds| ==> Derives(ds[i]) && ds[i] < parent
    ensures ds == [] ==> ts == []
    decreases parent, 0, |ds|
  {
    if ds == [] then []
    else
      var n := |ds| - 1;
      ListTokens(parent, l, ds[..n], sp) + Separator(l, n, sp) + NodeTokens(l, ds[n], Part(sp, n))
  }

  /** What may come behind the nth node of a collection. */
  predicate EndsPart(l: Layout, n: nat, t: Token) {
    match l
    case BlockSequence => t.BlockEntryToken? || t.BlockEndToken?
    case IndentlessSequence => t.BlockEntryToken? || EndsMappingPart(t)
    case BlockMapping => t.KeyToken? || t.BlockEndToken? || (n % 2 == 0 && t.ValueToken?)
    case FlowSequence => t.FlowEntryToken? || t.FlowSequenceEndToken?
    case FlowMapping => t.FlowEntryToken? || t.FlowMappingEndToken? || (n % 2 == 0 && t.ValueToken?)
  }

  /** VALUE is left out of a value that is missing, and KEY, in a flow mapping, of a key whose
      value is left out altogether. */
  predicate OmissionFits(l: Layout, d: Derivation, n: nat, sp: Spelling) {
    Part(sp, n).omitted && (l.BlockMapping? || l.FlowMapping?) ==>
      if n % 2 == 1 then Missing(l, d, Part(sp, n))
      else l.FlowMapping? && Part(sp, n + 1).omitted && !Missing(l, d, Part(sp, n))
  }

  /** Block nodes in block context only, an indentless sequence only in a block mapping and
      never empty, and the implicit flags that the machine gives. */
  predicate Fits(d: Derivation, block: bool, indentless: bool, sp: Spelling := CANONICAL) {
    match d
    case Leaf(e) =>
      e.ScalarEvent? ==>
        var plain := if PropertiesOnly(e, sp) then e.tag == "" else (e.tag == "" && e.style.Plain?) || e.tag == "!";
        e.implicit == plain && e.quotedImplicit == (!plain && e.tag == "")
    case Sequence(e, items, compact) =>
      && e.SequenceStartEvent? && e.implicit == (e.tag == "")
      && (if e.flow then !compact else block && (compact ==> indentless && items != []))
      && forall i :: 0 <= i < |items| ==> Fits(items[i], !e.flow, false, Part(sp, i))
    case Mapping(e, entries) =>
      && e.MappingStartEvent? && e.implicit == (e.tag == "") && (!e.flow ==> block)
      && forall i :: 0 <= i < |entries| ==>
           Fits(entries[i], !e.flow, !e.flow, Part(sp, i)) && OmissionFits(if e.flow then FlowMapping else BlockMapping, entries[i], i, sp)
  }

  function BlockIn(l: Layout): bool { l.BlockSequence? || l.IndentlessSequence? || l.BlockMapping? }

  function IndentlessIn(l: Layout): bool { l.BlockMapping? }

  // ----- runs -----

  /** The machine goes from m to n, producing the events. */
  predicate Runs(ts: seq<Token>, m: Machine, es: seq<Event>, n: Machine)
    decreases |es|
  {
    if es == [] then m == n
    else
      var o := Step(ts, m);
      o.Produced? && o.event == es[0] && Runs(ts, o.next, es[1..], n)
  }

  lemma {:induction false} RunsConcat(ts: seq<Token>, m: Machine, a: seq<Event>, x: Machine, b: seq<Event>, n: Machine)
    requires Runs(ts, m, a, x) && Runs(ts, x, b, n)
    ensures Runs(ts, m, a + b, n)
    decreases |a|
  {
    hide Step;
    if a == [] {
      assert a + b == b;
    } else {
      RunsConcat(ts, Step(ts, m).next, a[1..], x, b, n);
      assert (a + b)[1..] == a[1..] + b;
    }
  }

  lemma RunsOne(ts: seq<Token>, m: Machine, e: Event, n: Machine)
    requires Step(ts, m) == Produced(e, n)
    ensures Runs(ts, m, [e], n)
  {
    hide Step;
  }

  predicate Here(ts: seq<Token>, p: nat, xs: seq<Token>) {
    p + |xs| <= |ts| && forall i :: 0 <= i < |xs| ==> ts[p + i] == xs[i]
  }

  lemma HereConcat(ts: seq<Token>, p: nat, a: seq<Token>, b: seq<Token>)
    ensures Here(ts, p, a + b) <==> Here(ts, p, a) && Here(ts, p + |a|, b)
  {
    if Here(ts, p, a) && Here(ts, p + |a|, b) {
      forall i | 0 <= i < |a + b|
        ensures ts[p + i] == (a + b)[i]
      {
        if i >= |a| {
          assert ts[p + |a| + (i - |a|)] == b[i - |a|];
        }
      }
    }
    if Here(ts, p, a + b) {
      forall i | 0 <= i < |b|
        ensures ts[p + |a| + i] == b[i]
      {
        assert (a + b)[|a| + i] == b[i];
      }
      forall i | 0 <= i < |a|
        ensures ts[p + i] == a[i]
      {
        assert (a + b)[i] == a[i];
      }
    }
  }

  /** Where the machine stands once a node of n tokens that began at m has gone by. */
  function Past(m: Machine, n: nat): Machine
    requires m.states != []
  {
    var k := |m.states| - 1;
    m.(pos := m.pos + n, state := m.states[k], states := m.states[..k])
  }

  /** Reading a node with its return state on the stack gives the node's events. */
  predicate NodeRuns(ts: seq<Token>, m: Machine, block: bool, indentless: bool, d: Derivation, sp: Spelling := CANONICAL)
    requires Derives(d) && m.states != []
  {
    var o := ParseNode(ts, m, block, indentless);
    && o.Produced? && o.event == Flatten(d)[0]
    && Runs(ts, o.next, Flatten(d)[1..], Past(m, |Tokens(d, sp)|))
  }

  // ----- the beginning of a node -----

  lemma PropertiesAreRead(ts: seq<Token>, p: nat, anchor: string, tag: string, tagFirst: bool)
    requires Here(ts, p, PropertyTokens(anchor, tag, tagFirst))
    requires var q := p + |PropertyTokens(anchor, tag, tagFirst)|; q < |ts| && !ts[q].AnchorToken? && !ts[q].TagToken?
    ensures ParseProperties(ts, p) == Properties(anchor, tag != "", "", tag, p + |PropertyTokens(anchor, tag, tagFirst)|)
    ensures !ts[p].AliasToken? || (anchor == "" && tag == "")
  {
    var xs := PropertyTokens(anchor, tag, tagFirst);
    if xs != [] {
      assert ts[p + 0] == xs[0];
    }
    if |xs| > 1 {
      assert ts[p + 1] == xs[1];
    }
  }

  /** A node behind its properties. */
  lemma NodeIsContent(ts: seq<Token>, m: Machine, block: bool, indentless: bool, anchor: string, tag: string, tagFirst: bool)
    requires var xs := PropertyTokens(anchor, tag, tagFirst); var q := m.pos + |xs|;
      Here(ts, m.pos, xs) && q < |ts| && !ts[q].AnchorToken? && !ts[q].TagToken? && !ts[q].AliasToken?
    ensures var q := m.pos + |PropertyTokens(anchor, tag, tagFirst)|;
      ParseNode(ts, m, block, indentless) == ParseContent(ts[q], m.(pos := q), block, indentless, anchor, tag)
  {
    hide ParseProperties, ParseContent, Resolve;
    PropertiesAreRead(ts, m.pos, anchor, tag, tagFirst);
  }

  /** The first token of a node never looks like the end of what is around it. */
  predicate BeginsTokens(t: Token, indentless: bool) {
    || t.AliasToken? || t.AnchorToken? || t.TagToken? || t.ScalarToken?
    || t.BlockSequenceStartToken? || t.BlockMappingStartToken? || t.FlowSequenceStartToken? || t.FlowMappingStartToken?
    || (indentless && t.BlockEntryToken?)
  }

  lemma FirstToken(d: Derivation, block: bool, indentless: bool, sp: Spelling := CANONICAL)
    requires Derives(d) && Fits(d, block, indentless, sp)
    ensures Tokens(d, sp) != [] && BeginsTokens(Tokens(d, sp)[0], indentless)
  {
    hide ListTokens;
    if !d.Leaf? {
      var l := LayoutOf(d);
      var cs := Children(d);
      if l.IndentlessSequence? {
        FirstSeparator(d, cs, sp);
      }
    }
  }

  lemma {:induction false} FirstSeparator(parent: Derivation, ds: seq<Derivation>, sp: Spelling)
    requires ds != [] && forall i :: 0 <= i < |ds| ==> Derives(ds[i]) && ds[i] < parent
    ensures var xs := ListTokens(parent, IndentlessSequence, ds, sp); xs != [] && xs[0] == BlockEntryToken
    decreases |ds|
  {
    hide Tokens;
    if |ds| > 1 {
      FirstSeparator(parent, ds[..|ds| - 1], sp);
    }
  }

  /** What comes behind a node: the end of a part where an indentless sequence may be, and
      no content behind mere properties. */
  predicate Follows(ts: seq<Token>, q: nat, d: Derivation, indentless: bool, sp: Spelling) {
    && (indentless ==> q < |ts| && EndsMappingPart(ts[q]))
    && (d.Leaf? && PropertiesOnly(d.event, sp) ==> q < |ts| && !BeginsTokens(ts[q], indentless))
  }

  lemma AliasRuns(ts: seq<Token>, m: Machine, block: bool, indentless: bool, d: Derivation, sp: Spelling)
    requires d.Leaf? && d.event.AliasEvent? && m.states != [] && Here(ts, m.pos, Tokens(d, sp))
    ensures NodeRuns(ts, m, block, indentless, d, sp)
  {
    hide ParseProperties, ParseContent, Resolve;
    assert Tokens(d, sp)[0] == AliasToken(d.event.name);
  }

  lemma ScalarRuns(ts: seq<Token>, m: Machine, block: bool, indentless: bool, d: Derivation, sp: Spelling)
    requires d.Leaf? && d.event.ScalarEvent? && Fits(d, block, indentless, sp) && m.states != [] && Here(ts, m.pos, Tokens(d, sp))
    requires Follows(ts, m.pos + |Tokens(d, sp)|, d, indentless, sp)
    ensures NodeRuns(ts, m, block, indentless, d, sp)
  {
    hide ParseNode, ParseProperties, Resolve, Here, PropertyTokens;
    var e := d.event;
    var xs, x := PropertyTokens(e.anchor, e.tag, sp.tagFirst), ScalarToken(e.value, e.style);
    if PropertiesOnly(e, sp) {
      assert xs + [] == xs;
    } else {
      HereConcat(ts, m.pos, xs, [x]);
      FirstHere(ts, m.pos + |xs|, [x]);
    }
    NodeIsContent(ts, m, block, indentless, e.anchor, e.tag, sp.tagFirst);
  }

  lemma LeafRuns(ts: seq<Token>, m: Machine, block: bool, indentless: bool, d: Derivation, sp: Spelling)
    requires d.Leaf? && Derives(d) && Fits(d, block, indentless, sp) && m.states != []
    requires Here(ts, m.pos, Tokens(d, sp)) && Follows(ts, m.pos + |Tokens(d, sp)|, d, indentless, sp)
    ensures NodeRuns(ts, m, block, indentless, d, sp)
  {
    hide NodeRuns, Tokens, Fits, Here, Follows;
    if d.event.AliasEvent? {
      AliasRuns(ts, m, block, indentless, d, sp);
    } else {
      ScalarRuns(ts, m, block, indentless, d, sp);
    }
  }

  // ----- collections -----

  function FirstState(l: Layout): State {
    match l
    case BlockSequence => BlockSequenceFirstEntryState
    case IndentlessSequence => IndentlessSequenceEntryState
    case BlockMapping => BlockMappingFirstKeyState
    case FlowSequence => FlowSequenceFirstEntryState
    case FlowMapping => FlowMappingFirstKeyState
  }

  /** The state to return to after the nth node. */
  function ReturnState(l: Layout, n: nat, sp: Spelling): State {
    match l
    case BlockSequence => BlockSequenceEntryState
    case IndentlessSequence => IndentlessSequenceEntryState
    case BlockMapping => if n % 2 == 0 then BlockMappingValueState else BlockMappingKeyState
    case FlowSequence => FlowSequenceEntryState
    case FlowMapping =>
      if n % 2 == 1 then FlowMappingKeyState
      else if Part(sp, n).omitted then FlowMappingEmptyValueState
      else FlowMappingValueState
  }

  /** The machine in a collection whose first token is at m0, after n nodes of `len` tokens. */
  function After(m0: Machine, l: Layout, n: nat, len: nat, sp: Spelling := CANONICAL): Machine {
    if n == 0 then m0.(state := FirstState(l))
    else if l.IndentlessSequence? then m0.(pos := m0.pos + len, state := ReturnState(l, n - 1, sp))
    else m0.(pos := m0.pos + 1 + len, state := ReturnState(l, n - 1, sp), marks := m0.marks + [m0.pos])
  }

  /** The machine in front of the nth node. */
  function Entered(m0: Machine, l: Layout, n: nat, len: nat, sp: Spelling := CANONICAL): Machine {
    var q := m0.pos + |Opening(l)| + len + |Separator(l, n, sp)|;
    Push(After(m0, l, n + 1, len, sp).(pos := q, state := After(m0, l, n, len, sp).state), ReturnState(l, n, sp))
  }

  /** The nth node begins where its separator and the parts before it end. */
  predicate AtSeparator(ts: seq<Token>, m0: Machine, l: Layout, n: nat, len: nat, sp: Spelling) {
    var p := m0.pos + |Opening(l)| + len;
    var q := p + |Separator(l, n, sp)|;
    && (n == 0 ==> len == 0)
    && Here(ts, m0.pos, Opening(l)) && Here(ts, p, Separator(l, n, sp))
    && q < |ts| && BeginsTokens(ts[q], IndentlessIn(l)) && Written(l, n, sp)
  }

  /** The value of a mapping has its VALUE, and the key before it its KEY. */
  predicate Written(l: Layout, n: nat, sp: Spelling) {
    (l.BlockMapping? || l.FlowMapping?) && n % 2 == 1 ==>
      !Part(sp, n).omitted && (l.FlowMapping? ==> !Part(sp, n - 1).omitted)
  }

  lemma FirstHere(ts: seq<Token>, p: nat, xs: seq<Token>)
    requires Here(ts, p, xs)
    ensures xs != [] ==> p < |ts| && ts[p] == xs[0]
    ensures |xs| > 1 ==> p + 1 < |ts| && ts[p + 1] == xs[1]
  {}

  /** The nth node is entered with its return state on the stack. */
  lemma Enters(ts: seq<Token>, m0: Machine, l: Layout, n: nat, len: nat, sp: Spelling)
    requires AtSeparator(ts, m0, l, n, len, sp)
    ensures Step(ts, After(m0, l, n, len, sp)) == ParseNode(ts, Entered(m0, l, n, len, sp), BlockIn(l), IndentlessIn(l))
  {
    hide Step, Entered, After, AtSeparator;
    match l {
      case BlockSequence => EntersSequence(ts, m0, l, n, len, sp);
      case IndentlessSequence => EntersSequence(ts, m0, l, n, len, sp);
      case BlockMapping => EntersBlockMapping(ts, m0, n, len, sp);
      case FlowSequence => EntersFlowSequence(ts, m0, n, len, sp);
      case FlowMapping => EntersFlowMapping(ts, m0, n, len, sp);
    }
  }

  lemma EntersSequence(ts: seq<Token>, m0: Machine, l: Layout, n: nat, len: nat, sp: Spelling)
    requires (l.BlockSequence? || l.IndentlessSequence?) && AtSeparator(ts, m0, l, n, len, sp)
    ensures Step(ts, After(m0, l, n, len, sp)) == ParseNode(ts, Entered(m0, l, n, len, sp), true, false)
  {
    hide ParseNode, Here;
    FirstHere(ts, m0.pos, Opening(l));
    FirstHere(ts, m0.pos + |Opening(l)| + len, Separator(l, n, sp));
  }

  lemma EntersBlockMapping(ts: seq<Token>, m0: Machine, n: nat, len: nat, sp: Spelling)
    requires AtSeparator(ts, m0, BlockMapping, n, len, sp)
    ensures Step(ts, After(m0, BlockMapping, n, len, sp)) == ParseNode(ts, Entered(m0, BlockMapping, n, len, sp), true, true)
  {
    hide ParseNode, Here;
    FirstHere(ts, m0.pos, Opening(BlockMapping));
    FirstHere(ts, m0.pos + 1 + len, Separator(BlockMapping, n, sp));
  }

  lemma EntersFlowSequence(ts: seq<Token>, m0: Machine, n: nat, len: nat, sp: Spelling)
    requires AtSeparator(ts, m0, FlowSequence, n, len, sp)
    ensures Step(ts, After(m0, FlowSequence, n, len, sp)) == ParseNode(ts, Entered(m0, FlowSequence, n, len, sp), false, false)
  {
    hide ParseNode, Here;
    FirstHere(ts, m0.pos, Opening(FlowSequence));
    FirstHere(ts, m0.pos + 1 + len, Separator(FlowSequence, n, sp));
  }

  lemma EntersFlowMapping(ts: seq<Token>, m0: Machine, n: nat, len: nat, sp: Spelling)
    requires AtSeparator(ts, m0, FlowMapping, n, len, sp)
    ensures Step(ts, After(m0, FlowMapping, n, len, sp)) == ParseNode(ts, Entered(m0, FlowMapping, n, len, sp), false, false)
  {
    hide ParseNode, Here;
    FirstHere(ts, m0.pos, Opening(FlowMapping));
    FirstHere(ts, m0.pos + 1 + len, Separator(FlowMapping, n, sp));
  }

  function ClosingEvent(l: Layout): Event {
    if l.BlockMapping? || l.FlowMapping? then MappingEndEvent else SequenceEndEvent
  }

  /** The collection whose first token is at m0 ends after n nodes of len tokens. */
  predicate AtClosing(ts: seq<Token>, m0: Machine, l: Layout, n: nat, len: nat, sp: Spelling) {
    && (n == 0 ==> len == 0) && m0.states != []
    && (l.BlockMapping? || l.FlowMapping? ==> n % 2 == 0)
    && Here(ts, m0.pos, Opening(l)) && Here(ts, m0.pos + |Opening(l)| + len, Closing(l, n, sp))
    && (l.IndentlessSequence? ==> n > 0 && m0.pos + len < |ts| && !ts[m0.pos + len].BlockEntryToken?)
  }

  /** At its closing token a collection returns. */
  lemma Leaves(ts: seq<Token>, m0: Machine, l: Layout, n: nat, len: nat, sp: Spelling)
    requires AtClosing(ts, m0, l, n, len, sp)
    ensures Step(ts, After(m0, l, n, len, sp)) == Produced(ClosingEvent(l), Past(m0, |Opening(l)| + len + |Closing(l, n, sp)|))
  {
    if l.IndentlessSequence? {
      hide Here;
    } else {
      hide Step, After, Past;
      LeavesBlock(ts, m0, l, n, len, sp);
      LeavesFlow(ts, m0, l, n, len, sp);
    }
  }

  lemma MarkGoes(m0: Machine)
    ensures (m0.marks + [m0.pos])[..|m0.marks|] == m0.marks && m0.marks + [m0.pos] != []
  {}

  lemma LeavesBlock(ts: seq<Token>, m0: Machine, l: Layout, n: nat, len: nat, sp: Spelling)
    requires AtClosing(ts, m0, l, n, len, sp)
    ensures l.BlockSequence? || l.BlockMapping? ==>
      Step(ts, After(m0, l, n, len, sp)) == Produced(ClosingEvent(l), Past(m0, |Opening(l)| + len + |Closing(l, n, sp)|))
  {
    hide ParseNode, Here;
    FirstHere(ts, m0.pos, Opening(l));
    FirstHere(ts, m0.pos + |Opening(l)| + len, Closing(l, n, sp));
    MarkGoes(m0);
  }

  lemma LeavesFlow(ts: seq<Token>, m0: Machine, l: Layout, n: nat, len: nat, sp: Spelling)
    requires AtClosing(ts, m0, l, n, len, sp)
    ensures l.FlowSequence? || l.FlowMapping? ==>
      Step(ts, After(m0, l, n, len, sp)) == Produced(ClosingEvent(l), Past(m0, |Opening(l)| + len + |Closing(l, n, sp)|))
  {
    if n > 0 && sp.comma {
      LeavesBehindComma(ts, m0, l, n, len, sp);
    } else {
      hide ParseNode, Here, ParseFlowMappingEntry;
      FirstHere(ts, m0.pos, Opening(l));
      FirstHere(ts, m0.pos + |Opening(l)| + len, Closing(l, n, sp));
      MarkGoes(m0);
    }
  }

  lemma LeavesBehindComma(ts: seq<Token>, m0: Machine, l: Layout, n: nat, len: nat, sp: Spelling)
    requires AtClosing(ts, m0, l, n, len, sp) && n > 0 && sp.comma
    ensures l.FlowSequence? || l.FlowMapping? ==>
      Step(ts, After(m0, l, n, len, sp)) == Produced(ClosingEvent(l), Past(m0, |Opening(l)| + len + |Closing(l, n, sp)|))
  {
    hide ParseNode, Here;
    FirstHere(ts, m0.pos + |Opening(l)| + len, Closing(l, n, sp));
    MarkGoes(m0);
  }

  /** Once the nth node has gone by, the machine is where the next one begins. */
  lemma PastEntered(m0: Machine, l: Layout, n: nat, len: nat, size: nat, sp: Spelling := CANONICAL)
    requires n == 0 ==> len == 0
    ensures Past(Entered(m0, l, n, len, sp), size) == After(m0, l, n + 1, len + |Separator(l, n, sp)| + size, sp)
  {
    var r := ReturnState(l, n, sp);
    assert (m0.states + [r])[..|m0.states|] == m0.states;
  }

  /** A step that reads the beginning of a node, and the rest of the node. */
  lemma StepIntoNode(ts: seq<Token>, x: Machine, m: Machine, block: bool, indentless: bool, d: Derivation, sp: Spelling := CANONICAL)
    requires Derives(d) && m.states != [] && NodeRuns(ts, m, block, indentless, d, sp)
    requires Step(ts, x) == ParseNode(ts, m, block, indentless)
    ensures Runs(ts, x, Flatten(d), Past(m, |Tokens(d, sp)|))
  {
    hide Step, ParseNode, Tokens;
  }

  ghost predicate ListFits(parent: Derivation, l: Layout, ds: seq<Derivation>, sp: Spelling) {
    forall i :: 0 <= i < |ds| ==>
      Derives(ds[i]) && ds[i] < parent && Fits(ds[i], BlockIn(l), IndentlessIn(l), Part(sp, i)) && OmissionFits(l, ds[i], i, sp)
  }

  /** The tokens of a collection's last node, of the separator before it, and what is before. */
  lemma LastNode(ts: seq<Token>, p: nat, l: Layout, n: nat, a: seq<Token>, c: seq<Token>, sp: Spelling)
    requires Here(ts, p, a + Separator(l, n, sp) + c) && p + |a| + |Separator(l, n, sp)| + |c| < |ts|
    requires EndsPart(l, n, ts[p + |a| + |Separator(l, n, sp)| + |c|])
    requires (l.BlockMapping? || l.FlowMapping?) && n % 2 == 1 && Part(sp, n).omitted ==> c == []
    ensures var sep := Separator(l, n, sp);
      && Here(ts, p, a) && Here(ts, p + |a|, sep) && Here(ts, p + |a| + |sep|, c)
      && (n > 0 ==> EndsPart(l, n - 1, ts[p + |a|]))
      && (c != [] ==> ts[p + |a| + |sep|] == c[0])
  {
    hide Here, Separator, EndsPart;
    var sep := Separator(l, n, sp);
    HereConcat(ts, p, a + sep, c);
    HereConcat(ts, p, a, sep);
    FirstHere(ts, p + |a|, sep);
    FirstHere(ts, p + |a| + |sep|, c);
    SeparatorEnds(l, n, ts[p + |a| + |sep| + |c|], sp);
  }

  lemma SeparatorEnds(l: Layout, n: nat, t: Token, sp: Spelling)
    requires EndsPart(l, n, t)
    ensures n > 0 && Separator(l, n, sp) != [] ==> EndsPart(l, n - 1, Separator(l, n, sp)[0])
    ensures n > 0 && Separator(l, n, sp) == [] ==>
      (l.BlockMapping? || l.FlowMapping?) && n % 2 == 1 && Part(sp, n).omitted && EndsPart(l, n - 1, t)
  {}

  lemma ListTokensStep(parent: Derivation, l: Layout, ds: seq<Derivation>, sp: Spelling)
    requires ds != [] && ListFits(parent, l, ds, sp)
    ensures var n := |ds| - 1;
      && ListFits(parent, l, ds[..n], sp) && Derives(ds[n]) && Fits(ds[n], BlockIn(l), IndentlessIn(l), Part(sp, n)) && ds[n] < parent
      && ListTokens(parent, l, ds, sp) == ListTokens(parent, l, ds[..n], sp) + Separator(l, n, sp) + NodeTokens(l, ds[n], Part(sp, n))
  {
    hide Derives, Fits, Separator, NodeTokens, OmissionFits;
  }

  /** What is left out in front of the last node. */
  lemma LastIsWritten(parent: Derivation, l: Layout, ds: seq<Derivation>, sp: Spelling)
    requires ds != [] && ListFits(parent, l, ds, sp)
    ensures var n := |ds| - 1; var one := Part(sp, n);
      && (Missing(l, ds[n], one) ==> NodeTokens(l, ds[n], one) == [] && !(n % 2 == 0 && l.FlowMapping? && one.omitted))
      && ((l.BlockMapping? || l.FlowMapping?) && n % 2 == 1 && one.omitted ==> Missing(l, ds[n], one))
      && (!Missing(l, ds[n], one) ==> Written(l, n, sp))
      && (l.FlowMapping? && n % 2 == 1 && Part(sp, n - 1).omitted ==> one.omitted)
  {
    hide Derives, Fits, Tokens, Part;
    var n := |ds| - 1;
    assert OmissionFits(l, ds[n], n, sp);
    if n > 0 {
      assert OmissionFits(l, ds[n - 1], n - 1, sp);
    }
  }

  /** The nodes of a collection, one after the other. */
  lemma {:induction false} ListRuns(ts: seq<Token>, m0: Machine, l: Layout, parent: Derivation, ds: seq<Derivation>, sp: Spelling)
    requires ListFits(parent, l, ds, sp) && m0.states != [] && Here(ts, m0.pos, Opening(l))
    requires var p := m0.pos + |Opening(l)|; var xs := ListTokens(parent, l, ds, sp);
      Here(ts, p, xs) && p + |xs| < |ts| && (ds != [] ==> EndsPart(l, |ds| - 1, ts[p + |xs|]))
    ensures Runs(ts, After(m0, l, 0, 0, sp), FlattenAll(ds), After(m0, l, |ds|, |ListTokens(parent, l, ds, sp)|, sp))
    decreases parent, 0, |ds|
  {
    hide Tokens, NodeTokens, Opening, After, Step, Flatten, Here, Separator, ListTokens, Runs, Fits, EndsPart, Derives, Missing, Written;
    if ds == [] {
      NoRun(ts, After(m0, l, 0, 0, sp));
    } else {
      var n := |ds| - 1;
      ListTokensStep(parent, l, ds, sp);
      LastIsWritten(parent, l, ds, sp);
      var init, d := ds[..n], ds[n];
      var a, c := ListTokens(parent, l, init, sp), NodeTokens(l, d, Part(sp, n));
      LastNode(ts, m0.pos + |Opening(l)|, l, n, a, c, sp);
      ListRuns(ts, m0, l, parent, init, sp);
      if Missing(l, d, Part(sp, n)) {
        AbsentRuns(ts, m0, l, n, |a|, d, sp);
      } else {
        PresentRuns(ts, m0, l, n, |a|, parent, d, sp);
      }
      RunsConcat(ts, After(m0, l, 0, 0, sp), FlattenAll(init), After(m0, l, n, |a|, sp), Flatten(d),
                 After(m0, l, n + 1, |ListTokens(parent, l, ds, sp)|, sp));
    }
  }

  /** A node that has tokens. */
  lemma {:induction false} PresentRuns(ts: seq<Token>, m0: Machine, l: Layout, n: nat, len: nat, parent: Derivation, d: Derivation, sp: Spelling)
    requires Derives(d) && d < parent && Fits(d, BlockIn(l), IndentlessIn(l), Part(sp, n))
    requires !Missing(l, d, Part(sp, n)) && Written(l, n, sp)
    requires m0.states != [] && (n == 0 ==> len == 0) && Here(ts, m0.pos, Opening(l))
    requires var p := m0.pos + |Opening(l)| + len; var q := p + |Separator(l, n, sp)|;
      var xs := NodeTokens(l, d, Part(sp, n));
      && Here(ts, p, Separator(l, n, sp)) && Here(ts, q, xs)
      && q + |xs| < |ts| && EndsPart(l, n, ts[q + |xs|])
    ensures Runs(ts, After(m0, l, n, len, sp), Flatten(d),
                 After(m0, l, n + 1, len + |Separator(l, n, sp)| + |NodeTokens(l, d, Part(sp, n))|, sp))
    decreases parent, 0, 0
  {
    hide *;
    var one := Part(sp, n);
    SomeTokens(l, d, one);
    var q := m0.pos + |Opening(l)| + len + |Separator(l, n, sp)|;
    PartFollows(ts, q + |Tokens(d, one)|, l, n, d, one);
    FirstToken(d, BlockIn(l), IndentlessIn(l), one);
    FirstHere(ts, q, Tokens(d, one));
    SeparatorIsThere(ts, m0, l, n, len, sp);
    Enters(ts, m0, l, n, len, sp);
    var m := Entered(m0, l, n, len, sp);
    EnteredAt(m0, l, n, len, sp);
    NodeIsRead(ts, m, BlockIn(l), IndentlessIn(l), d, one);
    StepIntoNode(ts, After(m0, l, n, len, sp), m, BlockIn(l), IndentlessIn(l), d, one);
    PastEntered(m0, l, n, len, |Tokens(d, one)|, sp);
  }

  lemma SeparatorIsThere(ts: seq<Token>, m0: Machine, l: Layout, n: nat, len: nat, sp: Spelling)
    requires (n == 0 ==> len == 0) && Written(l, n, sp)
    requires var p := m0.pos + |Opening(l)| + len; var q := p + |Separator(l, n, sp)|;
      && Here(ts, m0.pos, Opening(l)) && Here(ts, p, Separator(l, n, sp))
      && q < |ts| && BeginsTokens(ts[q], IndentlessIn(l))
    ensures AtSeparator(ts, m0, l, n, len, sp)
  {}

  lemma SomeTokens(l: Layout, d: Derivation, sp: Spelling)
    requires Derives(d) && !Missing(l, d, sp)
    ensures NodeTokens(l, d, sp) == Tokens(d, sp)
  {}

  lemma PartFollows(ts: seq<Token>, q: nat, l: Layout, n: nat, d: Derivation, sp: Spelling)
    requires q < |ts| && EndsPart(l, n, ts[q])
    ensures Follows(ts, q, d, IndentlessIn(l), sp)
  {}

  /** A node that has none: what comes behind it says so. */
  lemma AbsentRuns(ts: seq<Token>, m0: Machine, l: Layout, n: nat, len: nat, d: Derivation, sp: Spelling)
    requires Derives(d) && Missing(l, d, Part(sp, n)) && !(n % 2 == 0 && l.FlowMapping? && Part(sp, n).omitted)
    requires (n == 0 ==> len == 0) && Here(ts, m0.pos, Opening(l))
    requires var p := m0.pos + |Opening(l)| + len; var q := p + |Separator(l, n, sp)|;
      Here(ts, p, Separator(l, n, sp)) && q < |ts| && EndsPart(l, n, ts[q])
    requires l.FlowMapping? && n % 2 == 1 && Part(sp, n - 1).omitted ==> Part(sp, n).omitted
    ensures NodeTokens(l, d, Part(sp, n)) == []
    ensures Runs(ts, After(m0, l, n, len, sp), Flatten(d),
                 After(m0, l, n + 1, len + |Separator(l, n, sp)| + |NodeTokens(l, d, Part(sp, n))|, sp))
  {
    hide Step, Runs, After, Here, EndsPart, Separator;
    assert Flatten(d) == [EMPTY_SCALAR];
    match l {
      case BlockSequence => AbsentInBlock(ts, m0, l, n, len, sp);
      case IndentlessSequence => AbsentInBlock(ts, m0, l, n, len, sp);
      case BlockMapping => AbsentInBlock(ts, m0, l, n, len, sp);
      case FlowMapping => AbsentInFlow(ts, m0, n, len, sp);
    }
    RunsOne(ts, After(m0, l, n, len, sp), EMPTY_SCALAR, After(m0, l, n + 1, len + |Separator(l, n, sp)|, sp));
  }

  lemma AbsentInBlock(ts: seq<Token>, m0: Machine, l: Layout, n: nat, len: nat, sp: Spelling)
    requires l.BlockSequence? || l.IndentlessSequence? || l.BlockMapping?
    requires (n == 0 ==> len == 0) && Here(ts, m0.pos, Opening(l))
    requires var p := m0.pos + |Opening(l)| + len; var q := p + |Separator(l, n, sp)|;
      Here(ts, p, Separator(l, n, sp)) && q < |ts| && EndsPart(l, n, ts[q])
    ensures Step(ts, After(m0, l, n, len, sp)) == Produced(EMPTY_SCALAR, After(m0, l, n + 1, len + |Separator(l, n, sp)|, sp))
  {
    hide ParseNode, Here;
    FirstHere(ts, m0.pos, Opening(l));
    FirstHere(ts, m0.pos + |Opening(l)| + len, Separator(l, n, sp));
  }

  lemma AbsentInFlow(ts: seq<Token>, m0: Machine, n: nat, len: nat, sp: Spelling)
    requires (n == 0 ==> len == 0) && Here(ts, m0.pos, Opening(FlowMapping))
    requires var p := m0.pos + 1 + len; var q := p + |Separator(FlowMapping, n, sp)|;
      Here(ts, p, Separator(FlowMapping, n, sp)) && q < |ts| && EndsPart(FlowMapping, n, ts[q])
    requires if n % 2 == 0 then !Part(sp, n).omitted else Part(sp, n - 1).omitted ==> Part(sp, n).omitted
    ensures Step(ts, After(m0, FlowMapping, n, len, sp))
         == Produced(EMPTY_SCALAR, After(m0, FlowMapping, n + 1, len + |Separator(FlowMapping, n, sp)|, sp))
  {
    hide ParseNode, Here;
    FirstHere(ts, m0.pos, Opening(FlowMapping));
    FirstHere(ts, m0.pos + 1 + len, Separator(FlowMapping, n, sp));
  }

  lemma NoRun(ts: seq<Token>, m: Machine)
    ensures Runs(ts, m, [], m)
  {}

  lemma EnteredAt(m0: Machine, l: Layout, n: nat, len: nat, sp: Spelling)
    ensures var m := Entered(m0, l, n, len, sp);
      m.states != [] && m.pos == m0.pos + |Opening(l)| + len + |Separator(l, n, sp)|
  {}

  /** The tokens of a node from any state that expects one give the events of the node and
      lead back to the state on top of the stack. */
  lemma {:induction false} NodeIsRead(ts: seq<Token>, m: Machine, block: bool, indentless: bool, d: Derivation, sp: Spelling := CANONICAL)
    requires Derives(d) && Fits(d, block, indentless, sp) && m.states != []
    requires Here(ts, m.pos, Tokens(d, sp)) && Follows(ts, m.pos + |Tokens(d, sp)|, d, indentless, sp)
    ensures NodeRuns(ts, m, block, indentless, d, sp)
    decreases d, 1
  {
    if d.Leaf? {
      LeafRuns(ts, m, block, indentless, d, sp);
    } else {
      CollectionRuns(ts, m, block, indentless, d, sp);
    }
  }

  /** The parts of the tokens of a collection. */
  lemma Segments(ts: seq<Token>, p: nat, d: Derivation, sp: Spelling)
    requires Derives(d) && !d.Leaf? && Here(ts, p, Tokens(d, sp))
    ensures var l, xs := LayoutOf(d), PropertyTokens(d.start.anchor, d.start.tag, sp.tagFirst);
      var inside := ListTokens(d, l, Children(d), sp);
      var q := p + |xs| + |Opening(l)| + |inside|;
      && Here(ts, p, xs) && Here(ts, p + |xs|, Opening(l)) && Here(ts, p + |xs| + |Opening(l)|, inside)
      && Here(ts, q, Closing(l, |Children(d)|, sp)) && p + |Tokens(d, sp)| == q + |Closing(l, |Children(d)|, sp)|
  {
    hide Here, ListTokens, PropertyTokens, Opening, Closing;
    var l, xs := LayoutOf(d), PropertyTokens(d.start.anchor, d.start.tag, sp.tagFirst);
    var inside := ListTokens(d, l, Children(d), sp);
    HereConcat(ts, p, xs + Opening(l) + inside, Closing(l, |Children(d)|, sp));
    HereConcat(ts, p, xs + Opening(l), inside);
    HereConcat(ts, p, xs, Opening(l));
  }

  lemma {:induction false} CollectionRuns(ts: seq<Token>, m: Machine, block: bool, indentless: bool, d: Derivation, sp: Spelling)
    requires Derives(d) && Fits(d, block, indentless, sp) && m.states != [] && !d.Leaf?
    requires Here(ts, m.pos, Tokens(d, sp)) && Follows(ts, m.pos + |Tokens(d, sp)|, d, indentless, sp)
    ensures NodeRuns(ts, m, block, indentless, d, sp)
    decreases d, 0
  {
    hide Runs, Step, ParseNode, FlattenAll, ListTokens, After, Tokens, PropertyTokens, Here;
    var l, cs := LayoutOf(d), Children(d);
    var m0 := m.(pos := m.pos + |PropertyTokens(d.start.anchor, d.start.tag, sp.tagFirst)|);
    var size := |ListTokens(d, l, cs, sp)|;
    Segments(ts, m.pos, d, sp);
    ContentOpens(ts, m, block, indentless, d, sp);
    ChildrenFit(d, block, indentless, sp);
    FollowsChildren(ts, m0.pos + |Opening(l)| + size, d, block, indentless, sp);
    ListRuns(ts, m0, l, d, cs, sp);
    Leaves(ts, m0, l, |cs|, size, sp);
    var end := if d.Mapping? then MappingEndEvent else SequenceEndEvent;
    var n := After(m0, l, |cs|, size, sp);
    RunsOne(ts, n, end, Past(m, |Tokens(d, sp)|));
    RunsConcat(ts, After(m0, l, 0, 0, sp), FlattenAll(cs), n, [end], Past(m, |Tokens(d, sp)|));
    BehindStart(d);
  }

  lemma BehindStart(d: Derivation)
    requires Derives(d) && !d.Leaf?
    ensures Flatten(d)[0] == d.start
    ensures Flatten(d)[1..] == FlattenAll(Children(d)) + [if d.Mapping? then MappingEndEvent else SequenceEndEvent]
  {
    hide FlattenAll;
    Assoc([d.start], FlattenAll(Children(d)), [if d.Mapping? then MappingEndEvent else SequenceEndEvent]);
  }

  lemma ChildrenFit(d: Derivation, block: bool, indentless: bool, sp: Spelling)
    requires Derives(d) && Fits(d, block, indentless, sp) && !d.Leaf?
    ensures ListFits(d, LayoutOf(d), Children(d), sp)
    ensures d.Mapping? ==> |Children(d)| % 2 == 0
    ensures LayoutOf(d).IndentlessSequence? ==> Children(d) != [] && indentless
  {}

  lemma FollowsChildren(ts: seq<Token>, q: nat, d: Derivation, block: bool, indentless: bool, sp: Spelling)
    requires Derives(d) && Fits(d, block, indentless, sp) && !d.Leaf?
    requires var end := Closing(LayoutOf(d), |Children(d)|, sp); Here(ts, q, end) && Follows(ts, q + |end|, d, indentless, sp)
    ensures q < |ts| && !ts[q].BlockEntryToken? && (Children(d) != [] ==> EndsPart(LayoutOf(d), |Children(d)| - 1, ts[q]))
  {
    var l := LayoutOf(d);
    if !l.IndentlessSequence? {
      assert ts[q] == Closing(l, |Children(d)|, sp)[0];
    }
  }

  lemma ContentOpens(ts: seq<Token>, m: Machine, block: bool, indentless: bool, d: Derivation, sp: Spelling)
    requires Derives(d) && Fits(d, block, indentless, sp) && m.states != [] && !d.Leaf?
    requires Here(ts, m.pos, Tokens(d, sp))
    ensures var l, xs := LayoutOf(d), PropertyTokens(d.start.anchor, d.start.tag, sp.tagFirst);
      ParseNode(ts, m, block, indentless) == Produced(d.start, After(m.(pos := m.pos + |xs|), l, 0, 0, sp))
  {
    hide ParseNode, ListTokens, Tokens, PropertyTokens;
    var l, cs := LayoutOf(d), Children(d);
    var xs := PropertyTokens(d.start.anchor, d.start.tag, sp.tagFirst);
    var inside := ListTokens(d, l, cs, sp);
    Segments(ts, m.pos, d, sp);
    if l.IndentlessSequence? {
      FirstSeparator(d, cs, sp);
      assert ts[m.pos + |xs|] == inside[0];
    } else {
      assert ts[m.pos + |xs|] == Opening(l)[0];
    }
    NodeIsContent(ts, m, block, indentless, d.start.anchor, d.start.tag, sp.tagFirst);
  }

  // ----- other spellings of tags -----

  /** What a tag token stands for under the directives in force. */
  function TagOf(ds: seq<Directive>, t: Token): string
    requires t.TagToken?
  {
    if t.handle == "" then t.suffix else Resolve(ds, t.handle, t.suffix)
  }

  /** The same token, or the same tag in another spelling. */
  predicate Alike(ds: seq<Directive>, t: Token, u: Token) {
    t == u || (t.TagToken? && u.TagToken? && TagOf(ds, t) == TagOf(ds, u) && TagOf(ds, t) != "")
  }

  predicate Respells(ds: seq<Directive>, ts: seq<Token>, us: seq<Token>) {
    |ts| == |us| && forall i :: 0 <= i < |ts| ==> Alike(ds, ts[i], us[i])
  }

  /** A state in a document, before its end. */
  predicate InDocument(s: State) {
    !s.StreamStartState? && !s.ImplicitDocumentStartState? && !s.DocumentStartState? && !s.DocumentEndState? && !s.EndState?
  }

  predicate NodeEvent(e: Event) {
    !e.StreamStartEvent? && !e.StreamEndEvent? && !e.DocumentStartEvent? && !e.DocumentEndEvent?
  }

  lemma SameToken(ds: seq<Directive>, ts: seq<Token>, us: seq<Token>, p: nat)
    requires Respells(ds, ts, us) && p < |ts|
    ensures p < |us| && Alike(ds, ts[p], us[p])
  {}

  function TagRead(ds: seq<Directive>, p: Properties): string {
    if !p.tagged then "" else if p.handle == "" then p.suffix else Resolve(ds, p.handle, p.suffix)
  }

  lemma SameProperties(ds: seq<Directive>, ts: seq<Token>, us: seq<Token>, pos: nat)
    requires Respells(ds, ts, us) && pos < |ts|
    ensures var p, q := ParseProperties(ts, pos), ParseProperties(us, pos);
      && p.anchor == q.anchor && p.tagged == q.tagged && p.pos == q.pos <= pos + 2
      && TagRead(ds, p) == TagRead(ds, q) && (p.tagged && p != q ==> TagRead(ds, p) != "")
  {
    SameToken(ds, ts, us, pos);
    if pos + 1 < |ts| {
      SameToken(ds, ts, us, pos + 1);
    }
    hide Respells, Resolve;
  }

  lemma SameNode(ds: seq<Directive>, ts: seq<Token>, us: seq<Token>, m: Machine, block: bool, indentless: bool)
    requires Respells(ds, ts, us) && m.directives == ds
    ensures ParseNode(ts, m, block, indentless) == ParseNode(us, m, block, indentless)
    ensures var o := ParseNode(ts, m, block, indentless); o.Produced? ==> o.next.directives == ds
  {
    assert |ts| == |us|;
    if m.pos < |ts| {
      SameToken(ds, ts, us, m.pos);
      SameProperties(ds, ts, us, m.pos);
      var p := ParseProperties(ts, m.pos);
      if p.pos < |ts| {
        SameToken(ds, ts, us, p.pos);
        SameContent(ds, ts[p.pos], us[p.pos], m.(pos := p.pos), block, indentless, p.anchor, TagRead(ds, p));
      }
      hide Respells, Resolve, ParseProperties, ParseContent;
    }
  }

  lemma SameContent(ds: seq<Directive>, t: Token, u: Token, m: Machine, block: bool, indentless: bool, anchor: string, tag: string)
    requires Alike(ds, t, u)
    ensures ParseContent(t, m, block, indentless, anchor, tag) == ParseContent(u, m, block, indentless, anchor, tag)
    ensures var o := ParseContent(t, m, block, indentless, anchor, tag); o.Produced? ==> o.next.directives == m.directives
  {
    hide TagOf;
  }

  /** Steps in a document do not depend on the spelling of tags, and keep the directives. */
  lemma SameStep(ds: seq<Directive>, ts: seq<Token>, us: seq<Token>, m: Machine)
    requires Respells(ds, ts, us) && m.directives == ds && InDocument(m.state)
    ensures Step(ts, m) == Step(us, m)
    ensures Step(ts, m).Produced? ==> Step(ts, m).next.directives == ds
  {
    hide ParseNode, Resolve, TagOf;
    forall k: Machine, block, indentless | k.directives == ds
      ensures ParseNode(ts, k, block, indentless) == ParseNode(us, k, block, indentless)
      ensures var o := ParseNode(ts, k, block, indentless); o.Produced? ==> o.next.directives == ds
    {
      SameNode(ds, ts, us, k, block, indentless);
    }
    assert m.pos < |ts| ==> Alike(ds, ts[m.pos], us[m.pos]);
    assert m.pos + 1 < |ts| ==> Alike(ds, ts[m.pos + 1], us[m.pos + 1]);
  }

  lemma OnlyInDocument(ts: seq<Token>, m: Machine)
    requires Step(ts, m).Produced? && NodeEvent(Step(ts, m).event)
    ensures InDocument(m.state)
  {
    hide ProcessDirectives, SkipDocumentEnds, WithDefaults;
  }

  lemma {:induction false} SameRuns(ds: seq<Directive>, ts: seq<Token>, us: seq<Token>, m: Machine, es: seq<Event>, n: Machine)
    requires Respells(ds, ts, us) && m.directives == ds && Runs(ts, m, es, n)
    requires forall i :: 0 <= i < |es| ==> NodeEvent(es[i])
    ensures Runs(us, m, es, n)
    decreases |es|
  {
    hide Step, Respells, NodeEvent, InDocument;
    if es != [] {
      OnlyInDocument(ts, m);
      SameStep(ds, ts, us, m);
      SameRuns(ds, ts, us, Step(ts, m).next, es[1..], n);
    }
  }

  lemma {:induction false} NodeEvents(d: Derivation)
    requires Derives(d)
    ensures forall i :: 0 <= i < |Flatten(d)| ==> NodeEvent(Flatten(d)[i])
    decreases d, 1
  {
    hide FlattenAll;
    if !d.Leaf? {
      ListEvents(d, Children(d));
    }
  }

  lemma {:induction false} ListEvents(parent: Derivation, ds: seq<Derivation>)
    requires forall i :: 0 <= i < |ds| ==> Derives(ds[i]) && ds[i] < parent
    ensures forall i :: 0 <= i < |FlattenAll(ds)| ==> NodeEvent(FlattenAll(ds)[i])
    decreases parent, 0, |ds|
  {
    hide Flatten, Derives, NodeEvent;
    if ds != [] {
      ListEvents(parent, ds[..|ds| - 1]);
      NodeEvents(ds[|ds| - 1]);
    }
  }

  // ----- documents and streams -----

  /** A document whose directives the parser takes. */
  predicate PlainDocument(d: Document) {
    && DerivesDocument(d)
    && (d.start.version.Version? ==> d.start.version == Version(1, 1))
    && ParserSafety.NoHandleTwice(d.start.directives)
  }

  lemma PlainDerives(d: Document)
    requires PlainDocument(d)
    ensures DerivesDocument(d) && Derives(d.root)
  {}

  /** May the document go without DOCUMENT-START, as the first one of a stream? */
  predicate MayBeBare(d: Document, root: seq<Token>) {
    d.start == DocumentStartEvent(Unversioned, []) && root != []
  }

  function TagTokens(ds: seq<Directive>): seq<Token> {
    if ds == [] then [] else [TagDirectiveToken(ds[0])] + TagTokens(ds[1..])
  }

  function VersionTokens(v: Version): seq<Token> {
    if v.Version? then [VersionDirectiveToken(v.major, v.minor)] else []
  }

  function StartTokens(d: Document, bare: bool): seq<Token> {
    if bare || !d.start.DocumentStartEvent? then [] else VersionTokens(d.start.version) + (TagTokens(d.start.directives) + [DocumentStartToken])
  }

  function RootTokens(d: Document, sp: Spelling): seq<Token>
    requires PlainDocument(d)
  {
    NodeTokens(BlockSequence, d.root, sp)
  }

  /** The tokens of the root, written in the ways chosen, its tags spelled in some way. */
  predicate RootSpelled(d: Document, sp: Spelling, root: seq<Token>) {
    && PlainDocument(d) && Fits(d.root, true, false, sp)
    && Respells(WithDefaults(d.start.directives), RootTokens(d, sp), root)
  }

  ghost predicate SpellsRoot(d: Document, root: seq<Token>) { exists sp :: RootSpelled(d, sp, root) }

  ghost predicate AllSpelled(ds: seq<Document>, roots: seq<seq<Token>>)
    requires |roots| == |ds|
  {
    forall i :: 0 <= i < |ds| ==> SpellsRoot(ds[i], roots[i])
  }

  function EndTokens(d: Document): seq<Token> {
    if !d.end.DocumentEndEvent? || d.end.endImplicit then [] else [DocumentEndToken]
  }

  /** The tokens of documents; `bare` tells whether the first goes without DOCUMENT-START. */
  function DocumentTokens(ds: seq<Document>, roots: seq<seq<Token>>, bare: bool): seq<Token>
    requires |roots| == |ds|
  {
    if ds == [] then []
    else
      var n := |ds| - 1;
      var d := ds[n];
      DocumentTokens(ds[..n], roots[..n], bare) + StartTokens(d, bare && n == 0) + roots[n] + EndTokens(d)
  }

  predicate BetweenDocuments(m: Machine) {
    (m.state.ImplicitDocumentStartState? || m.state.DocumentStartState?) && m.states == [] && m.marks == [] && m.directives == []
  }

  // ----- the start of a document -----

  lemma {:induction false} TagsAreRead(ts: seq<Token>, p: nat, version: Version, own: seq<Directive>, ds: seq<Directive>)
    requires Here(ts, p, TagTokens(ds) + [DocumentStartToken]) && ParserSafety.NoHandleTwice(own + ds)
    ensures ProcessDirectives(ts, p, version, own, own) == Directives(p + |TagTokens(ds)|, version, own + ds, WithDefaults(own + ds))
    decreases |ds|
  {
    hide Here, WithDefaults;
    FirstHere(ts, p, TagTokens(ds) + [DocumentStartToken]);
    if ds == [] {
      assert own + ds == own;
    } else {
      assert TagTokens(ds) + [DocumentStartToken] == [TagDirectiveToken(ds[0])] + (TagTokens(ds[1..]) + [DocumentStartToken]);
      HereConcat(ts, p, [TagDirectiveToken(ds[0])], TagTokens(ds[1..]) + [DocumentStartToken]);
      assert own + [ds[0]] + ds[1..] == own + ds;
      assert !HasHandle(own, ds[0].handle) by {
        assert (own + ds)[|own|] == ds[0];
        assert forall i :: 0 <= i < |own| ==> (own + ds)[i] == own[i];
      }
      TagsAreRead(ts, p + 1, version, own + [ds[0]], ds[1..]);
    }
  }

  lemma DirectivesAreRead(ts: seq<Token>, p: nat, d: Document)
    requires PlainDocument(d) && Here(ts, p, StartTokens(d, false))
    ensures var q := p + |StartTokens(d, false)|;
      && ProcessDirectives(ts, p, Unversioned, [], [])
         == Directives(q - 1, d.start.version, d.start.directives, WithDefaults(d.start.directives))
      && q - 1 < |ts| && ts[q - 1].DocumentStartToken?
      && StartsExplicitDocument(ts[p]) && p < q
  {
    hide Here, WithDefaults, TagTokens;
    var v, xs := VersionTokens(d.start.version), TagTokens(d.start.directives) + [DocumentStartToken];
    HereConcat(ts, p, v, xs);
    HereConcat(ts, p + |v|, TagTokens(d.start.directives), [DocumentStartToken]);
    FirstHere(ts, p, v);
    FirstHere(ts, p + |v| + |TagTokens(d.start.directives)|, [DocumentStartToken]);
    assert [] + d.start.directives == d.start.directives;
    TagsAreRead(ts, p + |v|, d.start.version, [], d.start.directives);
    TagsBegin(ts, p + |v|, d.start.directives);
  }

  lemma TagsBegin(ts: seq<Token>, p: nat, ds: seq<Directive>)
    requires Here(ts, p, TagTokens(ds) + [DocumentStartToken])
    ensures p < |ts| && StartsExplicitDocument(ts[p])
  {
    hide Here;
    FirstHere(ts, p, TagTokens(ds) + [DocumentStartToken]);
  }

  /** The directives and DOCUMENT-START. */
  lemma OpensDocument(ts: seq<Token>, m: Machine, d: Document)
    requires BetweenDocuments(m) && PlainDocument(d) && Here(ts, m.pos, StartTokens(d, false))
    ensures Step(ts, m) == Produced(d.start,
      Machine(m.pos + |StartTokens(d, false)|, DocumentContentState, [DocumentEndState], [], WithDefaults(d.start.directives)))
  {
    hide WithDefaults, Here, StartTokens, ProcessDirectives;
    DirectivesAreRead(ts, m.pos, d);
    assert SkipDocumentEnds(ts, m.pos) == m.pos;
    assert [] + [DocumentEndState] == [DocumentEndState];
  }

  /** A first document that goes without. */
  lemma OpensBareDocument(ts: seq<Token>, m: Machine)
    requires BetweenDocuments(m) && m.state.ImplicitDocumentStartState? && m.pos < |ts| && BeginsTokens(ts[m.pos], false)
    ensures Step(ts, m) == Produced(DocumentStartEvent(Unversioned, []),
      Machine(m.pos, BlockNodeState, [DocumentEndState], [], WithDefaults([])))
  {
    hide WithDefaults;
    assert [] + [DocumentEndState] == [DocumentEndState];
  }

  // ----- documents, one after the other -----

  /** The machine behind the start of a document. */
  function Started(m: Machine, d: Document, bare: bool): Machine
    requires PlainDocument(d)
  {
    Machine(m.pos + |StartTokens(d, bare)|, if bare then BlockNodeState else DocumentContentState, [DocumentEndState], [],
            WithDefaults(d.start.directives))
  }

  lemma StartRuns(ts: seq<Token>, m: Machine, d: Document, root: seq<Token>, bare: bool)
    requires BetweenDocuments(m) && PlainDocument(d) && (bare ==> m.state.ImplicitDocumentStartState? && MayBeBare(d, root))
    requires Here(ts, m.pos, StartTokens(d, bare)) && Here(ts, m.pos + |StartTokens(d, bare)|, root) && SpellsRoot(d, root)
    ensures Step(ts, m) == Produced(d.start, Started(m, d, bare))
  {
    hide Step, Tokens, Here, Derives, Fits, WithDefaults, TagOf, PlainDocument;
    if bare {
      var sp :| RootSpelled(d, sp, root);
      PlainDerives(d);
      FirstToken(d.root, true, false, sp);
      FirstHere(ts, m.pos, root);
      assert Alike(WithDefaults(d.start.directives), RootTokens(d, sp)[0], root[0]);
      OpensBareDocument(ts, m);
    } else {
      OpensDocument(ts, m, d);
    }
  }

  lemma DocumentRuns(ts: seq<Token>, m: Machine, d: Document, root: seq<Token>, bare: bool)
    requires BetweenDocuments(m) && PlainDocument(d) && (bare ==> m.state.ImplicitDocumentStartState? && MayBeBare(d, root))
    requires var p := m.pos + |StartTokens(d, bare)|; var q := p + |root|; var e := q + |EndTokens(d)|;
      && Here(ts, m.pos, StartTokens(d, bare)) && Here(ts, p, root) && SpellsRoot(d, root) && Here(ts, q, EndTokens(d))
      && e < |ts| && (d.end.endImplicit ==> StartsExplicitDocument(ts[e]) || ts[e].StreamEndToken?)
    ensures Runs(ts, m, [d.start] + Flatten(d.root) + [d.end],
      Machine(m.pos + |StartTokens(d, bare)| + |root| + |EndTokens(d)|, DocumentStartState, [], [], []))
  {
    hide *;
    PlainDerives(d);
    StartRuns(ts, m, d, root, bare);
    var k := Started(m, d, bare);
    StartedAt(m, d, bare);
    var x := k.(pos := k.pos + |root|, state := DocumentEndState, states := []);
    var n := Machine(x.pos + |EndTokens(d)|, DocumentStartState, [], [], []);
    DocumentCloses(ts, x, d);
    RootRuns(ts, k, d, root, bare);
    RunsOne(ts, m, d.start, k);
    RunsOne(ts, x, d.end, n);
    RunsConcat(ts, m, [d.start], k, Flatten(d.root), x);
    RunsConcat(ts, m, [d.start] + Flatten(d.root), x, [d.end], n);
  }

  lemma StartedAt(m: Machine, d: Document, bare: bool)
    requires PlainDocument(d)
    ensures var k := Started(m, d, bare);
      && k.pos == m.pos + |StartTokens(d, bare)| && k.states == [DocumentEndState] && k.marks == []
      && k.directives == WithDefaults(d.start.directives)
      && (if bare then k.state.BlockNodeState? else k.state.DocumentContentState?)
  {}

  /** The root, whatever the spelling of its tags. */
  lemma RootRuns(us: seq<Token>, k: Machine, d: Document, root: seq<Token>, bare: bool)
    requires PlainDocument(d) && SpellsRoot(d, root) && Here(us, k.pos, root)
    requires k.states == [DocumentEndState] && k.directives == WithDefaults(d.start.directives)
    requires if bare then k.state.BlockNodeState? && MayBeBare(d, root) else k.state.DocumentContentState?
    requires var q := k.pos + |root|; q < |us| && EndsDocument(us[q])
    ensures Runs(us, k, Flatten(d.root), k.(pos := k.pos + |root|, state := DocumentEndState, states := []))
  {
    var q := k.pos + |root|;
    var sp :| RootSpelled(d, sp, root);
    assert bare ==> root != [];
    hide *;
    var ts := SpelledInPlace(us, k.pos, d, sp, root);
    WrittenRootRuns(ts, k, d, sp, bare);
    PlainDerives(d);
    NodeEvents(d.root);
    SameRuns(k.directives, ts, us, k, Flatten(d.root), k.(pos := q, state := DocumentEndState, states := []));
  }

  /** The tokens with their tags in full in the place of the others. */
  lemma SpelledInPlace(us: seq<Token>, p: nat, d: Document, sp: Spelling, root: seq<Token>) returns (ts: seq<Token>)
    requires RootSpelled(d, sp, root) && Here(us, p, root) && p + |root| < |us|
    ensures PlainDocument(d) && Fits(d.root, true, false, sp) && Derives(d.root)
    ensures |ts| == |us| && |root| == |RootTokens(d, sp)| && Here(ts, p, RootTokens(d, sp)) && ts[p + |root|] == us[p + |root|]
    ensures Respells(WithDefaults(d.start.directives), ts, us)
  {
    hide Derives, Fits, RootTokens, WithDefaults, TagOf;
    var ds := WithDefaults(d.start.directives);
    var q := p + |root|;
    ts := us[..p] + RootTokens(d, sp) + us[q..];
    forall i | 0 <= i < |ts|
      ensures Alike(ds, ts[i], us[i])
    {
      if p <= i < q {
        assert Alike(ds, RootTokens(d, sp)[i - p], root[i - p]);
      }
    }
  }

  lemma WrittenRootRuns(ts: seq<Token>, k: Machine, d: Document, sp: Spelling, bare: bool)
    requires PlainDocument(d) && Fits(d.root, true, false, sp) && k.states == [DocumentEndState] && Here(ts, k.pos, RootTokens(d, sp))
    requires if bare then k.state.BlockNodeState? && RootTokens(d, sp) != [] else k.state.DocumentContentState?
    requires var q := k.pos + |RootTokens(d, sp)|; q < |ts| && EndsDocument(ts[q])
    ensures Runs(ts, k, Flatten(d.root), k.(pos := k.pos + |RootTokens(d, sp)|, state := DocumentEndState, states := []))
  {
    hide Step, Tokens, Runs, NodeRuns, Here, Derives, Fits, Flatten;
    var end := k.(pos := k.pos + |RootTokens(d, sp)|, state := DocumentEndState, states := []);
    if Missing(BlockSequence, d.root, sp) {
      NoContentStep(ts, k);
      OnlyEmpty(d.root);
      RunsOne(ts, k, EMPTY_SCALAR, end);
    } else {
      FirstToken(d.root, true, false, sp);
      FirstHere(ts, k.pos, Tokens(d.root, sp));
      NodeIsRead(ts, k, true, false, d.root, sp);
      ContentStep(ts, k);
      StepIntoNode(ts, k, k, true, false, d.root, sp);
    }
  }

  lemma DocumentCloses(ts: seq<Token>, x: Machine, d: Document)
    requires PlainDocument(d) && x.state.DocumentEndState? && x.states == [] && x.marks == []
    requires var e := x.pos + |EndTokens(d)|;
      && Here(ts, x.pos, EndTokens(d)) && e < |ts|
      && (d.end.endImplicit ==> StartsExplicitDocument(ts[e]) || ts[e].StreamEndToken?)
    ensures EndsDocument(ts[x.pos])
    ensures Step(ts, x) == Produced(d.end, Machine(x.pos + |EndTokens(d)|, DocumentStartState, [], [], []))
  {
    hide Step, Here, Derives, Fits;
    FirstHere(ts, x.pos, EndTokens(d));
    ClosesDocument(ts, x, d.end.endImplicit);
  }

  lemma OnlyEmpty(d: Derivation)
    requires d == Leaf(EMPTY_SCALAR)
    ensures Flatten(d) == [EMPTY_SCALAR]
  {}

  lemma NoContentStep(ts: seq<Token>, k: Machine)
    requires k.state.DocumentContentState? && k.states == [DocumentEndState] && k.pos < |ts| && EndsDocument(ts[k.pos])
    ensures Step(ts, k) == Produced(EMPTY_SCALAR, k.(state := DocumentEndState, states := []))
  {}

  lemma ContentStep(ts: seq<Token>, k: Machine)
    requires (k.state.DocumentContentState? || k.state.BlockNodeState?) && k.pos < |ts| && BeginsTokens(ts[k.pos], false)
    ensures Step(ts, k) == ParseNode(ts, k, true, false)
  {
    hide ParseNode;
  }

  lemma ClosesDocument(ts: seq<Token>, x: Machine, implicit: bool)
    requires x.state.DocumentEndState? && x.pos < |ts| && ts[x.pos].DocumentEndToken? == !implicit
    ensures Step(ts, x) == Produced(DocumentEndEvent(implicit),
      x.(pos := x.pos + (if implicit then 0 else 1), state := DocumentStartState, directives := []))
  {}

  /** The machine after n documents whose tokens number len. */
  function AfterDocuments(n: nat, len: nat): Machine {
    Machine(1 + len, if n == 0 then ImplicitDocumentStartState else DocumentStartState, [], [], [])
  }

  lemma DocumentTokensStep(ds: seq<Document>, roots: seq<seq<Token>>, bare: bool)
    requires ds != [] && |roots| == |ds| && AllSpelled(ds, roots)
    ensures var n := |ds| - 1; var d := ds[n];
      && PlainDocument(d) && Derives(d.root) && SpellsRoot(d, roots[n]) && AllSpelled(ds[..n], roots[..n])
      && DocumentTokens(ds, roots, bare)
         == DocumentTokens(ds[..n], roots[..n], bare) + StartTokens(d, bare && n == 0) + roots[n] + EndTokens(d)
  {
    hide StartTokens, EndTokens, PlainDocument, Respells, RootTokens;
    PlainDerives(ds[|ds| - 1]);
  }

  /** The parts of a list of tokens. */
  lemma FourParts(ts: seq<Token>, p: nat, a: seq<Token>, s: seq<Token>, b: seq<Token>, c: seq<Token>)
    requires Here(ts, p, a + s + b + c)
    ensures Here(ts, p, a) && Here(ts, p + |a|, s) && Here(ts, p + |a| + |s|, b) && Here(ts, p + |a| + |s| + |b|, c)
  {
    hide Here;
    HereConcat(ts, p, a + s + b, c);
    HereConcat(ts, p, a + s, b);
    HereConcat(ts, p, a, s);
  }

  /** Is what is at q behind the documents? */
  predicate BehindDocuments(ts: seq<Token>, q: nat) {
    q < |ts| && (StartsExplicitDocument(ts[q]) || ts[q].StreamEndToken?)
  }

  lemma {:induction false} DocumentsRun(ts: seq<Token>, ds: seq<Document>, roots: seq<seq<Token>>, bare: bool)
    requires |roots| == |ds| && AllSpelled(ds, roots) && (bare ==> ds == [] || MayBeBare(ds[0], roots[0]))
    requires var xs := DocumentTokens(ds, roots, bare); Here(ts, 1, xs) && BehindDocuments(ts, 1 + |xs|)
    ensures Runs(ts, AfterDocuments(0, 0), FlattenDocuments(ds), AfterDocuments(|ds|, |DocumentTokens(ds, roots, bare)|))
  {
    hide *;
    NoDocuments(bare);
    if ds == [] {
      NoRun(ts, AfterDocuments(0, 0));
    } else {
      var n := |ds| - 1;
      DocumentTokensStep(ds, roots, bare);
      var a := DocumentTokens(ds[..n], roots[..n], bare);
      LastSegments(ts, ds[n], a, roots[n], bare, n);
      if n > 0 {
        DocumentsRun(ts, ds[..n], roots[..n], bare);
      } else {
        assert ds[..n] == [];
        NoRun(ts, AfterDocuments(0, 0));
      }
      OneMoreDocument(ts, FlattenDocuments(ds[..n]), n, |a|, ds[n], roots[n], bare && n == 0);
      FlattenLast(ds);
    }
  }

  /** The tokens of the last document, behind those of the others. */
  lemma LastSegments(ts: seq<Token>, d: Document, a: seq<Token>, root: seq<Token>, bare: bool, n: nat)
    requires PlainDocument(d) && Here(ts, 1, a + StartTokens(d, bare && n == 0) + root + EndTokens(d))
    ensures var s := StartTokens(d, bare && n == 0);
      && Here(ts, 1, a) && Here(ts, 1 + |a|, s) && Here(ts, 1 + |a| + |s|, root) && Here(ts, 1 + |a| + |s| + |root|, EndTokens(d))
    ensures n > 0 ==> BehindDocuments(ts, 1 + |a|)
  {
    hide Here, StartTokens, EndTokens, PlainDocument, ProcessDirectives, WithDefaults, StartsExplicitDocument;
    FourParts(ts, 1, a, StartTokens(d, bare && n == 0), root, EndTokens(d));
    if n > 0 {
      DirectivesAreRead(ts, 1 + |a|, d);
    }
  }

  /** One more document, behind n others whose tokens number len. */
  lemma OneMoreDocument(ts: seq<Token>, es: seq<Event>, n: nat, len: nat, d: Document, root: seq<Token>, bare: bool)
    requires SpellsRoot(d, root) && (bare ==> n == 0 && MayBeBare(d, root))
    requires var p := 1 + len + |StartTokens(d, bare)|; var q := p + |root|;
      && Here(ts, 1 + len, StartTokens(d, bare)) && Here(ts, p, root) && Here(ts, q, EndTokens(d))
      && BehindDocuments(ts, q + |EndTokens(d)|)
    requires Runs(ts, AfterDocuments(0, 0), es, AfterDocuments(n, len))
    ensures Runs(ts, AfterDocuments(0, 0), es + ([d.start] + Flatten(d.root) + [d.end]),
      AfterDocuments(n + 1, len + |StartTokens(d, bare)| + |root| + |EndTokens(d)|))
  {
    hide PlainDocument, Respells, RootTokens, StartTokens, EndTokens, Here, Runs, Flatten, StartsExplicitDocument, MayBeBare, AfterDocuments;
    var m, size := AfterDocuments(n, len), |StartTokens(d, bare)| + |root| + |EndTokens(d)|;
    Between(n, len);
    Between(n + 1, len + size);
    DocumentRuns(ts, m, d, root, bare);
    RunsConcat(ts, AfterDocuments(0, 0), es, m, [d.start] + Flatten(d.root) + [d.end], AfterDocuments(n + 1, len + size));
  }

  lemma Between(n: nat, len: nat)
    ensures BetweenDocuments(AfterDocuments(n, len)) && (n == 0 ==> AfterDocuments(n, len).state.ImplicitDocumentStartState?)
    ensures n > 0 ==> AfterDocuments(n, len) == Machine(1 + len, DocumentStartState, [], [], [])
    ensures AfterDocuments(n, len).pos == 1 + len
  {}

  lemma NoDocuments(bare: bool)
    ensures FlattenDocuments([]) == [] && DocumentTokens([], [], bare) == []
  {}

  lemma FlattenLast(ds: seq<Document>)
    requires ds != []
    ensures var n := |ds| - 1; var d := ds[n];
      FlattenDocuments(ds) == FlattenDocuments(ds[..n]) + ([d.start] + Flatten(d.root) + [d.end])
  {
    hide Flatten;
    var n := |ds| - 1;
    Assoc4(FlattenDocuments(ds[..n]), [ds[n].start], Flatten(ds[n].root), [ds[n].end]);
    Assoc([ds[n].start], Flatten(ds[n].root), [ds[n].end]);
  }

  function StreamTokens(ds: seq<Document>, roots: seq<seq<Token>>, bare: bool): seq<Token>
    requires |roots| == |ds|
  {
    [StreamStartToken] + DocumentTokens(ds, roots, bare) + [StreamEndToken]
  }

  lemma {:induction false} RunsIsRun(ts: seq<Token>, m: Machine, es: seq<Event>, n: Machine)
    requires ParserSafety.Inv(ts, m) && Runs(ts, m, es, n)
    ensures ParserSafety.Inv(ts, n)
    ensures var r := ParserSafety.RunFrom(ts, n);
      ParserSafety.RunFrom(ts, m) == ParserSafety.Run(es + r.events, r.ended)
    decreases |es|
  {
    hide Step, ParserSafety.Inv, ParserSafety.RunFrom;
    if es == [] {
      var r := ParserSafety.RunFrom(ts, n);
      assert es + r.events == r.events;
    } else {
      var x := Step(ts, m).next;
      ParserSafety.RunStep(ts, m, es[0], x);
      RunsIsRun(ts, x, es[1..], n);
      assert [es[0]] + (es[1..] + ParserSafety.RunFrom(ts, n).events) == es + ParserSafety.RunFrom(ts, n).events;
    }
  }

  lemma StreamSegments(xs: seq<Token>)
    ensures var ts := [StreamStartToken] + xs + [StreamEndToken];
      ts[0] == StreamStartToken && Here(ts, 1, xs) && |ts| == 2 + |xs| && ts[1 + |xs|] == StreamEndToken
  {}

  lemma StreamRuns(ds: seq<Document>, roots: seq<seq<Token>>, bare: bool)
    requires |roots| == |ds| && AllSpelled(ds, roots) && (bare ==> ds == [] || MayBeBare(ds[0], roots[0]))
    ensures var ts := StreamTokens(ds, roots, bare);
      Runs(ts, INITIAL, [StreamStartEvent] + FlattenDocuments(ds) + [StreamEndEvent], Machine(|ts|, EndState, [], [], []))
  {
    hide AllSpelled, DocumentTokens, FlattenDocuments, Runs, Here;
    var ts, xs := StreamTokens(ds, roots, bare), DocumentTokens(ds, roots, bare);
    StreamSegments(xs);
    StartsStream(ts);
    var m, end := AfterDocuments(|ds|, |xs|), Machine(|ts|, EndState, [], [], []);
    EndsStream(ts, m);
    hide Step;
    RunsOne(ts, INITIAL, StreamStartEvent, AfterDocuments(0, 0));
    DocumentsRun(ts, ds, roots, bare);
    RunsOne(ts, m, StreamEndEvent, end);
    RunsConcat(ts, INITIAL, [StreamStartEvent], AfterDocuments(0, 0), FlattenDocuments(ds), m);
    RunsConcat(ts, INITIAL, [StreamStartEvent] + FlattenDocuments(ds), m, [StreamEndEvent], end);
  }

  /** Every stream of documents, written as canonical tokens, is read to its end as exactly
      its events, with directives, tags in any spelling, nodes that have no token, and a first
      document that may go without DOCUMENT-START. */
  lemma StreamIsRead(ds: seq<Document>, roots: seq<seq<Token>>, bare: bool)
    requires |roots| == |ds| && AllSpelled(ds, roots) && (bare ==> ds == [] || MayBeBare(ds[0], roots[0]))
    ensures ParserSafety.Inv(StreamTokens(ds, roots, bare), INITIAL)
    ensures ParserSafety.RunFrom(StreamTokens(ds, roots, bare), INITIAL)
         == ParserSafety.Run([StreamStartEvent] + FlattenDocuments(ds) + [StreamEndEvent], true)
  {
    hide AllSpelled, StreamTokens, FlattenDocuments, Runs, ParserSafety.Inv, ParserSafety.Measure, ParserSafety.OwedBy, Step;
    var ts := StreamTokens(ds, roots, bare);
    var es := [StreamStartEvent] + FlattenDocuments(ds) + [StreamEndEvent];
    ParserSafety.InitialIsGood(ts);
    StreamRuns(ds, roots, bare);
    RunsIsRun(ts, INITIAL, es, Machine(|ts|, EndState, [], [], []));
    assert es + [] == es;
  }

  lemma StartsStream(ts: seq<Token>)
    requires ts != [] && ts[0] == StreamStartToken
    ensures Step(ts, INITIAL) == Produced(StreamStartEvent, AfterDocuments(0, 0))
  {}

  lemma EndsStream(ts: seq<Token>, m: Machine)
    requires BetweenDocuments(m) && m.pos + 1 == |ts| && ts[m.pos].StreamEndToken?
    ensures Step(ts, m) == Produced(StreamEndEvent, Machine(|ts|, EndState, [], [], []))
  {}

  // ----- an entry that is not read -----

  /** In a flow sequence, an empty key loses the token behind its KEY, whatever comes next.
      Unless that is a VALUE, the pair then ends at once, and what follows the lost token is
      taken as what follows the pair: refused if it is neither a comma nor the end. */
  lemma EmptyKeyLosesToken(ts: seq<Token>, m: Machine)
    requires m.state.FlowSequenceEntryMappingKeyState? && m.pos < |ts|
    requires ts[m.pos].ValueToken? || ts[m.pos].FlowEntryToken? || ts[m.pos].FlowSequenceEndToken?
    requires m.states != [] && m.marks != []
    ensures Step(ts, m) == Produced(EMPTY_SCALAR, m.(pos := m.pos + 1, state := FlowSequenceEntryMappingValueState))
    ensures m.pos + 1 < |ts| && !ts[m.pos + 1].ValueToken? ==>
      var n := m.(pos := m.pos + 1, state := FlowSequenceEntryState);
      && Runs(ts, m, [EMPTY_SCALAR, EMPTY_SCALAR, MappingEndEvent], n)
      && (!ts[n.pos].FlowEntryToken? && !ts[n.pos].FlowSequenceEndToken? <==> Step(ts, n) == Failed(ExpectedCommaOrBracket))
      && (ts[n.pos].FlowSequenceEndToken? ==> Step(ts, n).Produced? && Step(ts, n).event == SequenceEndEvent)
  {
    hide Step, Runs;
    var a := m.(pos := m.pos + 1, state := FlowSequenceEntryMappingValueState);
    var b := a.(state := FlowSequenceEntryMappingEndState);
    var n := b.(state := FlowSequenceEntryState);
    EmptyKeyStep(ts, m);
    if m.pos + 1 < |ts| && !ts[m.pos + 1].ValueToken? {
      NoValueStep(ts, a);
      PairEndStep(ts, b);
      AfterEntryStep(ts, n);
      RunsOne(ts, m, EMPTY_SCALAR, a);
      RunsOne(ts, a, EMPTY_SCALAR, b);
      RunsOne(ts, b, MappingEndEvent, n);
      RunsConcat(ts, m, [EMPTY_SCALAR], a, [EMPTY_SCALAR], b);
      RunsConcat(ts, m, [EMPTY_SCALAR] + [EMPTY_SCALAR], b, [MappingEndEvent], n);
      assert [EMPTY_SCALAR] + [EMPTY_SCALAR] + [MappingEndEvent] == [EMPTY_SCALAR, EMPTY_SCALAR, MappingEndEvent];
    }
  }

  lemma EmptyKeyStep(ts: seq<Token>, m: Machine)
    requires m.state.FlowSequenceEntryMappingKeyState? && m.pos < |ts|
    requires ts[m.pos].ValueToken? || ts[m.pos].FlowEntryToken? || ts[m.pos].FlowSequenceEndToken?
    ensures Step(ts, m) == Produced(EMPTY_SCALAR, m.(pos := m.pos + 1, state := FlowSequenceEntryMappingValueState))
  {}

  lemma NoValueStep(ts: seq<Token>, m: Machine)
    requires m.state.FlowSequenceEntryMappingValueState? && m.pos < |ts| && !ts[m.pos].ValueToken?
    ensures Step(ts, m) == Produced(EMPTY_SCALAR, m.(state := FlowSequenceEntryMappingEndState))
  {}

  lemma PairEndStep(ts: seq<Token>, m: Machine)
    requires m.state.FlowSequenceEntryMappingEndState? && m.pos < |ts|
    ensures Step(ts, m) == Produced(MappingEndEvent, m.(state := FlowSequenceEntryState))
  {}

  lemma AfterEntryStep(ts: seq<Token>, m: Machine)
    requires m.state.FlowSequenceEntryState? && m.pos < |ts| && m.states != [] && m.marks != []
    ensures !ts[m.pos].FlowEntryToken? && !ts[m.pos].FlowSequenceEndToken? <==> Step(ts, m) == Failed(ExpectedCommaOrBracket)
    ensures ts[m.pos].FlowSequenceEndToken? ==> Step(ts, m).Produced? && Step(ts, m).event == SequenceEndEvent
  {}
}
