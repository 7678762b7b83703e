/**
  The tokens of block context by themselves: from their marks alone, every block is closed
  exactly when something comes that is not inside it, and the lexemes come out in order.
 */
module BlockBrackets {
  import opened Basics
  import opened TokenQueue
  import opened Indentation
  import opened BlockMachine

  // ----- what tokens say -----

  predicate IsStart(t: Token) { t.kind.BlockSequenceStart? || t.kind.BlockMappingStart? }

  /** The columns of the blocks that are open behind the tokens, outermost first. */
  function Columns(s: seq<Token>): seq<int> {
    if s == [] then []
    else
      var c, t := Columns(s[..|s| - 1]), s[|s| - 1];
      if IsStart(t) then c + [t.mark.column]
      else if t.kind.BlockEnd? && c != [] then c[..|c| - 1]
      else c
  }

  /** The blocks that were open before the BLOCK-ENDs at the end of the tokens. */
  function Unclosed(s: seq<Token>): seq<int> {
    if s != [] && s[|s| - 1].kind.BlockEnd? then Unclosed(s[..|s| - 1]) else Columns(s)
  }

  /** Those of the blocks that are not deeper than a column. */
  function Kept(columns: seq<int>, column: int): seq<int> {
    if columns != [] && columns[|columns| - 1] > column then Kept(columns[..|columns| - 1], column) else columns
  }

  predicate Shallower(columns: seq<int>, column: int) { forall i :: 0 <= i < |columns| ==> columns[i] < column }

  /** What may come behind the tokens s. A block is closed only if one is open. Something at
      a column closes the blocks that are deeper and no others; a new block is deeper than
      all that are open; `-` and KEY stand at the column of their block; and a directive, a
      document indicator or the end of the stream leaves no block open. */
  predicate Placed(s: seq<Token>, t: Token) {
    var open := Columns(s);
    if t.kind.StreamStart? then s == []
    else if t.kind.BlockEnd? then open != []
    else if t.kind.Directive? || t.kind.DocumentIndicator? || t.kind.StreamEnd? then open == []
    else
      && open == Kept(Unclosed(s), t.mark.column)
      && (IsStart(t) ==> Shallower(open, t.mark.column))
      && (t.kind.BlockEntry? || t.kind.Key? ==> open != [] && open[|open| - 1] == t.mark.column)
  }

  predicate AllPlaced(s: seq<Token>) {
    forall k :: 0 <= k < |s| ==> Placed(s[..k], s[k])
  }

  lemma ColumnsStep(s: seq<Token>, t: Token)
    ensures Columns(s + [t]) ==
      if IsStart(t) then Columns(s) + [t.mark.column]
      else if t.kind.BlockEnd? && Columns(s) != [] then Columns(s)[..|Columns(s)| - 1]
      else Columns(s)
    ensures Unclosed(s + [t]) == if t.kind.BlockEnd? then Unclosed(s) else Columns(s + [t])
  {
    assert (s + [t])[..|s|] == s;
  }

  lemma PlacedStep(s: seq<Token>, t: Token)
    requires AllPlaced(s) && Placed(s, t)
    ensures AllPlaced(s + [t])
  {
    hide Placed;
    var r := s + [t];
    forall k | 0 <= k < |r|
      ensures Placed(r[..k], r[k])
    {
      assert r[..k] == s[..k];
      assert k == |s| ==> s[..k] == s;
    }
  }

  lemma PlacedPrefix(s: seq<Token>, r: seq<Token>)
    requires AllPlaced(r) && s <= r
    ensures AllPlaced(s)
  {
    hide Placed;
    forall k | 0 <= k < |s|
      ensures Placed(s[..k], s[k])
    {
      assert s[..k] == r[..k];
    }
  }

  lemma KeptAll(columns: seq<int>, column: int)
    requires columns == [] || columns[|columns| - 1] <= column
    ensures Kept(columns, column) == columns
  {}

  // ----- the machine's tokens -----

  /** The levels are the columns of the open blocks. */
  predicate Leveled(s: State) {
    && Increasing(s.indents, s.indent) && [-1] + Columns(s.tokens) == s.indents + [s.indent]
    && AllPlaced(s.tokens) && s.tokens != []
  }

  /** A possible key began before; as long as it is one, there is only text of its line behind
      its token, no shallower, and no block is deeper. */
  predicate KeyOnLine(s: State, mark: Mark) {
    s.key.possible ==>
      && KeyIsThere(s) && s.tokens[s.key.number] == Token(NodeText, s.key.mark) && Precedes(s.key.mark, mark)
      && (!Expired(s.key, mark) ==> s.indent <= s.key.mark.column && TextsBehind(s.tokens, s.key.number, s.key.mark.column))
  }

  predicate TextsBehind(s: seq<Token>, n: nat, column: nat) {
    forall i :: n <= i < |s| ==> s[i].kind.NodeText? && column <= s[i].mark.column
  }

  predicate Good(s: State, mark: Mark) {
    Leveled(s) && KeyOnLine(s, mark) && Unclosed(s.tokens) == Columns(s.tokens)
  }

  lemma LeveledTop(s: State)
    requires Leveled(s)
    ensures s.indents == [] <==> Columns(s.tokens) == []
    ensures s.indents != [] ==> var c := Columns(s.tokens); c[|c| - 1] == s.indent
    ensures s.indents == [] ==> s.indent == -1
  {
    var a, b := [-1] + Columns(s.tokens), s.indents + [s.indent];
    assert |a| == |b| && a[|a| - 1] == b[|b| - 1];
  }

  lemma TopAbove(s: State)
    requires Leveled(s)
    ensures s.indent <= -1 ==> s.indents == []
  {
    hide Columns, AllPlaced;
  }

  lemma LeveledShallow(s: State, column: int)
    requires Leveled(s) && s.indent < column
    ensures Shallower(Columns(s.tokens), column)
  {
    var c := Columns(s.tokens);
    var a, b := [-1] + c, s.indents + [s.indent];
    forall i | 0 <= i < |c|
      ensures c[i] < column
    {
      assert c[i] == a[i + 1] == b[i + 1];
    }
  }

  /** A token that neither opens nor closes a block. */
  lemma AppendLeveled(s: State, kind: Kind, at: Mark)
    requires Leveled(s) && Placed(s.tokens, Token(kind, at)) && !IsStart(Token(kind, at)) && !kind.BlockEnd?
    ensures Leveled(Append(s, kind, at)) && Unclosed(s.tokens + [Token(kind, at)]) == Columns(s.tokens)
  {
    hide Placed, Columns, Unclosed;
    PlacedStep(s.tokens, Token(kind, at));
    ColumnsStep(s.tokens, Token(kind, at));
  }

  lemma ClosedLeveled(s: State, from: Mark)
    requires Leveled(s) && s.indents != []
    ensures Leveled(Closed(s, from)) && Unclosed(Closed(s, from).tokens) == Unclosed(s.tokens)
    ensures var c := Columns(s.tokens); c != [] && Columns(Closed(s, from).tokens) == c[..|c| - 1]
  {
    hide Columns, Unclosed, AllPlaced;
    var t := Token(BlockEnd, EndMark(from));
    LeveledTop(s);
    assert AllPlaced(s.tokens + [t]) by { PlacedStep(s.tokens, t); }
    ColumnsStep(s.tokens, t);
    hide Placed, IsStart;
    OneLess(Columns(s.tokens), s.indents, s.indent);
    OneFewer(s.indents, s.indent);
  }

  lemma OneLess(c: seq<int>, indents: seq<int>, indent: int)
    requires c != [] && [-1] + c == indents + [indent]
    ensures indents != [] && [-1] + c[..|c| - 1] == indents[..|indents| - 1] + [indents[|indents| - 1]]
  {
    var n := |indents|;
    assert ([-1] + c)[..n] == [-1] + c[..|c| - 1];
    assert (indents + [indent])[..n] == indents;
  }

  lemma OneFewer(indents: seq<int>, indent: int)
    requires Increasing(indents, indent) && indents != []
    ensures Increasing(indents[..|indents| - 1], indents[|indents| - 1])
  {}

  /** Unrolling leaves exactly the blocks that are not deeper. */
  lemma {:induction false} UnrollLeveled(s: State, column: int, from: Mark)
    requires Leveled(s) && column >= -1
    ensures var u := Unroll(s, column, from);
      && Leveled(u) && Unclosed(u.tokens) == Unclosed(s.tokens) && Columns(u.tokens) == Kept(Columns(s.tokens), column)
      && u.indent <= column && (column == -1 ==> Columns(u.tokens) == [])
    decreases |s.indents|
  {
    hide Columns, Unclosed, AllPlaced, Increasing;
    LeveledTop(s);
    if s.indent > column && s.indents != [] {
      ClosedLeveled(s, from);
      UnrollLeveled(Closed(s, from), column, from);
    } else {
      KeptAll(Columns(s.tokens), column);
      TopAbove(s);
    }
  }

  /** Something at a column that has been unrolled to. */
  predicate Ready(s: State, column: int) {
    Leveled(s) && s.indent <= column && Columns(s.tokens) == Kept(Unclosed(s.tokens), column)
  }

  lemma RollLeveled(s: State, column: nat, kind: Kind, at: Mark)
    requires Ready(s, column) && at.column == column && (kind.BlockSequenceStart? || kind.BlockMappingStart?)
    requires Roll(s, column, -1, kind, at).Moved?
    ensures var u := Roll(s, column, -1, kind, at).state;
      Ready(u, column) && u.indent == column && Columns(u.tokens) != [] && Columns(u.tokens)[|Columns(u.tokens)| - 1] == column
  {
    hide Columns, Unclosed, AllPlaced;
    LeveledTop(s);
    if s.indent < column {
      LeveledShallow(s, column);
      assert AllPlaced(s.tokens + [Token(kind, at)]) by { PlacedStep(s.tokens, Token(kind, at)); }
      ColumnsStep(s.tokens, Token(kind, at));
      KeptAll(Columns(s.tokens) + [column as int], column);
      Assoc([-1], Columns(s.tokens), [column as int]);
    }
  }

  /** Text at columns that are deep enough. */
  lemma {:induction false} TextsPlaced(a: seq<Token>, b: seq<Token>, column: nat)
    requires AllPlaced(a) && Unclosed(a) == Columns(a) && TextsBehind(b, 0, column)
    requires var c := Columns(a); c != [] ==> c[|c| - 1] <= column
    ensures AllPlaced(a + b) && Columns(a + b) == Columns(a) == Unclosed(a + b)
    decreases |b|
  {
    hide Columns, Unclosed, AllPlaced;
    if b == [] {
      assert a + b == a;
    } else {
      var n := |b| - 1;
      TextsPlaced(a, b[..n], column);
      var s, t := a + b[..n], b[n];
      KeptAll(Columns(a), t.mark.column);
      assert AllPlaced(s + [t]) by { PlacedStep(s, t); }
      ColumnsStep(s, t);
      assert a + b == s + [t];
    }
  }

  lemma {:induction false} TextsOpenNothing(a: seq<Token>, b: seq<Token>)
    requires TextsBehind(b, 0, 0)
    ensures Columns(a + b) == Columns(a)
    decreases |b|
  {
    hide Columns;
    if b == [] {
      assert a + b == a;
    } else {
      var n := |b| - 1;
      TextsOpenNothing(a, b[..n]);
      ColumnsStep(a + b[..n], b[n]);
      assert a + b == a + b[..n] + [b[n]];
    }
  }

  /** KEY, and a block start before it if the column is deeper, in front of a key's text. */
  function WithKey(s: State, at: Mark): seq<Token> {
    (if s.indent < at.column then [Token(BlockMappingStart, at)] else []) + [Token(Key, at)]
  }

  lemma SimpleValueTokens(s: State, at: Mark)
    requires s.key.number <= |s.tokens| && SimpleValue(s, at).Moved?
    ensures var n, k := s.key.number, s.key.mark;
      var u := SimpleValue(s, at).state;
      && u.tokens == s.tokens[..n] + WithKey(s, k) + s.tokens[n..] + [Token(Value, at)]
      && u.indent == (if s.indent < k.column then k.column else s.indent)
      && u.indents == (if s.indent < k.column then s.indents + [s.indent] else s.indents)
      && !u.key.possible && !u.allowed
  {
    var n, k := s.key.number, s.key.mark;
    var once := Inserted(s.tokens, n, Token(Key, k));
    assert once[..n] == s.tokens[..n] && once[n..] == [Token(Key, k)] + s.tokens[n..];
  }

  /** The tokens up to the KEY that goes in front of a key's text. */
  lemma KeyPlaced(s: State, column: nat)
    requires Leveled(s) && s.key.number < |s.tokens| && s.indent <= column
    requires s.tokens[s.key.number] == Token(NodeText, s.key.mark) && s.key.mark.column == column
    requires TextsBehind(s.tokens, s.key.number, column)
    ensures var a := s.tokens[..s.key.number];
      var p := a + WithKey(s, s.key.mark);
      && AllPlaced(p) && Unclosed(p) == Columns(p) && Columns(p) != [] && Columns(p)[|Columns(p)| - 1] == column
      && Columns(p) == (if s.indent < column then Columns(s.tokens) + [column as int] else Columns(s.tokens))
  {
    hide Columns, Unclosed, AllPlaced;
    var n, k := s.key.number, s.key.mark;
    var a, b := s.tokens[..n], s.tokens[n..];
    assert s.tokens == a + b;
    TextsOpenNothing(a, b);
    KeyTextPlaced(s.tokens, n);
    LeveledTop(s);
    if s.indent < column {
      LeveledShallow(s, column);
      var t := Token(BlockMappingStart, k);
      assert AllPlaced(a + [t]) by { PlacedStep(a, t); }
      ColumnsStep(a, t);
      KeptAll(Columns(a) + [column as int], column);
      assert AllPlaced(a + [t] + [Token(Key, k)]) by { PlacedStep(a + [t], Token(Key, k)); }
      ColumnsStep(a + [t], Token(Key, k));
      Assoc(a, [t], [Token(Key, k)]);
    } else {
      assert [] + [Token(Key, k)] == [Token(Key, k)];
      assert AllPlaced(a + [Token(Key, k)]) by { PlacedStep(a, Token(Key, k)); }
      ColumnsStep(a, Token(Key, k));
    }
  }

  lemma KeyTextPlaced(s: seq<Token>, n: nat)
    requires AllPlaced(s) && n < |s| && s[n].kind.NodeText?
    ensures AllPlaced(s[..n]) && Columns(s[..n]) == Kept(Unclosed(s[..n]), s[n].mark.column)
  {
    hide Columns, Unclosed;
    PlacedPrefix(s[..n], s);
    assert Placed(s[..n], s[n]);
  }

  lemma SimpleValueGood(s: State, at: Mark)
    requires Leveled(s) && s.key.possible && KeyOnLine(s, at) && !Expired(s.key, at) && SimpleValue(s, at).Moved?
    ensures Good(SimpleValue(s, at).state, at)
  {
    hide SimpleValue, AllPlaced, Columns, Unclosed, Increasing;
    SimpleValueTokens(s, at);
    SimpleValuePlaced(s, at);
    Assoc([-1], Columns(s.tokens), [s.key.mark.column as int]);
    MoreLevels(s.indents, s.indent, s.key.mark.column);
  }

  lemma MoreLevels(indents: seq<int>, indent: int, column: int)
    requires Increasing(indents, indent)
    ensures indent < column ==> Increasing(indents + [indent], column)
  {}

  lemma SimpleValuePlaced(s: State, at: Mark)
    requires Leveled(s) && s.key.possible && KeyOnLine(s, at) && !Expired(s.key, at)
    ensures var n, column := s.key.number, s.key.mark.column;
      var all := s.tokens[..n] + WithKey(s, s.key.mark) + s.tokens[n..] + [Token(Value, at)];
      && AllPlaced(all) && all != [] && Unclosed(all) == Columns(all)
      && Columns(all) == if s.indent < column then Columns(s.tokens) + [column as int] else Columns(s.tokens)
  {
    hide Columns, Unclosed, AllPlaced, WithKey, Increasing;
    var n, column := s.key.number, s.key.mark.column;
    KeyPlaced(s, column);
    var p, b := s.tokens[..n] + WithKey(s, s.key.mark), s.tokens[n..];
    TextsPlaced(p, b, column);
    KeptAll(Columns(p), at.column);
    PlacedStep(p + b, Token(Value, at));
    ColumnsStep(p + b, Token(Value, at));
  }

  // ----- every step -----

  lemma ReachedGood(s: State, mark: Mark, x: Lexeme)
    requires Good(s, mark) && Precedes(mark, x.mark)
    ensures Ready(Reached(s, x), x.mark.column) && KeyOnLine(Reached(s, x), x.mark)
  {
    var s1 := s.(allowed := s.allowed || x.newLine);
    UnrollLeveled(s1, x.mark.column, x.from);
    UnrollKeeps(s1, x.mark.column, x.from);
    hide Columns, Unclosed, AllPlaced, Unroll;
    if s.key.possible && !Expired(s.key, x.mark) {
      assert Unroll(s1, x.mark.column, x.from) == s1 by { NothingDeeper(s1, x.mark.column, x.from); }
    }
  }

  lemma NothingDeeper(s: State, column: int, from: Mark)
    requires s.indent <= column
    ensures Unroll(s, column, from) == s
  {}

  lemma EntryGood(s: State, kind: Kind, block: Kind, at: Mark)
    requires Ready(s, at.column) && (kind.BlockEntry? || kind.Key?) && (block.BlockSequenceStart? || block.BlockMappingStart?)
    requires Entry(s, kind, block, at).Moved?
    ensures Good(Entry(s, kind, block, at).state, at)
  {
    hide Columns, Unclosed, AllPlaced, Roll, Inserted;
    RollLeveled(s, at.column, block, at);
    var u := Remove(Roll(s, at.column, -1, block, at).state).state.(allowed := true);
    AppendLeveled(u, kind, at);
    ColumnsStep(u.tokens, Token(kind, at));
  }

  lemma ComplexValueGood(s: State, at: Mark)
    requires Ready(s, at.column) && KeyIsThere(s) && (s.key.possible ==> Expired(s.key, at)) && ValueOf(s, at).Moved?
    ensures Good(ValueOf(s, at).state, at)
  {
    hide Columns, Unclosed, AllPlaced, Roll, Inserted;
    var s1 := s.(key := s.key.(possible := false));
    RollLeveled(s1, at.column, BlockMappingStart, at);
    var u := Roll(s1, at.column, -1, BlockMappingStart, at).state.(allowed := true);
    RollKeepsKey(s1, at.column, BlockMappingStart, at);
    AppendLeveled(u, Value, at);
    ColumnsStep(u.tokens, Token(Value, at));
  }

  lemma RollKeepsKey(s: State, column: nat, kind: Kind, at: Mark)
    requires Roll(s, column, -1, kind, at).Moved?
    ensures Roll(s, column, -1, kind, at).state.key == s.key
  {}

  lemma KeyTextGood(s: State, at: Mark, blanksBehind: bool)
    requires Ready(s, at.column) && KeyOnLine(s, at) && KeyTextOf(s, at, blanksBehind).Moved?
    ensures Good(KeyTextOf(s, at, blanksBehind).state, at)
  {
    hide Columns, Unclosed, AllPlaced;
    var u := Save(s, at).state.(allowed := blanksBehind);
    AppendLeveled(u, NodeText, at);
    ColumnsStep(u.tokens, Token(NodeText, at));
  }

  lemma BlockScalarGood(s: State, at: Mark)
    requires Ready(s, at.column) && BlockScalarOf(s, at).Moved?
    ensures Good(BlockScalarOf(s, at).state, at)
  {
    hide Columns, Unclosed, AllPlaced;
    var u := Remove(s).state.(allowed := true);
    AppendLeveled(u, NodeText, at);
    ColumnsStep(u.tokens, Token(NodeText, at));
  }

  lemma OutermostGood(s: State, kind: Kind, at: Mark)
    requires Leveled(s) && (kind.Directive? || kind.DocumentIndicator? || kind.StreamEnd?)
    requires Outermost(s, kind, at).Moved?
    ensures Good(Outermost(s, kind, at).state, at) && Columns(Outermost(s, kind, at).state.tokens) == []
  {
    hide Columns, Unclosed, AllPlaced, Unroll;
    UnrollLeveled(s, -1, at);
    var u := Remove(Unroll(s, -1, at)).state.(allowed := false);
    AppendLeveled(u, kind, at);
    ColumnsStep(u.tokens, Token(kind, at));
  }

  lemma StepGood(s: State, mark: Mark, x: Lexeme)
    requires Good(s, mark) && KeyIsThere(s) && Precedes(mark, x.mark) && Step(s, x).Moved?
    ensures Good(Step(s, x).state, x.mark)
  {
    hide Ready, Good, KeyOnLine, Reached, Entry, ValueOf, SimpleValue, Outermost, Expired, Unroll, Precedes;
    ReachedGood(s, mark, x);
    assert KeyIsThere(Reached(s, x)) by { ReachedKey(s, x); }
    var u := Reached(s, x);
    assert Leveled(u) by { ReadyIsLeveled(u, x.mark.column); }
    match x.shape {
      case DirectiveText => OutermostGood(u, Directive, x.mark);
      case DocumentMarker => OutermostGood(u, DocumentIndicator, x.mark);
      case Dash => EntryGood(u, BlockEntry, BlockSequenceStart, x.mark);
      case Question => EntryGood(u, Key, BlockMappingStart, x.mark);
      case Colon => ValueGood(u, x.mark);
      case KeyText => KeyTextGood(u, x.mark, x.blanksBehind);
      case BlockScalarText => BlockScalarGood(u, x.mark);
    }
  }

  lemma ReachedKey(s: State, x: Lexeme)
    requires KeyIsThere(s)
    ensures KeyIsThere(Reached(s, x))
  {
    UnrollKeeps(s.(allowed := s.allowed || x.newLine), x.mark.column, x.from);
  }

  lemma ReadyIsLeveled(s: State, column: int)
    requires Ready(s, column)
    ensures Leveled(s)
  {}

  lemma ValueGood(s: State, at: Mark)
    requires Ready(s, at.column) && KeyOnLine(s, at) && KeyIsThere(s) && ValueOf(s, at).Moved?
    ensures Good(ValueOf(s, at).state, at)
  {
    hide Ready, Good, KeyOnLine, SimpleValue, Expired, Leveled;
    if s.key.possible && !Expired(s.key, at) {
      ReadyIsLeveled(s, at.column);
      SimpleValueGood(s, at);
    } else {
      ComplexValueGood(s, at);
    }
  }

  lemma StartGood()
    ensures Good(START, Mark(0, 0, 0))
  {
    var t := Token(StreamStart, Mark(0, 0, 0));
    assert [t][..0] == [];
    assert Placed([], t);
  }

  lemma {:induction false} RunGood(text: seq<Lexeme>, end: Mark, n: nat)
    requires InOrder(text, end) && n <= |text| && Run(text, n).Moved?
    ensures Good(Run(text, n).state, if n == 0 then Mark(0, 0, 0) else text[n - 1].mark)
    decreases n
  {
    hide Step, Good;
    if n == 0 {
      StartGood();
    } else {
      RunGood(text, end, n - 1);
      StepGood(Run(text, n - 1).state, if n == 1 then Mark(0, 0, 0) else text[n - 2].mark, text[n - 1]);
    }
  }

  /** The tokens of a whole text: everything is placed, and no block is left open. */
  lemma ScanGood(text: seq<Lexeme>, from: Mark, end: Mark)
    requires InOrder(text, end) && Scan(text, from, end).Moved?
    ensures var all := Scan(text, from, end).state.tokens;
      AllPlaced(all) && Columns(all) == [] && all != [] && all[|all| - 1].kind.StreamEnd?
  {
    hide Columns, Unclosed, AllPlaced, Unroll, Run, InOrder;
    RunGood(text, end, |text|);
    var s := Run(text, |text|).state;
    UnrollLeveled(s, end.column, from);
    OutermostGood(Unroll(s, end.column, from), StreamEnd, LastMark(end));
  }

  // ----- what the lexemes become -----

  /** The tokens that stand for something in the text, KEY aside, in order. */
  function Shown(s: seq<Token>): seq<Token> {
    if s == [] then []
    else Shown(s[..|s| - 1]) + if IsShown(s[|s| - 1]) then [s[|s| - 1]] else []
  }

  predicate IsShown(t: Token) {
    var k := t.kind;
    k.BlockEntry? || k.Value? || k.NodeText? || k.Directive? || k.DocumentIndicator? || k.StreamEnd?
  }

  function ShownLexeme(x: Lexeme): seq<Token> {
    match x.shape
    case DirectiveText => [Token(Directive, x.mark)]
    case DocumentMarker => [Token(DocumentIndicator, x.mark)]
    case Dash => [Token(BlockEntry, x.mark)]
    case Colon => [Token(Value, x.mark)]
    case KeyText => [Token(NodeText, x.mark)]
    case BlockScalarText => [Token(NodeText, x.mark)]
    case Question => []
    case BadText => []
  }

  function ShownText(text: seq<Lexeme>): seq<Token> {
    if text == [] then [] else ShownText(text[..|text| - 1]) + ShownLexeme(text[|text| - 1])
  }

  /** Each block start is followed by the indicator or KEY that it is for. */
  predicate Followed(s: seq<Token>) {
    forall k :: 0 <= k < |s| && IsStart(s[k]) ==>
      && k + 1 < |s| && s[k + 1].mark == s[k].mark
      && (if s[k].kind.BlockSequenceStart? then s[k + 1].kind.BlockEntry? else s[k + 1].kind.Key? || s[k + 1].kind.Value?)
  }

  lemma {:induction false} ShownConcat(a: seq<Token>, b: seq<Token>)
    ensures Shown(a + b) == Shown(a) + Shown(b)
    decreases |b|
  {
    if b == [] {
      assert a + b == a;
    } else {
      var n := |b| - 1;
      ShownConcat(a, b[..n]);
      assert (a + b)[..|a + b| - 1] == a + b[..n];
    }
  }

  lemma ShownOne(t: Token)
    ensures Shown([t]) == if IsShown(t) then [t] else []
  {
    assert [t][..0] == [];
  }

  lemma FollowedConcat(a: seq<Token>, b: seq<Token>)
    requires Followed(a) && Followed(b)
    ensures Followed(a + b)
  {
    var s := a + b;
    forall k | 0 <= k < |s| && IsStart(s[k])
      ensures k + 1 < |s| && s[k + 1].mark == s[k].mark
      ensures if s[k].kind.BlockSequenceStart? then s[k + 1].kind.BlockEntry? else s[k + 1].kind.Key? || s[k + 1].kind.Value?
    {
      if k < |a| {
        assert s[k] == a[k] && s[k + 1] == a[k + 1];
      } else {
        assert s[k] == b[k - |a|] && s[k + 1] == b[k - |a| + 1];
      }
    }
  }

  lemma FollowedParts(s: seq<Token>, n: nat)
    requires Followed(s) && n < |s| && s[n].kind.NodeText?
    ensures Followed(s[..n]) && Followed(s[n..])
  {
    var a, b := s[..n], s[n..];
    assert forall k :: 0 <= k < |a| ==> a[k] == s[k];
    assert forall k :: 0 <= k < |b| ==> b[k] == s[k + n];
  }

  /** What a step adds at the end. */
  predicate Adds(s: State, u: State, shown: seq<Token>) {
    Shown(u.tokens) == Shown(s.tokens) + shown && (Followed(s.tokens) ==> Followed(u.tokens))
  }

  lemma AddsMore(s: State, u: State, more: seq<Token>, shown: seq<Token>)
    requires u.tokens == s.tokens + more && Followed(more) && Shown(more) == shown
    ensures Adds(s, u, shown)
  {
    hide Shown, Followed;
    ShownConcat(s.tokens, more);
    if Followed(s.tokens) {
      FollowedConcat(s.tokens, more);
    }
  }

  lemma {:induction false} UnrollAdds(s: State, column: int, from: Mark)
    ensures Adds(s, Unroll(s, column, from), [])
    decreases |s.indents|
  {
    hide Shown;
    assert Shown(s.tokens) + [] == Shown(s.tokens);
    if s.indent > column && s.indents != [] {
      var t := Token(BlockEnd, EndMark(from));
      ShownOne(t);
      AddsMore(s, Closed(s, from), [t], []);
      UnrollAdds(Closed(s, from), column, from);
    }
  }

  /** A block start that may be needed, and an indicator. */
  lemma RollAdds(s: State, column: nat, block: Kind, kind: Kind, at: Mark, u: State)
    requires Roll(s, column, -1, block, at).Moved? && u.tokens == Roll(s, column, -1, block, at).state.tokens + [Token(kind, at)]
    requires (block.BlockSequenceStart? && kind.BlockEntry?) || (block.BlockMappingStart? && (kind.Key? || kind.Value?))
    ensures Adds(s, u, if kind.Key? then [] else [Token(kind, at)])
  {
    var start, t := Token(block, at), Token(kind, at);
    ShownOne(start);
    ShownOne(t);
    ShownConcat([start], [t]);
    if s.indent < column {
      assert s.tokens + [start] + [t] == s.tokens + ([start] + [t]);
      AddsMore(s, u, [start] + [t], if kind.Key? then [] else [t]);
    } else {
      AddsMore(s, u, [t], if kind.Key? then [] else [t]);
    }
  }

  lemma WithKeyShown(s: State, at: Mark)
    ensures Followed(WithKey(s, at)) && Shown(WithKey(s, at)) == []
  {
    var start, t := Token(BlockMappingStart, at), Token(Key, at);
    ShownOne(start);
    ShownOne(t);
    ShownConcat([start], [t]);
    ShownConcat([], [t]);
  }

  lemma SimpleValueAdds(s: State, at: Mark)
    requires s.key.number < |s.tokens| && s.tokens[s.key.number].kind.NodeText? && SimpleValue(s, at).Moved?
    ensures Adds(s, SimpleValue(s, at).state, [Token(Value, at)])
  {
    hide Shown, Followed, WithKey, SimpleValue;
    var n, t := s.key.number, Token(Value, at);
    var a, k, b := s.tokens[..n], WithKey(s, s.key.mark), s.tokens[n..];
    SimpleValueTokens(s, at);
    WithKeyShown(s, s.key.mark);
    ShownOne(t);
    ShownConcat(a, k);
    ShownConcat(a + k, b);
    ShownConcat(a + k + b, [t]);
    assert s.tokens == a + b;
    ShownConcat(a, b);
    assert Shown(a) + [] == Shown(a);
    if Followed(s.tokens) {
      FollowedParts(s.tokens, n);
      FollowedConcat(a, k);
      FollowedConcat(a + k, b);
      assert Followed([t]) by { NoStart(t); }
      FollowedConcat(a + k + b, [t]);
    }
  }

  lemma NoStart(t: Token)
    requires !IsStart(t)
    ensures Followed([t])
  {}

  lemma AppendAdds(s: State, kind: Kind, at: Mark)
    requires !IsStart(Token(kind, at)) && IsShown(Token(kind, at))
    ensures Adds(s, Append(s, kind, at), [Token(kind, at)])
  {
    hide Shown, Followed, IsStart, IsShown;
    ShownOne(Token(kind, at));
    NoStart(Token(kind, at));
    AddsMore(s, Append(s, kind, at), [Token(kind, at)], [Token(kind, at)]);
  }

  lemma AddsBehind(s: State, u: State, v: State, shown: seq<Token>)
    requires Adds(s, u, []) && Adds(u, v, shown)
    ensures Adds(s, v, shown)
  {
    assert Shown(s.tokens) + [] == Shown(s.tokens);
  }

  lemma DispatchAdds(s: State, x: Lexeme)
    requires KeyIsThere(s) && (s.key.possible ==> s.tokens[s.key.number].kind.NodeText?) && Dispatch(s, x).Moved?
    ensures Adds(s, Dispatch(s, x).state, ShownLexeme(x))
  {
    hide Adds, Roll, Unroll, SimpleValue, Expired;
    match x.shape {
      case DirectiveText => OutermostAdds(s, Directive, x.mark);
      case DocumentMarker => OutermostAdds(s, DocumentIndicator, x.mark);
      case Dash => RollAdds(s, x.mark.column, BlockSequenceStart, BlockEntry, x.mark, Dispatch(s, x).state);
      case Question => RollAdds(s, x.mark.column, BlockMappingStart, Key, x.mark, Dispatch(s, x).state);
      case Colon =>
        if s.key.possible && !Expired(s.key, x.mark) {
          SimpleValueAdds(s, x.mark);
        } else {
          var s1 := s.(key := s.key.(possible := false));
          RollAdds(s1, x.mark.column, BlockMappingStart, Value, x.mark, Dispatch(s, x).state);
          SameTokens(s, s1, Dispatch(s, x).state, ShownLexeme(x));
        }
      case KeyText =>
        AppendAdds(Save(s, x.mark).state.(allowed := x.blanksBehind), NodeText, x.mark);
        SameTokens(s, Save(s, x.mark).state.(allowed := x.blanksBehind), Dispatch(s, x).state, ShownLexeme(x));
      case BlockScalarText =>
        AppendAdds(Remove(s).state.(allowed := true), NodeText, x.mark);
        SameTokens(s, Remove(s).state.(allowed := true), Dispatch(s, x).state, ShownLexeme(x));
    }
  }

  lemma SameTokens(s: State, t: State, u: State, shown: seq<Token>)
    requires s.tokens == t.tokens && Adds(t, u, shown)
    ensures Adds(s, u, shown)
  {}

  lemma OutermostAdds(s: State, kind: Kind, at: Mark)
    requires (kind.Directive? || kind.DocumentIndicator? || kind.StreamEnd?) && Outermost(s, kind, at).Moved?
    ensures Adds(s, Outermost(s, kind, at).state, [Token(kind, at)])
  {
    hide Adds, Unroll;
    UnrollAdds(s, -1, at);
    var u := Remove(Unroll(s, -1, at)).state.(allowed := false);
    AppendAdds(u, kind, at);
    SameTokens(Unroll(s, -1, at), u, Append(u, kind, at), [Token(kind, at)]);
    AddsBehind(s, Unroll(s, -1, at), Append(u, kind, at), [Token(kind, at)]);
  }

  lemma StepAdds(s: State, mark: Mark, x: Lexeme)
    requires Good(s, mark) && KeyIsThere(s) && Precedes(mark, x.mark) && Step(s, x).Moved?
    ensures Adds(s, Step(s, x).state, ShownLexeme(x))
  {
    hide Adds, Unroll, Dispatch, Leveled, AllPlaced, Columns, Unclosed;
    ReachedGood(s, mark, x);
    ReachedKey(s, x);
    var s1 := s.(allowed := s.allowed || x.newLine);
    UnrollAdds(s1, x.mark.column, x.from);
    SameTokens(s, s1, Reached(s, x), []);
    DispatchAdds(Reached(s, x), x);
    AddsBehind(s, Reached(s, x), Step(s, x).state, ShownLexeme(x));
  }

  lemma {:induction false} RunAdds(text: seq<Lexeme>, end: Mark, n: nat)
    requires InOrder(text, end) && n <= |text| && Run(text, n).Moved?
    ensures Shown(Run(text, n).state.tokens) == ShownText(text[..n]) && Followed(Run(text, n).state.tokens)
    decreases n
  {
    hide Step, Good, Shown, Followed;
    if n == 0 {
      ShownOne(Token(StreamStart, Mark(0, 0, 0)));
      NoStart(Token(StreamStart, Mark(0, 0, 0)));
    } else {
      RunAdds(text, end, n - 1);
      RunGood(text, end, n - 1);
      StepAdds(Run(text, n - 1).state, if n == 1 then Mark(0, 0, 0) else text[n - 2].mark, text[n - 1]);
      assert text[..n][..n - 1] == text[..n - 1];
    }
  }

  /** The tokens of a whole text, BLOCK brackets and KEYs aside, are what the text holds, in
      order, and each block start is followed by its first indicator or KEY at its mark. */
  lemma ScanAdds(text: seq<Lexeme>, from: Mark, end: Mark)
    requires InOrder(text, end) && Scan(text, from, end).Moved?
    ensures var all := Scan(text, from, end).state.tokens;
      Shown(all) == ShownText(text) + [Token(StreamEnd, LastMark(end))] && Followed(all)
  {
    hide Adds, Unroll, Shown, Followed, Run, InOrder;
    RunAdds(text, end, |text|);
    assert text[..|text|] == text;
    var s := Run(text, |text|).state;
    var u := Unroll(s, end.column, from);
    UnrollAdds(s, end.column, from);
    OutermostAdds(u, StreamEnd, LastMark(end));
    AddsBehind(s, u, Outermost(u, StreamEnd, LastMark(end)).state, [Token(StreamEnd, LastMark(end))]);
    assert Adds(s, Scan(text, from, end).state, [Token(StreamEnd, LastMark(end))]);
    AddsIs(s, Scan(text, from, end).state, [Token(StreamEnd, LastMark(end))]);
  }

  lemma AddsIs(s: State, u: State, shown: seq<Token>)
    requires Adds(s, u, shown)
    ensures Shown(u.tokens) == Shown(s.tokens) + shown && (Followed(s.tokens) ==> Followed(u.tokens))
  {}

  // ----- the only STREAM-END -----

  lemma {:induction false} ShownHas(s: seq<Token>, t: Token)
    requires t in s && IsShown(t)
    ensures t in Shown(s)
    decreases |s|
  {
    if s[|s| - 1] != t {
      ShownHas(s[..|s| - 1], t);
    }
  }

  lemma {:induction false} NoEndInText(text: seq<Lexeme>)
    ensures forall t :: t in ShownText(text) ==> !t.kind.StreamEnd?
    decreases |text|
  {
    if text != [] {
      NoEndInText(text[..|text| - 1]);
    }
  }

  lemma RunHasNoEnd(text: seq<Lexeme>, end: Mark, n: nat)
    requires InOrder(text, end) && n <= |text| && Run(text, n).Moved?
    ensures forall t :: t in Run(text, n).state.tokens ==> !t.kind.StreamEnd?
  {
    hide Shown, Run;
    RunAdds(text, end, n);
    NoEndInText(text[..n]);
    forall t | t in Run(text, n).state.tokens && t.kind.StreamEnd?
      ensures false
    {
      ShownHas(Run(text, n).state.tokens, t);
    }
  }

  /** The whole text's STREAM-END is its last token. */
  lemma ScanHasOneEnd(text: seq<Lexeme>, from: Mark, end: Mark)
    requires InOrder(text, end) && Scan(text, from, end).Moved?
    ensures var all := Scan(text, from, end).state.tokens;
      all != [] && forall i :: 0 <= i < |all| ==> (all[i].kind.StreamEnd? <==> i == |all| - 1)
  {
    hide Unroll, Run, InOrder;
    RunHasNoEnd(text, end, |text|);
    var s := Run(text, |text|).state;
    var u := Unroll(s, end.column, from);
    UnrollHasNoEnd(s, end.column, from);
    UnrollHasNoEnd(u, -1, LastMark(end));
  }

  lemma {:induction false} UnrollHasNoEnd(s: State, column: int, from: Mark)
    requires forall t :: t in s.tokens ==> !t.kind.StreamEnd?
    ensures forall t :: t in Unroll(s, column, from).tokens ==> !t.kind.StreamEnd?
    decreases |s.indents|
  {
    if s.indent > column && s.indents != [] {
      UnrollHasNoEnd(Closed(s, from), column, from);
    }
  }
}
