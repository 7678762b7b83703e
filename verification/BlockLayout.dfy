/**
  Block collections as they are laid out in a text, and the tokens they should give: `-`, `?`
  and the keys of a block stand at one column, and what belongs to them is deeper.
 */
module BlockLayout {
  import opened Basics
  import opened TokenQueue
  import opened Indentation
  import opened BlockMachine

  // ----- layouts -----

  /** `words` and `props`: aliases, anchors, tags and scalars. */
  datatype Node =
    | Nothing
    | Text(words: seq<Lexeme>)
    | Items(props: seq<Lexeme>, entries: seq<Entry>)
    | Pairs(props: seq<Lexeme>, pairs: seq<Pair>)

  datatype Entry = Entry(dash: Lexeme, node: Node)

  /** A simple key and its value, a key behind `?` with a value behind `:`, or such a key alone. */
  datatype Pair =
    | Simple(words: seq<Lexeme>, colon: Lexeme, value: Node)
    | Complex(question: Lexeme, key: Node, colon: Lexeme, value: Node)
    | KeyOnly(question: Lexeme, key: Node)

  function First(p: Pair): Lexeme
    requires p.Simple? ==> p.words != []
  {
    if p.Simple? then p.words[0] else p.question
  }

  function Lexemes(n: Node): seq<Lexeme> {
    match n
    case Nothing => []
    case Text(words) => words
    case Items(props, entries) => props + EntryLexemes(entries)
    case Pairs(props, pairs) => props + PairLexemes(pairs)
  }

  function EntryLexemes(es: seq<Entry>): seq<Lexeme> {
    if es == [] then [] else EntryLexemes(es[..|es| - 1]) + OneEntry(es[|es| - 1])
  }

  function OneEntry(e: Entry): seq<Lexeme> { [e.dash] + Lexemes(e.node) }

  function PairLexemes(ps: seq<Pair>): seq<Lexeme> {
    if ps == [] then [] else PairLexemes(ps[..|ps| - 1]) + OnePair(ps[|ps| - 1])
  }

  function OnePair(p: Pair): seq<Lexeme> {
    match p
    case Simple(words, colon, value) => words + ([colon] + Lexemes(value))
    case Complex(question, key, colon, value) => [question] + Lexemes(key) + ([colon] + Lexemes(value))
    case KeyOnly(question, key) => [question] + Lexemes(key)
  }

  // ----- what is a layout -----

  /** Is a `-`, a `?` or a simple key allowed behind the words? */
  function AllowedBehind(words: seq<Lexeme>, allowed: bool): bool {
    if words == [] then allowed
    else
      var x := words[|words| - 1];
      x.shape.BlockScalarText? || x.blanksBehind
  }

  function AllowedAfter(n: Node, allowed: bool): bool {
    match n
    case Nothing => allowed
    case Text(words) => AllowedBehind(words, allowed)
    case Items(_, entries) => if entries == [] then allowed else AllowedAfter(entries[|entries| - 1].node, true)
    case Pairs(_, pairs) => if pairs == [] then allowed else AllowedAfterPair(pairs[|pairs| - 1])
  }

  function AllowedAfterPair(p: Pair): bool {
    match p
    case Simple(_, _, value) => AllowedAfter(value, false)
    case Complex(_, _, _, value) => AllowedAfter(value, true)
    case KeyOnly(_, key) => AllowedAfter(key, true)
  }

  predicate Deeper(words: seq<Lexeme>, column: int) {
    forall i :: 0 <= i < |words| ==> (words[i].shape.KeyText? || words[i].shape.BlockScalarText?) && column < words[i].mark.column
  }

  /** Is a `-` allowed at entry i of a sequence? */
  predicate DashAllowed(entries: seq<Entry>, i: nat, first: bool)
    requires i < |entries|
  {
    entries[i].dash.newLine || if i == 0 then first else AllowedAfter(entries[i - 1].node, true)
  }

  function AllowedBefore(pairs: seq<Pair>, i: nat, first: bool): bool
    requires i < |pairs|
  {
    if i == 0 then first else AllowedAfterPair(pairs[i - 1])
  }

  /** A node inside a block at column `outer`, with room for so many more levels. A sequence
      may stand at the column of the block around it, and then opens none of its own. */
  predicate Laid(n: Node, outer: int, allowed: bool, room: nat)
    decreases n, 1
  {
    match n
    case Nothing => true
    case Text(words) => words != [] && Deeper(words, outer)
    case Items(props, entries) =>
      && entries != [] && Deeper(props, outer)
      && var c := entries[0].dash.mark.column;
         && outer <= c && (outer < c ==> room > 0)
         && forall i :: 0 <= i < |entries| ==>
              && entries[i].dash.shape.Dash? && entries[i].dash.mark.column == c
              && DashAllowed(entries, i, AllowedBehind(props, allowed))
              && Laid(entries[i].node, c, true, if outer < c then room - 1 else room)
    case Pairs(props, pairs) =>
      && pairs != [] && Deeper(props, outer) && room > 0 && (pairs[0].Simple? ==> pairs[0].words != [])
      && var c := First(pairs[0]).mark.column;
         && outer < c
         && forall i :: 0 <= i < |pairs| ==>
              LaidPair(pairs[i], c, AllowedBefore(pairs, i, AllowedBehind(props, allowed)), room - 1)
  }

  /** The words of a simple key: on one line, and close enough to the `:`. */
  predicate KeyWords(words: seq<Lexeme>, colon: Lexeme, c: nat, allowed: bool) {
    && words != [] && words[0].mark.column == c && (words[0].newLine || allowed)
    && (forall i :: 0 <= i < |words| ==> words[i].shape.KeyText? && !words[i].blanksBehind && c <= words[i].mark.column)
    && (forall i :: 0 < i < |words| ==> !words[i].newLine)
    && colon.shape.Colon? && !colon.newLine && c <= colon.mark.column
    && colon.mark.line <= words[0].mark.line && colon.mark.index <= words[0].mark.index + 1024
  }

  predicate Above(xs: seq<Lexeme>, line: nat) { forall i :: 0 <= i < |xs| ==> xs[i].mark.line < line }

  predicate LaidPair(p: Pair, c: nat, allowed: bool, room: nat)
    decreases p, 0
  {
    match p
    case Simple(words, colon, value) => KeyWords(words, colon, c, allowed) && Laid(value, c, false, room)
    case Complex(question, key, colon, value) =>
      && question.shape.Question? && question.mark.column == c && (question.newLine || allowed)
      && Laid(key, c, true, room)
      && colon.shape.Colon? && colon.mark.column == c && (colon.newLine || AllowedAfter(key, true))
      && Above(Lexemes(key), colon.mark.line) && Laid(value, c, true, room)
    case KeyOnly(question, key) =>
      question.shape.Question? && question.mark.column == c && (question.newLine || allowed) && Laid(key, c, true, room)
  }

  // ----- its tokens -----

  /** What comes behind: its column, where the white space before it begins, and the mark at
      which it closes blocks that are not deeper, if it is a directive or the like. */
  datatype Next = Next(column: int, from: Mark, outer: Mark)

  function NextOf(x: Lexeme): Next { Next(x.mark.column, x.from, x.mark) }

  /** The BLOCK-END of a block at column c: the last character before the white space. */
  function EndOf(c: int, nx: Next): Token {
    var from := if nx.column < c then nx.from else nx.outer;
    Token(BlockEnd, from.(index := from.index - 1))
  }

  function Words(words: seq<Lexeme>): seq<Token> { seq(|words|, i requires 0 <= i < |words| => Token(NodeText, words[i].mark)) }

  ghost function Tokens(n: Node, outer: int, nx: Next): seq<Token>
    decreases n, 1, 0
  {
    match n
    case Nothing => []
    case Text(words) => Words(words)
    case Items(props, entries) =>
      if entries == [] then []
      else
        var c, at := entries[0].dash.mark.column, entries[0].dash.mark;
        Words(props) + (if outer < c then [Token(BlockSequenceStart, at)] else [])
        + EntryTokens(n, entries, c, nx) + (if outer < c then [EndOf(c, nx)] else [])
    case Pairs(props, pairs) =>
      if pairs == [] || (pairs[0].Simple? && pairs[0].words == []) then []
      else
        var at := First(pairs[0]).mark;
        Words(props) + [Token(BlockMappingStart, at)] + PairTokens(n, pairs, at.column, nx) + [EndOf(at.column, nx)]
  }

  ghost function EntryTokens(parent: Node, es: seq<Entry>, c: int, nx: Next): seq<Token>
    requires forall i :: 0 <= i < |es| ==> es[i] < parent
    decreases parent, 0, |es|
  {
    if es == [] then []
    else
      var k := |es| - 1;
      EntryTokens(parent, es[..k], c, NextOf(es[k].dash)) + OneEntryTokens(es[k], c, nx)
  }

  ghost function OneEntryTokens(e: Entry, c: int, nx: Next): seq<Token>
    decreases e, 0, 0
  {
    [Token(BlockEntry, e.dash.mark)] + Tokens(e.node, c, nx)
  }

  ghost function PairTokens(parent: Node, ps: seq<Pair>, c: int, nx: Next): seq<Token>
    requires forall i :: 0 <= i < |ps| ==> ps[i] < parent
    decreases parent, 0, |ps|
  {
    if ps == [] then []
    else
      var k := |ps| - 1;
      if ps[k].Simple? && ps[k].words == [] then []
      else PairTokens(parent, ps[..k], c, NextOf(First(ps[k]))) + OnePairTokens(ps[k], c, nx)
  }

  ghost function OnePairTokens(p: Pair, c: int, nx: Next): seq<Token>
    requires p.Simple? ==> p.words != []
    decreases p, 0, 0
  {
    match p
    case Simple(words, colon, value) =>
      [Token(Key, words[0].mark)] + Words(words) + ([Token(Value, colon.mark)] + Tokens(value, c, nx))
    case Complex(question, key, colon, value) =>
      [Token(Key, question.mark)] + Tokens(key, c, NextOf(colon)) + ([Token(Value, colon.mark)] + Tokens(value, c, nx))
    case KeyOnly(question, key) => [Token(Key, question.mark)] + Tokens(key, c, nx)
  }

  // ----- steps -----

  /** The machine over a list of lexemes. */
  function Steps(s: State, xs: seq<Lexeme>): (r: Result)
    requires KeyIsThere(s)
    ensures r.Moved? ==> KeyIsThere(r.state)
    decreases |xs|
  {
    if xs == [] then Moved(s)
    else
      var r := Steps(s, xs[..|xs| - 1]);
      if r.Refused? then Refused
      else
        (if Step(r.state, xs[|xs| - 1]).Moved? then StepKeepsKey(r.state, xs[|xs| - 1]);
         Step(r.state, xs[|xs| - 1]) else Refused)
  }

  lemma {:induction false} StepsConcat(s: State, a: seq<Lexeme>, b: seq<Lexeme>)
    requires KeyIsThere(s) && Steps(s, a).Moved?
    ensures Steps(s, a + b) == Steps(Steps(s, a).state, b)
    decreases |b|
  {
    hide Step;
    if b == [] {
      assert a + b == a;
    } else {
      var k := |b| - 1;
      StepsConcat(s, a, b[..k]);
      assert (a + b)[..|a + b| - 1] == a + b[..k];
    }
  }

  lemma StepsOne(s: State, x: Lexeme)
    requires KeyIsThere(s)
    ensures Steps(s, [x]) == Step(s, x)
  {
    hide Step;
    assert [x][..0] == [];
    if Step(s, x).Moved? {
      StepKeepsKey(s, x);
    }
  }

  // ----- closing blocks -----

  /** All blocks deeper than a column closed, as by what comes next. */
  function CloseTo(s: State, column: int, nx: Next): State
    decreases |s.indents|
  {
    if s.indent <= column || s.indents == [] then s
    else
      var k := |s.indents| - 1;
      CloseTo(s.(tokens := s.tokens + [EndOf(s.indent, nx)], indent := s.indents[k], indents := s.indents[..k]), column, nx)
  }

  lemma {:induction false} UnrollCloses(s: State, column: int, from: Mark, outer: Mark)
    ensures Unroll(s, column, from) == CloseTo(s, column, Next(column, from, outer))
    decreases |s.indents|
  {
    if s.indent > column && s.indents != [] {
      UnrollCloses(Closed(s, from), column, from, outer);
    }
  }

  lemma {:induction false} CloseInTwo(s: State, k: int, j: int, nx: Next)
    requires j <= k
    ensures CloseTo(CloseTo(s, k, nx), j, nx) == CloseTo(s, j, nx)
    decreases |s.indents|
  {
    if s.indent > k && s.indents != [] {
      var n := |s.indents| - 1;
      CloseInTwo(s.(tokens := s.tokens + [EndOf(s.indent, nx)], indent := s.indents[n], indents := s.indents[..n]), k, j, nx);
    }
  }

  /** Closing has nothing to do with keys. */
  lemma {:induction false} CloseKeeps(s: State, t: State, column: int, nx: Next)
    requires t.tokens == s.tokens && t.indents == s.indents && t.indent == s.indent
    ensures var u, v := CloseTo(s, column, nx), CloseTo(t, column, nx);
      && u.tokens == v.tokens && u.indents == v.indents && u.indent == v.indent
      && u.key == s.key && u.allowed == s.allowed && v.key == t.key && v.allowed == t.allowed
      && s.tokens <= u.tokens
    decreases |s.indents|
  {
    if s.indent > column && s.indents != [] {
      var k := |s.indents| - 1;
      CloseKeeps(s.(tokens := s.tokens + [EndOf(s.indent, nx)], indent := s.indents[k], indents := s.indents[..k]),
                 t.(tokens := t.tokens + [EndOf(t.indent, nx)], indent := t.indents[k], indents := t.indents[..k]), column, nx);
    }
  }

  /** A state in a block at column c whose key, if any, may be given up. */
  predicate Idle(s: State) { KeyIsThere(s) && (s.key.possible ==> !s.key.required) }

  /** Once what belongs to it has been closed, u is s with more tokens. */
  predicate Closes(s: State, u: State, nx: Next, tokens: seq<Token>) {
    var v := CloseTo(u, s.indent, nx);
    v.tokens == s.tokens + tokens && v.indents == s.indents && v.indent == s.indent
  }

  /** The machine in front of a lexeme, deeper blocks closed. */
  lemma ReachedIs(s: State, u: State, x: Lexeme, tokens: seq<Token>)
    requires Closes(s, u, NextOf(x), tokens) && s.indent <= x.mark.column && KeyIsThere(u)
    requires s.indent == x.mark.column || u.indent == s.indent
    ensures Reached(u, x) == State(s.tokens + tokens, s.indents, s.indent, u.key, u.allowed || x.newLine) && KeyIsThere(Reached(u, x))
  {
    hide CloseTo, Unroll;
    var u1 := u.(allowed := u.allowed || x.newLine);
    UnrollCloses(u1, x.mark.column, x.from, x.mark);
    CloseKeeps(u, u1, x.mark.column, NextOf(x));
    UnrollKeeps(u1, x.mark.column, x.from);
    if s.indent < x.mark.column {
      NothingToClose(u, x.mark.column, NextOf(x));
      NothingToClose(u, s.indent, NextOf(x));
    }
  }

  lemma NothingToClose(s: State, column: int, nx: Next)
    requires s.indent <= column
    ensures CloseTo(s, column, nx) == s
  {}

  // ----- words -----

  lemma WordsStep(words: seq<Lexeme>)
    requires words != []
    ensures var k := |words| - 1; Words(words) == Words(words[..k]) + [Token(NodeText, words[k].mark)]
  {}

  /** What words leave behind: their tokens, and perhaps a key that is not required. */
  predicate Worded(s: State, u: State, words: seq<Lexeme>) {
    && u.tokens == s.tokens + Words(words) && u.indents == s.indents && u.indent == s.indent
    && u.allowed == AllowedBehind(words, s.allowed) && Idle(u)
    && (u.key.possible ==> u.key == s.key || exists i :: 0 <= i < |words| && words[i].mark == u.key.mark)
  }

  lemma WordScans(s: State, x: Lexeme)
    requires Idle(s) && (x.shape.KeyText? || x.shape.BlockScalarText?) && s.indent < x.mark.column
    ensures Step(s, x).Moved?
    ensures var u := Step(s, x).state;
      && u.tokens == s.tokens + [Token(NodeText, x.mark)] && u.indents == s.indents && u.indent == s.indent
      && u.allowed == (x.shape.BlockScalarText? || x.blanksBehind) && Idle(u)
      && (u.key.possible ==> u.key == s.key || u.key.mark == x.mark)
  {
    var s1 := s.(allowed := s.allowed || x.newLine);
    assert Unroll(s1, x.mark.column, x.from) == s1;
    StepMoves(s, x);
  }

  lemma StepMoves(s: State, x: Lexeme)
    requires KeyIsThere(s) && KeyIsThere(Reached(s, x))
    ensures Step(s, x) == Dispatch(Reached(s, x), x)
  {
    hide Dispatch;
  }

  /** Words deeper than the block. */
  lemma {:induction false} WordsScan(s: State, words: seq<Lexeme>)
    requires Idle(s) && Deeper(words, s.indent)
    ensures Steps(s, words).Moved? && Worded(s, Steps(s, words).state, words)
    decreases |words|
  {
    hide Step, Words;
    if words == [] {
      assert s.tokens + Words([]) == s.tokens by { NoWords(); }
    } else {
      var k := |words| - 1;
      WordsScan(s, words[..k]);
      var u := Steps(s, words[..k]).state;
      WordScans(u, words[k]);
      WordsStep(words);
      Assoc(s.tokens, Words(words[..k]), [Token(NodeText, words[k].mark)]);
    }
  }

  lemma NoWords()
    ensures Words([]) == []
  {}

  // ----- indicators -----

  /** A block opened at a column, if the column is deeper. */
  function Opened(s: State, kind: Kind, at: Mark): State {
    if s.indent < at.column then
      s.(indents := s.indents + [s.indent], indent := at.column, tokens := s.tokens + [Token(kind, at)])
    else s
  }

  /** The key, if any, is given up. */
  function Behind(s: State, tokens: seq<Token>, allowed: bool): State {
    s.(tokens := s.tokens + tokens, key := s.key.(possible := false), allowed := allowed)
  }

  predicate HasRoom(s: State, column: int) { s.indent < column ==> |s.indents| < MAX_INDENTS }

  /** `-` or `?` where it is allowed. */
  lemma IndicatorScans(u: State, w: State, x: Lexeme)
    requires KeyIsThere(u) && w == Reached(u, x) && Idle(w) && w.allowed && w.indent <= x.mark.column && HasRoom(w, x.mark.column)
    requires x.shape.Dash? || x.shape.Question?
    ensures Step(u, x) ==
      Moved(if x.shape.Dash? then Behind(Opened(w, BlockSequenceStart, x.mark), [Token(BlockEntry, x.mark)], true)
            else Behind(Opened(w, BlockMappingStart, x.mark), [Token(Key, x.mark)], true))
  {
    StepMoves(u, x);
    hide Reached, Step;
  }

  /** `:` behind a key that is no simple key. */
  lemma ColonScans(u: State, w: State, x: Lexeme)
    requires KeyIsThere(u) && w == Reached(u, x) && Idle(w) && w.allowed && w.indent == x.mark.column && x.shape.Colon?
    requires w.key.possible ==> w.key.mark.line < x.mark.line
    ensures Step(u, x) == Moved(Behind(w, [Token(Value, x.mark)], true))
  {
    StepMoves(u, x);
    hide Reached, Step;
  }

  // ----- simple keys -----

  /** Behind the first i words of a key that began at w. */
  function InKey(w: State, words: seq<Lexeme>, i: nat): State
    requires 0 < i <= |words|
  {
    var at := words[0].mark;
    State(w.tokens + Words(words[..i]), w.indents, w.indent, SimpleKey(true, w.indent == at.column, |w.tokens|, at), false)
  }

  lemma KeyBegins(u: State, w: State, words: seq<Lexeme>)
    requires KeyIsThere(u) && words != [] && words[0].shape.KeyText? && !words[0].blanksBehind
    requires w == Reached(u, words[0]) && Idle(w) && w.allowed
    ensures Step(u, words[0]) == Moved(InKey(w, words, 1)) && KeyIsThere(InKey(w, words, 1))
  {
    StepMoves(u, words[0]);
    assert Words(words[..1]) == [Token(NodeText, words[0].mark)];
    hide Reached, Step;
  }

  lemma KeyGoesOn(w: State, words: seq<Lexeme>, i: nat)
    requires 0 < i < |words| && w.indent <= words[i].mark.column && KeyIsThere(InKey(w, words, i))
    requires words[i].shape.KeyText? && !words[i].blanksBehind && !words[i].newLine
    ensures Step(InKey(w, words, i), words[i]) == Moved(InKey(w, words, i + 1)) && KeyIsThere(InKey(w, words, i + 1))
  {
    hide Words;
    var s, x := InKey(w, words, i), words[i];
    assert Reached(s, x) == s;
    StepMoves(s, x);
    WordsStep(words[..i + 1]);
    assert words[..i + 1][..i] == words[..i];
    Assoc(w.tokens, Words(words[..i]), [Token(NodeText, x.mark)]);
    hide Reached, Step;
  }

  lemma {:induction false} KeyWordsScan(u: State, w: State, words: seq<Lexeme>, colon: Lexeme, i: nat)
    requires KeyIsThere(u) && words != [] && KeyWords(words, colon, words[0].mark.column, true) && 0 < i <= |words|
    requires w == Reached(u, words[0]) && Idle(w) && w.allowed && w.indent <= words[0].mark.column
    ensures KeyIsThere(InKey(w, words, i)) && Steps(u, words[..i]) == Moved(InKey(w, words, i))
    decreases i
  {
    hide Step, InKey, Reached;
    if i == 1 {
      assert words[..1] == [words[0]];
      KeyBegins(u, w, words);
      StepsOne(u, words[0]);
    } else {
      KeyWordsScan(u, w, words, colon, i - 1);
      KeyGoesOn(w, words, i - 1);
      assert words[..i] == words[..i - 1] + [words[i - 1]];
      StepsConcat(u, words[..i - 1], [words[i - 1]]);
      StepsOne(InKey(w, words, i - 1), words[i - 1]);
    }
  }

  /** The `:` that makes the words a key. */
  lemma KeyEnds(w: State, words: seq<Lexeme>, colon: Lexeme)
    requires words != [] && KeyWords(words, colon, words[0].mark.column, true) && w.indent <= words[0].mark.column && HasRoom(w, words[0].mark.column)
    requires KeyIsThere(InKey(w, words, |words|))
    ensures var at := words[0].mark;
      Step(InKey(w, words, |words|), colon) == Moved(
        Opened(w, BlockMappingStart, at).(
          tokens := Opened(w, BlockMappingStart, at).tokens + ([Token(Key, at)] + Words(words) + [Token(Value, colon.mark)]),
          key := InKey(w, words, |words|).key.(possible := false), allowed := false))
  {
    hide Words;
    var s := InKey(w, words, |words|);
    assert Reached(s, colon) == s;
    StepMoves(s, colon);
    assert words[..|words|] == words;
    var at, texts, v := words[0].mark, Words(words), Token(Value, colon.mark);
    InsertedAt(w.tokens, texts, Token(Key, at), Token(BlockMappingStart, at));
    Assoc4(w.tokens, [Token(Key, at)], texts, [v]);
    Assoc4(w.tokens + [Token(BlockMappingStart, at)], [Token(Key, at)], texts, [v]);
    Assoc([Token(Key, at)], texts, [v]);
    hide Inserted, Reached, Step;
  }

  lemma InsertedAt(a: seq<Token>, b: seq<Token>, k: Token, start: Token)
    ensures Inserted(a + b, |a|, k) == a + [k] + b
    ensures Inserted(a + [k] + b, |a|, start) == a + [start] + [k] + b
  {
    assert (a + b)[..|a|] == a && (a + b)[|a|..] == b;
    assert (a + [k] + b)[..|a|] == a && (a + [k] + b)[|a|..] == [k] + b;
  }

  // ----- nodes -----

  predicate From(k: SimpleKey, xs: seq<Lexeme>) { exists i :: 0 <= i < |xs| && xs[i].mark == k.mark }

  /** What a node leaves behind. */
  ghost predicate Done(s: State, u: State, n: Node, nx: Next) {
    && Idle(u) && u.allowed == AllowedAfter(n, s.allowed) && Closes(s, u, nx, Tokens(n, s.indent, nx))
    && (u.key.possible ==> u.key == s.key || From(u.key, Lexemes(n)))
  }

  lemma FromParts(k: SimpleKey, a: seq<Lexeme>, b: seq<Lexeme>)
    requires From(k, a) || From(k, b)
    ensures From(k, a + b)
  {
    if From(k, a) {
      var i :| 0 <= i < |a| && a[i].mark == k.mark;
      assert (a + b)[i].mark == k.mark;
    } else {
      var i :| 0 <= i < |b| && b[i].mark == k.mark;
      assert (a + b)[|a| + i].mark == k.mark;
    }
  }

  /** More tokens behind what has been closed, then a node. */
  lemma ClosesMore(b: State, v: State, u: State, nx: Next, before: seq<Token>, tokens: seq<Token>)
    requires v.tokens == b.tokens + before && v.indents == b.indents && v.indent == b.indent && Closes(v, u, nx, tokens)
    ensures Closes(b, u, nx, before + tokens)
  {
    hide CloseTo;
    Assoc(b.tokens, before, tokens);
  }

  lemma ClosesNow(s: State, u: State, nx: Next, tokens: seq<Token>)
    requires u.tokens == s.tokens + tokens && u.indents == s.indents && u.indent == s.indent
    ensures Closes(s, u, nx, tokens)
  {}

  /** A block that was opened is closed too. */
  lemma ClosesBlock(s: State, kind: Kind, at: Mark, u: State, nx: Next, tokens: seq<Token>)
    requires s.indent <= at.column && Closes(Opened(s, kind, at), u, nx, tokens)
    ensures s.indent < at.column ==> Closes(s, u, nx, [Token(kind, at)] + tokens + [EndOf(at.column, nx)])
    ensures s.indent == at.column ==> Closes(s, u, nx, tokens)
  {
    hide EndOf;
    if s.indent < at.column {
      CloseInTwo(u, at.column, s.indent, nx);
      var v := CloseTo(u, at.column, nx);
      assert v.indents[..|v.indents| - 1] == s.indents;
      Assoc4(s.tokens, [Token(kind, at)], tokens, [EndOf(at.column, nx)]);
      Assoc([Token(kind, at)], tokens, [EndOf(at.column, nx)]);
      var w := v.(tokens := v.tokens + [EndOf(at.column, nx)], indent := s.indent, indents := s.indents);
      assert CloseTo(v, s.indent, nx) == CloseTo(w, s.indent, nx) == w;
    }
  }

  lemma {:induction false} NodeScans(s: State, n: Node, room: nat, nx: Next)
    requires Idle(s) && Laid(n, s.indent, s.allowed, room) && |s.indents| + room <= MAX_INDENTS
    ensures Steps(s, Lexemes(n)).Moved? && Done(s, Steps(s, Lexemes(n)).state, n, nx)
    decreases n, 3, 0
  {
    match n {
      case Nothing =>
        assert s.tokens + [] == s.tokens;
        ClosesNow(s, s, nx, []);
      case Text(words) =>
        WordsScan(s, words);
        ClosesNow(s, Steps(s, words).state, nx, Words(words));
      case Items(props, entries) =>
        ItemsScan(s, n, room, nx);
      case Pairs(props, pairs) =>
        MappingScans(s, n, room, nx);
    }
  }

  // ----- sequences -----

  lemma {:induction false} ItemsScan(s: State, n: Node, room: nat, nx: Next)
    requires n.Items? && Idle(s) && Laid(n, s.indent, s.allowed, room) && |s.indents| + room <= MAX_INDENTS
    ensures Steps(s, Lexemes(n)).Moved? && Done(s, Steps(s, Lexemes(n)).state, n, nx)
    decreases n, 2, 0
  {
    hide Laid, Step, Words, CloseTo, EndOf, EntryTokens, EntryLexemes;
    var props, es := n.props, n.entries;
    ItemsLaid(n, s.indent, s.allowed, room);
    var at := es[0].dash.mark;
    WordsScan(s, props);
    var p := Steps(s, props).state;
    EntriesScan(p, n, |es|, if s.indent < at.column then room - 1 else room, nx);
    assert es[..|es|] == es;
    StepsConcat(s, props, EntryLexemes(es));
    var u := Steps(p, EntryLexemes(es)).state;
    var tokens := EntryTokens(n, es, at.column, nx);
    ClosesBlock(p, BlockSequenceStart, at, u, nx, tokens);
    if s.indent < at.column {
      ClosesMore(s, p, u, nx, Words(props), [Token(BlockSequenceStart, at)] + tokens + [EndOf(at.column, nx)]);
      Assoc4(Words(props), [Token(BlockSequenceStart, at)], tokens, [EndOf(at.column, nx)]);
      Assoc([Token(BlockSequenceStart, at)], tokens, [EndOf(at.column, nx)]);
    } else {
      ClosesMore(s, p, u, nx, Words(props), tokens);
      assert Words(props) + [] + tokens + [] == Words(props) + tokens;
    }
    if u.key.possible {
      FromParts(u.key, props, EntryLexemes(es));
    }
  }

  lemma ItemsLaid(n: Node, outer: int, allowed: bool, room: nat)
    requires n.Items? && Laid(n, outer, allowed, room)
    ensures n.entries != [] && Deeper(n.props, outer)
    ensures var c := n.entries[0].dash.mark.column; outer <= c && (outer < c ==> room > 0)
    ensures EntriesLaid(n, AllowedBehind(n.props, allowed), if outer < n.entries[0].dash.mark.column then room - 1 else room)
  {
    var es := n.entries;
    var c := es[0].dash.mark.column;
    var room1 := if outer < c then room - 1 else room;
    forall i | 0 <= i < |es|
      ensures es[i].dash.shape.Dash? && es[i].dash.mark.column == c
      ensures DashAllowed(es, i, AllowedBehind(n.props, allowed))
      ensures Laid(es[i].node, c, true, room1)
      ensures es[i] < n && es[i].node < n
    {
      assert es[i].node < es[i];
    }
  }

  ghost predicate EntriesLaid(n: Node, allowed: bool, room: nat)
    requires n.Items? && n.entries != []
  {
    var es := n.entries;
    var c := es[0].dash.mark.column;
    forall i :: 0 <= i < |es| ==>
      && es[i].dash.shape.Dash? && es[i].dash.mark.column == c
      && DashAllowed(es, i, allowed)
      && Laid(es[i].node, c, true, room) && es[i] < n && es[i].node < n
  }

  lemma EntryBegins(n: Node, i: nat, allowed: bool, room: nat)
    requires n.Items? && i < |n.entries| && EntriesLaid(n, allowed, room)
    ensures var e := n.entries[i];
      && e.dash.shape.Dash? && e.dash.mark.column == n.entries[0].dash.mark.column && Laid(e.node, e.dash.mark.column, true, room)
      && (e.dash.newLine || if i == 0 then allowed else AllowedAfter(n.entries[i - 1].node, true))
      && e < n && (forall j :: 0 <= j < |n.entries| ==> n.entries[j] < n)
  {
    hide Laid;
    assert DashAllowed(n.entries, i, allowed);
  }

  lemma {:induction false} OneEntryScans(u: State, w: State, e: Entry, room: nat, nx: Next)
    requires KeyIsThere(u) && w == Reached(u, e.dash) && Idle(w) && w.allowed && e.dash.shape.Dash?
    requires var c := e.dash.mark.column;
      w.indent <= c && Laid(e.node, c, true, room) && |w.indents| + room + (if w.indent < c then 1 else 0) <= MAX_INDENTS
    ensures Steps(u, OneEntry(e)).Moved?
    ensures var u' := Steps(u, OneEntry(e)).state;
      && Idle(u') && u'.allowed == AllowedAfter(e.node, true)
      && Closes(Opened(w, BlockSequenceStart, e.dash.mark), u', nx, OneEntryTokens(e, e.dash.mark.column, nx))
      && (u'.key.possible ==> From(u'.key, OneEntry(e)))
    decreases e, 3, 0
  {
    hide Laid, Step, CloseTo, Lexemes, Tokens, Reached;
    var x, o := e.dash, Opened(w, BlockSequenceStart, e.dash.mark);
    IndicatorScans(u, w, x);
    var v := Step(u, x).state;
    StepKeepsKey(u, x);
    NodeScans(v, e.node, room, nx);
    var u' := Steps(v, Lexemes(e.node)).state;
    StepsOne(u, x);
    StepsConcat(u, [x], Lexemes(e.node));
    ClosesMore(o, v, u', nx, [Token(BlockEntry, x.mark)], Tokens(e.node, x.mark.column, nx));
    if u'.key.possible {
      FromParts(u'.key, [x], Lexemes(e.node));
    }
  }

  /** What k of the parts of a block leave behind: `b` is the state with the block opened. */
  ghost predicate Parts(p: State, b: State, xs: seq<Lexeme>, tokens: seq<Token>, allowed: bool, nx: Next)
    requires KeyIsThere(p)
  {
    && Steps(p, xs).Moved?
    && var u := Steps(p, xs).state;
       Idle(u) && u.allowed == allowed && Closes(b, u, nx, tokens) && (u.key.possible ==> From(u.key, xs))
  }

  /** One more part behind others. */
  lemma PartsMore(p: State, b: State, xs: seq<Lexeme>, tokens: seq<Token>, allowed: bool, nx1: Next,
                  o: State, ys: seq<Lexeme>, more: seq<Token>, after: bool, nx: Next)
    requires KeyIsThere(p) && Parts(p, b, xs, tokens, allowed, nx1) && Parts(Steps(p, xs).state, o, ys, more, after, nx)
    requires o.tokens == b.tokens + tokens && o.indents == b.indents && o.indent == b.indent
    ensures Parts(p, b, xs + ys, tokens + more, after, nx)
  {
    hide Steps, Closes;
    StepsConcat(p, xs, ys);
    var u := Steps(Steps(p, xs).state, ys).state;
    ClosesMore(b, o, u, nx, tokens, more);
    if u.key.possible {
      FromParts(u.key, xs, ys);
    }
  }

  /** The first k entries, behind the properties of the sequence. */
  lemma {:induction false} EntriesScan(p: State, n: Node, k: nat, room: nat, nx: Next)
    requires n.Items? && 0 < k <= |n.entries| && EntriesLaid(n, p.allowed, room) && Idle(p)
    requires var c := n.entries[0].dash.mark.column;
      p.indent <= c && |p.indents| + room + (if p.indent < c then 1 else 0) <= MAX_INDENTS
    ensures var es, at := n.entries[..k], n.entries[0].dash.mark;
      Parts(p, Opened(p, BlockSequenceStart, at), EntryLexemes(es), EntryTokens(n, es, at.column, nx), AllowedAfter(es[k - 1].node, true), nx)
    decreases n, 1, k
  {
    hide Laid, Step, CloseTo, Lexemes, Tokens, Reached, Steps, OneEntry, OneEntryTokens, Parts, Closes, From, EntriesLaid, DashAllowed;
    EntryBegins(n, k - 1, p.allowed, room);
    var es, e := n.entries[..k], n.entries[k - 1];
    var b := Opened(p, BlockSequenceStart, n.entries[0].dash.mark);
    var init := es[..k - 1];
    if k == 1 {
      FirstReached(p, e.dash);
      OneEntryScans(p, Reached(p, e.dash), e, room, nx);
      OneIsParts(p, Opened(Reached(p, e.dash), BlockSequenceStart, e.dash.mark), b, OneEntry(e), OneEntryTokens(e, e.dash.mark.column, nx), nx);
      assert init == [];
      assert [] + OneEntry(e) == OneEntry(e) && [] + OneEntryTokens(e, e.dash.mark.column, nx) == OneEntryTokens(e, e.dash.mark.column, nx);
    } else {
      assert init == n.entries[..k - 1] && init[k - 2] == n.entries[k - 2];
      EntriesScan(p, n, k - 1, room, NextOf(e.dash));
      var tokens := EntryTokens(n, init, e.dash.mark.column, NextOf(e.dash));
      var w := NextReached(p, b, EntryLexemes(init), tokens, AllowedAfter(init[k - 2].node, true), e.dash);
      var u := Steps(p, EntryLexemes(init)).state;
      OneEntryScans(u, w, e, room, nx);
      OneIsParts(u, w, w, OneEntry(e), OneEntryTokens(e, e.dash.mark.column, nx), nx);
      PartsMore(p, b, EntryLexemes(init), tokens, AllowedAfter(init[k - 2].node, true), NextOf(e.dash),
                w, OneEntry(e), OneEntryTokens(e, e.dash.mark.column, nx), AllowedAfter(e.node, true), nx);
    }
  }

  /** The first part of a block begins at a column that nothing is deeper than. */
  lemma FirstReached(p: State, x: Lexeme)
    requires Idle(p) && p.indent <= x.mark.column
    ensures Reached(p, x) == p.(allowed := p.allowed || x.newLine) && Idle(Reached(p, x))
  {}

  /** A later one closes what belongs to those before it. */
  lemma NextReached(p: State, b: State, xs: seq<Lexeme>, tokens: seq<Token>, allowed: bool, x: Lexeme) returns (w: State)
    requires KeyIsThere(p) && Parts(p, b, xs, tokens, allowed, NextOf(x)) && b.indent == x.mark.column
    ensures Steps(p, xs).Moved? && w == Reached(Steps(p, xs).state, x) && Idle(w) && w.allowed == (allowed || x.newLine)
    ensures w.tokens == b.tokens + tokens && w.indents == b.indents && w.indent == b.indent
  {
    hide Steps, Closes, Reached;
    var u := Steps(p, xs).state;
    ReachedIs(b, u, x, tokens);
    w := Reached(u, x);
  }

  lemma OneIsParts(u: State, w: State, o: State, xs: seq<Lexeme>, tokens: seq<Token>, nx: Next)
    requires KeyIsThere(u) && Steps(u, xs).Moved? && o.tokens == w.tokens && o.indents == w.indents && o.indent == w.indent
    requires var u' := Steps(u, xs).state; Idle(u') && Closes(w, u', nx, tokens) && (u'.key.possible ==> From(u'.key, xs))
    ensures Parts(u, o, xs, tokens, Steps(u, xs).state.allowed, nx)
  {
    hide CloseTo;
  }

  // ----- mappings -----

  lemma PairsLaid(n: Node, outer: int, allowed: bool, room: nat)
    requires n.Pairs? && Laid(n, outer, allowed, room)
    ensures n.pairs != [] && Deeper(n.props, outer) && room > 0 && (n.pairs[0].Simple? ==> n.pairs[0].words != [])
    ensures outer < First(n.pairs[0]).mark.column
    ensures AllPairsLaid(n, AllowedBehind(n.props, allowed), room - 1)
  {
    hide LaidPair;
    var ps := n.pairs;
    assert forall i :: 0 <= i < |ps| ==> ps[i] < n;
  }

  ghost predicate AllPairsLaid(n: Node, allowed: bool, room: nat)
    requires n.Pairs? && n.pairs != [] && (n.pairs[0].Simple? ==> n.pairs[0].words != [])
  {
    var ps := n.pairs;
    forall i :: 0 <= i < |ps| ==>
      && LaidPair(ps[i], First(ps[0]).mark.column, AllowedBefore(ps, i, allowed), room)
      && ps[i] < n
  }

  lemma {:induction false} MappingScans(s: State, n: Node, room: nat, nx: Next)
    requires n.Pairs? && Idle(s) && Laid(n, s.indent, s.allowed, room) && |s.indents| + room <= MAX_INDENTS
    ensures Steps(s, Lexemes(n)).Moved? && Done(s, Steps(s, Lexemes(n)).state, n, nx)
    decreases n, 2, 0
  {
    hide Laid, LaidPair, Step, Words, CloseTo, EndOf, PairTokens, PairLexemes;
    var props, ps := n.props, n.pairs;
    PairsLaid(n, s.indent, s.allowed, room);
    var at := First(ps[0]).mark;
    WordsScan(s, props);
    var p := Steps(s, props).state;
    PairsScan(p, n, |ps|, room - 1, nx);
    assert ps[..|ps|] == ps;
    StepsConcat(s, props, PairLexemes(ps));
    var u := Steps(p, PairLexemes(ps)).state;
    var tokens := PairTokens(n, ps, at.column, nx);
    ClosesBlock(p, BlockMappingStart, at, u, nx, tokens);
    ClosesMore(s, p, u, nx, Words(props), [Token(BlockMappingStart, at)] + tokens + [EndOf(at.column, nx)]);
    Assoc4(Words(props), [Token(BlockMappingStart, at)], tokens, [EndOf(at.column, nx)]);
    Assoc([Token(BlockMappingStart, at)], tokens, [EndOf(at.column, nx)]);
    if u.key.possible {
      FromParts(u.key, props, PairLexemes(ps));
    }
  }

  /** The first k pairs, behind the properties of the mapping. */
  lemma {:induction false} PairsScan(p: State, n: Node, k: nat, room: nat, nx: Next)
    requires n.Pairs? && 0 < k <= |n.pairs| && (n.pairs[0].Simple? ==> n.pairs[0].words != []) && AllPairsLaid(n, p.allowed, room)
    requires Idle(p) && p.indent < First(n.pairs[0]).mark.column && |p.indents| + room + 1 <= MAX_INDENTS
    ensures var ps, at := n.pairs[..k], First(n.pairs[0]).mark;
      Parts(p, Opened(p, BlockMappingStart, at), PairLexemes(ps), PairTokens(n, ps, at.column, nx), AllowedAfterPair(ps[k - 1]), nx)
    decreases n, 1, k
  {
    hide Laid, LaidPair, Step, CloseTo, Lexemes, Tokens, Reached, Steps, OnePair, OnePairTokens, Parts, Closes, From, AllowedAfterPair;
    var ps, q, c := n.pairs[..k], n.pairs[k - 1], First(n.pairs[0]).mark.column;
    var b := Opened(p, BlockMappingStart, First(n.pairs[0]).mark);
    var init := ps[..k - 1];
    var allowed := AllowedBefore(n.pairs, k - 1, p.allowed);
    PairBegins(q, c, allowed, room);
    if k == 1 {
      FirstReached(p, First(q));
      var w := Reached(p, First(q));
      OnePairScans(p, w, q, c, allowed, room, nx);
      OneIsParts(p, Opened(w, BlockMappingStart, First(q).mark), b, OnePair(q), OnePairTokens(q, c, nx), nx);
      assert init == [];
      assert [] + OnePair(q) == OnePair(q) && [] + OnePairTokens(q, c, nx) == OnePairTokens(q, c, nx);
    } else {
      assert init == n.pairs[..k - 1] && init[k - 2] == n.pairs[k - 2];
      PairsScan(p, n, k - 1, room, NextOf(First(q)));
      var tokens := PairTokens(n, init, c, NextOf(First(q)));
      var w := NextReached(p, b, PairLexemes(init), tokens, allowed, First(q));
      var u := Steps(p, PairLexemes(init)).state;
      OnePairScans(u, w, q, c, allowed, room, nx);
      OneIsParts(u, w, w, OnePair(q), OnePairTokens(q, c, nx), nx);
      PartsMore(p, b, PairLexemes(init), tokens, allowed, NextOf(First(q)),
                w, OnePair(q), OnePairTokens(q, c, nx), AllowedAfterPair(q), nx);
    }
  }

  lemma PairBegins(p: Pair, c: nat, allowed: bool, room: nat)
    requires LaidPair(p, c, allowed, room)
    ensures p.Simple? ==> p.words != []
    ensures First(p).mark.column == c && (First(p).newLine || allowed)
  {}

  lemma {:induction false} OnePairScans(u: State, w: State, p: Pair, c: nat, allowed: bool, room: nat, nx: Next)
    requires LaidPair(p, c, allowed, room) && KeyIsThere(u) && (p.Simple? ==> p.words != [])
    requires w == Reached(u, First(p)) && Idle(w) && w.allowed && w.indent <= c
    requires |w.indents| + room + (if w.indent < c then 1 else 0) <= MAX_INDENTS
    ensures Steps(u, OnePair(p)).Moved?
    ensures var u' := Steps(u, OnePair(p)).state;
      && Idle(u') && u'.allowed == AllowedAfterPair(p)
      && Closes(Opened(w, BlockMappingStart, First(p).mark), u', nx, OnePairTokens(p, c, nx))
      && (u'.key.possible ==> From(u'.key, OnePair(p)))
    decreases p, 3, 0
  {
    if p.Simple? {
      SimplePairScans(u, w, p, c, allowed, room, nx);
    } else {
      QuestionScans(u, w, p, c, allowed, room, nx);
    }
  }

  lemma {:induction false} SimplePairScans(u: State, w: State, p: Pair, c: nat, allowed: bool, room: nat, nx: Next)
    requires p.Simple? && LaidPair(p, c, allowed, room) && KeyIsThere(u) && p.words != []
    requires w == Reached(u, First(p)) && Idle(w) && w.allowed && w.indent <= c
    requires |w.indents| + room + (if w.indent < c then 1 else 0) <= MAX_INDENTS
    ensures Steps(u, OnePair(p)).Moved?
    ensures var u' := Steps(u, OnePair(p)).state;
      && Idle(u') && u'.allowed == AllowedAfterPair(p)
      && Closes(Opened(w, BlockMappingStart, First(p).mark), u', nx, OnePairTokens(p, c, nx))
      && (u'.key.possible ==> From(u'.key, OnePair(p)))
    decreases p, 2, 0
  {
    hide Laid, Step, CloseTo, Reached, InKey, Words, Tokens, Lexemes;
    var words, colon, value := p.words, p.colon, p.value;
    KeyWordsScan(u, w, words, colon, |words|);
    assert words[..|words|] == words;
    KeyEnds(w, words, colon);
    var s := InKey(w, words, |words|);
    var o := Opened(w, BlockMappingStart, words[0].mark);
    var head, v := [Token(Key, words[0].mark)] + Words(words), Step(s, colon).state;
    StepKeepsKey(s, colon);
    NodeScans(v, value, room, nx);
    var u' := Steps(v, Lexemes(value)).state;
    StepsOne(s, colon);
    StepsConcat(s, [colon], Lexemes(value));
    StepsConcat(u, words, [colon] + Lexemes(value));
    ClosesMore(o, v, u', nx, head + [Token(Value, colon.mark)], Tokens(value, c, nx));
    Assoc(head, [Token(Value, colon.mark)], Tokens(value, c, nx));
    if u'.key.possible {
      FromParts(u'.key, [colon], Lexemes(value));
      FromParts(u'.key, words, [colon] + Lexemes(value));
    }
  }

  lemma {:induction false} QuestionScans(u: State, w: State, p: Pair, c: nat, allowed: bool, room: nat, nx: Next)
    requires !p.Simple? && LaidPair(p, c, allowed, room) && KeyIsThere(u)
    requires w == Reached(u, First(p)) && Idle(w) && w.allowed && w.indent <= c
    requires |w.indents| + room + (if w.indent < c then 1 else 0) <= MAX_INDENTS
    ensures Steps(u, OnePair(p)).Moved?
    ensures var u' := Steps(u, OnePair(p)).state;
      && Idle(u') && u'.allowed == AllowedAfterPair(p)
      && Closes(Opened(w, BlockMappingStart, First(p).mark), u', nx, OnePairTokens(p, c, nx))
      && (u'.key.possible ==> From(u'.key, OnePair(p)))
    decreases p, 2, 0
  {
    hide Laid, Step, CloseTo, Reached, Tokens, Lexemes, Closes, From;
    var x, key := p.question, p.key;
    var o := Opened(w, BlockMappingStart, x.mark);
    IndicatorScans(u, w, x);
    var v := Step(u, x).state;
    StepKeepsKey(u, x);
    var nx1 := if p.KeyOnly? then nx else NextOf(p.colon);
    NodeScans(v, key, room, nx1);
    var u1 := Steps(v, Lexemes(key)).state;
    StepsOne(u, x);
    StepsConcat(u, [x], Lexemes(key));
    var head := [Token(Key, x.mark)] + Tokens(key, c, nx1);
    ClosesMore(o, v, u1, nx1, [Token(Key, x.mark)], Tokens(key, c, nx1));
    if u1.key.possible {
      FromParts(u1.key, [x], Lexemes(key));
    }
    if p.Complex? {
      ComplexScans(o, u1, p, c, allowed, room, nx);
      var u' := Steps(u1, [p.colon] + Lexemes(p.value)).state;
      StepsConcat(u, [x] + Lexemes(key), [p.colon] + Lexemes(p.value));
      if u'.key.possible {
        FromParts(u'.key, [x] + Lexemes(key), [p.colon] + Lexemes(p.value));
      }
    }
  }

  /** `:` and the value behind a key that is not simple. */
  lemma {:induction false} ComplexScans(o: State, u1: State, p: Pair, c: nat, allowed: bool, room: nat, nx: Next)
    requires p.Complex? && LaidPair(p, c, allowed, room) && Idle(u1) && u1.allowed == AllowedAfter(p.key, true)
    requires u1.key.possible ==> From(u1.key, Lexemes(p.key))
    requires Closes(o, u1, NextOf(p.colon), [Token(Key, p.question.mark)] + Tokens(p.key, c, NextOf(p.colon)))
    requires o.indent == c && |o.indents| + room <= MAX_INDENTS
    ensures var xs := [p.colon] + Lexemes(p.value);
      && Steps(u1, xs).Moved?
      && var u' := Steps(u1, xs).state;
         && Idle(u') && u'.allowed == AllowedAfter(p.value, true) && Closes(o, u', nx, OnePairTokens(p, c, nx))
         && (u'.key.possible ==> From(u'.key, xs))
    decreases p, 1, 0
  {
    hide Laid, Step, CloseTo, Reached, Tokens, Lexemes;
    var colon, value := p.colon, p.value;
    var head := [Token(Key, p.question.mark)] + Tokens(p.key, c, NextOf(colon));
    ReachedIs(o, u1, colon, head);
    var w := Reached(u1, colon);
    ColonScans(u1, w, colon);
    var v := Step(u1, colon).state;
    StepKeepsKey(u1, colon);
    NodeScans(v, value, room, nx);
    var u' := Steps(v, Lexemes(value)).state;
    StepsOne(u1, colon);
    StepsConcat(u1, [colon], Lexemes(value));
    assert v.tokens == o.tokens + (head + [Token(Value, colon.mark)]) by { Assoc(o.tokens, head, [Token(Value, colon.mark)]); }
    ClosesMore(o, v, u', nx, head + [Token(Value, colon.mark)], Tokens(value, c, nx));
    Assoc(head, [Token(Value, colon.mark)], Tokens(value, c, nx));
    if u'.key.possible {
      FromParts(u'.key, [colon], Lexemes(value));
    }
  }

  // ----- whole texts -----

  /** Directives and document indicators, and the root behind them. */
  datatype Section = Section(heads: seq<Lexeme>, root: Node)

  predicate HeadsFit(heads: seq<Lexeme>) {
    forall i :: 0 <= i < |heads| ==> (heads[i].shape.DirectiveText? || heads[i].shape.DocumentMarker?) && heads[i].mark.column == 0
  }

  /** Only the first section may go without directives and indicators. */
  predicate LaidSection(sec: Section, first: bool) {
    && HeadsFit(sec.heads) && (sec.heads == [] ==> first)
    && Laid(sec.root, -1, sec.heads == [], 10000)
  }

  predicate AllLaid(secs: seq<Section>) {
    forall i :: 0 <= i < |secs| ==> LaidSection(secs[i], i == 0)
  }

  function SectionLexemes(sec: Section): seq<Lexeme> { sec.heads + Lexemes(sec.root) }

  function TextOf(secs: seq<Section>): seq<Lexeme> {
    if secs == [] then [] else TextOf(secs[..|secs| - 1]) + SectionLexemes(secs[|secs| - 1])
  }

  function HeadKind(x: Lexeme): Kind { if x.shape.DirectiveText? then Directive else DocumentIndicator }

  function HeadTokens(heads: seq<Lexeme>): seq<Token> {
    seq(|heads|, i requires 0 <= i < |heads| => Token(HeadKind(heads[i]), heads[i].mark))
  }

  ghost function SectionTokens(sec: Section, nx: Next): seq<Token> { HeadTokens(sec.heads) + Tokens(sec.root, -1, nx) }

  /** The tokens of all sections; a section is closed by the head of the next one. */
  ghost function TokensOf(secs: seq<Section>, nx: Next): seq<Token> {
    if secs == [] then []
    else
      var k := |secs| - 1;
      var heads := secs[k].heads;
      TokensOf(secs[..k], if heads == [] then nx else NextOf(heads[0])) + SectionTokens(secs[k], nx)
  }

  lemma {:induction false} UnrollTwice(s: State, column: nat, from: Mark, outer: Mark)
    requires Increasing(s.indents, s.indent)
    ensures Unroll(Unroll(s, column, from), -1, outer) == CloseTo(s, -1, Next(column, from, outer))
    decreases |s.indents|
  {
    if s.indents != [] {
      LevelBelow(s.indents, s.indent);
      CloseStep(s, -1, Next(column, from, outer));
      hide CloseTo, Increasing;
      if s.indent > column {
        UnrollTwice(Closed(s, from), column, from, outer);
      } else {
        UnrollTwice(Closed(s, outer), column, from, outer);
        assert Unroll(Closed(s, outer), column, from) == Closed(s, outer);
      }
    } else {
      hide Increasing;
    }
  }

  lemma CloseStep(s: State, column: int, nx: Next)
    requires s.indent > column && s.indents != []
    ensures CloseTo(s, column, nx) == CloseTo(Closed(s, if nx.column < s.indent then nx.from else nx.outer), column, nx)
  {}

  lemma LevelBelow(indents: seq<int>, indent: int)
    requires Increasing(indents, indent) && indents != []
    ensures var n := |indents| - 1; -1 <= indents[n] < indent && Increasing(indents[..n], indents[n])
  {}

  predicate Levels(s: State) { Increasing(s.indents, s.indent) }

  lemma RollIncreases(s: State, column: nat, number: int, kind: Kind, at: Mark)
    requires Levels(s) && number <= |s.tokens| && Roll(s, column, number, kind, at).Moved?
    ensures Levels(Roll(s, column, number, kind, at).state)
  {}

  lemma ValueIncreases(s: State, at: Mark)
    requires Levels(s) && KeyIsThere(s) && ValueOf(s, at).Moved?
    ensures Levels(ValueOf(s, at).state)
  {
    var k, s0 := s.key, s.(key := s.key.(possible := false));
    if s.key.possible && !Expired(s.key, at) {
      var t := s.(tokens := Inserted(s.tokens, k.number, Token(Key, k.mark)));
      RollIncreases(t, k.mark.column, k.number, BlockMappingStart, k.mark);
    } else {
      RollIncreases(s0, at.column, -1, BlockMappingStart, at);
    }
    hide Roll, Increasing, Expired;
  }

  lemma StepIncreases(s: State, x: Lexeme)
    requires KeyIsThere(s) && Levels(s) && Step(s, x).Moved?
    ensures Levels(Step(s, x).state)
  {
    var s1 := s.(allowed := s.allowed || x.newLine);
    UnrollKeeps(s1, x.mark.column, x.from);
    var u := Reached(s, x);
    UnrollKeeps(u, -1, x.mark);
    StepMoves(s, x);
    hide Unroll, Roll, ValueOf, Increasing;
    match x.shape {
      case Dash => RollIncreases(u, x.mark.column, -1, BlockSequenceStart, x.mark);
      case Question => RollIncreases(u, x.mark.column, -1, BlockMappingStart, x.mark);
      case Colon => ValueIncreases(u, x.mark);
      case _ =>
    }
  }

  lemma {:induction false} StepsIncrease(s: State, xs: seq<Lexeme>)
    requires KeyIsThere(s) && Increasing(s.indents, s.indent) && Steps(s, xs).Moved?
    ensures Increasing(Steps(s, xs).state.indents, Steps(s, xs).state.indent)
    decreases |xs|
  {
    hide Step, Increasing;
    if xs != [] {
      StepsIncrease(s, xs[..|xs| - 1]);
      StepIncreases(Steps(s, xs[..|xs| - 1]).state, xs[|xs| - 1]);
    }
  }

  /** A state between documents, with more tokens and no key. */
  function Outer(tokens: seq<Token>, key: SimpleKey): State { State(tokens, [], -1, key.(possible := false), false) }

  /** A head closes everything. */
  lemma HeadScans(b: State, u: State, x: Lexeme, tokens: seq<Token>)
    requires Idle(u) && Increasing(u.indents, u.indent) && b.indent == -1 && b.indents == [] && Closes(b, u, NextOf(x), tokens)
    requires HeadsFit([x])
    ensures Step(u, x) == Moved(Outer(b.tokens + tokens + [Token(HeadKind(x), x.mark)], u.key))
  {
    hide CloseTo, Unroll;
    assert HeadsFit([x]) && [x][0] == x;
    var u1 := u.(allowed := u.allowed || x.newLine);
    UnrollTwice(u1, x.mark.column, x.from, x.mark);
    CloseKeeps(u, u1, -1, NextOf(x));
    UnrollKeeps(u1, x.mark.column, x.from);
    UnrollKeeps(Reached(u, x), -1, x.mark);
    StepMoves(u, x);
  }

  lemma HeadsStep(heads: seq<Lexeme>)
    requires heads != []
    ensures var k := |heads| - 1; HeadTokens(heads) == HeadTokens(heads[..k]) + [Token(HeadKind(heads[k]), heads[k].mark)]
  {}

  lemma {:induction false} HeadsScan(b: State, u: State, heads: seq<Lexeme>, tokens: seq<Token>)
    requires Idle(u) && Increasing(u.indents, u.indent) && b.indent == -1 && b.indents == [] && heads != [] && HeadsFit(heads)
    requires Closes(b, u, NextOf(heads[0]), tokens)
    ensures Steps(u, heads) == Moved(Outer(b.tokens + tokens + HeadTokens(heads), u.key))
    decreases |heads|
  {
    hide Step, Closes, HeadTokens;
    var k := |heads| - 1;
    HeadsStep(heads);
    if k == 0 {
      HeadScans(b, u, heads[0], tokens);
      StepsOne(u, heads[0]);
      assert heads == [heads[0]] && b.tokens + tokens + ([] + [Token(HeadKind(heads[0]), heads[0].mark)]) == b.tokens + tokens + [Token(HeadKind(heads[0]), heads[0].mark)];
      assert HeadTokens([]) == [] by { NoHeads(); }
    } else {
      HeadsScan(b, u, heads[..k], tokens);
      var v := Outer(b.tokens + tokens + HeadTokens(heads[..k]), u.key);
      ClosesNow(v, v, NextOf(heads[k]), []);
      assert v.tokens + [] == v.tokens;
      HeadScans(v, v, heads[k], []);
      Assoc(b.tokens + tokens, HeadTokens(heads[..k]), [Token(HeadKind(heads[k]), heads[k].mark)]);
    }
  }

  lemma NoHeads()
    ensures HeadTokens([]) == []
  {}

  /** All sections, up to what comes behind the last. */
  lemma {:induction false} SectionsScan(secs: seq<Section>, nx: Next)
    requires AllLaid(secs)
    ensures Steps(START, TextOf(secs)).Moved?
    ensures var u := Steps(START, TextOf(secs)).state;
      Idle(u) && Closes(START, u, nx, TokensOf(secs, nx)) && Increasing(u.indents, u.indent) && (secs == [] ==> u == START)
    decreases |secs|
  {
    hide Step, CloseTo, Lexemes, Tokens, Laid, HeadTokens;
    if secs == [] {
      ClosesNow(START, START, nx, []);
    } else {
      var k := |secs| - 1;
      var heads, root := secs[k].heads, secs[k].root;
      assert LaidSection(secs[k], k == 0);
      var nx1 := if heads == [] then nx else NextOf(heads[0]);
      SectionsScan(secs[..k], nx1);
      var u := Steps(START, TextOf(secs[..k])).state;
      var before := TokensOf(secs[..k], nx1);
      var v := u;
      if heads == [] {
        assert secs[..k] == [];
        assert HeadTokens([]) == [] by { NoHeads(); }
      } else {
        HeadsScan(START, u, heads, before);
        v := Outer(START.tokens + before + HeadTokens(heads), u.key);
      }
      assert v.tokens == START.tokens + before + HeadTokens(heads);
      NodeScans(v, root, 10000, nx);
      var w := Steps(v, Lexemes(root)).state;
      StepsConcat(u, heads, Lexemes(root));
      StepsConcat(START, TextOf(secs[..k]), heads + Lexemes(root));
      Assoc(START.tokens, before, HeadTokens(heads));
      ClosesMore(START, v, w, nx, before + HeadTokens(heads), Tokens(root, -1, nx));
      Assoc(before, HeadTokens(heads), Tokens(root, -1, nx));
      StepsIncrease(START, TextOf(secs));
    }
  }

  lemma {:induction false} RunIsSteps(text: seq<Lexeme>, n: nat)
    requires n <= |text|
    ensures Run(text, n) == Steps(START, text[..n])
    decreases n
  {
    hide Step;
    if n > 0 {
      RunIsSteps(text, n - 1);
      assert text[..n][..n - 1] == text[..n - 1];
    }
  }

  /** A text of block collections, laid out in whatever columns, is scanned to its end and gives
      exactly the tokens of its layout. */
  lemma LayoutIsScanned(secs: seq<Section>, from: Mark, end: Mark)
    requires AllLaid(secs)
    ensures Scan(TextOf(secs), from, end).Moved?
    ensures Scan(TextOf(secs), from, end).state.tokens
         == START.tokens + TokensOf(secs, Next(end.column, from, LastMark(end))) + [Token(StreamEnd, LastMark(end))]
  {
    hide Unroll, CloseTo, Steps, TokensOf, TextOf;
    var text, nx := TextOf(secs), Next(end.column, from, LastMark(end));
    SectionsScan(secs, nx);
    RunIsSteps(text, |text|);
    assert text[..|text|] == text;
    var u := Steps(START, text).state;
    UnrollTwice(u, end.column, from, LastMark(end));
    UnrollKeeps(u, end.column, from);
    UnrollKeeps(Unroll(u, end.column, from), -1, LastMark(end));
  }

  // ----- what is no layout -----

  /** A `:` on another line than its key, or more than 1024 characters behind the beginning of
      the key, makes no simple key: behind a plain word it is refused. */
  lemma LateColonFails(s: State, x: Lexeme)
    requires KeyIsThere(s) && s.key.possible && !s.allowed && x.shape.Colon? && !x.newLine
    requires s.key.mark.line < x.mark.line || s.key.mark.index + 1024 < x.mark.index
    ensures Step(s, x).Refused?
  {
    var s1 := s.(allowed := s.allowed || x.newLine);
    UnrollKeeps(s1, x.mark.column, x.from);
    StepMoves(s, x);
    hide Unroll;
  }

  /** The block at level 10,001 is refused. */
  lemma TooDeepFails(s: State, x: Lexeme)
    requires KeyIsThere(s) && |s.indents| >= 10000 && s.indent < x.mark.column && (x.shape.Dash? || x.shape.Question?)
    ensures Step(s, x).Refused?
  {
    var s1 := s.(allowed := s.allowed || x.newLine);
    assert Unroll(s1, x.mark.column, x.from) == s1;
    StepMoves(s, x);
  }

  /** A `-`, a `?`, or a `:` that is not behind a simple key is refused where a key is not allowed:
      behind text on the same line. */
  lemma NotAllowedFails(s: State, x: Lexeme)
    requires KeyIsThere(s) && !s.key.possible && !s.allowed && !x.newLine && (x.shape.Dash? || x.shape.Question? || x.shape.Colon?)
    ensures Step(s, x).Refused?
  {
    var s1 := s.(allowed := s.allowed || x.newLine);
    UnrollKeeps(s1, x.mark.column, x.from);
    StepMoves(s, x);
    hide Unroll;
  }

  /** A required key that is not followed by its `:` is an error: a lone word at the column of
      the block's keys, with another word, `-` or `?` behind it. */
  lemma LoneKeyFails(s: State, x: Lexeme)
    requires KeyIsThere(s) && s.key.possible && s.key.required && (s.allowed || x.newLine)
    requires x.shape.KeyText? || x.shape.Dash? || x.shape.Question? || x.shape.BlockScalarText?
    ensures Step(s, x).Refused?
  {
    var s1 := s.(allowed := s.allowed || x.newLine);
    UnrollKeeps(s1, x.mark.column, x.from);
    StepMoves(s, x);
    hide Unroll, Inserted;
  }
}
