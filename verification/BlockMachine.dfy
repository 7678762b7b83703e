/**
  Scanning in block context as a function of what the text holds: indentation and simple
  keys turn lexemes into tokens, without a queue and without looking ahead. Characters are
  left to the modules that scan them, and flow collections do not occur, so the flow level is
  always 0. Class BlockScanner.Scanner hands out the same tokens.
 */
module BlockMachine {
  import opened TokenQueue
  import opened Indentation

  datatype Mark = Mark(index: int, line: nat, column: nat)

  datatype Kind =
    | StreamStart | StreamEnd | Directive | DocumentIndicator
    | BlockSequenceStart | BlockMappingStart | BlockEnd
    | BlockEntry | Key | Value | NodeText

  datatype Token = Token(kind: Kind, mark: Mark)

  /** What comes next in the text: an indicator, a node part that may start a simple
      key (an alias, an anchor, a tag, a quoted or a plain scalar), a block scalar, or
      something that cannot be scanned. */
  datatype Shape =
    | DirectiveText | DocumentMarker | Dash | Question | Colon | KeyText | BlockScalarText | BadText

  /** `from`: where the white space before it begins; `newLine`: a line break is part of that;
      `blanksBehind`: a plain scalar ran into a line break. */
  datatype Lexeme = Lexeme(shape: Shape, from: Mark, mark: Mark, newLine: bool, blanksBehind: bool)

  datatype SimpleKey = SimpleKey(possible: bool, required: bool, number: nat, mark: Mark)

  const MAX_INDENTS := 10000
  const MAX_KEY_LENGTH := 1024

  /** A simple key is given up on another line, or too many characters further on. */
  predicate Expired(k: SimpleKey, mark: Mark) {
    k.mark.line < mark.line || k.mark.index + MAX_KEY_LENGTH < mark.index
  }

  // ----- the machine -----

  /** All tokens so far; the number of a key's token is its place among them. */
  datatype State = State(tokens: seq<Token>, indents: seq<int>, indent: int, key: SimpleKey, allowed: bool)

  datatype Result = Moved(state: State) | Refused

  const NO_KEY := SimpleKey(false, false, 0, Mark(0, 0, 0))

  const START := State([Token(StreamStart, Mark(0, 0, 0))], [], -1, NO_KEY, true)

  function Append(s: State, kind: Kind, at: Mark): State { s.(tokens := s.tokens + [Token(kind, at)]) }

  /** The mark of a BLOCK-END: the last character before the white space. */
  function EndMark(from: Mark): Mark { from.(index := from.index - 1) }

  function Closed(s: State, from: Mark): State
    requires s.indents != []
  {
    var n := |s.indents| - 1;
    Append(s.(indent := s.indents[n], indents := s.indents[..n]), BlockEnd, EndMark(from))
  }

  function Unroll(s: State, column: int, from: Mark): State
    decreases |s.indents|
  {
    if s.indent <= column || s.indents == [] then s else Unroll(Closed(s, from), column, from)
  }

  function Roll(s: State, column: nat, number: int, kind: Kind, at: Mark): Result
    requires number <= |s.tokens|
  {
    if column <= s.indent then Moved(s)
    else if |s.indents| + 1 > MAX_INDENTS then Refused
    else Moved(s.(indents := s.indents + [s.indent], indent := column, tokens := Inserted(s.tokens, number, Token(kind, at))))
  }

  function Remove(s: State): Result {
    if s.key.possible && s.key.required then Refused else Moved(s.(key := s.key.(possible := false)))
  }

  function Save(s: State, at: Mark): Result {
    if !s.allowed then Moved(s)
    else if Remove(s).Refused? then Refused
    else Moved(s.(key := SimpleKey(true, s.indent == at.column, |s.tokens|, at)))
  }

  /** A directive or a document indicator ends every block. */
  function Outermost(s: State, kind: Kind, at: Mark): Result {
    var r := Remove(Unroll(s, -1, at));
    if r.Refused? then Refused else Moved(Append(r.state.(allowed := false), kind, at))
  }

  /** `-` or `?` */
  function Entry(s: State, kind: Kind, block: Kind, at: Mark): Result {
    if !s.allowed then Refused
    else
      var r := Roll(s, at.column, -1, block, at);
      if r.Refused? then Refused
      else
        var q := Remove(r.state);
        if q.Refused? then Refused else Moved(Append(q.state.(allowed := true), kind, at))
  }

  /** `:` behind a simple key: KEY, and before it BLOCK-MAPPING-START if the key is deeper. */
  function SimpleValue(s: State, at: Mark): Result
    requires s.key.number <= |s.tokens|
  {
    var k := s.key;
    var r := Roll(s.(tokens := Inserted(s.tokens, k.number, Token(Key, k.mark))), k.mark.column, k.number, BlockMappingStart, k.mark);
    if r.Refused? then Refused
    else Moved(Append(r.state.(key := k.(possible := false), allowed := false), Value, at))
  }

  function ValueOf(s: State, at: Mark): Result
    requires s.key.possible ==> s.key.number <= |s.tokens|
  {
    if s.key.possible && !Expired(s.key, at) then SimpleValue(s, at)
    else if (s.key.possible && s.key.required) || !s.allowed then Refused
    else
      var r := Roll(s.(key := s.key.(possible := false)), at.column, -1, BlockMappingStart, at);
      if r.Refused? then Refused else Moved(Append(r.state.(allowed := true), Value, at))
  }

  function KeyTextOf(s: State, at: Mark, blanksBehind: bool): Result {
    var r := Save(s, at);
    if r.Refused? then Refused else Moved(Append(r.state.(allowed := blanksBehind), NodeText, at))
  }

  function BlockScalarOf(s: State, at: Mark): Result {
    var r := Remove(s);
    if r.Refused? then Refused else Moved(Append(r.state.(allowed := true), NodeText, at))
  }

  predicate KeyIsThere(s: State) { s.key.possible ==> s.key.number < |s.tokens| }

  /** What the shape of the text calls for, at a column that no block is deeper than. */
  function Dispatch(s: State, x: Lexeme): Result
    requires KeyIsThere(s)
  {
    match x.shape
    case DirectiveText => if x.mark.column != 0 then Refused else Outermost(s, Directive, x.mark)
    case DocumentMarker => if x.mark.column != 0 then Refused else Outermost(s, DocumentIndicator, x.mark)
    case Dash => Entry(s, BlockEntry, BlockSequenceStart, x.mark)
    case Question => Entry(s, Key, BlockMappingStart, x.mark)
    case Colon => ValueOf(s, x.mark)
    case KeyText => KeyTextOf(s, x.mark, x.blanksBehind)
    case BlockScalarText => BlockScalarOf(s, x.mark)
    case BadText => Refused
  }

  /** Blocks deeper than what comes next are closed before it. */
  function Reached(s: State, x: Lexeme): State {
    Unroll(s.(allowed := s.allowed || x.newLine), x.mark.column, x.from)
  }

  lemma {:induction false} UnrollKeeps(s: State, column: int, from: Mark)
    ensures var u := Unroll(s, column, from);
      && u.key == s.key && u.allowed == s.allowed && s.tokens <= u.tokens && u.indents <= s.indents
      && |u.tokens| - |s.tokens| == |s.indents| - |u.indents|
      && (KeyIsThere(s) ==> KeyIsThere(u))
      && (Increasing(s.indents, s.indent) ==> Increasing(u.indents, u.indent))
      && (Increasing(s.indents, s.indent) && column >= -1 ==> u.indent <= column)
    decreases |s.indents|
  {
    if s.indent > column && s.indents != [] {
      UnrollKeeps(Closed(s, from), column, from);
    }
  }

  function Step(s: State, x: Lexeme): Result
    requires KeyIsThere(s)
  {
    UnrollKeeps(s.(allowed := s.allowed || x.newLine), x.mark.column, x.from);
    Dispatch(Reached(s, x), x)
  }

  /** The end of the text is taken as the beginning of a line. */
  function LastMark(end: Mark): Mark { if end.column != 0 then Mark(end.index, end.line + 1, 0) else end }

  function Finish(s: State, from: Mark, end: Mark): Result {
    var r := Remove(Unroll(Unroll(s, end.column, from), -1, LastMark(end)));
    if r.Refused? then Refused else Moved(Append(r.state.(allowed := false), StreamEnd, LastMark(end)))
  }

  lemma StepKeepsKey(s: State, x: Lexeme)
    requires KeyIsThere(s) && Step(s, x).Moved?
    ensures KeyIsThere(Step(s, x).state)
  {
    UnrollKeeps(s.(allowed := s.allowed || x.newLine), x.mark.column, x.from);
    var u := Reached(s, x);
    UnrollKeeps(u, -1, x.mark);
    hide Unroll;
  }

  /** The first n lexemes. */
  function Run(text: seq<Lexeme>, n: nat): (r: Result)
    requires n <= |text|
    ensures r.Moved? ==> KeyIsThere(r.state)
  {
    if n == 0 then Moved(START)
    else
      var r := Run(text, n - 1);
      if r.Refused? then Refused
      else
        (if Step(r.state, text[n - 1]).Moved? then StepKeepsKey(r.state, text[n - 1]);
         Step(r.state, text[n - 1]) else Refused)
  }

  /** The whole text, whose last white space begins at `from`. */
  function Scan(text: seq<Lexeme>, from: Mark, end: Mark): Result {
    var r := Run(text, |text|);
    if r.Refused? then Refused else Finish(r.state, from, end)
  }

  /** Positions in a text go on. */
  predicate Precedes(a: Mark, b: Mark) {
    a.index <= b.index && (a.line < b.line || (a.line == b.line && a.column <= b.column))
  }

  predicate InOrder(text: seq<Lexeme>, end: Mark) {
    && (forall i, j :: 0 <= i < j < |text| ==> Precedes(text[i].mark, text[j].mark))
    && (forall i :: 0 <= i < |text| ==> 0 <= text[i].mark.index && Precedes(text[i].mark, end))
  }
}
