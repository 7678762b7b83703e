/**
  The scanner in block context: indentation, simple keys and the token queue, over every
  text. It looks ahead, gives up keys that are too far back, and hands tokens out one by one;
  the tokens are those of module BlockMachine.
 */
module BlockScanner {
  import opened TokenQueue
  import opened Indentation
  import opened BlockMachine
  import opened BlockBrackets

  // ----- a key given up early -----

  /** The scanner may have given up a key that is not required and cannot be one any more. */
  predicate Agrees(c: State, r: State, mark: Mark) {
    || c == r
    || (r.key.possible && !r.key.required && Expired(r.key, mark) && c == r.(key := r.key.(possible := false)))
  }

  lemma ExpiredLater(k: SimpleKey, a: Mark, b: Mark)
    requires Expired(k, a) && Precedes(a, b)
    ensures Expired(k, b)
  {}

  lemma UnrollAgrees(c: State, r: State, mark: Mark, column: int, from: Mark)
    requires Agrees(c, r, mark)
    ensures Agrees(Unroll(c, column, from), Unroll(r, column, from), mark)
    decreases |c.indents|
  {
    if c.indent > column && c.indents != [] {
      UnrollAgrees(Closed(c, from), Closed(r, from), mark, column, from);
    }
  }

  /** Giving the key up early changes nothing later. */
  lemma DispatchAgrees(c: State, r: State, mark: Mark, x: Lexeme)
    requires KeyIsThere(c) && KeyIsThere(r) && Agrees(c, r, mark) && Precedes(mark, x.mark)
    ensures Dispatch(c, x).Moved? == Dispatch(r, x).Moved?
    ensures Dispatch(c, x).Moved? ==> Agrees(Dispatch(c, x).state, Dispatch(r, x).state, x.mark)
  {
    hide Unroll, Expired, Inserted;
    if c != r {
      ExpiredLater(r.key, mark, x.mark);
      UnrollAgrees(c, r, mark, -1, x.mark);
      UnrollKeeps(c, -1, x.mark);
      UnrollKeeps(r, -1, x.mark);
    }
  }

  lemma StepAgrees(c: State, r: State, mark: Mark, x: Lexeme)
    requires KeyIsThere(c) && KeyIsThere(r) && Agrees(c, r, mark) && Precedes(mark, x.mark)
    ensures Step(c, x).Moved? == Step(r, x).Moved?
    ensures Step(c, x).Moved? ==> Agrees(Step(c, x).state, Step(r, x).state, x.mark)
  {
    var c1, r1 := c.(allowed := c.allowed || x.newLine), r.(allowed := r.allowed || x.newLine);
    UnrollKeeps(c1, x.mark.column, x.from);
    UnrollKeeps(r1, x.mark.column, x.from);
    UnrollAgrees(c1, r1, mark, x.mark.column, x.from);
    DispatchAgrees(Reached(c, x), Reached(r, x), mark, x);
  }

  lemma FinishAgrees(c: State, r: State, mark: Mark, from: Mark, end: Mark)
    requires Agrees(c, r, mark)
    ensures Finish(c, from, end) == Finish(r, from, end)
  {
    UnrollAgrees(c, r, mark, end.column, from);
    var c1, r1 := Unroll(c, end.column, from), Unroll(r, end.column, from);
    UnrollAgrees(c1, r1, mark, -1, LastMark(end));
    UnrollKeeps(r1, -1, LastMark(end));
    UnrollKeeps(r, end.column, from);
    hide Unroll, Expired;
  }

  /** The position that the first n lexemes lead to. */
  function MarkAt(text: seq<Lexeme>, n: nat): Mark
    requires n <= |text|
  {
    if n == 0 then Mark(0, 0, 0) else text[n - 1].mark
  }

  lemma {:induction false} RefusedFrom(text: seq<Lexeme>, n: nat, m: nat)
    requires n <= m <= |text| && Run(text, n).Refused?
    ensures Run(text, m).Refused?
    decreases m
  {
    if n < m {
      RefusedFrom(text, n, m - 1);
    }
  }

  /** A required key that cannot be one any more is an error sooner or later. */
  lemma {:induction false} Doomed(text: seq<Lexeme>, n: nat, from: Mark, end: Mark)
    requires InOrder(text, end) && 0 < n <= |text| && Run(text, n).Moved?
    requires var k := Run(text, n).state.key; k.possible && k.required && Expired(k, MarkAt(text, n))
    ensures Scan(text, from, end).Refused?
    decreases |text| - n
  {
    hide InOrder;
    var r := Run(text, n).state;
    if n == |text| {
      DoomedAtEnd(r, from, end);
    } else if Run(text, n + 1).Refused? {
      RefusedFrom(text, n + 1, |text|);
    } else {
      assert Precedes(MarkAt(text, n), text[n].mark) by { InOrderAt(text, n, end); }
      DoomedStep(r, MarkAt(text, n), text[n]);
      Doomed(text, n + 1, from, end);
    }
  }

  lemma InOrderAt(text: seq<Lexeme>, n: nat, end: Mark)
    requires InOrder(text, end) && n < |text|
    ensures 0 < n ==> Precedes(MarkAt(text, n), text[n].mark)
  {}

  lemma DoomedAtEnd(s: State, from: Mark, end: Mark)
    requires s.key.possible && s.key.required
    ensures Finish(s, from, end).Refused?
  {
    UnrollKeeps(s, end.column, from);
    UnrollKeeps(Unroll(s, end.column, from), -1, LastMark(end));
    hide Unroll;
  }

  lemma DoomedStep(s: State, mark: Mark, x: Lexeme)
    requires KeyIsThere(s) && s.key.possible && s.key.required && Expired(s.key, mark) && Precedes(mark, x.mark)
    ensures Step(s, x).Moved? ==> Step(s, x).state.key == s.key && Expired(s.key, x.mark)
  {
    hide Unroll, Expired, Inserted;
    UnrollKeeps(s.(allowed := s.allowed || x.newLine), x.mark.column, x.from);
    var u := Reached(s, x);
    UnrollKeeps(u, -1, x.mark);
    ExpiredLater(s.key, mark, x.mark);
  }

  lemma RunStart(text: seq<Lexeme>)
    ensures Run(text, 0) == Moved(START) && MarkAt(text, 0) == Mark(0, 0, 0)
  {}

  /** A key cannot have expired at the very beginning: there is none. */
  lemma NotAtStart(text: seq<Lexeme>, n: nat)
    requires n <= |text| && Run(text, n).Moved? && Run(text, n).state.key.possible
    ensures n > 0
  {}

  /** One lexeme further, or an error. */
  lemma StepReached(text: seq<Lexeme>, n: nat, c: State, from: Mark, end: Mark)
    requires InOrder(text, end) && n < |text| && Run(text, n).Moved? && KeyIsThere(c)
    requires Agrees(c, Run(text, n).state, MarkAt(text, n))
    ensures MarkAt(text, n + 1) == text[n].mark
    ensures Step(c, text[n]).Moved? ==> Run(text, n + 1).Moved? && Agrees(Step(c, text[n]).state, Run(text, n + 1).state, text[n].mark)
    ensures Step(c, text[n]).Refused? ==> Scan(text, from, end).Refused?
  {
    assert Precedes(MarkAt(text, n), text[n].mark);
    StepAgrees(c, Run(text, n).state, MarkAt(text, n), text[n]);
    hide Step, Agrees, InOrder;
    if Run(text, n + 1).Refused? {
      RefusedFrom(text, n + 1, |text|);
    }
  }

  /** What comes before STREAM-END, at the end of the text. */
  function AtEnd(c: State, from: Mark, end: Mark): Result { Remove(Unroll(Unroll(c, end.column, from), -1, LastMark(end))) }

  lemma EndReached(text: seq<Lexeme>, from: Mark, end: Mark, c: State, r: State)
    requires Run(text, |text|) == Moved(r) && Agrees(c, r, MarkAt(text, |text|)) && Increasing(c.indents, c.indent)
    ensures AtEnd(c, from, end).Refused? ==> Scan(text, from, end).Refused?
    ensures AtEnd(c, from, end).Moved? ==>
      var u := AtEnd(c, from, end).state;
      && Scan(text, from, end) == Moved(Append(u.(allowed := false), StreamEnd, LastMark(end)))
      && u.indents == [] && !u.key.possible
  {
    hide Unroll, Run, Increasing;
    FinishAgrees(c, r, MarkAt(text, |text|), from, end);
    UnrollKeeps(c, end.column, from);
    UnrollKeeps(Unroll(c, end.column, from), -1, LastMark(end));
    AtBottom(Unroll(Unroll(c, end.column, from), -1, LastMark(end)));
  }

  lemma AtBottom(s: State)
    requires Increasing(s.indents, s.indent) && s.indent <= -1
    ensures s.indents == [] && s.indent == -1
  {}

  /** At the end again, only one more STREAM-END is added. */
  lemma EndAgain(text: seq<Lexeme>, from: Mark, end: Mark, c: State)
    requires c.indents == [] && !c.key.possible
    ensures AtEnd(c, from, end) == Moved(c.(key := c.key.(possible := false)))
  {}

  // ----- the scanner -----

  class Scanner {
    const text: seq<Lexeme>
    const from: Mark
    const end: Mark
    var next: nat
    var mark: Mark
    var streamStartProduced: bool
    var queue: seq<Token>
    var tokensParsed: nat
    var tokenAvailable: bool
    var indent: int
    var indents: seq<int>
    var simpleKeyAllowed: bool
    var simpleKeys: seq<SimpleKey>
    var keysByToken: map<nat, nat>
    /** The tokens handed out, and whether a STREAM-END has been fetched. */
    ghost var handed: seq<Token>
    ghost var over: bool

    // ----- the invariant -----

    /** What the fields come to: all tokens, handed out or not, and what decides the next ones. */
    ghost function Current(): (s: State)
      requires |simpleKeys| == 1
      reads this`handed, this`queue, this`indents, this`indent, this`simpleKeys, this`simpleKeyAllowed
    {
      State(handed + queue, indents, indent, simpleKeys[0], simpleKeyAllowed)
    }

    /** The slot of the only flow level, and levels that fit each other. */
    ghost predicate Slots()
      reads this`simpleKeys, this`keysByToken, this`tokensParsed, this`handed, this`indents, this`indent
    {
      && |simpleKeys| == 1 && tokensParsed == |handed| && Increasing(indents, indent)
      && forall n :: n in keysByToken ==> keysByToken[n] == 0
    }

    /** A possible key is indexed, and the token where it began is still in the queue. */
    ghost predicate KeyInQueue()
      requires |simpleKeys| == 1
      reads this`simpleKeys, this`keysByToken, this`tokensParsed, this`queue
    {
      var k := simpleKeys[0];
      k.possible ==> k.number in keysByToken && tokensParsed <= k.number < tokensParsed + |queue|
    }

    ghost predicate Started()
      reads this`streamStartProduced, this`handed, this`queue, this`indents, this`indent, this`simpleKeys, this`simpleKeyAllowed, this`keysByToken, this`tokensParsed
    {
      streamStartProduced && Slots() && KeyInQueue() && KeyIsThere(Current())
    }

    /** The tokens are those of the lexemes taken, but for a key given up early. */
    ghost predicate Running()
      requires |simpleKeys| == 1
      reads this`next, this`mark, this`handed, this`queue, this`indents, this`indent, this`simpleKeys, this`simpleKeyAllowed
    {
      && next <= |text| && Run(text, next).Moved? && mark == MarkAt(text, next)
      && Agrees(Current(), Run(text, next).state, mark)
    }

    /** The tokens are those of the whole text; only more STREAM-END tokens follow them. */
    ghost predicate Over()
      requires |simpleKeys| == 1
      reads this`next, this`handed, this`queue, this`indents, this`simpleKeys
    {
      && next == |text| && Scan(text, from, end).Moved?
      && indents == [] && !simpleKeys[0].possible
      && var all := Scan(text, from, end).state.tokens;
         all <= handed + queue && forall i :: |all| <= i < |handed + queue| ==> (handed + queue)[i].kind.StreamEnd?
    }

    ghost predicate Valid()
      reads this
    {
      && InOrder(text, end) && next <= |text|
      && (if streamStartProduced then Started() && (if over then Over() else Running())
          else queue == [] && handed == [] && tokensParsed == 0 && !tokenAvailable && next == 0 && !over && mark == Mark(0, 0, 0))
      && (tokenAvailable ==> queue != [] && (simpleKeys[0].possible ==> tokensParsed < simpleKeys[0].number))
    }

    constructor (text: seq<Lexeme>, from: Mark, end: Mark)
      requires InOrder(text, end)
      ensures Valid() && this.text == text && this.from == from && this.end == end
      ensures handed == [] && !tokenAvailable && !over
    {
      this.text, this.from, this.end, over := text, from, end, false;
      next, mark, streamStartProduced, tokensParsed, tokenAvailable := 0, Mark(0, 0, 0), false, 0, false;
      queue, handed, indents, simpleKeys := [], [], [], [];
      indent, simpleKeyAllowed, keysByToken := 0, false, map[];
    }

    // ----- tokens and levels -----

    method InsertToken(pos: int, t: Token)
      requires pos <= |queue|
      modifies this`queue
      ensures queue == Inserted(old(queue), pos, t) && |queue| == |old(queue)| + 1
    {
      queue := if pos < 0 then queue + [t] else queue[..pos] + [t] + queue[pos..];
    }

    method AppendToken(kind: Kind)
      requires |simpleKeys| == 1
      modifies this`queue
      ensures queue == old(queue) + [Token(kind, mark)] && Current() == Append(old(Current()), kind, mark)
    {
      assert handed + (queue + [Token(kind, mark)]) == handed + queue + [Token(kind, mark)];
      InsertToken(-1, Token(kind, mark));
    }

    /** `yaml_parser_unroll_indent`: one BLOCK-END for each level that is deeper than the column. */
    method UnrollIndent(column: int, scanMark: Mark)
      requires Slots() && KeyInQueue() && column >= -1
      modifies this`queue, this`indent, this`indents
      ensures Slots() && KeyInQueue() && Current() == Unroll(old(Current()), column, scanMark) && old(queue) <= queue
    {
      var blockMark := EndMark(scanMark);
      while indent > column
        invariant Slots() && KeyInQueue() && old(queue) <= queue
        invariant Unroll(Current(), column, scanMark) == Unroll(old(Current()), column, scanMark)
        decreases |indents|
      {
        ghost var was := Current();
        assert handed + (queue + [Token(BlockEnd, blockMark)]) == handed + queue + [Token(BlockEnd, blockMark)];
        InsertToken(-1, Token(BlockEnd, blockMark));
        indent := indents[|indents| - 1];
        indents := indents[..|indents| - 1];
        assert Current() == Closed(was, scanMark);
      }
    }

    /** `yaml_parser_roll_indent`: opens a block at a deeper column; its token goes to the end,
        or in front of token `number`. */
    method RollIndent(column: nat, number: int, kind: Kind, at: Mark) returns (ok: bool)
      requires Slots() && number <= tokensParsed + |queue| && (number > -1 ==> tokensParsed <= number)
      modifies this`queue, this`indent, this`indents
      ensures Slots()
      ensures var r := Roll(old(Current()), column, number, kind, at); ok == r.Moved? && (ok ==> Current() == r.state)
      ensures ok ==> |queue| >= |old(queue)|
    {
      hide Inserted;
      if indent < column {
        indents := indents + [indent];
        indent := column;
        if |indents| > MAX_INDENTS {
          return false;
        }
        var pos := if number > -1 then number - tokensParsed else number;
        InsertedBehind(handed, queue, number, Token(kind, at));
        InsertToken(pos, Token(kind, at));
      }
      return true;
    }

    // ----- simple keys -----

    /** `yaml_simple_key_is_valid` of the current slot; gives up a key that is too far back. */
    method SimpleKeyIsValid() returns (valid: bool, ok: bool)
      requires Slots()
      modifies this`simpleKeys
      ensures Slots()
      ensures var k := old(simpleKeys)[0];
        && ok == !(k.possible && Expired(k, mark) && k.required)
        && (ok ==> valid == (k.possible && !Expired(k, mark)) && simpleKeys[0] == k.(possible := valid))
        && (!k.possible ==> simpleKeys == old(simpleKeys))
    {
      var k := simpleKeys[0];
      if !k.possible {
        return false, true;
      }
      if k.mark.line < mark.line || k.mark.index + MAX_KEY_LENGTH < mark.index {
        if k.required {
          return false, false;
        }
        simpleKeys := simpleKeys[0 := k.(possible := false)];
        return false, true;
      }
      return true, true;
    }

    method RemoveSimpleKey() returns (ok: bool)
      requires Slots()
      modifies this`simpleKeys, this`keysByToken
      ensures Slots()
      ensures var r := Remove(old(Current())); ok == r.Moved? && (ok ==> Current() == r.state)
    {
      var i := |simpleKeys| - 1;
      var k := simpleKeys[i];
      if k.possible {
        if k.required {
          return false;
        }
        simpleKeys := simpleKeys[i := k.(possible := false)];
        keysByToken := keysByToken - {k.number};
      }
      return true;
    }

    /** Notes the key that may start here; the next token appended will be its first. */
    method SaveSimpleKey() returns (ok: bool)
      requires Slots() && KeyInQueue()
      modifies this`simpleKeys, this`keysByToken
      ensures Slots()
      ensures var r := Save(old(Current()), mark); ok == r.Moved? && (ok ==> Current() == r.state)
      ensures ok && !simpleKeyAllowed ==> KeyInQueue()
      ensures ok && simpleKeyAllowed ==> tokensParsed + |queue| in keysByToken
    {
      var required := indent == mark.column;
      if simpleKeyAllowed {
        var k := SimpleKey(true, required, tokensParsed + |queue|, mark);
        ok := RemoveSimpleKey();
        if !ok {
          return;
        }
        simpleKeys := simpleKeys[|simpleKeys| - 1 := k];
        keysByToken := keysByToken[k.number := |simpleKeys| - 1];
      }
      return true;
    }

    // ----- fetching -----

    method FetchStreamStart()
      requires !streamStartProduced && Valid()
      modifies this`indent, this`simpleKeys, this`keysByToken, this`simpleKeyAllowed, this`streamStartProduced,
               this`queue, this`indents
      ensures Started() && Current() == START && !simpleKeys[0].possible && queue != []
    {
      indent, indents := -1, [];
      simpleKeys := [NO_KEY];
      keysByToken := map[];
      simpleKeyAllowed := true;
      streamStartProduced := true;
      AppendToken(StreamStart);
    }

    method FetchStreamEnd() returns (ok: bool)
      requires Started()
      modifies this`mark, this`queue, this`indent, this`indents, this`simpleKeys, this`keysByToken, this`simpleKeyAllowed
      ensures var m := LastMark(old(mark));
        var r := Remove(Unroll(old(Current()), -1, m));
        && ok == r.Moved?
        && (ok ==> Started() && |queue| > |old(queue)| && Current() == Append(r.state.(allowed := false), StreamEnd, m))
    {
      hide Unroll;
      if mark.column != 0 {
        mark := Mark(mark.index, mark.line + 1, 0);
      }
      UnrollIndent(-1, mark);
      ok := RemoveSimpleKey();
      if ok {
        simpleKeyAllowed := false;
        AppendToken(StreamEnd);
      }
    }

    /** A directive or a document indicator ends every block. */
    method FetchOutermost(kind: Kind) returns (ok: bool)
      requires Started()
      modifies this`queue, this`indent, this`indents, this`simpleKeys, this`keysByToken, this`simpleKeyAllowed
      ensures var r := Outermost(old(Current()), kind, mark);
        ok == r.Moved? && (ok ==> Started() && Current() == r.state && |queue| > |old(queue)|)
    {
      hide Unroll;
      UnrollIndent(-1, mark);
      ok := RemoveSimpleKey();
      if ok {
        simpleKeyAllowed := false;
        AppendToken(kind);
      }
    }

    /** `-`, or `?`: opens a sequence or a mapping if the column is deeper. */
    method FetchEntry(kind: Kind, block: Kind) returns (ok: bool)
      requires Started()
      modifies this`queue, this`indent, this`indents, this`simpleKeys, this`keysByToken, this`simpleKeyAllowed
      ensures var r := Entry(old(Current()), kind, block, mark);
        ok == r.Moved? && (ok ==> Started() && Current() == r.state && |queue| > |old(queue)|)
    {
      hide Roll;
      if !simpleKeyAllowed {
        return false;
      }
      ok := RollIndent(mark.column, -1, block, mark);
      if !ok {
        return;
      }
      ok := RemoveSimpleKey();
      if !ok {
        return;
      }
      simpleKeyAllowed := true;
      AppendToken(kind);
    }

    /** `:` after a simple key: KEY, and BLOCK-MAPPING-START before it if the column of the
        key is deeper, go directly in front of the token where the key began. */
    method FetchSimpleValue() returns (ok: bool)
      requires Started() && simpleKeys[0].possible
      modifies this`queue, this`indent, this`indents, this`simpleKeys, this`keysByToken, this`simpleKeyAllowed
      ensures var r := SimpleValue(old(Current()), mark);
        ok == r.Moved? && (ok ==> Started() && Current() == r.state && |queue| > |old(queue)|)
    {
      hide Inserted, Roll;
      var k := simpleKeys[0];
      InsertedBehind(handed, queue, k.number, Token(Key, k.mark));
      InsertToken(k.number - tokensParsed, Token(Key, k.mark));
      ok := RollIndent(k.mark.column, k.number, BlockMappingStart, k.mark);
      if !ok {
        return;
      }
      simpleKeys := simpleKeys[0 := k.(possible := false)];
      keysByToken := keysByToken - {k.number};
      simpleKeyAllowed := false;
      AppendToken(Value);
    }

    method FetchValue() returns (ok: bool)
      requires Started()
      modifies this`queue, this`indent, this`indents, this`simpleKeys, this`keysByToken, this`simpleKeyAllowed
      ensures var r := ValueOf(old(Current()), mark);
        ok == r.Moved? && (ok ==> Started() && Current() == r.state && |queue| > |old(queue)|)
    {
      hide Roll, SimpleValue, Expired;
      var valid;
      valid, ok := SimpleKeyIsValid();
      if !ok {
        return;
      }
      if valid {
        assert Current() == old(Current());
        ok := FetchSimpleValue();
        return;
      }
      if !simpleKeyAllowed {
        return false;
      }
      ok := RollIndent(mark.column, -1, BlockMappingStart, mark);
      if !ok {
        return;
      }
      simpleKeyAllowed := true;
      AppendToken(Value);
    }

    /** An alias, an anchor, a tag, a quoted or a plain scalar. */
    method FetchKeyText(blanksBehind: bool) returns (ok: bool)
      requires Started()
      modifies this`queue, this`simpleKeys, this`keysByToken, this`simpleKeyAllowed
      ensures var r := KeyTextOf(old(Current()), mark, blanksBehind);
        ok == r.Moved? && (ok ==> Started() && Current() == r.state && |queue| > |old(queue)|)
    {
      ok := SaveSimpleKey();
      if ok {
        simpleKeyAllowed := blanksBehind;
        AppendToken(NodeText);
      }
    }

    method FetchBlockScalar() returns (ok: bool)
      requires Started()
      modifies this`queue, this`simpleKeys, this`keysByToken, this`simpleKeyAllowed
      ensures var r := BlockScalarOf(old(Current()), mark);
        ok == r.Moved? && (ok ==> Started() && Current() == r.state && |queue| > |old(queue)|)
    {
      ok := RemoveSimpleKey();
      if ok {
        simpleKeyAllowed := true;
        AppendToken(NodeText);
      }
    }

    /** White space, the end of deeper blocks, then what comes next. */
    method FetchNextToken() returns (ok: bool)
      requires Valid() && !tokenAvailable
      modifies this
      ensures handed == old(handed) && !tokenAvailable
      ensures ok ==> Valid() && |queue| > |old(queue)| && old(next) <= next && streamStartProduced && (old(over) ==> over)
      ensures ok && old(streamStartProduced) && next == old(next) ==> over && !simpleKeys[0].possible
      ensures !ok ==> Scan(text, from, end).Refused?
    {
      hide Unroll, Dispatch, InOrder, Expired, Run, Finish, Scan, Running;
      if !streamStartProduced {
        FetchStreamStart();
        StartsRunning();
        return true;
      }
      if next == |text| {
        ok := FetchEnd();
      } else {
        ok := FetchLexeme();
      }
    }

    lemma StartsRunning()
      requires |simpleKeys| == 1 && Current() == START && next == 0 && mark == Mark(0, 0, 0)
      ensures Running()
    {}

    method FetchEnd() returns (ok: bool)
      requires Valid() && streamStartProduced && next == |text|
      modifies this`mark, this`queue, this`indent, this`indents, this`simpleKeys, this`keysByToken, this`simpleKeyAllowed, this`over
      ensures ok ==> Started() && Over() && over && |queue| > |old(queue)|
      ensures !ok ==> Scan(text, from, end).Refused?
    {
      hide Unroll, Dispatch, InOrder, Expired, Run, Finish, Scan, Increasing, Remove;
      ghost var c := Current();
      mark := end;
      UnrollIndent(mark.column, from);
      ok := FetchStreamEnd();
      if over {
        EndAgain(text, from, end, c);
        assert ok && Current() == Append(AtEnd(c, from, end).state.(allowed := false), StreamEnd, LastMark(end));
      } else {
        EndReached(text, from, end, c, Run(text, next).state);
      }
      over := over || ok;
    }

    method FetchLexeme() returns (ok: bool)
      requires Valid() && streamStartProduced && next < |text|
      modifies this`mark, this`next, this`queue, this`indent, this`indents, this`simpleKeys, this`keysByToken, this`simpleKeyAllowed
      ensures ok ==> Started() && next == old(next) + 1 && Running() && |queue| > |old(queue)|
      ensures !ok ==> Scan(text, from, end).Refused?
    {
      hide Unroll, Dispatch, InOrder, Expired, Run, Finish, Scan, Increasing, Agrees, MarkAt;
      ghost var c := Current();
      var x := text[next];
      if x.newLine {
        simpleKeyAllowed := true;
      }
      mark := x.mark;
      next := next + 1;
      UnrollIndent(mark.column, x.from);
      ok := DispatchOn(x);
      StepReached(text, next - 1, c, from, end);
    }

    /** What the shape of the text calls for. */
    method DispatchOn(x: Lexeme) returns (ok: bool)
      requires Started() && mark == x.mark
      modifies this`queue, this`indent, this`indents, this`simpleKeys, this`keysByToken, this`simpleKeyAllowed
      ensures var r := Dispatch(old(Current()), x);
        ok == r.Moved? && (ok ==> Started() && Current() == r.state && |queue| > |old(queue)|)
    {
      hide Outermost, Entry, ValueOf, KeyTextOf, BlockScalarOf, Roll;
      match x.shape {
        case DirectiveText =>
          ok := mark.column == 0;
          if ok {
            ok := FetchOutermost(Directive);
          }
        case DocumentMarker =>
          ok := mark.column == 0;
          if ok {
            ok := FetchOutermost(DocumentIndicator);
          }
        case Dash => ok := FetchEntry(BlockEntry, BlockSequenceStart);
        case Question => ok := FetchEntry(Key, BlockMappingStart);
        case Colon => ok := FetchValue();
        case KeyText => ok := FetchKeyText(x.blanksBehind);
        case BlockScalarText => ok := FetchBlockScalar();
        case BadText => ok := false;
      }
    }

    /** Fetching goes on in the text, or begins or ends the stream, or leaves the queue alone. */
    ghost predicate Ahead(next0: nat, started0: bool, over0: bool, queue0: seq<Token>)
      reads this
    {
      && next0 <= next && (started0 ==> streamStartProduced) && (over0 ==> over)
      && (next == next0 && streamStartProduced == started0 && !over ==> queue == queue0)
    }

    /** Is the token at the head of the queue possibly a simple key? Gives up one that is not. */
    method HeadMayBeKey() returns (waits: bool, ok: bool)
      requires Valid() && !tokenAvailable && |queue| > 2
      modifies this`simpleKeys
      ensures ok ==> Valid() && !tokenAvailable && |simpleKeys| == 1
      ensures ok && waits ==> simpleKeys == old(simpleKeys) && simpleKeys[0].possible
      ensures ok && !waits ==> simpleKeys[0].possible ==> tokensParsed < simpleKeys[0].number
      ensures !ok ==> Scan(text, from, end).Refused?
    {
      hide InOrder, Run, Expired, Finish;
      waits, ok := tokensParsed in keysByToken, true;
      if waits {
        ghost var c := Current();
        if !over && c.key.possible && c.key.required && Expired(c.key, mark) {
          assert c == Run(text, next).state;
          NotAtStart(text, next);
          Doomed(text, next, from, end);
        }
        waits, ok := SimpleKeyIsValid();
        assert ok && waits ==> simpleKeys == old(simpleKeys);
      }
    }

    /** Fetches until the token at the head of the queue is known not to be a simple key. */
    method FetchMoreTokens() returns (ok: bool)
      requires Valid() && !tokenAvailable
      modifies this
      ensures handed == old(handed)
      ensures ok ==> Valid() && tokenAvailable && Ahead(old(next), old(streamStartProduced), old(over), old(queue))
      ensures !ok ==> Scan(text, from, end).Refused?
    {
      hide InOrder, Run, Expired, Scan, Running, Over, Started;
      while true
        invariant Valid() && !tokenAvailable && handed == old(handed)
        invariant Ahead(old(next), old(streamStartProduced), old(over), old(queue))
        decreases |text| - next, if streamStartProduced then 0 else 1,
                  if streamStartProduced && |simpleKeys| == 1 && simpleKeys[0].possible then 1 else 0, 3 - |queue|
      {
        if |queue| > 2 {
          var waits;
          waits, ok := HeadMayBeKey();
          if !ok {
            return;
          }
          if !waits {
            break;
          }
        }
        ok := FetchNextToken();
        if !ok {
          return;
        }
      }
      tokenAvailable := true;
      return true;
    }

    /** The parser takes the token at the head. */
    method SkipToken() returns (t: Token)
      requires Valid() && tokenAvailable
      modifies this`queue, this`tokensParsed, this`tokenAvailable, this`handed
      ensures Valid() && !tokenAvailable && handed == old(handed) + [t] && [t] + queue == old(queue)
      ensures handed + queue == old(handed + queue)
    {
      hide Run, Scan, InOrder, Expired;
      t := queue[0];
      assert handed + queue == (handed + [t]) + queue[1..];
      tokenAvailable := false;
      tokensParsed := tokensParsed + 1;
      queue := queue[1..];
      handed := handed + [t];
    }

    /** Hands out tokens to the end of the stream, or to an error: the tokens of the whole
        text if it has any, and otherwise no others than those of what comes before the error. */
    method ScanAll() returns (ok: bool)
      requires Valid() && !tokenAvailable && handed == [] && !over
      modifies this
      ensures ok == Scan(text, from, end).Moved?
      ensures ok ==> handed == Scan(text, from, end).state.tokens
      ensures exists n :: 0 <= n <= |text| && IsTokensUpTo(text, from, end, n, handed)
      ensures AllPlaced(handed)
    {
      hide Running, Over, InOrder, Run, Expired, AllPlaced, IsTokensUpTo, Scan;
      ghost var n: nat := 0;
      NothingUpTo(text, from, end);
      while true
        invariant Valid() && !tokenAvailable && n <= |text|
        invariant IsTokensUpTo(text, from, end, n, handed) && NoEnd(handed)
        invariant over ==> Scan(text, from, end).Moved? && |handed| < |Scan(text, from, end).state.tokens|
        decreases |text| - next, if streamStartProduced then 0 else 1, if over then 0 else 1,
                  if over then |Scan(text, from, end).state.tokens| - |handed| else |queue|
      {
        ok := FetchMoreTokens();
        if !ok {
          UpToPlaced(n);
          return;
        }
        ghost var was := handed;
        Left();
        var t := SkipToken();
        n := next;
        assert handed[..|handed| - 1] == was;
        Handed();
        if t.kind.StreamEnd? {
          UpToPlaced(n);
          return true;
        }
      }
    }


    lemma Left()
      requires Valid() && streamStartProduced && NoEnd(handed)
      ensures over ==> Scan(text, from, end).Moved? && |handed| < |Scan(text, from, end).state.tokens|
    {
      hide Run, Scan, InOrder, Expired, NoEnd;
      if over {
        SomeLeft(text, from, end, handed, queue);
      }
    }

    /** After a token has been handed out. */
    lemma Handed()
      requires Valid() && streamStartProduced && handed != [] && NoEnd(handed[..|handed| - 1])
      ensures IsTokensUpTo(text, from, end, next, handed)
      ensures handed[|handed| - 1].kind.StreamEnd? ==> Scan(text, from, end).Moved? && handed == Scan(text, from, end).state.tokens
      ensures !handed[|handed| - 1].kind.StreamEnd? ==> NoEnd(handed)
      ensures !handed[|handed| - 1].kind.StreamEnd? && over ==> |handed| < |Scan(text, from, end).state.tokens|
    {
      hide Run, Scan, InOrder, Expired, NoEnd, IsTokensUpTo;
      if over {
        HandedOver(text, from, end, handed, queue);
      } else {
        HandedRunning(text, from, end, next, handed, queue);
        assert handed[|handed| - 1].kind.StreamEnd? ==> false by { LastNoEnd(handed); }
      }
    }

    lemma UpToPlaced(n: nat)
      requires InOrder(text, end) && IsTokensUpTo(text, from, end, n, handed)
      ensures AllPlaced(handed)
    {
      hide AllPlaced, InOrder, Run, Scan;
      if Run(text, n).Moved? && handed <= Run(text, n).state.tokens {
        RunGood(text, end, n);
        assert AllPlaced(Run(text, n).state.tokens) by { GoodIsPlaced(Run(text, n).state, MarkAt(text, n)); }
        PlacedPrefix(handed, Run(text, n).state.tokens);
      } else {
        ScanGood(text, from, end);
        PlacedPrefix(handed, Scan(text, from, end).state.tokens);
      }
    }
  }

  /** The tokens are the first ones of n lexemes, or of the whole text. */
  predicate IsTokensUpTo(text: seq<Lexeme>, from: Mark, end: Mark, n: nat, tokens: seq<Token>) {
    && n <= |text|
    && (|| (Run(text, n).Moved? && tokens <= Run(text, n).state.tokens)
        || (Scan(text, from, end).Moved? && tokens <= Scan(text, from, end).state.tokens))
  }

  lemma GoodIsPlaced(s: State, mark: Mark)
    requires Good(s, mark)
    ensures AllPlaced(s.tokens)
  {}

  lemma LastNoEnd(s: seq<Token>)
    requires NoEnd(s) && s != []
    ensures !s[|s| - 1].kind.StreamEnd?
  {}

  predicate NoEnd(s: seq<Token>) { forall i :: 0 <= i < |s| ==> !s[i].kind.StreamEnd? }

  /** The token handed out last, before the end of the text has been reached. */
  lemma HandedRunning(text: seq<Lexeme>, from: Mark, end: Mark, n: nat, handed: seq<Token>, queue: seq<Token>)
    requires InOrder(text, end) && n <= |text| && Run(text, n).Moved? && Run(text, n).state.tokens == handed + queue
    ensures IsTokensUpTo(text, from, end, n, handed) && NoEnd(handed)
  {
    hide Run, Scan, InOrder;
    RunHasNoEnd(text, end, n);
    forall i | 0 <= i < |handed|
      ensures !handed[i].kind.StreamEnd?
    {
      assert handed[i] == (handed + queue)[i];
    }
  }

  /** And after that: it is STREAM-END exactly if all tokens have been handed out. */
  lemma HandedOver(text: seq<Lexeme>, from: Mark, end: Mark, handed: seq<Token>, queue: seq<Token>)
    requires InOrder(text, end) && Scan(text, from, end).Moved? && Scan(text, from, end).state.tokens <= handed + queue
    requires handed != [] && NoEnd(handed[..|handed| - 1])
    ensures IsTokensUpTo(text, from, end, |text|, handed)
    ensures handed[|handed| - 1].kind.StreamEnd? ==> handed == Scan(text, from, end).state.tokens
    ensures !handed[|handed| - 1].kind.StreamEnd? ==> |handed| < |Scan(text, from, end).state.tokens| && NoEnd(handed)
  {
    hide Run, Scan, InOrder;
    var all := Scan(text, from, end).state.tokens;
    ScanHasOneEnd(text, from, end);
    var s := handed + queue;
    assert forall i :: 0 <= i < |handed| ==> handed[i] == s[i];
    assert forall i :: 0 <= i < |handed| - 1 ==> handed[..|handed| - 1][i] == s[i];
    assert handed[..|handed| - 1] + ([handed[|handed| - 1]] + queue) == s;
    LastOfPrefix(all, handed[..|handed| - 1], [handed[|handed| - 1]] + queue);
  }

  lemma LastOfPrefix(all: seq<Token>, a: seq<Token>, b: seq<Token>)
    requires all != [] && all <= a + b
    ensures |all| <= |a| ==> a[|all| - 1] == all[|all| - 1]
  {
    assert all[|all| - 1] == (a + b)[|all| - 1];
  }

  lemma NothingUpTo(text: seq<Lexeme>, from: Mark, end: Mark)
    ensures IsTokensUpTo(text, from, end, 0, []) && NoEnd([])
  {}

  /** Before the end is handed out, something is left of the whole text's tokens. */
  lemma SomeLeft(text: seq<Lexeme>, from: Mark, end: Mark, handed: seq<Token>, queue: seq<Token>)
    requires InOrder(text, end) && Scan(text, from, end).Moved? && Scan(text, from, end).state.tokens <= handed + queue && NoEnd(handed)
    ensures |handed| < |Scan(text, from, end).state.tokens|
  {
    hide Run, Scan, InOrder;
    var all := Scan(text, from, end).state.tokens;
    ScanHasOneEnd(text, from, end);
    LastOfPrefix(all, handed, queue);
  }
}
