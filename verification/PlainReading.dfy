/**
  Reading plain scalars, whoever wrote them: words with white space and folded lines between
  them are read as the value that YAML 1.2 sections 6.5 and 7.3.3 give them, and they end where
  something begins that cannot belong to them.
 */
module PlainReading {
  import opened Basics
  import opened Chars
  import opened FlowScalar
  import opened PlainScalar
  import opened LineFolding
  import FlowReading

  // ----- plain texts -----

  /** White space or folded lines, and the word behind them. */
  datatype Chunk = White(blanks: string, word: string) | Folded(before: string, lines: seq<Fold>, word: string)

  function GapText(c: Chunk): string { if c.White? then c.blanks else c.before + LinesText(c.lines) }

  function GapValue(c: Chunk): string {
    if c.White? then c.blanks else if c.lines == [] then "" else FoldedValue(c.lines)
  }

  function ChunksText(cs: seq<Chunk>): string {
    if cs == [] then "" else GapText(cs[0]) + (cs[0].word + ChunksText(cs[1..]))
  }

  function ChunksValue(cs: seq<Chunk>): string {
    if cs == [] then "" else GapValue(cs[0]) + (cs[0].word + ChunksValue(cs[1..]))
  }

  /** The characters that end a plain scalar in a flow collection. */
  const FLOW_MARKS := ",?[]{}"

  /** A word in front of `rest`: no `:` in front of white space, and no flow indicator in a flow
      collection. */
  predicate WordFits(flow: bool, word: string, rest: string) {
    && word != "" && (forall i :: 0 <= i < |word| ==> !IsBlankz(word[i]) && (flow ==> word[i] !in FLOW_MARKS))
    && (word[|word| - 1] == ':' ==> !IsBlankz(At(rest, 0)))
  }

  /** Tabs count as indentation of a line only at columns that are deep enough. */
  predicate TabsFit(lines: seq<Fold>, indent: int) {
    forall i :: 0 <= i < |lines| ==> forall j :: 0 <= j < |lines[i].indent| && IsTab(lines[i].indent[j]) ==> indent <= j
  }

  /** What is behind the gap is not taken for the end of the scalar. */
  predicate ChunkFits(flow: bool, indent: int, c: Chunk, rest: string) {
    && c.word != "" && c.word[0] != '#' && WordFits(flow, c.word, rest)
    && match c
       case White(blanks, _) => blanks != "" && AllBlank(blanks)
       case Folded(before, lines, word) =>
         && AllBlank(before) && lines != [] && LinesFit(lines) && TabsFit(lines, indent)
         && (!flow ==> indent <= LastIndent(lines)) && (LastIndent(lines) == 0 ==> !FlowReading.Marker(word + rest))
  }

  predicate ChunksFit(flow: bool, indent: int, cs: seq<Chunk>, rest: string)
    decreases |cs|
  {
    cs == [] || (ChunkFits(flow, indent, cs[0], ChunksText(cs[1..]) + rest) && ChunksFit(flow, indent, cs[1..], rest))
  }

  // ----- what comes behind -----

  /** Directly, behind white space, or on another line. */
  datatype Behind = Directly | Spaced(blanks: string) | Lined(before: string, lines: seq<Fold>)

  function BehindText(b: Behind): string {
    match b
    case Directly => ""
    case Spaced(blanks) => blanks
    case Lined(before, lines) => before + LinesText(lines)
  }

  /** What ends the scalar: the end of the text, a `:` in front of white space, a flow indicator in
      a flow collection; a comment behind white space; and on another line, in block context,
      anything no deeper than the level around the scalar, or a document marker. */
  predicate EndsScalar(flow: bool, level: int, b: Behind, x: string) {
    var c := At(x, 0);
    var stops := IsZ(c) || (c == ':' && IsBlankz(At(x, 1))) || (flow && c in FLOW_MARKS);
    match b
    case Directly => stops
    case Spaced(blanks) => blanks != "" && AllBlank(blanks) && (stops || c == '#')
    case Lined(before, lines) =>
      && AllBlank(before) && lines != [] && LinesFit(lines) && TabsFit(lines, level + 1) && !IsBlank(c) && !IsBreak(c)
      && (stops || c == '#' || (!flow && LastIndent(lines) <= level) || (LastIndent(lines) == 0 && FlowReading.Marker(x)))
  }

  // ----- gaps -----

  lemma PlainBlanksStep(flow: bool, indent: int, buf: string, p: nat, column: nat, s: string, g: Gap, end: nat)
    requires end <= p <= |buf|
    ensures var c := At(buf, p);
      PlainBlanks(flow, indent, buf, p, column, s, g, end) ==
        if IsBlank(c) then
          if g.leading && column < indent && IsTab(c) then PlainFail(TabInIndentation)
          else PlainBlanks(flow, indent, buf, p + 1, column + 1, s, AddBlank(g, c), end)
        else if IsBreak(c) then PlainBlanks(flow, indent, buf, p + BreakLen(buf, p), 0, s, AddBreak(g, c), end)
        else if !flow && column < indent then PlainDone(s, end, p, column, g.leading)
        else PlainStart(flow, indent, buf, p, column, s, g, end)
  {
    hide PlainStart, PlainWord;
  }

  /** White space, in front of which the tabs are deep enough. */
  lemma {:induction false} BlanksRead(flow: bool, indent: int, buf: string, p: nat, column: nat, s: string, g: Gap, end: nat, blanks: string, rest: string)
    requires AllBlank(blanks) && end <= p <= |buf| && buf[p..] == blanks + rest
    requires g.leading ==> forall j :: 0 <= j < |blanks| && IsTab(blanks[j]) ==> indent <= column + j
    ensures p + |blanks| <= |buf| && buf[p + |blanks|..] == rest
    ensures PlainBlanks(flow, indent, buf, p, column, s, g, end)
         == PlainBlanks(flow, indent, buf, p + |blanks|, column + |blanks|, s, if g.leading then g else g.(blanks := g.blanks + blanks), end)
    decreases |blanks|
  {
    hide PlainStart, PlainWord, PlainBlanks;
    if blanks == "" {
      assert "" + rest == rest && g.blanks + "" == g.blanks;
    } else {
      assert blanks + rest == [blanks[0]] + (blanks[1..] + rest);
      Advance(buf, p, [blanks[0]], blanks[1..] + rest);
      assert At(buf, p + 0) == [blanks[0]][0];
      PlainBlanksStep(flow, indent, buf, p, column, s, g, end);
      assert g.blanks + [blanks[0]] + blanks[1..] == g.blanks + blanks;
      BlanksRead(flow, indent, buf, p + 1, column + 1, s, AddBlank(g, blanks[0]), end, blanks[1..], rest);
    }
  }

  /** One line end and the white space behind it. */
  lemma LineReads(flow: bool, indent: int, buf: string, p: nat, column: nat, s: string, g: Gap, end: nat, lines: seq<Fold>, rest: string)
    requires LinesFit(lines) && TabsFit(lines, indent) && lines != [] && At(rest, 0) != '\n'
    requires end <= p <= |buf| && buf[p..] == LinesText(lines) + rest
    ensures var e, white := lines[0].end, lines[0].indent;
      var q := p + |EndText(e)| + |white|;
      var h := if g.leading then g.(rest := g.rest + EndValue(e)) else g.(blanks := "", first := g.first + EndValue(e), leading := true);
      && LinesFit(lines[1..]) && TabsFit(lines[1..], indent) && q <= |buf| && buf[q..] == LinesText(lines[1..]) + rest
      && PlainBlanks(flow, indent, buf, p, column, s, g, end) == PlainBlanks(flow, indent, buf, q, |white|, s, h, end)
  {
    hide PlainBlanks, LinesText, LinesFit, EndText, EndValue, BreakText, AllBlank, BreakLen;
    var e, white := lines[0].end, lines[0].indent;
    FlowReading.LineParts(lines, rest);
    EndReads(buf, p, e, white + (LinesText(lines[1..]) + rest));
    PlainBlanksStep(flow, indent, buf, p, column, s, g, end);
    var h := AddBreak(g, At(buf, p));
    assert forall j :: 0 <= j < |white| && IsTab(white[j]) ==> indent <= 0 + j;
    BlanksRead(flow, indent, buf, p + |EndText(e)|, 0, s, h, end, white, LinesText(lines[1..]) + rest);
    assert forall i :: 0 <= i < |lines[1..]| ==> lines[1..][i] == lines[i + 1];
  }

  /** Lines behind a line end. */
  lemma {:induction false} LinesRead(flow: bool, indent: int, buf: string, p: nat, column: nat, s: string, g: Gap, end: nat, lines: seq<Fold>, rest: string)
    requires LinesFit(lines) && TabsFit(lines, indent) && At(rest, 0) != '\n' && g.leading
    requires end <= p <= |buf| && buf[p..] == LinesText(lines) + rest
    ensures p + |LinesText(lines)| <= |buf| && buf[p + |LinesText(lines)|..] == rest
    ensures PlainBlanks(flow, indent, buf, p, column, s, g, end)
         == PlainBlanks(flow, indent, buf, p + |LinesText(lines)|, if lines == [] then column else LastIndent(lines), s,
                        g.(rest := g.rest + EndValues(lines)), end)
    decreases |lines|
  {
    hide PlainBlanks, LinesFit, TabsFit, EndText, EndValue;
    if lines == [] {
      assert "" + rest == rest && g.rest + "" == g.rest;
    } else {
      LineReads(flow, indent, buf, p, column, s, g, end, lines, rest);
      var e, white := lines[0].end, lines[0].indent;
      var h := g.(rest := g.rest + EndValue(e));
      LinesRead(flow, indent, buf, p + |EndText(e)| + |white|, |white|, s, h, end, lines[1..], rest);
      Assoc(g.rest, EndValue(e), EndValues(lines[1..]));
      FlowReading.LastOf(lines);
    }
  }

  /** White space, then lines: all of a fold is collected. */
  lemma FoldReached(flow: bool, indent: int, buf: string, p: nat, column: nat, s: string, end: nat, before: string, lines: seq<Fold>, rest: string)
    requires AllBlank(before) && lines != [] && LinesFit(lines) && TabsFit(lines, indent) && At(rest, 0) != '\n'
    requires end <= p <= |buf| && buf[p..] == before + LinesText(lines) + rest
    ensures var q := p + |before + LinesText(lines)|;
      && q <= |buf| && buf[q..] == rest
      && PlainWord(flow, indent, buf, p, column, s, Gap("", "", "", false), end)
         == PlainBlanks(flow, indent, buf, q, LastIndent(lines), s, Gap("", EndValue(lines[0].end), EndValues(lines[1..]), true), end)
  {
    hide *;
    Assoc(before, LinesText(lines), rest);
    FlowReading.FirstIsBreak(buf, p, before, lines, rest);
    EntersGap(flow, indent, buf, p, column, s, end);
    BlanksRead(flow, indent, buf, p, column, s, Gap("", "", "", false), end, before, LinesText(lines) + rest);
    LineReads(flow, indent, buf, p + |before|, column + |before|, s, Gap("" + before, "", "", false), end, lines, rest);
    var e, white := lines[0].end, lines[0].indent;
    FlowReading.NothingBefore(EndValue(e));
    FlowReading.NothingBefore(EndValues(lines[1..]));
    LinesRead(flow, indent, buf, p + |before| + |EndText(e)| + |white|, |white|, s, Gap("", EndValue(e), "", true), end, lines[1..], rest);
    FlowReading.LastOf(lines);
  }

  lemma EntersGap(flow: bool, indent: int, buf: string, p: nat, column: nat, s: string, end: nat)
    requires end <= p <= |buf| && (IsBlank(At(buf, p)) || IsBreak(At(buf, p)))
    ensures PlainWord(flow, indent, buf, p, column, s, Gap("", "", "", false), end)
         == PlainBlanks(flow, indent, buf, p, column, s, Gap("", "", "", false), end)
  {
    hide PlainBlanks;
  }

  // ----- words -----

  lemma CharReads(flow: bool, indent: int, buf: string, p: nat, column: nat, s: string, g: Gap, end: nat, c: char, rest: string)
    requires end <= p <= |buf| && buf[p..] == [c] + rest && !IsBlankz(c) && !EndsPlain(flow, c, At(rest, 0))
    ensures p + 1 <= |buf| && buf[p + 1..] == rest
    ensures PlainWord(flow, indent, buf, p, column, s, g, end)
         == PlainWord(flow, indent, buf, p + 1, column + 1, s + Join(g) + [c], Gap("", "", "", false), p + 1)
  {
    hide PlainBlanks;
    Advance(buf, p, [c], rest);
    assert At(buf, p + 0) == [c][0];
  }

  lemma {:induction false} WordReads(flow: bool, indent: int, buf: string, p: nat, column: nat, s: string, g: Gap, end: nat, word: string, rest: string)
    requires end <= p <= |buf| && buf[p..] == word + rest && WordFits(flow, word, rest)
    ensures var q := p + |word|;
      && q <= |buf| && buf[q..] == rest
      && PlainWord(flow, indent, buf, p, column, s, g, end)
         == PlainWord(flow, indent, buf, q, column + |word|, s + Join(g) + word, Gap("", "", "", false), q)
    decreases |word|
  {
    hide PlainWord;
    var c, more := word[0], word[1..];
    assert word + rest == [c] + (more + rest);
    assert word == [c] + more;
    NextChar(flow, word, rest);
    CharReads(flow, indent, buf, p, column, s, g, end, c, more + rest);
    if more == "" {
      assert "" + rest == rest && word == [c];
    } else {
      assert forall i :: 0 <= i < |more| ==> more[i] == word[i + 1];
      WordReads(flow, indent, buf, p + 1, column + 1, s + Join(g) + [c], Gap("", "", "", false), p + 1, more, rest);
      assert s + Join(g) + [c] + "" + more == s + Join(g) + word;
    }
  }

  lemma NextChar(flow: bool, word: string, rest: string)
    requires WordFits(flow, word, rest)
    ensures !IsBlankz(word[0]) && !EndsPlain(flow, word[0], At(word[1..] + rest, 0))
  {
    if |word| > 1 {
      assert (word[1..] + rest)[0] == word[1];
    } else {
      assert word[1..] + rest == rest;
    }
  }

  /** The word behind a gap. */
  lemma GapEnds(flow: bool, indent: int, buf: string, q: nat, column: nat, s: string, g: Gap, end: nat, rest: string)
    requires end <= q <= |buf| && buf[q..] == rest && !IsBlankz(At(rest, 0)) && At(rest, 0) != '#'
    requires (column == 0 ==> !FlowReading.Marker(rest)) && (flow || indent <= column)
    ensures PlainBlanks(flow, indent, buf, q, column, s, g, end) == PlainWord(flow, indent, buf, q, column, s, g, end)
  {
    hide PlainWord;
    FlowReading.SameChars(buf, q, rest);
    assert At(buf, q + 0) == At(rest, 0) && At(buf, q + 1) == At(rest, 1);
    assert At(buf, q + 2) == At(rest, 2) && At(buf, q + 3) == At(rest, 3);
    PlainBlanksStep(flow, indent, buf, q, column, s, g, end);
  }

  // ----- chunks -----

  lemma WhiteReads(flow: bool, indent: int, buf: string, p: nat, column: nat, s: string, end: nat, blanks: string, word: string, rest: string)
    requires end <= p <= |buf| && buf[p..] == blanks + (word + rest) && WordFits(flow, word, rest)
    requires blanks != "" && AllBlank(blanks) && word != "" && word[0] != '#' && (flow || indent <= column)
    ensures var q := p + |blanks| + |word|;
      && q <= |buf| && buf[q..] == rest
      && PlainWord(flow, indent, buf, p, column, s, Gap("", "", "", false), end)
         == PlainWord(flow, indent, buf, q, column + |blanks| + |word|, s + (blanks + word), Gap("", "", "", false), q)
  {
    hide *;
    FirstOfWord(flow, word, rest);
    FirstBlank(buf, p, blanks, word + rest);
    EntersGap(flow, indent, buf, p, column, s, end);
    BlanksRead(flow, indent, buf, p, column, s, Gap("", "", "", false), end, blanks, word + rest);
    FlowReading.NothingBefore(blanks);
    var g := Gap(blanks, "", "", false);
    GapEnds(flow, indent, buf, p + |blanks|, column + |blanks|, s, g, end, word + rest);
    WordReads(flow, indent, buf, p + |blanks|, column + |blanks|, s, g, end, word, rest);
    OnlyBlanks(blanks);
    Assoc(s, blanks, word);
  }

  lemma OnlyBlanks(blanks: string)
    ensures Join(Gap(blanks, "", "", false)) == blanks
  {}

  lemma FirstBlank(buf: string, p: nat, blanks: string, rest: string)
    requires blanks != "" && AllBlank(blanks) && p <= |buf| && buf[p..] == blanks + rest
    ensures IsBlank(At(buf, p))
  {
    assert At(buf, p) == buf[p..][0] == blanks[0];
  }

  lemma FoldedReads(flow: bool, indent: int, buf: string, p: nat, column: nat, s: string, end: nat, before: string, lines: seq<Fold>, word: string, rest: string)
    requires end <= p <= |buf| && buf[p..] == before + LinesText(lines) + (word + rest) && WordFits(flow, word, rest)
    requires AllBlank(before) && lines != [] && LinesFit(lines) && TabsFit(lines, indent) && word != "" && word[0] != '#'
    requires (flow || indent <= LastIndent(lines)) && (LastIndent(lines) == 0 ==> !FlowReading.Marker(word + rest))
    ensures var q := p + |before + LinesText(lines)| + |word|;
      && q <= |buf| && buf[q..] == rest
      && PlainWord(flow, indent, buf, p, column, s, Gap("", "", "", false), end)
         == PlainWord(flow, indent, buf, q, LastIndent(lines) + |word|, s + (FoldedValue(lines) + word), Gap("", "", "", false), q)
  {
    hide *;
    FirstOfWord(flow, word, rest);
    FlowReading.NotFeed(word + rest);
    FoldReached(flow, indent, buf, p, column, s, end, before, lines, word + rest);
    var q := p + |before + LinesText(lines)|;
    var g := Gap("", EndValue(lines[0].end), EndValues(lines[1..]), true);
    GapEnds(flow, indent, buf, q, LastIndent(lines), s, g, end, word + rest);
    WordReads(flow, indent, buf, q, LastIndent(lines), s, g, end, word, rest);
    FlowReading.JoinedIs(lines);
    Assoc(s, FoldedValue(lines), word);
  }

  lemma ChunkReads(flow: bool, indent: int, buf: string, p: nat, column: nat, s: string, end: nat, c: Chunk, rest: string) returns (column': nat)
    requires end <= p <= |buf| && buf[p..] == GapText(c) + (c.word + rest) && ChunkFits(flow, indent, c, rest)
    requires 0 < column && (flow || indent <= column)
    ensures 0 < column' && (flow || indent <= column')
    ensures var q := p + |GapText(c)| + |c.word|;
      && q <= |buf| && buf[q..] == rest
      && PlainWord(flow, indent, buf, p, column, s, Gap("", "", "", false), end)
         == PlainWord(flow, indent, buf, q, column', s + (GapValue(c) + c.word), Gap("", "", "", false), q)
  {
    hide PlainWord, FlowReading.Marker, LinesText, FoldedValue, LinesFit, TabsFit, WordFits, AllBlank;
    if c.White? {
      WhiteReads(flow, indent, buf, p, column, s, end, c.blanks, c.word, rest);
      column' := column + |c.blanks| + |c.word|;
    } else {
      FoldedReads(flow, indent, buf, p, column, s, end, c.before, c.lines, c.word, rest);
      column' := LastIndent(c.lines) + |c.word|;
    }
  }

  lemma FirstOfWord(flow: bool, word: string, rest: string)
    requires WordFits(flow, word, rest)
    ensures word != "" && At(word + rest, 0) == word[0] && !IsBlankz(word[0])
  {}

  lemma ChunksStep(cs: seq<Chunk>, rest: string, s: string)
    ensures cs == [] ==> ChunksText(cs) + rest == rest && s + ChunksValue(cs) == s
    ensures cs != [] ==>
      && ChunksText(cs) + rest == GapText(cs[0]) + (cs[0].word + (ChunksText(cs[1..]) + rest))
      && |ChunksText(cs)| == |GapText(cs[0])| + |cs[0].word| + |ChunksText(cs[1..])|
      && s + ChunksValue(cs) == s + (GapValue(cs[0]) + cs[0].word) + ChunksValue(cs[1..])
  {
    hide GapText, GapValue;
    if cs == [] {
      assert "" + rest == rest && s + "" == s;
    } else {
      Assoc(cs[0].word, ChunksText(cs[1..]), rest);
      Assoc(GapText(cs[0]), cs[0].word + ChunksText(cs[1..]), rest);
      Assoc(GapValue(cs[0]), cs[0].word, ChunksValue(cs[1..]));
      Assoc(s, GapValue(cs[0]) + cs[0].word, ChunksValue(cs[1..]));
    }
  }

  lemma {:induction false} ChunksRead(flow: bool, indent: int, buf: string, p: nat, column: nat, s: string, cs: seq<Chunk>, rest: string)
    returns (column': nat)
    requires p <= |buf| && buf[p..] == ChunksText(cs) + rest && ChunksFit(flow, indent, cs, rest)
    requires 0 < column && (flow || indent <= column)
    ensures 0 < column' && (flow || indent <= column')
    ensures var q := p + |ChunksText(cs)|;
      && q <= |buf| && buf[q..] == rest
      && PlainWord(flow, indent, buf, p, column, s, Gap("", "", "", false), p)
         == PlainWord(flow, indent, buf, q, column', s + ChunksValue(cs), Gap("", "", "", false), q)
    decreases |cs|
  {
    hide PlainWord, ChunkFits, GapText, GapValue;
    ChunksStep(cs, rest, s);
    column' := column;
    if cs != [] {
      var c := cs[0];
      var column1 := ChunkReads(flow, indent, buf, p, column, s, p, c, ChunksText(cs[1..]) + rest);
      column' := ChunksRead(flow, indent, buf, p + |GapText(c)| + |c.word|, column1, s + (GapValue(c) + c.word), cs[1..], rest);
    }
  }

  // ----- the end -----

  predicate EndsAt(r: PlainScan, value: string, end: nat) { r.PlainDone? && r.value == value && r.end == end }

  lemma StopsHere(flow: bool, indent: int, buf: string, p: nat, column: nat, s: string, g: Gap, end: nat, x: string)
    requires end <= p <= |buf| && buf[p..] == x && !IsBlank(At(x, 0)) && !IsBreak(At(x, 0))
    requires var c := At(x, 0);
      || IsZ(c) || (c == ':' && IsBlankz(At(x, 1))) || (flow && c in FLOW_MARKS) || c == '#'
      || (!flow && column < indent) || (column == 0 && FlowReading.Marker(x))
    ensures EndsAt(PlainBlanks(flow, indent, buf, p, column, s, g, end), s, end)
  {
    FlowReading.SameChars(buf, p, x);
    assert At(buf, p + 0) == At(x, 0) && At(buf, p + 1) == At(x, 1);
    assert At(buf, p + 2) == At(x, 2) && At(buf, p + 3) == At(x, 3);
    PlainBlanksStep(flow, indent, buf, p, column, s, g, end);
    hide PlainBlanks;
  }

  lemma DirectEnds(flow: bool, indent: int, buf: string, q: nat, column: nat, s: string, x: string)
    requires q <= |buf| && buf[q..] == x
    requires var c := At(x, 0); IsZ(c) || (c == ':' && IsBlankz(At(x, 1))) || (flow && c in FLOW_MARKS)
    ensures EndsAt(PlainWord(flow, indent, buf, q, column, s, Gap("", "", "", false), q), s, q)
  {
    hide PlainBlanks;
    FlowReading.SameChars(buf, q, x);
    assert At(buf, q + 0) == At(x, 0) && At(buf, q + 1) == At(x, 1);
  }

  lemma ScalarEnds(flow: bool, level: int, buf: string, q: nat, column: nat, s: string, b: Behind, x: string)
    requires q <= |buf| && buf[q..] == BehindText(b) + x && EndsScalar(flow, level, b, x) && column > 0
    ensures EndsAt(PlainWord(flow, level + 1, buf, q, column, s, Gap("", "", "", false), q), s, q)
  {
    hide PlainWord, PlainBlanks, LinesText, EndValues, EndValue, LinesFit, TabsFit, FlowReading.Marker, AllBlank, EndsAt;
    match b {
      case Directly =>
        assert "" + x == x;
        DirectEnds(flow, level + 1, buf, q, column, s, x);
      case Spaced(blanks) =>
        FirstBlank(buf, q, blanks, x);
        EntersGap(flow, level + 1, buf, q, column, s, q);
        BlanksRead(flow, level + 1, buf, q, column, s, Gap("", "", "", false), q, blanks, x);
        StopsHere(flow, level + 1, buf, q + |blanks|, column + |blanks|, s, Gap("" + blanks, "", "", false), q, x);
      case Lined(before, lines) =>
        FoldReached(flow, level + 1, buf, q, column, s, q, before, lines, x);
        StopsHere(flow, level + 1, buf, q + |before + LinesText(lines)|, LastIndent(lines), s,
                  Gap("", EndValue(lines[0].end), EndValues(lines[1..]), true), q, x);
    }
  }

  /** Every plain text is read as the value of its words and gaps, up to behind its last word,
      whatever ends it. */
  lemma PlainTextReads(flow: bool, level: int, before: string, column: nat, word: string, cs: seq<Chunk>, b: Behind, x: string)
    requires level <= column && EndsScalar(flow, level, b, x)
    requires var rest := BehindText(b) + x;
      && WordFits(flow, word, ChunksText(cs) + rest) && ChunksFit(flow, level + 1, cs, rest)
      && word[0] != '#' && (column == 0 ==> !FlowReading.Marker(word + (ChunksText(cs) + rest)))
    ensures var text := word + ChunksText(cs);
      EndsAt(ScanPlainScalar(flow, level, before + (text + (BehindText(b) + x)), |before|, column), word + ChunksValue(cs), |before + text|)
  {
    hide PlainWord, EndsScalar, ChunksFit, WordFits, FlowReading.Marker, BehindText, ChunksText, ChunksValue;
    var rest := BehindText(b) + x;
    var buf := before + (word + ChunksText(cs) + rest);
    Assoc(word, ChunksText(cs), rest);
    assert buf[|before|..] == word + (ChunksText(cs) + rest);
    FirstOfWord(flow, word, ChunksText(cs) + rest);
    WordStarts(flow, level + 1, buf, |before|, column, word + (ChunksText(cs) + rest));
    WordReads(flow, level + 1, buf, |before|, column, "", Gap("", "", "", false), |before|, word, ChunksText(cs) + rest);
    assert "" + "" + word == word;
    var q := |before| + |word|;
    var column' := ChunksRead(flow, level + 1, buf, q, column + |word|, word, cs, rest);
    ScalarEnds(flow, level, buf, q + |ChunksText(cs)|, column', word + ChunksValue(cs), b, x);
  }

  lemma WordStarts(flow: bool, indent: int, buf: string, p: nat, column: nat, rest: string)
    requires p <= |buf| && buf[p..] == rest && !IsBlankz(At(rest, 0)) && At(rest, 0) != '#' && (column == 0 ==> !FlowReading.Marker(rest))
    ensures PlainStart(flow, indent, buf, p, column, "", NoGap, p) == PlainWord(flow, indent, buf, p, column, "", Gap("", "", "", false), p)
  {
    hide PlainWord;
    FlowReading.SameChars(buf, p, rest);
    assert At(buf, p + 0) == At(rest, 0) && At(buf, p + 1) == At(rest, 1);
    assert At(buf, p + 2) == At(rest, 2) && At(buf, p + 3) == At(rest, 3);
  }
}
