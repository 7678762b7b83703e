/**
  Reading quoted scalars, whoever wrote them: a text of words, white space, folded lines and
  escapes is read as the value that YAML 1.2 sections 5.7, 6.5, 7.3.1 and 7.3.2 give it.
 */
module FlowReading {
  import opened Basics
  import opened Chars
  import opened FlowScalar
  import opened LineFolding

  // ----- quoted texts -----

  /** What each single-character escape stands for. */
  const ESCAPES: map<char, int> := map[
    '0' := 0x00, 'a' := 0x07, 'b' := 0x08, 't' := 0x09, '\t' := 0x09, 'n' := 0x0A, 'v' := 0x0B, 'f' := 0x0C,
    'r' := 0x0D, 'e' := 0x1B, ' ' := 0x20, '"' := 0x22, '\'' := 0x27, '\\' := 0x5C,
    'N' := 0x85, '_' := 0xA0, 'L' := 0x2028, 'P' := 0x2029]

  /** How many hexadecimal digits follow. */
  const CODES: map<char, nat> := map['x' := 2, 'u' := 4, 'U' := 8]

  /** Is the character the digit d, in upper or lower case? */
  predicate IsDigitOf(c: char, d: nat) {
    d < 16 && (c == "0123456789abcdef"[d] || c == "0123456789ABCDEF"[d])
  }

  /** Do the digits spell v, each in either case? */
  predicate SpellsHex(digits: string, v: nat)
    decreases |digits|
  {
    if digits == "" then v == 0
    else IsDigitOf(digits[|digits| - 1], v % 16) && SpellsHex(digits[..|digits| - 1], v / 16)
  }

  datatype Piece =
    | Plainly(c: char)
    | DoubledQuote
    | Escaped(letter: char)
    | Coded(letter: char, digits: string, c: char)
    | White(blanks: string)
    | Lines(before: string, lines: seq<Fold>)
    | Continued(lines: seq<Fold>)

  predicate IsGap(p: Piece) { p.White? || p.Lines? || p.Continued? }

  /** A piece by itself. Escapes and continued lines are for double quotes only. */
  predicate PieceFits(single: bool, p: Piece) {
    match p
    case Plainly(c) => !IsBlankz(c) && (if single then c != '\'' else c != '"' && c != '\\')
    case DoubledQuote => single
    case Escaped(letter) => !single && letter in ESCAPES
    case Coded(letter, digits, c) => !single && letter in CODES && |digits| == CODES[letter] && SpellsHex(digits, c as int)
    case White(blanks) => blanks != "" && AllBlank(blanks)
    case Lines(before, lines) => AllBlank(before) && lines != [] && LinesFit(lines)
    case Continued(lines) => !single && lines != [] && LinesFit(lines)
  }

  function PieceText(p: Piece): string {
    match p
    case Plainly(c) => [c]
    case DoubledQuote => "''"
    case Escaped(letter) => ['\\', letter]
    case Coded(letter, digits, _) => ['\\', letter] + digits
    case White(blanks) => blanks
    case Lines(before, lines) => before + LinesText(lines)
    case Continued(lines) => "\\" + LinesText(lines)
  }

  /** White space before a line end is dropped, and so is an escaped line end. */
  function PieceValue(p: Piece): string {
    match p
    case Plainly(c) => [c]
    case DoubledQuote => "'"
    case Escaped(letter) => if letter in ESCAPES then [ESCAPES[letter] as char] else ""
    case Coded(_, _, c) => [c]
    case White(blanks) => blanks
    case Lines(_, lines) => if lines == [] then "" else FoldedValue(lines)
    case Continued(lines) => if lines == [] then "" else EndValues(lines[1..])
  }

  function Texts(ps: seq<Piece>): string { if ps == [] then "" else PieceText(ps[0]) + Texts(ps[1..]) }

  function Values(ps: seq<Piece>): string { if ps == [] then "" else PieceValue(ps[0]) + Values(ps[1..]) }

  /** A document marker that takes the beginning of a line. */
  predicate Marker(t: string) {
    && (|| (At(t, 0) == '-' && At(t, 1) == '-' && At(t, 2) == '-')
        || (At(t, 0) == '.' && At(t, 1) == '.' && At(t, 2) == '.'))
    && IsBlankz(At(t, 3))
  }

  /** The pieces in their places: no gap runs into another one, and no line begins with a
      document marker. `rest` is what comes behind them. */
  ghost predicate PiecesFit(single: bool, ps: seq<Piece>, rest: string) {
    && (forall i :: 0 <= i < |ps| ==> PieceFits(single, ps[i]))
    && (forall i :: 0 <= i < |ps| - 1 ==> !(IsGap(ps[i]) && (ps[i + 1].White? || ps[i + 1].Lines?)))
    && (forall i :: 0 <= i < |ps| && (ps[i].Lines? || ps[i].Continued?) && LastIndent(ps[i].lines) == 0 ==>
          !Marker(Texts(ps[i + 1..]) + rest))
  }

  // ----- hexadecimal digits -----

  lemma DigitReads(c: char, d: nat)
    requires IsDigitOf(c, d)
    ensures IsHex(c) && AsHex(c) == d
  {
    if d < 10 {
      assert "0123456789abcdef"[d] == "0123456789ABCDEF"[d] == ('0' as int + d) as char;
    } else {
      assert "0123456789abcdef"[d] == ('a' as int + (d - 10)) as char;
      assert "0123456789ABCDEF"[d] == ('A' as int + (d - 10)) as char;
    }
  }

  /** Digits in any mixture of cases. */
  lemma {:induction false} HexReads(buf: string, p: nat, digits: string, v: nat)
    requires SpellsHex(digits, v) && forall k :: 0 <= k < |digits| ==> At(buf, p + k) == digits[k]
    ensures AllHex(buf, p, |digits|) && HexValue(buf, p, |digits|) == v
    decreases |digits|
  {
    var n := |digits|;
    if n > 0 {
      HexReads(buf, p, digits[..n - 1], v / 16);
      DigitReads(digits[n - 1], v % 16);
      assert At(buf, p + (n - 1)) == digits[n - 1];
      forall k | p <= k < p + n
        ensures IsHex(At(buf, k))
      {
        assert k == p + (n - 1) || k < p + (n - 1);
      }
    }
  }

  // ----- pieces -----

  lemma WordPieceReads(single: bool, buf: string, p: nat, column: nat, s: string, x: Piece, rest: string)
    requires PieceFits(single, x) && !IsGap(x) && p <= |buf| && buf[p..] == PieceText(x) + rest
    ensures p + |PieceText(x)| <= |buf| && buf[p + |PieceText(x)|..] == rest
    ensures Word(single, buf, p, column, s)
         == Word(single, buf, p + |PieceText(x)|, column + |PieceText(x)|, s + PieceValue(x))
  {
    hide Blanks;
    if x.Coded? {
      CodedReads(buf, p, column, s, x, rest);
    } else {
      hide CodeLength;
      var t := PieceText(x);
      Advance(buf, p, t, rest);
      assert At(buf, p + 0) == t[0];
      if x.Escaped? {
        assert At(buf, p + 1) == t[1];
        EscapeIs(x.letter);
      } else if x.DoubledQuote? {
        assert At(buf, p + 1) == t[1];
      }
    }
  }

  lemma CodedReads(buf: string, p: nat, column: nat, s: string, x: Piece, rest: string)
    requires PieceFits(false, x) && x.Coded? && p <= |buf| && buf[p..] == PieceText(x) + rest
    ensures p + |PieceText(x)| <= |buf| && buf[p + |PieceText(x)|..] == rest
    ensures Word(false, buf, p, column, s)
         == Word(false, buf, p + |PieceText(x)|, column + |PieceText(x)|, s + PieceValue(x))
  {
    hide Blanks, Escape, CodeLength, BreakLen;
    var t := PieceText(x);
    Advance(buf, p, t, rest);
    assert At(buf, p + 0) == t[0] && At(buf, p + 1) == t[1];
    forall k | 0 <= k < |x.digits|
      ensures At(buf, p + 2 + k) == x.digits[k]
    {
      assert At(buf, p + (2 + k)) == t[2 + k];
    }
    HexReads(buf, p + 2, x.digits, x.c as int);
    CodeIs(x.letter);
  }

  lemma EscapeIs(letter: char)
    requires letter in ESCAPES
    ensures Escape(letter) == [ESCAPES[letter] as char] && !IsBreak(letter)
  {}

  lemma CodeIs(letter: char)
    requires letter in CODES
    ensures CodeLength(letter) == CODES[letter] && Escape(letter) == "" && !IsBreak(letter)
  {}

  lemma {:induction false} BlanksRead(single: bool, buf: string, p: nat, column: nat, s: string, g: Gap, blanks: string, rest: string)
    requires AllBlank(blanks) && p <= |buf| && buf[p..] == blanks + rest
    ensures p + |blanks| <= |buf| && buf[p + |blanks|..] == rest
    ensures Blanks(single, buf, p, column, s, g)
         == Blanks(single, buf, p + |blanks|, column + |blanks|, s, if g.leading then g else g.(blanks := g.blanks + blanks))
    decreases |blanks|
  {
    hide Start, Word;
    if blanks == "" {
      assert "" + rest == rest && g.blanks + "" == g.blanks;
    } else {
      assert blanks + rest == [blanks[0]] + (blanks[1..] + rest);
      Advance(buf, p, [blanks[0]], blanks[1..] + rest);
      assert At(buf, p + 0) == blanks[0];
      BlanksStep(single, buf, p, column, s, g);
      assert g.blanks + [blanks[0]] + blanks[1..] == g.blanks + blanks;
      BlanksRead(single, buf, p + 1, column + 1, s, AddBlank(g, blanks[0]), blanks[1..], rest);
    }
  }

  /** Lines behind a line end. */
  lemma {:induction false} LinesRead(single: bool, buf: string, p: nat, column: nat, s: string, g: Gap, lines: seq<Fold>, rest: string)
    requires LinesFit(lines) && At(rest, 0) != '\n' && g.leading && p <= |buf| && buf[p..] == LinesText(lines) + rest
    ensures p + |LinesText(lines)| <= |buf| && buf[p + |LinesText(lines)|..] == rest
    ensures Blanks(single, buf, p, column, s, g)
         == Blanks(single, buf, p + |LinesText(lines)|, if lines == [] then column else LastIndent(lines), s,
                   g.(rest := g.rest + EndValues(lines)))
    decreases |lines|
  {
    hide Blanks;
    if lines == [] {
      assert "" + rest == rest && g.rest + "" == g.rest;
    } else {
      var e, indent := lines[0].end, lines[0].indent;
      var more := LinesText(lines[1..]) + rest;
      assert LinesText(lines) + rest == EndText(e) + (indent + more);
      LineReads(single, buf, p, column, s, g, lines, rest);
      var h := g.(rest := g.rest + EndValue(e));
      var q := p + |EndText(e)| + |indent|;
      LinesRead(single, buf, q, |indent|, s, h, lines[1..], rest);
      Assoc(g.rest, EndValue(e), EndValues(lines[1..]));
      if |lines| > 1 {
        assert lines[1..][|lines| - 2] == lines[|lines| - 1];
      }
    }
  }

  /** One line end and the white space behind it. */
  lemma LineReads(single: bool, buf: string, p: nat, column: nat, s: string, g: Gap, lines: seq<Fold>, rest: string)
    requires LinesFit(lines) && lines != [] && At(rest, 0) != '\n' && p <= |buf| && buf[p..] == LinesText(lines) + rest
    ensures var e, indent := lines[0].end, lines[0].indent;
      var q := p + |EndText(e)| + |indent|;
      var h := if g.leading then g.(rest := g.rest + EndValue(e)) else g.(blanks := "", first := g.first + EndValue(e), leading := true);
      && LinesFit(lines[1..]) && q <= |buf| && buf[q..] == LinesText(lines[1..]) + rest
      && Blanks(single, buf, p, column, s, g) == Blanks(single, buf, q, |indent|, s, h)
  {
    hide Blanks, LinesText, LinesFit, EndText, EndValue, BreakText, AllBlank, BreakLen;
    var e, indent := lines[0].end, lines[0].indent;
    LineParts(lines, rest);
    EndReads(buf, p, e, indent + (LinesText(lines[1..]) + rest));
    BlanksStep(single, buf, p, column, s, g);
    var h := AddBreak(g, At(buf, p));
    BlanksRead(single, buf, p + |EndText(e)|, 0, s, h, indent, LinesText(lines[1..]) + rest);
  }

  lemma LineParts(lines: seq<Fold>, rest: string)
    requires LinesFit(lines) && lines != [] && At(rest, 0) != '\n'
    ensures var e, indent, more := lines[0].end, lines[0].indent, LinesText(lines[1..]) + rest;
      && LinesText(lines) + rest == EndText(e) + (indent + more) && (e.CarriageReturn? ==> At(indent + more, 0) != '\n')
      && AllBlank(indent) && LinesFit(lines[1..])
  {
    var e, indent := lines[0].end, lines[0].indent;
    Assoc(indent, LinesText(lines[1..]), rest);
    Assoc(EndText(e), indent + LinesText(lines[1..]), rest);
    if e.CarriageReturn? {
      NoFeed(lines, rest);
    }
    assert forall i :: 0 <= i < |lines[1..]| ==> lines[1..][i] == lines[i + 1];
  }

  lemma SameChars(buf: string, q: nat, rest: string)
    requires q <= |buf| && buf[q..] == rest
    ensures forall k: nat :: At(buf, q + k) == At(rest, k)
  {
    forall k: nat
      ensures At(buf, q + k) == At(rest, k)
    {
      if k < |rest| {
        assert buf[q..][k] == buf[q + k];
      }
    }
  }

  /** The next word begins where no line begins with a marker. */
  lemma WordStarts(single: bool, buf: string, q: nat, column: nat, s: string, rest: string)
    requires q <= |buf| && buf[q..] == rest && !IsBlankz(At(rest, 0)) && (column == 0 ==> !Marker(rest))
    ensures Start(single, buf, q, column, s) == Word(single, buf, q, column, s)
    ensures !IsBlank(At(buf, q)) && !IsBreak(At(buf, q))
  {
    hide Word;
    SameChars(buf, q, rest);
    assert At(buf, q + 0) == At(rest, 0) && At(buf, q + 1) == At(rest, 1);
    assert At(buf, q + 2) == At(rest, 2) && At(buf, q + 3) == At(rest, 3);
  }

  /** A gap in front of a word. */
  lemma GapEnds(single: bool, buf: string, q: nat, column: nat, s: string, g: Gap, rest: string)
    requires q <= |buf| && buf[q..] == rest && !IsBlankz(At(rest, 0)) && (column == 0 ==> !Marker(rest))
    ensures Blanks(single, buf, q, column, s, g) == Word(single, buf, q, column, s + Join(g))
  {
    hide Word, Blanks, Start, Marker;
    WordStarts(single, buf, q, column, s + Join(g), rest);
    BlanksStep(single, buf, q, column, s, g);
  }

  lemma EntersGap(single: bool, buf: string, p: nat, column: nat, s: string)
    requires p <= |buf| && (IsBlank(At(buf, p)) || IsBreak(At(buf, p)))
    ensures Word(single, buf, p, column, s) == Blanks(single, buf, p, column, s, Gap("", "", "", false))
  {
    hide Blanks;
  }

  lemma WhiteReads(single: bool, buf: string, p: nat, column: nat, s: string, blanks: string, rest: string)
    requires blanks != "" && AllBlank(blanks) && p <= |buf| && buf[p..] == blanks + rest && !IsBlankz(At(rest, 0))
    ensures p + |blanks| <= |buf| && buf[p + |blanks|..] == rest
    ensures Word(single, buf, p, column, s) == Word(single, buf, p + |blanks|, column + |blanks|, s + blanks)
  {
    hide Word, Blanks, Start, Marker;
    assert At(buf, p) == buf[p..][0] == blanks[0];
    EntersGap(single, buf, p, column, s);
    BlanksRead(single, buf, p, column, s, Gap("", "", "", false), blanks, rest);
    assert "" + blanks == blanks;
    GapEnds(single, buf, p + |blanks|, column + |blanks|, s, Gap(blanks, "", "", false), rest);
  }

  lemma JoinedIs(lines: seq<Fold>)
    requires lines != []
    ensures Join(Gap("", EndValue(lines[0].end), EndValues(lines[1..]), true)) == FoldedValue(lines)
    ensures Join(Gap("", "", EndValues(lines[1..]), true)) == EndValues(lines[1..])
  {
    EndValuesAreNone(lines[1..]);
    EndIsOne(lines[0].end);
    assert EndValues(lines) == EndValue(lines[0].end) + EndValues(lines[1..]);
    hide EndValue, EndValues;
    assert "" + EndValues(lines[1..]) == EndValues(lines[1..]);
  }

  lemma EndIsOne(e: LineEnd)
    ensures |EndValue(e)| == 1
  {}

  /** A line end, not the first thing in the gap, and all lines behind it. */
  lemma AllLinesRead(single: bool, buf: string, p: nat, column: nat, s: string, g: Gap, lines: seq<Fold>, rest: string)
    requires !g.leading && g.first == g.rest == "" && lines != [] && LinesFit(lines) && At(rest, 0) != '\n'
    requires p <= |buf| && buf[p..] == LinesText(lines) + rest
    ensures var q := p + |LinesText(lines)|;
      && q <= |buf| && buf[q..] == rest
      && Blanks(single, buf, p, column, s, g)
         == Blanks(single, buf, q, LastIndent(lines), s, Gap("", EndValue(lines[0].end), EndValues(lines[1..]), true))
  {
    hide Blanks, LinesText, EndText, EndValue, EndValues, LinesFit;
    LineReads(single, buf, p, column, s, g, lines, rest);
    var e, indent := lines[0].end, lines[0].indent;
    assert "" + EndValue(e) == EndValue(e) && "" + EndValues(lines[1..]) == EndValues(lines[1..]);
    LinesRead(single, buf, p + |EndText(e)| + |indent|, |indent|, s, Gap("", EndValue(e), "", true), lines[1..], rest);
    LastOf(lines);
  }

  /** All of a fold is collected. */
  lemma FoldReached(single: bool, buf: string, p: nat, column: nat, s: string, before: string, lines: seq<Fold>, rest: string)
    requires AllBlank(before) && lines != [] && LinesFit(lines)
    requires p <= |buf| && buf[p..] == before + LinesText(lines) + rest && At(rest, 0) != '\n'
    ensures var q := p + |before + LinesText(lines)|;
      && q <= |buf| && buf[q..] == rest
      && Word(single, buf, p, column, s)
         == Blanks(single, buf, q, LastIndent(lines), s, Gap("", EndValue(lines[0].end), EndValues(lines[1..]), true))
  {
    hide *;
    Assoc(before, LinesText(lines), rest);
    FirstIsBreak(buf, p, before, lines, rest);
    EntersGap(single, buf, p, column, s);
    BlanksRead(single, buf, p, column, s, Gap("", "", "", false), before, LinesText(lines) + rest);
    AllLinesRead(single, buf, p + |before|, column + |before|, s, Gap("" + before, "", "", false), lines, rest);
  }

  lemma FoldedReads(single: bool, buf: string, p: nat, column: nat, s: string, before: string, lines: seq<Fold>, rest: string)
    requires AllBlank(before) && lines != [] && LinesFit(lines)
    requires p <= |buf| && buf[p..] == before + LinesText(lines) + rest && !IsBlankz(At(rest, 0))
    requires LastIndent(lines) == 0 ==> !Marker(rest)
    ensures var q := p + |before + LinesText(lines)|;
      && q <= |buf| && buf[q..] == rest
      && Word(single, buf, p, column, s) == Word(single, buf, q, LastIndent(lines), s + FoldedValue(lines))
  {
    hide *;
    NotFeed(rest);
    FoldReached(single, buf, p, column, s, before, lines, rest);
    JoinedIs(lines);
    GapEnds(single, buf, p + |before + LinesText(lines)|, LastIndent(lines), s,
            Gap("", EndValue(lines[0].end), EndValues(lines[1..]), true), rest);
  }

  lemma NothingBefore(s: string)
    ensures "" + s == s
  {}

  lemma NotFeed(rest: string)
    requires !IsBlankz(At(rest, 0))
    ensures At(rest, 0) != '\n'
  {}

  lemma LastOf(lines: seq<Fold>)
    requires lines != []
    ensures LastIndent(lines) == if lines[1..] == [] then |lines[0].indent| else LastIndent(lines[1..])
    ensures |LinesText(lines)| == |EndText(lines[0].end)| + |lines[0].indent| + |LinesText(lines[1..])|
  {}

  lemma FirstIsBreak(buf: string, p: nat, before: string, lines: seq<Fold>, rest: string)
    requires AllBlank(before) && lines != [] && p <= |buf| && buf[p..] == before + (LinesText(lines) + rest)
    ensures IsBlank(At(buf, p)) || IsBreak(At(buf, p))
  {
    assert At(buf, p) == buf[p..][0];
    if before == "" {
      assert buf[p..] == LinesText(lines) + rest;
      assert LinesText(lines)[0] == EndText(lines[0].end)[0];
    }
  }

  lemma ContinuedReads(buf: string, p: nat, column: nat, s: string, lines: seq<Fold>, rest: string)
    requires lines != [] && LinesFit(lines)
    requires p <= |buf| && buf[p..] == "\\" + LinesText(lines) + rest && !IsBlankz(At(rest, 0))
    requires LastIndent(lines) == 0 ==> !Marker(rest)
    ensures var q := p + 1 + |LinesText(lines)|;
      && q <= |buf| && buf[q..] == rest
      && Word(false, buf, p, column, s) == Word(false, buf, q, LastIndent(lines), s + EndValues(lines[1..]))
  {
    hide *;
    Assoc("\\", LinesText(lines), rest);
    FirstOf(buf, p, '\\', LinesText(lines) + rest);
    ContinuedLine(buf, p + 1, lines, rest);
    var r := p + 1 + |EndText(lines[0].end)|;
    LastOf(lines);
    ContinuedStep(buf, p, column, s);
    if At(buf, r) == '"' {
      OnlyBreak(buf, r, s, lines, rest);
      QuoteStep(buf, r, s);
    } else {
      BehindContinued(buf, r, s, lines, rest);
    }
  }

  lemma FirstOf(buf: string, p: nat, c: char, rest: string)
    requires p <= |buf| && buf[p..] == [c] + rest
    ensures p + 1 <= |buf| && At(buf, p) == c && buf[p + 1..] == rest
  {
    Advance(buf, p, [c], rest);
    assert At(buf, p + 0) == [c][0];
  }

  lemma ContinuedStep(buf: string, p: nat, column: nat, s: string)
    requires p <= |buf| && At(buf, p) == '\\' && IsBreak(At(buf, p + 1))
    ensures var q := p + 1 + BreakLen(buf, p + 1);
      && q <= |buf|
      && Word(false, buf, p, column, s) ==
           if At(buf, q) == '"' then Done(s, q + 1, 1) else Blanks(false, buf, q, 0, s, Gap("", "", "", true))
  {
    hide Blanks, BreakLen, Escape, CodeLength, AllHex, HexValue;
  }

  lemma QuoteStep(buf: string, p: nat, s: string)
    requires p <= |buf| && At(buf, p) == '"'
    ensures Word(false, buf, p, 0, s) == Done(s, p + 1, 1)
  {
    hide Blanks, BreakLen, Escape, CodeLength, AllHex, HexValue;
  }

  lemma BehindContinued(buf: string, r: nat, s: string, lines: seq<Fold>, rest: string)
    requires lines != [] && AllBlank(lines[0].indent) && LinesFit(lines[1..]) && !IsBlankz(At(rest, 0))
    requires r <= |buf| && buf[r..] == lines[0].indent + (LinesText(lines[1..]) + rest)
    requires LastIndent(lines) == 0 ==> !Marker(rest)
    ensures var q := r + |lines[0].indent| + |LinesText(lines[1..])|;
      && q <= |buf| && buf[q..] == rest
      && Blanks(false, buf, r, 0, s, Gap("", "", "", true)) == Word(false, buf, q, LastIndent(lines), s + EndValues(lines[1..]))
  {
    hide *;
    var g := Gap("", "", "", true);
    var indent := lines[0].indent;
    NotFeed(rest);
    BlanksRead(false, buf, r, 0, s, g, indent, LinesText(lines[1..]) + rest);
    LinesRead(false, buf, r + |indent|, |indent|, s, g, lines[1..], rest);
    NothingBefore(EndValues(lines[1..]));
    LastOf(lines);
    JoinedIs(lines);
    GapEnds(false, buf, r + |indent| + |LinesText(lines[1..])|, LastIndent(lines), s, Gap("", "", EndValues(lines[1..]), true), rest);
  }

  /** The line end behind the backslash. */
  lemma ContinuedLine(buf: string, p: nat, lines: seq<Fold>, rest: string)
    requires lines != [] && LinesFit(lines) && !IsBlankz(At(rest, 0))
    requires p <= |buf| && buf[p..] == LinesText(lines) + rest
    ensures var e, indent := lines[0].end, lines[0].indent;
      var r := p + |EndText(e)|;
      && IsBreak(At(buf, p)) && BreakLen(buf, p) == |EndText(e)| && r <= |buf|
      && buf[r..] == indent + (LinesText(lines[1..]) + rest) && AllBlank(indent) && LinesFit(lines[1..])
  {
    LineParts(lines, rest);
    EndReads(buf, p, lines[0].end, lines[0].indent + (LinesText(lines[1..]) + rest));
  }

  /** A quote directly behind an escaped line end. */
  lemma OnlyBreak(buf: string, r: nat, s: string, lines: seq<Fold>, rest: string)
    requires lines != [] && LinesFit(lines) && r <= |buf| && buf[r..] == lines[0].indent + (LinesText(lines[1..]) + rest)
    requires At(buf, r) == '"'
    ensures lines[0].indent == "" && lines[1..] == [] && buf[r..] == rest && LastIndent(lines) == 0
    ensures LinesText(lines[1..]) == EndValues(lines[1..]) == "" && s + "" == s
  {
    LineHead(lines, rest);
    assert At(buf, r) == buf[r..][0];
    assert lines[0].indent == "" && lines[1..] == [] ==> lines[0].indent + (LinesText(lines[1..]) + rest) == rest;
  }

  lemma LineHead(lines: seq<Fold>, rest: string)
    requires lines != [] && LinesFit(lines)
    ensures var c := At(lines[0].indent + (LinesText(lines[1..]) + rest), 0);
      if lines[0].indent != "" then IsBlank(c) else lines[1..] != [] ==> IsBreak(c)
  {
    var indent, more := lines[0].indent, lines[1..];
    if indent == "" {
      assert indent + (LinesText(more) + rest) == LinesText(more) + rest;
      if more != [] {
        assert LinesText(more)[0] == EndText(more[0].end)[0];
      }
    }
  }

  // ----- the whole scalar -----

  predicate ReadsAs(r: Scan, value: string, next: nat) {
    r.Done? && r.value == value && r.next == next
  }

  function Quote(single: bool): string { if single then "'" else "\"" }

  /** A gap at the end has something behind it. */
  predicate GapsEnd(ps: seq<Piece>, rest: string) {
    ps != [] && IsGap(ps[|ps| - 1]) ==> !IsBlankz(At(rest, 0))
  }

  /** What comes next is no white space. */
  lemma NextPiece(single: bool, ps: seq<Piece>, rest: string)
    requires PiecesFit(single, ps, rest) && ps != [] && IsGap(ps[0]) && GapsEnd(ps, rest)
    ensures !IsBlankz(At(Texts(ps[1..]) + rest, 0))
    ensures (ps[0].Lines? || ps[0].Continued?) && LastIndent(ps[0].lines) == 0 ==> !Marker(Texts(ps[1..]) + rest)
  {
    var t := Texts(ps[1..]);
    if |ps| > 1 {
      assert ps[1..][0] == ps[1];
      assert t[0] == PieceText(ps[1])[0];
    } else {
      assert t + rest == rest;
    }
    assert ps[0 + 1..] == ps[1..];
  }

  lemma FitTail(single: bool, ps: seq<Piece>, rest: string)
    requires PiecesFit(single, ps, rest) && ps != []
    ensures PieceFits(single, ps[0]) && PiecesFit(single, ps[1..], rest)
    ensures GapsEnd(ps, rest) ==> GapsEnd(ps[1..], rest)
  {
    var t := ps[1..];
    assert forall i :: 0 <= i < |t| ==> t[i] == ps[i + 1] && t[i + 1..] == ps[i + 2..];
  }

  lemma TextsStep(s: string, ps: seq<Piece>, rest: string)
    ensures ps == [] ==> Texts(ps) + rest == rest && s + Values(ps) == s
    ensures ps != [] ==> Texts(ps) + rest == PieceText(ps[0]) + (Texts(ps[1..]) + rest)
    ensures ps != [] ==> s + Values(ps) == s + PieceValue(ps[0]) + Values(ps[1..])
  {
    hide PieceText, PieceValue;
    if ps == [] {
      assert "" + rest == rest && s + "" == s;
    } else {
      Assoc(PieceText(ps[0]), Texts(ps[1..]), rest);
      Assoc(s, PieceValue(ps[0]), Values(ps[1..]));
    }
  }

  lemma {:induction false} PiecesRead(single: bool, buf: string, p: nat, column: nat, s: string, ps: seq<Piece>, rest: string)
    returns (column': nat)
    requires PiecesFit(single, ps, rest) && GapsEnd(ps, rest)
    requires p <= |buf| && buf[p..] == Texts(ps) + rest
    ensures var q := |buf| - |rest|;
      && 0 <= q <= |buf| && buf[q..] == rest
      && Word(single, buf, p, column, s) == Word(single, buf, q, column', s + Values(ps))
    decreases |ps|
  {
    hide *;
    TextsStep(s, ps, rest);
    column' := column;
    if ps != [] {
      var x := ps[0];
      FitTail(single, ps, rest);
      var more := Texts(ps[1..]) + rest;
      var column1 := column + |PieceText(x)|;
      if IsGap(x) {
        NextPiece(single, ps, rest);
        column1 := GapReads(single, buf, p, column, s, x, more);
      } else {
        WordPieceReads(single, buf, p, column, s, x, more);
      }
      column' := PiecesRead(single, buf, p + |PieceText(x)|, column1, s + PieceValue(x), ps[1..], rest);
    }
  }

  lemma GapReads(single: bool, buf: string, p: nat, column: nat, s: string, x: Piece, rest: string) returns (column': nat)
    requires PieceFits(single, x) && IsGap(x) && p <= |buf| && buf[p..] == PieceText(x) + rest && !IsBlankz(At(rest, 0))
    requires (x.Lines? || x.Continued?) && LastIndent(x.lines) == 0 ==> !Marker(rest)
    ensures p + |PieceText(x)| <= |buf| && buf[p + |PieceText(x)|..] == rest
    ensures Word(single, buf, p, column, s) == Word(single, buf, p + |PieceText(x)|, column', s + PieceValue(x))
  {
    hide Word, Blanks, Marker, LinesText, FoldedValue, EndValues, LinesFit, AllBlank, LastIndent, IsBlankz, Texts, Values;
    match x {
      case White(blanks) =>
        WhiteReads(single, buf, p, column, s, blanks, rest);
        column' := column + |blanks|;
      case Lines(before, lines) =>
        FoldedReads(single, buf, p, column, s, before, lines, rest);
        column' := LastIndent(lines);
      case Continued(lines) =>
        ContinuedReads(buf, p, column, s, lines, rest);
        column' := LastIndent(lines);
    }
  }

  lemma ClosingQuote(single: bool, buf: string, p: nat, column: nat, s: string, rest: string)
    requires p <= |buf| && buf[p..] == Quote(single) + rest && (single ==> At(rest, 0) != '\'')
    ensures ReadsAs(Word(single, buf, p, column, s), s, |buf| - |rest|)
  {
    hide Blanks, BreakLen, Escape, CodeLength, AllHex, HexValue;
    Advance(buf, p, Quote(single), rest);
    assert At(buf, p + 0) == Quote(single)[0];
  }

  /** The first character behind the opening quote, and the head of the outer loop there. */
  lemma Opened(single: bool, ps: seq<Piece>, before: string, column: nat, rest: string)
    requires PiecesFit(single, ps, rest) && (ps == [] ==> At(rest, 0) != '\0')
    ensures var buf := before + (Quote(single) + Texts(ps) + rest);
      && |before| < |buf| && buf[|before| + 1..] == Texts(ps) + rest
      && ScanFlowScalar(single, buf, |before|, column) == Word(single, buf, |before| + 1, column + 1, "")
  {
    hide Word, PiecesFit, Texts;
    var buf := before + (Quote(single) + Texts(ps) + rest);
    assert buf[|before| + 1..] == Texts(ps) + rest;
    NotZero(single, ps, rest);
    SameChars(buf, |before| + 1, Texts(ps) + rest);
    assert At(buf, |before| + 1 + 0) == At(Texts(ps) + rest, 0);
  }

  lemma NotZero(single: bool, ps: seq<Piece>, rest: string)
    requires PiecesFit(single, ps, rest) && (ps == [] ==> At(rest, 0) != '\0')
    ensures !IsZ(At(Texts(ps) + rest, 0))
  {
    hide PieceText, PieceFits;
    if ps != [] {
      PieceIsSomething(single, ps[0]);
      assert (Texts(ps) + rest)[0] == PieceText(ps[0])[0];
    } else {
      assert "" + rest == rest;
    }
  }

  lemma PieceIsSomething(single: bool, x: Piece)
    requires PieceFits(single, x)
    ensures PieceText(x) != "" && !IsZ(PieceText(x)[0])
  {
    if x.Lines? {
      assert LinesText(x.lines)[0] == EndText(x.lines[0].end)[0];
    }
  }

  /** Every quoted text is read as the value of its pieces, up to behind its closing quote. */
  lemma QuotedTextReads(single: bool, ps: seq<Piece>, before: string, column: nat, rest: string)
    requires PiecesFit(single, ps, Quote(single) + rest) && (single ==> At(rest, 0) != '\'')
    ensures var q := Quote(single);
      var buf := before + (q + Texts(ps) + (q + rest));
      |before| < |buf| && ReadsAs(ScanFlowScalar(single, buf, |before|, column), Values(ps), |before + q + Texts(ps) + q|)
  {
    hide Word, PiecesFit, Texts, Values, ScanFlowScalar;
    var q := Quote(single);
    var buf := before + (q + Texts(ps) + (q + rest));
    Opened(single, ps, before, column, q + rest);
    var column' := PiecesRead(single, buf, |before| + 1, column + 1, "", ps, q + rest);
    assert "" + Values(ps) == Values(ps);
    ClosingQuote(single, buf, |buf| - |q + rest|, column', Values(ps), rest);
  }

  // ----- what is refused -----

  datatype Flaw = UnknownLetter | NoDigit(k: nat) | NoCharacter(digits: string, v: nat) | NeverClosed

  /** Does the rest of a text begin with the flaw? */
  predicate BeginsWith(single: bool, flaw: Flaw, rest: string) {
    if flaw.NeverClosed? then At(rest, 0) == '\0'
    else
      var letter := At(rest, 1);
      && !single && At(rest, 0) == '\\' && !IsBreak(letter) && letter !in ESCAPES
      && match flaw
         case UnknownLetter => letter !in CODES
         case NoDigit(k) => letter in CODES && k < CODES[letter] && !IsHexDigit(At(rest, 2 + k))
         case NoCharacter(digits, v) =>
           && letter in CODES && |digits| == CODES[letter] && SpellsHex(digits, v)
           && (forall k :: 0 <= k < |digits| ==> At(rest, 2 + k) == digits[k])
           && (0xD800 <= v <= 0xDFFF || 0x10FFFF < v)
         case NeverClosed => true
  }

  predicate IsHexDigit(c: char) { exists d | 0 <= d < 16 :: IsDigitOf(c, d) }

  function FlawError(flaw: Flaw): ScanError {
    match flaw
    case UnknownLetter => UnknownEscape
    case NoDigit(_) => NotHexadecimal
    case NoCharacter(_, _) => InvalidCodePoint
    case NeverClosed => UnexpectedEndOfStream
  }

  lemma HexDigits(c: char)
    ensures IsHexDigit(c) <==> IsHex(c)
  {
    if IsHex(c) {
      var d := AsHex(c);
      assert "0123456789abcdef"[d] == (if d < 10 then '0' as int + d else 'a' as int + (d - 10)) as char;
      assert "0123456789ABCDEF"[d] == (if d < 10 then '0' as int + d else 'A' as int + (d - 10)) as char;
      assert IsDigitOf(c, d);
    }
  }

  lemma FlawFails(single: bool, buf: string, p: nat, column: nat, s: string, flaw: Flaw, rest: string)
    requires p <= |buf| && buf[p..] == rest && BeginsWith(single, flaw, rest)
    ensures Word(single, buf, p, column, s) == Fail(FlawError(flaw))
  {
    hide BreakLen;
    SameChars(buf, p, rest);
    assert At(buf, p + 0) == At(rest, 0) && At(buf, p + 1) == At(rest, 1);
    match flaw {
      case NeverClosed => EndFails(single, buf, p, column, s);
      case UnknownLetter => NoEscape(At(rest, 1));
      case NoDigit(k) =>
        CodeIs(At(rest, 1));
        assert At(buf, p + (2 + k)) == At(rest, 2 + k);
        HexDigits(At(rest, 2 + k));
      case NoCharacter(digits, v) =>
        CodeIs(At(rest, 1));
        forall k | 0 <= k < |digits|
          ensures At(buf, p + 2 + k) == digits[k]
        {
          assert At(buf, p + (2 + k)) == At(rest, 2 + k);
        }
        HexReads(buf, p + 2, digits, v);
    }
  }

  lemma NoEscape(letter: char)
    requires letter !in ESCAPES && letter !in CODES
    ensures Escape(letter) == "" && CodeLength(letter) == 0
  {}

  lemma EndFails(single: bool, buf: string, p: nat, column: nat, s: string)
    requires p <= |buf| && At(buf, p) == '\0'
    ensures Word(single, buf, p, column, s) == Fail(UnexpectedEndOfStream)
  {
    BlanksStep(single, buf, p, column, s, NoGap);
  }

  /** A text whose pieces run into a flaw is refused with the flaw's error. */
  lemma FlawedTextFails(single: bool, ps: seq<Piece>, before: string, column: nat, flaw: Flaw, rest: string)
    requires PiecesFit(single, ps, rest) && GapsEnd(ps, rest) && BeginsWith(single, flaw, rest)
    ensures var buf := before + (Quote(single) + Texts(ps) + rest);
      |before| < |buf| && ScanFlowScalar(single, buf, |before|, column) == Fail(FlawError(flaw))
  {
    hide Word, PiecesFit, Texts, Values, BeginsWith;
    var buf := before + (Quote(single) + Texts(ps) + rest);
    if ps == [] && At(rest, 0) == '\0' {
      OnlyNeverClosed(single, flaw, rest);
      assert buf[|before| + 1..] == rest by { NoTexts(rest); }
      SameChars(buf, |before| + 1, rest);
      assert At(buf, |before| + 1 + 0) == At(rest, 0);
    } else {
      Opened(single, ps, before, column, rest);
      var column' := PiecesRead(single, buf, |before| + 1, column + 1, "", ps, rest);
      FlawFails(single, buf, |buf| - |rest|, column', "" + Values(ps), flaw, rest);
    }
  }

  lemma NoTexts(rest: string)
    ensures Texts([]) == "" && Texts([]) + rest == rest
  {}

  lemma OnlyNeverClosed(single: bool, flaw: Flaw, rest: string)
    requires BeginsWith(single, flaw, rest) && At(rest, 0) == '\0'
    ensures flaw.NeverClosed?
  {}

  predicate NoGapAtEnd(ps: seq<Piece>) { ps != [] ==> !IsGap(ps[|ps| - 1]) }

  lemma NoGapEnds(ps: seq<Piece>, rest: string)
    requires NoGapAtEnd(ps)
    ensures GapsEnd(ps, rest)
  {}

  /** A document marker at the beginning of a line inside a quoted text is an error. */
  lemma MarkedTextFails(single: bool, ps: seq<Piece>, before: string, column: nat, white: string, lines: seq<Fold>, rest: string)
    requires PiecesFit(single, ps, white + LinesText(lines) + rest) && NoGapAtEnd(ps)
    requires AllBlank(white) && lines != [] && LinesFit(lines) && LastIndent(lines) == 0 && Marker(rest)
    ensures var buf := before + (Quote(single) + Texts(ps) + (white + LinesText(lines) + rest));
      |before| < |buf| && ScanFlowScalar(single, buf, |before|, column) == Fail(UnexpectedDocumentIndicator)
  {
    hide *;
    var tail := white + LinesText(lines) + rest;
    var buf := before + (Quote(single) + Texts(ps) + tail);
    FoldIsSomething(white, lines, rest);
    NoGapEnds(ps, tail);
    Opened(single, ps, before, column, tail);
    var column' := PiecesRead(single, buf, |before| + 1, column + 1, "", ps, tail);
    FoldReached(single, buf, |buf| - |tail|, column', "" + Values(ps), white, lines, rest);
    MarkerStops(single, buf, |buf| - |rest|, "" + Values(ps), Gap("", EndValue(lines[0].end), EndValues(lines[1..]), true), rest);
  }

  lemma FoldIsSomething(white: string, lines: seq<Fold>, rest: string)
    requires AllBlank(white) && lines != [] && Marker(rest)
    ensures At(white + LinesText(lines) + rest, 0) != '\0' && At(rest, 0) != '\n'
  {
    if white == "" {
      assert white + LinesText(lines) == LinesText(lines);
      assert LinesText(lines)[0] == EndText(lines[0].end)[0];
    }
  }

  lemma MarkerStops(single: bool, buf: string, q: nat, s: string, g: Gap, rest: string)
    requires q <= |buf| && buf[q..] == rest && Marker(rest)
    ensures Blanks(single, buf, q, 0, s, g) == Fail(UnexpectedDocumentIndicator)
  {
    hide Word;
    SameChars(buf, q, rest);
    assert At(buf, q + 0) == At(rest, 0) && At(buf, q + 1) == At(rest, 1);
    assert At(buf, q + 2) == At(rest, 2) && At(buf, q + 3) == At(rest, 3);
    BlanksStep(single, buf, q, 0, s, g);
  }
}
