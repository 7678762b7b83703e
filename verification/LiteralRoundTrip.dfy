/**
  The literal writer and the block scalar scanner are inverse on the values that the
  analysis lets through, provided the first character is not a line break, and the hint
  names the true indentation if the first character is a space: otherwise the indentation is
  detected. The chomping hint accounts for the trailing breaks. Module LiteralLimits shows
  that the round trip fails without these conditions.
 */
module LiteralRoundTrip {
  import opened Basics
  import opened Chars
  import opened ScalarText
  import opened ScalarAnalysis
  import opened FlowScalar
  import opened BlockScalar

  predicate LiteralValue(unicode: bool, value: string) {
    BlockAllowed(unicode, value) && !IsBreak(value[0])
  }

  /** The indentation that the header names, 0 if it names none. */
  function Increment(cfg: Settings, value: string): nat
    requires 2 <= cfg.bestIndent <= 9
  {
    if value != "" && (IsSpace(value[0]) || IsBreak(value[0])) then cfg.bestIndent else 0
  }

  /** The hint is the best indent, whatever the indentation is in the end. */
  predicate HintFits(level: int, cfg: Settings, value: string)
    requires 2 <= cfg.bestIndent <= 9
  {
    value != "" && IsSpace(value[0]) ==> cfg.indent == IndentFrom(level, cfg.bestIndent)
  }

  /** A line indented less than `margin`, or the end of the input. */
  ghost predicate Dedent(margin: int, rest: string) {
    exists n: nat, x: string ::
      n < margin && rest == Spaces(n) + x && !IsBlank(At(x, 0)) && !IsBreak(At(x, 0))
  }

  /** What may follow: the end, or a shallower line, after a line break if the value does
      not end with one itself. */
  ghost predicate LiteralFollows(cfg: Settings, value: string, rest: string)
    requires value != ""
  {
    || rest == ""
    || (IsBreak(value[|value| - 1]) && Dedent(cfg.indent, rest))
    || (!IsBreak(value[|value| - 1])
        && exists tail: string :: rest == BreakOf(cfg.lineBreak) + tail && Dedent(cfg.indent, tail))
  }

  predicate BlockReads(r: BlockScan, value: string) {
    r.BlockDone? && r.value == value
  }

  predicate BlockReadsTo(r: BlockScan, value: string, end: int) {
    BlockReads(r, value) && r.end == end
  }

  /** How many characters of the value there are up to its last one that is not a break. */
  function ContentEnd(value: string): (n: nat)
    ensures n <= |value|
  {
    if value != "" && IsBreak(value[|value| - 1]) then ContentEnd(value[..|value| - 1]) else |value|
  }

  /** Breaks as they are written in a block scalar. */
  function RunText(cfg: Settings, breaks: string): string {
    if breaks == "" then "" else RunText(cfg, breaks[..|breaks| - 1]) + BreakRun(cfg, breaks[|breaks| - 1], true)
  }

  /** The text of the breaks at the end of the value. */
  function TrailText(cfg: Settings, value: string): string {
    RunText(cfg, value[ContentEnd(value)..])
  }

  /** One more break at the end. */
  lemma OneMoreBreak(cfg: Settings, value: string, i: nat)
    requires i < |value| && IsBreak(value[i])
    ensures |TrailText(cfg, value[..i + 1])| == |TrailText(cfg, value[..i])| + |BreakRun(cfg, value[i], true)|
  {
    var t := value[..i + 1];
    assert t[..i] == value[..i];
    var k := ContentEnd(value[..i]);
    assert ContentEnd(t) == k;
    assert t[k..][..|t[k..]| - 1] == value[..i][k..];
    assert t[k..][|t[k..]| - 1] == value[i];
  }

  lemma NoBreakAtEnd(cfg: Settings, value: string, i: nat)
    requires 0 < i <= |value| && !IsBreak(value[i - 1])
    ensures TrailText(cfg, value[..i]) == ""
  {
    assert value[..i][i - 1] == value[i - 1];
    assert value[..i][i..] == "";
  }

  lemma LitNeighbours(unicode: bool, value: string, i: nat)
    requires BlockAllowed(unicode, value) && i < |value|
    ensures !IsZ(value[i]) && (IsBreak(value[i]) ==> value[i] == '\n' || value[i] == LS || value[i] == PS)
  {
    assert !SpecialAt(unicode, value, i);
  }

  // ----- reading what lies around the lines -----

  lemma BreaksAtSpace(k: Block, p: nat, column: nat, indent: int, s: string, first: string, trail: string,
                      deepest: nat, blank: bool, end: nat)
    requires end <= p <= |k.buf| && IsSpace(At(k.buf, p)) && (indent == 0 || column < indent)
    ensures Breaks(k, p, column, indent, s, first, trail, deepest, blank, end)
         == Breaks(k, p + 1, column + 1, indent, s, first, trail, deepest, blank, end)
  {
    hide Head;
  }

  /** Indentation is skipped up to the level of the scalar, or, while that is unknown, up
      to the first character that is not a space. */
  lemma {:induction false} SkipIndent(k: Block, p: nat, column: nat, indent: int, s: string, first: string, trail: string,
                                      deepest: nat, blank: bool, end: nat, n: nat, rest: string)
    requires end <= p <= |k.buf| && k.buf[p..] == Spaces(n) + rest
    requires indent == 0 || column + n <= indent
    ensures p + n <= |k.buf| && k.buf[p + n..] == rest
    ensures Breaks(k, p, column, indent, s, first, trail, deepest, blank, end)
         == Breaks(k, p + n, column + n, indent, s, first, trail, deepest, blank, end)
    decreases n
  {
    hide Breaks;
    SpacesStep(n, rest);
    if n > 0 {
      Advance(k.buf, p, " ", Spaces(n - 1) + rest);
      assert At(k.buf, p + 0) == ' ';
      BreaksAtSpace(k, p, column, indent, s, first, trail, deepest, blank, end);
      SkipIndent(k, p + 1, column + 1, indent, s, first, trail, deepest, blank, end, n - 1, rest);
    }
  }

  lemma AfterBreak(buf: string, p: nat, lb: LineBreak, rest: string)
    requires p <= |buf| && buf[p..] == BreakOf(lb) + rest
    requires At(rest, 0) != '\n' || lb == Ln
    ensures IsBreak(At(buf, p)) && BreakText(At(buf, p)) == "\n" && BreakLen(buf, p) == |BreakOf(lb)|
    ensures p + |BreakOf(lb)| <= |buf| && buf[p + |BreakOf(lb)|..] == rest
  {
    Advance(buf, p, BreakOf(lb), rest);
    assert At(buf, p + 0) == BreakOf(lb)[0];
    if lb == CrLn {
      assert At(buf, p + 1) == '\n';
    }
  }

  lemma AfterRun(cfg: Settings, buf: string, p: nat, c: char, rest: string)
    requires c == '\n' || c == LS || c == PS
    requires p <= |buf| && buf[p..] == BreakRun(cfg, c, true) + rest
    requires At(rest, 0) != '\n' || cfg.lineBreak == Ln
    ensures var n := |BreakRun(cfg, c, true)|;
      && IsBreak(At(buf, p)) && BreakText(At(buf, p)) == [c] && BreakLen(buf, p) == n
      && p + n <= |buf| && buf[p + n..] == rest
  {
    if c == '\n' {
      AfterBreak(buf, p, cfg.lineBreak, rest);
    } else {
      Advance(buf, p, [c], rest);
      assert At(buf, p + 0) == c;
    }
  }

  /** A shallower line ends the scalar. */
  lemma DedentEnds(k: Block, p: nat, indent: nat, s: string, first: string, trail: string, blank: bool, end: nat, rest: string)
    requires end <= p <= |k.buf| && k.buf[p..] == rest && indent > 0
    requires rest == "" || Dedent(indent, rest)
    ensures BlockReadsTo(Breaks(k, p, 0, indent, s, first, trail, 0, blank, end),
      s + (if k.chomping != -1 then first else "") + (if k.chomping == 1 then trail else ""), end)
  {
    if rest == "" {
      assert p == |k.buf|;
    } else {
      var n: nat, x: string :| n < indent && rest == Spaces(n) + x && !IsBlank(At(x, 0)) && !IsBreak(At(x, 0));
      SkipIndent(k, p, 0, indent, s, first, trail, 0, blank, end, n, x);
      assert At(k.buf, p + n) == At(x, 0) by { Advance(k.buf, p, Spaces(n), x); }
    }
  }

  // ----- the scanner follows the writer -----

  /** In a line, or in the run of breaks before the next one. */
  datatype LitMeet = LitMeet(
    i: nat, pen: Pen, breaks: bool, p: nat, column: nat, s: string, first: string, trail: string, blank: bool, deepest: nat, end: nat)

  function LitReading(k: Block, indent: nat, m: LitMeet): BlockScan
    requires m.end <= m.p <= |k.buf|
  {
    if m.breaks then Breaks(k, m.p, m.column, indent, m.s, m.first, m.trail, m.deepest, m.blank, m.end)
    else Line(k, m.p, m.column, indent, m.s, m.blank, m.end)
  }

  ghost predicate LitInv(cfg: Settings, value: string, k: Block, rest: string, m: LitMeet) {
    && k.literal && m.end <= m.p <= |k.buf| && 0 < m.i <= |value|
    && LiteralValue(cfg.unicode, value) && LiteralFollows(cfg, value, rest)
    && cfg.indent >= 1 && m.pen.footIndent == -1
    && k.chomping == Chomp(value)
    && k.buf[m.p..] == Lit(cfg, value, m.i, m.pen, m.breaks).text + rest
    && m.breaks == IsBreak(value[m.i - 1])
    && (if m.breaks then
          && m.pen.column == 0 && m.pen.indention && m.column == 0 && m.deepest == 0
          && m.s + m.first + m.trail == value[..m.i] && |m.first| == 1
          && (m.trail == "" <==> (m.i == 1 || !IsBreak(value[m.i - 2])))
          && m.s != "" && m.end == m.p - |TrailText(cfg, value[..m.i])|
        else m.s == value[..m.i] && m.column > cfg.indent)
  }

  lemma RestHead(cfg: Settings, value: string, rest: string)
    requires value != "" && LiteralFollows(cfg, value, rest) && IsBreak(value[|value| - 1])
    ensures !IsBreak(At(rest, 0))
  {
    if rest != "" {
      var n: nat, x: string :| n < cfg.indent && rest == Spaces(n) + x && !IsBlank(At(x, 0)) && !IsBreak(At(x, 0));
      if n == 0 {
        assert rest == x;
      } else {
        assert rest[0] == Spaces(n)[0] == ' ';
      }
    }
  }

  /** What follows a line break never merges with it into a CR LF pair. */
  lemma LitHead(cfg: Settings, value: string, i: nat, pen: Pen, rest: string)
    requires BlockAllowed(cfg.unicode, value) && LiteralFollows(cfg, value, rest)
    requires 0 < i <= |value| && IsBreak(value[i - 1]) && pen.footIndent == -1
    ensures var t := Lit(cfg, value, i, pen, true).text + rest;
      At(t, 0) != '\n' || cfg.lineBreak == Ln
  {
    hide BlockAllowed, LiteralFollows;
    if i < |value| {
      LitNeighbours(cfg.unicode, value, i);
    } else {
      assert Lit(cfg, value, i, pen, true).text + rest == rest;
      RestHead(cfg, value, rest);
    }
  }

  /** The text of a line break, and what is left after it. */
  lemma LitBreakText(cfg: Settings, value: string, k: Block, rest: string, m: LitMeet)
    requires LitInv(cfg, value, k, rest, m) && m.i < |value| && IsBreak(value[m.i])
    ensures var run := BreakRun(cfg, value[m.i], true);
      && IsBreak(At(k.buf, m.p)) && BreakText(At(k.buf, m.p)) == [value[m.i]] && BreakLen(k.buf, m.p) == |run|
      && m.p + |run| <= |k.buf|
      && k.buf[m.p + |run|..] == Lit(cfg, value, m.i + 1, BreakPen(m.pen), true).text + rest
  {
    hide BlockAllowed, LiteralFollows, ChompHint, TrailText;
    LitNeighbours(cfg.unicode, value, m.i);
    var run := BreakRun(cfg, value[m.i], true);
    var tail := Lit(cfg, value, m.i + 1, BreakPen(m.pen), true).text + rest;
    assert k.buf[m.p..] == run + tail;
    LitHead(cfg, value, m.i + 1, BreakPen(m.pen), rest);
    AfterRun(cfg, k.buf, m.p, value[m.i], tail);
  }

  lemma LitBreak(cfg: Settings, value: string, k: Block, rest: string, m: LitMeet) returns (n: LitMeet)
    requires LitInv(cfg, value, k, rest, m) && m.i < |value| && IsBreak(value[m.i])
    ensures n.i > m.i && LitInv(cfg, value, k, rest, n)
    ensures LitReading(k, cfg.indent, m) == LitReading(k, cfg.indent, n)
  {
    hide BlockAllowed, LiteralFollows, ChompHint, Lit, TrailText;
    var c := value[m.i];
    LitBreakText(cfg, value, k, rest, m);
    assert value[..m.i + 1] == value[..m.i] + [c];
    OneMoreBreak(cfg, value, m.i);
    if !m.breaks {
      NoBreakAtEnd(cfg, value, m.i);
    }
    var q := m.p + |BreakRun(cfg, c, true)|;
    if m.breaks {
      n := m.(i := m.i + 1, pen := BreakPen(m.pen), p := q, trail := m.trail + [c]);
    } else {
      n := LitMeet(m.i + 1, BreakPen(m.pen), true, q, 0, m.s, [c], "", m.blank, 0, m.p);
    }
  }

  lemma LitChar(cfg: Settings, value: string, k: Block, rest: string, m: LitMeet) returns (n: LitMeet)
    requires LitInv(cfg, value, k, rest, m) && m.i < |value| && !IsBreak(value[m.i]) && !m.breaks
    ensures n.i > m.i && LitInv(cfg, value, k, rest, n)
    ensures LitReading(k, cfg.indent, m) == LitReading(k, cfg.indent, n)
  {
    hide BlockAllowed, LiteralFollows, ChompHint, TrailText;
    var c := value[m.i];
    LitNeighbours(cfg.unicode, value, m.i);
    var pen' := PutPen(m.pen, 1).(indention := false);
    var tail := Lit(cfg, value, m.i + 1, pen', false).text + rest;
    assert k.buf[m.p..] == [c] + tail;
    Advance(k.buf, m.p, [c], tail);
    assert At(k.buf, m.p + 0) == c;
    assert value[..m.i + 1] == value[..m.i] + [c];
    n := m.(i := m.i + 1, pen := pen', p := m.p + 1, column := m.column + 1, s := m.s + [c]);
  }

  /** The first character of a line starts the line at exactly the margin. */
  lemma LineStarts(k: Block, indent: nat, p: nat, s: string, first: string, trail: string, blank: bool, end: nat, margin: nat, c: char, rest: string)
    requires k.literal && end <= p <= |k.buf| && k.buf[p..] == Spaces(margin) + ([c] + rest)
    requires !IsBreak(c) && !IsZ(c) && margin > 0
    requires indent == margin || (indent == 0 && !IsSpace(c) && k.level < margin)
    ensures p + margin + 1 <= |k.buf| && k.buf[p + margin + 1..] == rest
    ensures Breaks(k, p, 0, indent, s, first, trail, 0, blank, end)
         == Line(k, p + margin + 1, margin + 1, margin, s + first + trail + [c], IsBlank(c), end)
  {
    SkipIndent(k, p, 0, indent, s, first, trail, 0, blank, end, margin, [c] + rest);
    var q := p + margin;
    Advance(k.buf, q, [c], rest);
    assert At(k.buf, q + 0) == c;
    assert Breaks(k, q, margin, indent, s, first, trail, 0, blank, end)
        == Head(k, q, margin, margin, s, first, trail, blank, end);
    assert Head(k, q, margin, margin, s, first, trail, blank, end)
        == Line(k, q, margin, margin, s + first + trail, IsBlank(c), end);
  }

  /** After a line break, indenting adds the margin alone. */
  lemma MarginOnly(cfg: Settings, pen: Pen)
    requires cfg.indent >= 1 && pen.column == 0 && pen.indention && pen.footIndent == -1
    ensures Indent(cfg, pen) == Written(Spaces(cfg.indent), Pen(cfg.indent, true, true, -1))
  {
    assert "" + "" + Spaces(cfg.indent) == Spaces(cfg.indent);
  }

  lemma LitAtLine(cfg: Settings, value: string, m: LitMeet, rest: string)
    requires m.i < |value| && !IsBreak(value[m.i]) && m.breaks
    requires cfg.indent >= 1 && m.pen.column == 0 && m.pen.indention && m.pen.footIndent == -1
    ensures LitPen(cfg, m).footIndent == -1
    ensures Lit(cfg, value, m.i, m.pen, true).text + rest
         == Spaces(cfg.indent) + ([value[m.i]] + (Lit(cfg, value, m.i + 1, LitPen(cfg, m), false).text + rest))
  {
    var t := Lit(cfg, value, m.i + 1, LitPen(cfg, m), false).text;
    MarginOnly(cfg, m.pen);
    assert Lit(cfg, value, m.i, m.pen, true).text == Spaces(cfg.indent) + [value[m.i]] + t;
    Assoc4(Spaces(cfg.indent), [value[m.i]], t, rest);
  }

  function LitPen(cfg: Settings, m: LitMeet): Pen {
    PutPen(Indent(cfg, m.pen).pen, 1).(indention := false)
  }

  lemma LitLine(cfg: Settings, value: string, k: Block, rest: string, m: LitMeet) returns (n: LitMeet)
    requires LitInv(cfg, value, k, rest, m) && m.i < |value| && !IsBreak(value[m.i]) && m.breaks
    ensures n.i > m.i && LitInv(cfg, value, k, rest, n)
    ensures LitReading(k, cfg.indent, m) == LitReading(k, cfg.indent, n)
  {
    hide BlockAllowed, LiteralFollows, ChompHint, Line, Breaks, Lit, TrailText;
    var c := value[m.i];
    LitNeighbours(cfg.unicode, value, m.i);
    var tail := Lit(cfg, value, m.i + 1, LitPen(cfg, m), false).text + rest;
    LitAtLine(cfg, value, m, rest);
    LineStarts(k, cfg.indent, m.p, m.s, m.first, m.trail, m.blank, m.end, cfg.indent, c, tail);
    assert value[..m.i + 1] == value[..m.i] + [c];
    n := LitMeet(m.i + 1, LitPen(cfg, m), false, m.p + cfg.indent + 1, cfg.indent + 1, m.s + m.first + m.trail + [c], "", "", IsBlank(c), 0, m.end);
  }

  /** A last line without a line break, at the end of the input. */
  lemma LineEndsInput(k: Block, p: nat, column: nat, indent: nat, s: string, blank: bool, end: nat)
    requires end <= p == |k.buf| && column > indent > 0
    ensures BlockReadsTo(Line(k, p, column, indent, s, blank, end), s, p)
  {
    assert Line(k, p, column, indent, s, blank, end) == Breaks(k, p, column, indent, s, "", "", 0, blank, p);
    assert Breaks(k, p, column, indent, s, "", "", 0, blank, p) == Head(k, p, column, indent, s, "", "", blank, p);
    assert s + "" + "" == s;
  }

  /** A last line without a line break of its own, chomped. */
  lemma LineEndsStripped(cfg: Settings, k: Block, p: nat, column: nat, s: string, blank: bool, end: nat, rest: string)
    requires end <= p <= |k.buf| && cfg.indent > 0 && k.chomping == -1
    requires k.buf[p..] == BreakOf(cfg.lineBreak) + rest && Dedent(cfg.indent, rest)
    ensures BlockReadsTo(Line(k, p, column, cfg.indent, s, blank, end), s, p)
  {
    DedentHead(cfg.indent, rest);
    AfterBreak(k.buf, p, cfg.lineBreak, rest);
    DedentEnds(k, p + |BreakOf(cfg.lineBreak)|, cfg.indent, s, "\n", "", blank, p, rest);
    assert s + "" + "" == s;
  }

  /** The hint leaves exactly the breaks at the end. */
  lemma Chomped(value: string, s: string, first: string, trail: string)
    requires value == s + first + trail && value != "" && IsBreak(value[|value| - 1]) && |first| == 1
    requires trail == "" <==> |value| == 1 || !IsBreak(value[|value| - 2])
    ensures value == s + (if Chomp(value) != -1 then first else "") + (if Chomp(value) == 1 then trail else "")
  {}

  /** At the end of a value that ends with breaks. */
  lemma LitEndsBroken(cfg: Settings, value: string, k: Block, rest: string, m: LitMeet)
    requires LitInv(cfg, value, k, rest, m) && m.i == |value| && m.breaks
    ensures BlockReadsTo(LitReading(k, cfg.indent, m), value, |k.buf| - |rest| - |TrailText(cfg, value)|)
  {
    hide Lit, Dedent, TrailText, Breaks, ChompHint, BlockAllowed;
    assert value[..m.i] == value;
    assert k.buf[m.p..] == rest by { NothingMore(cfg, value, m.pen, true, rest); }
    assert rest == "" || Dedent(cfg.indent, rest);
    var first, trail := m.first, m.trail;
    assert value == m.s + first + trail && k.chomping == Chomp(value) && |first| == 1 && IsBreak(value[|value| - 1]);
    assert trail == "" <==> |value| == 1 || !IsBreak(value[|value| - 2]);
    assert m.end == |k.buf| - |rest| - |TrailText(cfg, value)|;
    hide LitInv, Chomp, LiteralFollows, LiteralValue;
    Chomped(value, m.s, first, trail);
    DedentEnds(k, m.p, cfg.indent, m.s, first, trail, m.blank, m.end, rest);
  }

  lemma NothingMore(cfg: Settings, value: string, pen: Pen, breaks: bool, rest: string)
    ensures Lit(cfg, value, |value|, pen, breaks).text + rest == rest
  {}

  /** At the end of a value that ends in a line. */
  lemma LitEndsInLine(cfg: Settings, value: string, k: Block, rest: string, m: LitMeet)
    requires LitInv(cfg, value, k, rest, m) && m.i == |value| && !m.breaks
    ensures BlockReadsTo(LitReading(k, cfg.indent, m), value, |k.buf| - |rest| - |TrailText(cfg, value)|)
  {
    hide Lit, Line, Dedent, TrailText, Breaks, BlockAllowed;
    NoBreakAtEnd(cfg, value, m.i);
    assert value[..m.i] == value;
    assert k.buf[m.p..] == rest by { NothingMore(cfg, value, m.pen, false, rest); }
    assert m.s == value && m.column > cfg.indent >= 1 && k.chomping == Chomp(value) == -1;
    assert rest == "" || exists tail: string :: rest == BreakOf(cfg.lineBreak) + tail && Dedent(cfg.indent, tail);
    hide LitInv, Chomp, ChompHint, LiteralFollows, LiteralValue, ContentEnd;
    if rest == "" {
      LineEndsInput(k, m.p, m.column, cfg.indent, m.s, m.blank, m.end);
    } else {
      var tail: string :| rest == BreakOf(cfg.lineBreak) + tail && Dedent(cfg.indent, tail);
      LineEndsStripped(cfg, k, m.p, m.column, m.s, m.blank, m.end, tail);
    }
  }

  lemma LitEnd(cfg: Settings, value: string, k: Block, rest: string, m: LitMeet)
    requires LitInv(cfg, value, k, rest, m) && m.i == |value|
    ensures BlockReadsTo(LitReading(k, cfg.indent, m), value, |k.buf| - |rest| - |TrailText(cfg, value)|)
  {
    hide LitInv;
    if m.breaks {
      LitEndsBroken(cfg, value, k, rest, m);
    } else {
      LitEndsInLine(cfg, value, k, rest, m);
    }
  }

  lemma DedentHead(margin: int, rest: string)
    requires Dedent(margin, rest)
    ensures !IsBreak(At(rest, 0))
  {
    var n: nat, x: string :| n < margin && rest == Spaces(n) + x && !IsBlank(At(x, 0)) && !IsBreak(At(x, 0));
    if n == 0 {
      assert rest == x;
    } else {
      assert rest[0] == Spaces(n)[0] == ' ';
    }
  }

  lemma {:induction false} LitReads(cfg: Settings, value: string, k: Block, rest: string, m: LitMeet)
    requires LitInv(cfg, value, k, rest, m)
    ensures BlockReadsTo(LitReading(k, cfg.indent, m), value, |k.buf| - |rest| - |TrailText(cfg, value)|)
    decreases |value| - m.i
  {
    if m.i == |value| {
      LitEnd(cfg, value, k, rest, m);
    } else {
      var n: LitMeet;
      if IsBreak(value[m.i]) {
        n := LitBreak(cfg, value, k, rest, m);
      } else if m.breaks {
        n := LitLine(cfg, value, k, rest, m);
      } else {
        n := LitChar(cfg, value, k, rest, m);
      }
      LitReads(cfg, value, k, rest, n);
    }
  }

  function FirstPen(cfg: Settings, value: string, pen: Pen): Pen
    requires 2 <= cfg.bestIndent <= 9
  {
    var open := OpenPen(cfg, value, pen);
    PutPen(Indent(cfg, open).pen, 1).(indention := false)
  }

  /** The pen behind the header. */
  function OpenPen(cfg: Settings, value: string, pen: Pen): Pen
    requires 2 <= cfg.bestIndent <= 9
  {
    Indicator("|" + Hints(cfg, value), pen, true, false, false).pen.(whitespace := true)
  }

  /** The `|`, the hints and the lines, between what precedes and what follows. */
  lemma HeaderBuffer(cfg: Settings, value: string, pen: Pen, before: string, rest: string)
    requires 2 <= cfg.bestIndent <= 9
    ensures var w := Literal(cfg, value, pen);
      var lead := if pen.whitespace then "" else " ";
      var buf := before + w.text + rest;
      && lead <= w.text
      && |before| + |lead| < |buf|
      && buf[|before| + |lead| + 1..]
         == Hints(cfg, value) + (Lit(cfg, value, 0, OpenPen(cfg, value, pen), true).text + rest)
  {
    hide Lit, Hints;
    var lead := if pen.whitespace then "" else " ";
    var hint := Hints(cfg, value);
    var body := Lit(cfg, value, 0, OpenPen(cfg, value, pen), true).text;
    assert Literal(cfg, value, pen).text == lead + ("|" + hint) + body;
    assert lead + ("|" + hint) + body == lead + "|" + (hint + body);
    assert before + (lead + "|" + (hint + body)) + rest == before + lead + "|" + (hint + (body + rest));
    AfterOpening(before + lead, '|', hint + (body + rest));
  }

  /** The lines begin with a break, the margin and the first character. */
  lemma FirstLineText(cfg: Settings, value: string, pen: Pen, rest: string)
    requires 2 <= cfg.bestIndent <= 9 && pen.footIndent == -1 && 1 <= cfg.indent
    requires value != "" && !IsBreak(value[0])
    ensures FirstPen(cfg, value, pen).footIndent == -1
    ensures Lit(cfg, value, 0, OpenPen(cfg, value, pen), true).text + rest
         == BreakOf(cfg.lineBreak) + (Spaces(cfg.indent)
            + ([value[0]] + (Lit(cfg, value, 1, FirstPen(cfg, value, pen), false).text + rest)))
  {
    hide Indent, Hints;
    var br, margin := BreakOf(cfg.lineBreak), Spaces(cfg.indent);
    var open := OpenPen(cfg, value, pen);
    var body := Lit(cfg, value, 1, FirstPen(cfg, value, pen), false).text;
    FoldText(cfg, open);
    assert Lit(cfg, value, 0, open, true).text == br + margin + [value[0]] + body;
    Assoc4(br, margin, [value[0]], body + rest);
    assert br + margin + [value[0]] + body + rest == br + margin + [value[0]] + (body + rest);
  }

  /** The header and the first character: the indentation is named or detected. */
  lemma LiteralOpens(level: int, cfg: Settings, value: string, k: Block, p: nat, column: nat, pen: Pen, rest: string) returns (m: LitMeet)
    requires LiteralValue(cfg.unicode, value) && value != "" && LiteralFollows(cfg, value, rest)
    requires 2 <= cfg.bestIndent <= 9 && HintFits(level, cfg, value)
    requires k == Block(true, level, Chomp(value), k.buf)
    requires level < cfg.indent && 1 <= cfg.indent && p < |k.buf| && pen.footIndent == -1
    requires k.buf[p + 1..] == Hints(cfg, value) + (BreakOf(cfg.lineBreak)
        + (Spaces(cfg.indent) + ([value[0]] + (Lit(cfg, value, 1, pen, false).text + rest))))
    ensures LitInv(cfg, value, k, rest, m)
    ensures ScanBlockScalar(true, level, k.buf, p, column) == LitReading(k, cfg.indent, m)
  {
    hide BlockAllowed, LiteralFollows, Line, Breaks, Lit, ChompHint, Hints;
    var c := value[0];
    var tail := Lit(cfg, value, 1, pen, false).text + rest;
    HeaderReads(level, cfg, value, '\n', k.buf, p, column, Spaces(cfg.indent) + ([c] + tail));
    var b := p + 1 + |Hints(cfg, value)| + |BreakOf(cfg.lineBreak)|;
    LitNeighbours(cfg.unicode, value, 0);
    LineStarts(k, IndentFrom(level, Increment(cfg, value)), b, "", "", "", false, b, cfg.indent, c, tail);
    assert value[..1] == "" + "" + "" + [c];
    m := LitMeet(1, pen, false, b + cfg.indent + 1, cfg.indent + 1, value[..1], "", "", IsBlank(c), 0, b);
  }

  /** Literal round trip: for every value that the analysis allows in block style and that
      does not start with a line break, the scanner takes the indentation from the hint or
      detects it, and reads the value back, with none, one or several trailing breaks. The token ends behind
      the last character that is not one of these breaks. */
  lemma LiteralRoundTrip(level: int, cfg: Settings, value: string, pen: Pen, before: string, column: nat, rest: string)
    requires LiteralValue(cfg.unicode, value) && LiteralFollows(cfg, value, rest)
    requires 2 <= cfg.bestIndent <= 9 && HintFits(level, cfg, value) && pen.footIndent == -1
    requires level < cfg.indent && 1 <= cfg.indent
    ensures var w := Literal(cfg, value, pen);
      var lead := if pen.whitespace then "" else " ";
      var buf := before + w.text + rest;
      && lead <= w.text
      && |before| + |lead| < |buf|
      && BlockReadsTo(ScanBlockScalar(true, level, buf, |before| + |lead|, column), value,
                      |before + w.text| - |TrailText(cfg, value)|)
  {
    hide LiteralFollows, Lit, Literal, ChompHint, Hints, ScanBlockScalar, HintFits, FirstPen, OpenPen;
    HeaderBuffer(cfg, value, pen, before, rest);
    FirstLineText(cfg, value, pen, rest);
    var k := Block(true, level, Chomp(value), before + Literal(cfg, value, pen).text + rest);
    var p := |before| + if pen.whitespace then 0 else 1;
    var m := LiteralOpens(level, cfg, value, k, p, column, FirstPen(cfg, value, pen), rest);
    LitReads(cfg, value, k, rest, m);
  }

  /** How the scanner understands the chomping hint. */
  function Chomp(value: string): int {
    Chomping(if ChompHint(value) == "" then ' ' else ChompHint(value)[0])
  }

  /** The header is understood and the break after it is eaten; the break may be the value's. */
  lemma HeaderReads(level: int, cfg: Settings, value: string, c: char, buf: string, p: nat, column: nat, tail: string)
    requires 2 <= cfg.bestIndent <= 9 && (c == '\n' || c == LS || c == PS)
    requires p < |buf| && buf[p + 1..] == Hints(cfg, value) + (BreakRun(cfg, c, true) + tail)
    requires At(tail, 0) != '\n' || cfg.lineBreak == Ln
    ensures var b := p + 1 + |Hints(cfg, value)| + |BreakRun(cfg, c, true)|;
      && b <= |buf| && buf[b..] == tail
      && ScanBlockScalar(true, level, buf, p, column)
         == Breaks(Block(true, level, Chomp(value), buf), b, 0, IndentFrom(level, Increment(cfg, value)), "", "", "", 0, false, b)
  {
    hide Breaks, ChompHint, Indicators, Hints, SkipBlanks, SkipToBreak, BreakRun, Increment, Chomp;
    var hint := Hints(cfg, value);
    var br := BreakRun(cfg, c, true);
    Advance(buf, p + 1, hint, br + tail);
    var q := p + 1 + |hint|;
    AfterRun(cfg, buf, q, c, tail);
    HintReads(cfg, value, buf, p + 1, column + 1);
    NothingToSkip(buf, q);
  }

  lemma NothingToSkip(buf: string, q: nat)
    requires q <= |buf| && IsBreak(At(buf, q))
    ensures SkipBlanks(buf, q) == q && At(buf, q) != '#'
  {}

  lemma HintReads(cfg: Settings, value: string, buf: string, p: nat, column: nat)
    requires 2 <= cfg.bestIndent <= 9
    requires var hint := Hints(cfg, value);
      && p + |hint| <= |buf| && IsBreak(At(buf, p + |hint|))
      && forall k :: 0 <= k < |hint| ==> At(buf, p + k) == hint[k]
    ensures var hint := Hints(cfg, value);
      Indicators(buf, p, column)
        == HeaderDone(Chomp(value), Increment(cfg, value), p + |hint|, column + |hint|)
  {
    var hint, chomp := Hints(cfg, value), ChompHint(value);
    if Increment(cfg, value) == 0 {
      assert hint == chomp;
      if chomp != "" {
        assert At(buf, p + 0) == chomp[0];
      }
    } else {
      assert hint == [HexDigit(cfg.bestIndent)] + chomp && |chomp| <= 1;
      assert At(buf, p + 0) == hint[0];
      if chomp != "" {
        assert At(buf, p + 1) == hint[1];
      }
    }
  }
}
