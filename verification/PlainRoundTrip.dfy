/**
  The plain writer and the plain scanner are inverse on the values that the analysis lets
  through: the text is recognised as a plain scalar, scanned back to the value, and the
  token ends where the value's text ends.
 */
module PlainRoundTrip {
  import opened Basics
  import opened Chars
  import opened ScalarText
  import opened ScalarAnalysis
  import opened FlowScalar
  import opened PlainScalar

  predicate PlainAllowed(flow: bool, unicode: bool, value: string) {
    if flow then FlowPlainAllowed(unicode, value) else value != "" && BlockPlainAllowed(unicode, value)
  }

  /** Blanks and breaks from p on lead to something that ends the scalar. */
  predicate StopsInGap(flow: bool, indent: int, buf: string, p: nat, column: nat, leading: bool)
    requires p <= |buf|
    decreases |buf| - p
  {
    var c := At(buf, p);
    if IsBlank(c) then
      !(leading && column < indent && IsTab(c)) && StopsInGap(flow, indent, buf, p + 1, column + 1, leading)
    else if IsBreak(c) then StopsInGap(flow, indent, buf, p + BreakLen(buf, p), 0, true)
    else
      || (!flow && column < indent)
      || DocumentIndicator(buf, p, column)
      || c == '#' || IsZ(c) || EndsPlain(flow, c, At(buf, p + 1))
  }

  /** What may follow a plain scalar whose last character is just before q. */
  ghost predicate Terminator(flow: bool, indent: int, buf: string, q: nat)
    requires q <= |buf|
  {
    var c := At(buf, q);
    || IsZ(c)
    || EndsPlain(flow, c, At(buf, q + 1))
    || ((IsBlank(c) || IsBreak(c))
        && forall column: nat :: column > 0 && column >= indent ==> StopsInGap(flow, indent, buf, q, column, false))
  }

  predicate EndsAt(r: PlainScan, value: string, end: nat) {
    r.PlainDone? && r.value == value && r.end == end
  }

  lemma {:induction false} GapStops(flow: bool, indent: int, buf: string, p: nat, column: nat, s: string, g: Gap, end: nat)
    requires end <= p <= |buf|
    requires StopsInGap(flow, indent, buf, p, column, g.leading)
    ensures EndsAt(PlainBlanks(flow, indent, buf, p, column, s, g, end), s, end)
    decreases |buf| - p
  {
    var c := At(buf, p);
    if IsBlank(c) {
      GapStops(flow, indent, buf, p + 1, column + 1, s, AddBlank(g, c), end);
    } else if IsBreak(c) {
      GapStops(flow, indent, buf, p + BreakLen(buf, p), 0, s, AddBreak(g, c), end);
    } else if flow || column >= indent {
      PlainLeavesGap(flow, indent, buf, p, column, s, g, end);
    }
  }

  /** A gap ends before a character that is neither blank nor a break. */
  lemma PlainLeavesGap(flow: bool, indent: int, buf: string, p: nat, column: nat, s: string, g: Gap, end: nat)
    requires end <= p <= |buf| && !IsBlank(At(buf, p)) && !IsBreak(At(buf, p))
    requires flow || column >= indent
    ensures PlainBlanks(flow, indent, buf, p, column, s, g, end) == PlainStart(flow, indent, buf, p, column, s, g, end)
  {}

  lemma PlainEntersGap(flow: bool, indent: int, buf: string, p: nat, column: nat, s: string, g: Gap, end: nat)
    requires end <= p <= |buf| && (IsBlank(At(buf, p)) || IsBreak(At(buf, p)))
    ensures PlainWord(flow, indent, buf, p, column, s, g, end) == PlainBlanks(flow, indent, buf, p, column, s, g, end)
  {}

  // ----- what the emitter writes after a scalar -----

  lemma EndOfInputTerminates(flow: bool, indent: int, buf: string)
    ensures Terminator(flow, indent, buf, |buf|)
  {}

  lemma ValueIndicatorTerminates(flow: bool, indent: int, buf: string, q: nat)
    requires q < |buf| && buf[q] == ':' && IsBlankz(At(buf, q + 1))
    ensures Terminator(flow, indent, buf, q)
  {}

  lemma FlowIndicatorTerminates(indent: int, buf: string, q: nat)
    requires q < |buf| && buf[q] in ",]}"
    ensures Terminator(true, indent, buf, q)
  {}

  lemma {:induction false} MarginStops(indent: int, buf: string, p: nat, column: nat, n: nat, rest: string)
    requires p <= |buf| && buf[p..] == Spaces(n) + rest
    requires column + n < indent && !IsBlank(At(rest, 0)) && !IsBreak(At(rest, 0))
    ensures StopsInGap(false, indent, buf, p, column, true)
    decreases n
  {
    SpacesStep(n, rest);
    if n > 0 {
      Advance(buf, p, " ", Spaces(n - 1) + rest);
      assert At(buf, p + 0) == ' ';
      MarginStops(indent, buf, p + 1, column + 1, n - 1, rest);
    } else {
      Advance(buf, p, "", rest);
    }
  }

  /** In block context, a line no deeper than the enclosing level ends the scalar. */
  lemma DedentTerminates(indent: int, buf: string, q: nat, lb: LineBreak, n: nat, rest: string)
    requires q <= |buf| && buf[q..] == BreakOf(lb) + (Spaces(n) + rest)
    requires n < indent && !IsBlank(At(rest, 0)) && !IsBreak(At(rest, 0))
    ensures Terminator(false, indent, buf, q)
  {
    Advance(buf, q, BreakOf(lb), Spaces(n) + rest);
    assert At(buf, q + 0) == BreakOf(lb)[0];
    if lb == CrLn {
      assert At(buf, q + 1) == '\n';
    }
    SpacesStep(n, rest);
    MarginStops(indent, buf, q + |BreakOf(lb)|, 0, n, rest);
  }

  /** At every level, the root included, a document marker on the next line ends the scalar. */
  lemma DocumentMarkerTerminates(flow: bool, indent: int, buf: string, q: nat, lb: LineBreak, mark: char, rest: string)
    requires q <= |buf| && buf[q..] == BreakOf(lb) + ([mark, mark, mark] + rest)
    requires (mark == '-' || mark == '.') && IsBlankz(At(rest, 0))
    ensures Terminator(flow, indent, buf, q)
  {
    var p := q + |BreakOf(lb)|;
    Advance(buf, q, BreakOf(lb), [mark, mark, mark] + rest);
    Advance(buf, p, [mark, mark, mark], rest);
    assert At(buf, q + 0) == BreakOf(lb)[0];
    if lb == CrLn {
      assert At(buf, q + 1) == '\n';
    }
    assert At(buf, p + 0) == mark && At(buf, p + 1) == mark && At(buf, p + 2) == mark && At(buf, p + 3) == At(rest, 0);
    assert DocumentIndicator(buf, p, 0);
    assert StopsInGap(flow, indent, buf, p, 0, true);
  }

  /** So does a line break at the end of the input. */
  lemma LastBreakTerminates(flow: bool, indent: int, buf: string, q: nat, lb: LineBreak)
    requires q <= |buf| && buf[q..] == BreakOf(lb)
    ensures Terminator(flow, indent, buf, q)
  {
    Advance(buf, q, BreakOf(lb), "");
    assert At(buf, q + 0) == BreakOf(lb)[0];
    if lb == CrLn {
      assert At(buf, q + 1) == '\n';
    }
    assert StopsInGap(flow, indent, buf, q + |BreakOf(lb)|, 0, true);
  }

  // ----- the scanner follows the writer -----

  datatype PlainMeet = PlainMeet(
    i: nat, pen: Pen, spaces: bool, p: nat, column: nat, s: string, inWord: bool, g: Gap, end: nat)

  function PlainReading(flow: bool, level: int, buf: string, m: PlainMeet): PlainScan
    requires m.end <= m.p <= |buf|
  {
    if m.inWord then PlainWord(flow, level + 1, buf, m.p, m.column, m.s, m.g, m.end)
    else PlainBlanks(flow, level + 1, buf, m.p, m.column, m.s, m.g, m.end)
  }

  predicate PlMeet(flow: bool, level: int, cfg: Settings, value: string, allowBreaks: bool, buf: string, rest: string, m: PlainMeet) {
    && m.end <= m.p <= |buf| && m.i <= |value|
    && PlainAllowed(flow, cfg.unicode, value) && value != ""
    && level < cfg.indent && cfg.indent >= 1 && m.pen.footIndent == -1
    && level <= m.column && (m.i > 0 ==> level < m.column && m.column > 0)
    && buf[m.p..] == Pl(cfg, value, m.i, m.pen, m.spaces, false, allowBreaks).text + rest
    && m.s + Join(m.g) == value[..m.i]
    && (m.inWord ==> m.g == NoGap && m.end == m.p)
    && (m.spaces <==> m.i > 0 && IsSpace(value[m.i - 1]))
    && (m.i > 0 && !m.spaces ==> m.inWord && !m.pen.indention)
    && (m.i == 0 ==> m.inWord)
    && (m.g.leading ==> m.i < |value| && !IsSpace(value[m.i]))
  }

  lemma PlainNeighbours(flow: bool, unicode: bool, value: string, i: nat)
    requires PlainAllowed(flow, unicode, value) && i < |value|
    ensures !IsBreak(value[i]) && !IsTab(value[i]) && !IsZ(value[i])
    ensures IsSpace(value[i]) ==> 0 < i < |value| - 1
    ensures value[i] == '#' ==> i > 0 && !IsSpace(value[i - 1])
    ensures value[i] == ':' ==> i + 1 < |value| && !IsBlank(value[i + 1])
    ensures flow ==> value[i] !in ",?[]{}"
  {
    assert !SpecialAt(unicode, value, i) && !TabAt(value, i) && !BreakAt(value, i);
    if flow {
      assert !FlowIndicatorAt(value, i);
    } else {
      assert !BlockIndicatorAt(value, i);
    }
  }

  lemma PlSpace(flow: bool, level: int, cfg: Settings, value: string, allowBreaks: bool, buf: string, rest: string, m: PlainMeet) returns (n: PlainMeet)
    requires PlMeet(flow, level, cfg, value, allowBreaks, buf, rest, m) && m.i < |value| && IsSpace(value[m.i])
    requires !PlainFolds(cfg, value, m.i, m.pen, m.spaces, allowBreaks)
    ensures n.i > m.i && PlMeet(flow, level, cfg, value, allowBreaks, buf, rest, n)
    ensures PlainReading(flow, level, buf, m) == PlainReading(flow, level, buf, n)
  {
    hide PlainAllowed, PlainWord, PlainBlanks, Pl;
    PlainNeighbours(flow, cfg.unicode, value, m.i);
    n := m.(i := m.i + 1, pen := PutPen(m.pen, 1), spaces := true,
            p := m.p + 1, column := m.column + 1, inWord := false, g := AddBlank(m.g, ' '));
    var t := Pl(cfg, value, n.i, n.pen, true, false, allowBreaks).text;
    PlAtSpace(cfg, value, allowBreaks, m);
    Assoc(" ", t, rest);
    PlainSpaceReads(flow, level, buf, m, t + rest);
  }

  lemma PlAtSpace(cfg: Settings, value: string, allowBreaks: bool, m: PlainMeet)
    requires m.i < |value| && IsSpace(value[m.i]) && !PlainFolds(cfg, value, m.i, m.pen, m.spaces, allowBreaks)
    ensures Pl(cfg, value, m.i, m.pen, m.spaces, false, allowBreaks).text
         == " " + Pl(cfg, value, m.i + 1, PutPen(m.pen, 1), true, false, allowBreaks).text
  {}

  lemma PlainSpaceReads(flow: bool, level: int, buf: string, m: PlainMeet, rest: string)
    requires m.end <= m.p <= |buf| && buf[m.p..] == " " + rest
    ensures m.p + 1 <= |buf| && buf[m.p + 1..] == rest
    ensures PlainReading(flow, level, buf, m)
         == PlainBlanks(flow, level + 1, buf, m.p + 1, m.column + 1, m.s, AddBlank(m.g, ' '), m.end)
  {
    Advance(buf, m.p, " ", rest);
    assert At(buf, m.p + 0) == ' ';
    if m.inWord {
      PlainEntersGap(flow, level + 1, buf, m.p, m.column, m.s, m.g, m.end);
    }
  }

  lemma {:induction false} PlainSkipMargin(flow: bool, indent: int, buf: string, p: nat, column: nat, s: string, g: Gap, end: nat, n: nat, rest: string)
    requires end <= p <= |buf| && buf[p..] == Spaces(n) + rest && g.leading
    ensures p + n <= |buf| && buf[p + n..] == rest
    ensures PlainBlanks(flow, indent, buf, p, column, s, g, end) == PlainBlanks(flow, indent, buf, p + n, column + n, s, g, end)
    decreases n
  {
    SpacesStep(n, rest);
    if n > 0 {
      Advance(buf, p, " ", Spaces(n - 1) + rest);
      assert At(buf, p + 0) == ' ';
      PlainSkipMargin(flow, indent, buf, p + 1, column + 1, s, g, end, n - 1, rest);
    }
  }

  lemma PlainFoldReads(flow: bool, level: int, cfg: Settings, buf: string, m: PlainMeet, rest: string)
    requires m.end <= m.p <= |buf| && m.inWord && m.g == NoGap
    requires cfg.indent >= 1 && m.pen.footIndent == -1 && IndentBreaks(cfg, m.pen)
    requires buf[m.p..] == Indent(cfg, m.pen).text + rest
    ensures var q := m.p + |Indent(cfg, m.pen).text|;
      && q <= |buf| && buf[q..] == rest
      && PlainReading(flow, level, buf, m)
         == PlainBlanks(flow, level + 1, buf, q, cfg.indent, m.s, AddBreak(NoGap, '\n'), m.end)
  {
    hide PlainBlanks, PlainWord;
    var br := BreakOf(cfg.lineBreak);
    var margin := Spaces(cfg.indent);
    FoldText(cfg, m.pen);
    Assoc(br, margin, rest);
    SpacesStep(cfg.indent, rest);
    PlainBreakReads(flow, level + 1, buf, m.p, m.column, m.s, m.end, cfg.lineBreak, margin + rest);
    PlainSkipMargin(flow, level + 1, buf, m.p + |br|, 0, m.s, AddBreak(NoGap, '\n'), m.end, cfg.indent, rest);
  }

  lemma PlainBreakReads(flow: bool, indent: int, buf: string, p: nat, column: nat, s: string, end: nat, lb: LineBreak, rest: string)
    requires end <= p <= |buf| && buf[p..] == BreakOf(lb) + rest && At(rest, 0) == ' '
    ensures var q := p + |BreakOf(lb)|;
      && q <= |buf| && buf[q..] == rest
      && PlainWord(flow, indent, buf, p, column, s, NoGap, end)
         == PlainBlanks(flow, indent, buf, q, 0, s, AddBreak(NoGap, '\n'), end)
  {
    Advance(buf, p, BreakOf(lb), rest);
    assert At(buf, p + 0) == BreakOf(lb)[0];
    if lb == CrLn {
      assert At(buf, p + 1) == '\n';
    }
    assert BreakLen(buf, p) == |BreakOf(lb)|;
    PlainEntersGap(flow, indent, buf, p, column, s, NoGap, end);
  }

  lemma PlFold(flow: bool, level: int, cfg: Settings, value: string, allowBreaks: bool, buf: string, rest: string, m: PlainMeet) returns (n: PlainMeet)
    requires PlMeet(flow, level, cfg, value, allowBreaks, buf, rest, m) && m.i < |value| && IsSpace(value[m.i])
    requires PlainFolds(cfg, value, m.i, m.pen, m.spaces, allowBreaks)
    ensures n.i > m.i && PlMeet(flow, level, cfg, value, allowBreaks, buf, rest, n)
    ensures PlainReading(flow, level, buf, m) == PlainReading(flow, level, buf, n)
  {
    hide PlainAllowed, PlainWord, PlainBlanks;
    PlainNeighbours(flow, cfg.unicode, value, m.i);
    var w := Indent(cfg, m.pen);
    n := m.(i := m.i + 1, pen := w.pen, spaces := true,
            p := m.p + |w.text|, column := cfg.indent, inWord := false, g := AddBreak(NoGap, '\n'));
    var tail := Pl(cfg, value, n.i, w.pen, true, false, allowBreaks).text + rest;
    assert buf[m.p..] == w.text + tail;
    PlainFoldReads(flow, level, cfg, buf, m, tail);
  }

  lemma PlainCharReads(flow: bool, level: int, buf: string, m: PlainMeet, c: char, rest: string)
    requires m.end <= m.p <= |buf| && buf[m.p..] == [c] + rest
    requires m.inWord ==> m.g == NoGap
    requires !IsBlankz(c) && !EndsPlain(flow, c, At(rest, 0))
    requires !m.inWord ==> c != '#' && m.column > 0 && m.column > level
    ensures m.p + 1 <= |buf| && buf[m.p + 1..] == rest
    ensures PlainReading(flow, level, buf, m)
         == PlainWord(flow, level + 1, buf, m.p + 1, m.column + 1, m.s + Join(m.g) + [c], NoGap, m.p + 1)
  {
    Advance(buf, m.p, [c], rest);
    assert At(buf, m.p + 0) == c && At(buf, m.p + 1) == At(rest, 0);
    if !m.inWord {
      PlainLeavesGap(flow, level + 1, buf, m.p, m.column, m.s, m.g, m.end);
    }
  }

  /** A colon inside a plain value is followed by a character that is not blank. */
  lemma PlNext(flow: bool, cfg: Settings, value: string, i: nat, pen: Pen, allowBreaks: bool, rest: string)
    requires PlainAllowed(flow, cfg.unicode, value) && i < |value| && !IsSpace(value[i])
    ensures var tail := Pl(cfg, value, i + 1, pen, false, false, allowBreaks).text + rest;
      !EndsPlain(flow, value[i], At(tail, 0))
  {
    hide PlainAllowed;
    PlainNeighbours(flow, cfg.unicode, value, i);
    if value[i] == ':' {
      PlainNeighbours(flow, cfg.unicode, value, i + 1);
      assert Pl(cfg, value, i + 1, pen, false, false, allowBreaks).text[0] == value[i + 1];
    }
  }

  function PlCharPen(m: PlainMeet): Pen { PutPen(m.pen, 1).(indention := false) }

  lemma PlAtChar(cfg: Settings, value: string, allowBreaks: bool, m: PlainMeet, rest: string)
    requires m.i < |value| && !IsSpace(value[m.i]) && !IsBreak(value[m.i])
    ensures Pl(cfg, value, m.i, m.pen, m.spaces, false, allowBreaks).text + rest
         == [value[m.i]] + (Pl(cfg, value, m.i + 1, PlCharPen(m), false, false, allowBreaks).text + rest)
  {
    var t := Pl(cfg, value, m.i + 1, PlCharPen(m), false, false, allowBreaks).text;
    assert Pl(cfg, value, m.i, m.pen, m.spaces, false, allowBreaks).text == [value[m.i]] + t;
  }

  lemma PlChar(flow: bool, level: int, cfg: Settings, value: string, allowBreaks: bool, buf: string, rest: string, m: PlainMeet) returns (n: PlainMeet)
    requires PlMeet(flow, level, cfg, value, allowBreaks, buf, rest, m) && m.i < |value| && !IsSpace(value[m.i])
    ensures n.i > m.i && PlMeet(flow, level, cfg, value, allowBreaks, buf, rest, n)
    ensures PlainReading(flow, level, buf, m) == PlainReading(flow, level, buf, n)
  {
    hide PlainAllowed, PlainWord, PlainBlanks, EndsPlain, Pl;
    var c := value[m.i];
    PlainNeighbours(flow, cfg.unicode, value, m.i);
    var tail := Pl(cfg, value, m.i + 1, PlCharPen(m), false, false, allowBreaks).text + rest;
    PlAtChar(cfg, value, allowBreaks, m, rest);
    PlNext(flow, cfg, value, m.i, PlCharPen(m), allowBreaks, rest);
    PlainCharReads(flow, level, buf, m, c, tail);
    n := PlainMeet(m.i + 1, PlCharPen(m), false, m.p + 1, m.column + 1, m.s + Join(m.g) + [c], true, NoGap, m.p + 1);
  }

  lemma {:induction false} PlReads(flow: bool, level: int, cfg: Settings, value: string, allowBreaks: bool, buf: string, rest: string, m: PlainMeet)
    requires PlMeet(flow, level, cfg, value, allowBreaks, buf, rest, m)
    requires Terminator(flow, level + 1, buf, |buf| - |rest|)
    ensures EndsAt(PlainReading(flow, level, buf, m), value, |buf| - |rest|)
    decreases |value| - m.i
  {
    hide PlainAllowed;
    if m.i == |value| {
      PlainNeighbours(flow, cfg.unicode, value, m.i - 1);
      assert "" + rest == rest;
      assert m.p == |buf| - |rest| && m.s == value;
      if IsBlank(At(buf, m.p)) || IsBreak(At(buf, m.p)) {
        PlainEntersGap(flow, level + 1, buf, m.p, m.column, m.s, m.g, m.end);
        GapStops(flow, level + 1, buf, m.p, m.column, m.s, m.g, m.end);
      }
    } else {
      var n: PlainMeet;
      if !IsSpace(value[m.i]) {
        n := PlChar(flow, level, cfg, value, allowBreaks, buf, rest, m);
      } else if PlainFolds(cfg, value, m.i, m.pen, m.spaces, allowBreaks) {
        n := PlFold(flow, level, cfg, value, allowBreaks, buf, rest, m);
      } else {
        n := PlSpace(flow, level, cfg, value, allowBreaks, buf, rest, m);
      }
      PlReads(flow, level, cfg, value, allowBreaks, buf, rest, n);
    }
  }

  // ----- recognising the scalar -----

  /** A leading run without spaces is written as it is. */
  lemma {:induction false} PlPrefix(cfg: Settings, value: string, pen: Pen, allowBreaks: bool, k: nat) returns (pen': Pen)
    requires k <= |value|
    requires forall j :: 0 <= j < k ==> !IsSpace(value[j]) && !IsBreak(value[j])
    ensures Pl(cfg, value, 0, pen, false, false, allowBreaks).text
         == value[..k] + Pl(cfg, value, k, pen', false, false, allowBreaks).text
    ensures k > 0 ==> !pen'.indention
    ensures pen'.footIndent == pen.footIndent
  {
    hide Pl;
    if k == 0 {
      pen' := pen;
    } else {
      var mid := PlPrefix(cfg, value, pen, allowBreaks, k - 1);
      pen' := PutPen(mid, 1).(indention := false);
      var t := Pl(cfg, value, k, pen', false, false, allowBreaks).text;
      PlAtChar(cfg, value, allowBreaks, PlainMeet(k - 1, mid, false, 0, 0, "", true, NoGap, 0), "");
      assert Pl(cfg, value, k - 1, mid, false, false, allowBreaks).text + "" == [value[k - 1]] + (t + "");
      assert t + "" == t;
      assert value[..k] == value[..k - 1] + [value[k - 1]];
      Assoc(value[..k - 1], [value[k - 1]], t);
    }
  }

  /** The text after such a run goes on with the next character, or with a fold. */
  lemma PlGoesOn(flow: bool, cfg: Settings, value: string, i: nat, pen: Pen, allowBreaks: bool)
    requires PlainAllowed(flow, cfg.unicode, value) && 0 < i < |value|
    requires !pen.indention && pen.footIndent == -1
    ensures var t := Pl(cfg, value, i, pen, false, false, allowBreaks).text;
      t != "" && (t[0] == value[i] || (IsSpace(value[i]) && (IsSpace(t[0]) || IsBreak(t[0]))))
  {
    hide PlainAllowed;
    PlainNeighbours(flow, cfg.unicode, value, i);
  }

  /** The k-th character of the text, or of what follows it, seen from the value. */
  lemma PlCharAt(flow: bool, cfg: Settings, value: string, pen: Pen, allowBreaks: bool, rest: string, k: nat)
    requires PlainAllowed(flow, cfg.unicode, value) && k <= |value| && pen.footIndent == -1
    requires forall j :: 0 <= j < k ==> !IsSpace(value[j])
    requires k < |value| ==> k > 0 || !IsSpace(value[0])
    ensures var t := Pl(cfg, value, 0, pen, false, false, allowBreaks).text + rest;
      if k == |value| then At(t, k) == At(rest, 0)
      else At(t, k) == value[k] || (IsSpace(value[k]) && (IsSpace(At(t, k)) || IsBreak(At(t, k))))
  {
    hide PlainAllowed;
    forall j | 0 <= j < k
      ensures !IsBreak(value[j])
    {
      PlainNeighbours(flow, cfg.unicode, value, j);
    }
    var pen' := PlPrefix(cfg, value, pen, allowBreaks, k);
    if k < |value| {
      PlainNeighbours(flow, cfg.unicode, value, k);
      if k > 0 {
        PlGoesOn(flow, cfg, value, k, pen', allowBreaks);
      }
    }
  }

  predicate Follows(flow: bool, c: char) {
    IsBlankz(c) || c == ':' || (flow && c in ",?[]{}")
  }

  lemma StartsNoDocument(flow: bool, cfg: Settings, value: string, pen: Pen, allowBreaks: bool, rest: string, c: char)
    requires PlainAllowed(flow, cfg.unicode, value) && pen.footIndent == -1 && value != "" && !IsSpace(value[0])
    requires Follows(flow, At(rest, 0)) && !StartsLikeDocument(value) && (c == '-' || c == '.')
    ensures var t := Pl(cfg, value, 0, pen, false, false, allowBreaks).text + rest;
      !(At(t, 0) == c && At(t, 1) == c && At(t, 2) == c)
  {
    hide PlainAllowed, Pl;
    PlCharAt(flow, cfg, value, pen, allowBreaks, rest, 0);
    PlCharAt(flow, cfg, value, pen, allowBreaks, rest, 1);
    if |value| > 1 && value[1] == c {
      PlCharAt(flow, cfg, value, pen, allowBreaks, rest, 2);
    }
  }

  lemma PlainStartsWell(flow: bool, unicode: bool, value: string)
    requires PlainAllowed(flow, unicode, value)
    ensures value != "" && !StartsLikeDocument(value)
    ensures value[0] !in ",[]{}#&*!|>'\"%@`" && !IsBlankz(value[0])
    ensures value[0] in "-?:" ==> |value| > 1 && !IsBlankz(value[1])
    ensures flow ==> value[0] !in "?:"
  {
    assert if flow then !FlowIndicatorAt(value, 0) else !BlockIndicatorAt(value, 0);
    PlainNeighbours(flow, unicode, value, 0);
    if |value| > 1 {
      PlainNeighbours(flow, unicode, value, 1);
    }
  }

  /** The token fetcher takes the text for a plain scalar. */
  lemma PlainIsRecognised(flow: bool, cfg: Settings, value: string, pen: Pen, allowBreaks: bool, buf: string, p: nat, column: nat, rest: string)
    requires PlainAllowed(flow, cfg.unicode, value) && pen.footIndent == -1
    requires p <= |buf| && buf[p..] == Pl(cfg, value, 0, pen, false, false, allowBreaks).text + rest
    requires Follows(flow, At(rest, 0))
    ensures Dispatch(flow, buf, p, column) == PlainScalarStart
    ensures !DocumentIndicator(buf, p, column) && At(buf, p) != '#'
  {
    hide PlainAllowed, Pl;
    PlainStartsWell(flow, cfg.unicode, value);
    var t := Pl(cfg, value, 0, pen, false, false, allowBreaks).text + rest;
    Advance(buf, p, t, "");
    assert t + "" == t;
    assert forall k: nat :: k < |t| ==> At(buf, p + k) == t[k];
    PlCharAt(flow, cfg, value, pen, allowBreaks, rest, 0);
    StartsNoDocument(flow, cfg, value, pen, allowBreaks, rest, '-');
    StartsNoDocument(flow, cfg, value, pen, allowBreaks, rest, '.');
    if value[0] in "-?:" {
      PlCharAt(flow, cfg, value, pen, allowBreaks, rest, 1);
    }
    assert At(buf, p + 0) == At(t, 0) && At(buf, p + 1) == At(t, 1) && At(buf, p + 2) == At(t, 2);
  }

  /** The same, for the text without the space that may separate it from what precedes. */
  lemma PlainBodyRoundTrip(flow: bool, level: int, cfg: Settings, value: string, pen: Pen, allowBreaks: bool, buf: string, p: nat, column: nat, rest: string)
    requires PlainAllowed(flow, cfg.unicode, value)
    requires level < cfg.indent && 1 <= cfg.indent && level <= column && pen.footIndent == -1
    requires p <= |buf| && buf[p..] == Pl(cfg, value, 0, pen, false, false, allowBreaks).text + rest
    requires Terminator(flow, level + 1, buf, |buf| - |rest|)
    ensures Dispatch(flow, buf, p, column) == PlainScalarStart
    ensures EndsAt(ScanPlainScalar(flow, level, buf, p, column), value, |buf| - |rest|)
  {
    hide PlainAllowed, Pl, Dispatch, PlainWord, Terminator;
    PlainStartsWell(flow, cfg.unicode, value);
    assert Follows(flow, At(rest, 0)) by { TerminatorFollows(flow, level + 1, buf, p, Pl(cfg, value, 0, pen, false, false, allowBreaks).text, rest); }
    PlainIsRecognised(flow, cfg, value, pen, allowBreaks, buf, p, column, rest);
    assert value[..0] == "" && Join(NoGap) == "" && "" + "" == "";
    PlReads(flow, level, cfg, value, allowBreaks, buf, rest, PlainMeet(0, pen, false, p, column, "", true, NoGap, p));
  }

  lemma TerminatorFollows(flow: bool, indent: int, buf: string, p: nat, text: string, rest: string)
    requires p <= |buf| && buf[p..] == text + rest
    requires Terminator(flow, indent, buf, |buf| - |rest|)
    ensures Follows(flow, At(rest, 0))
  {
    Advance(buf, p, text, rest);
  }

  /** Plain round trip, in block and in flow context, for every value that the analysis
      allows there, every width and every line break. */
  lemma PlainRoundTrip(flow: bool, level: int, cfg: Settings, value: string, pen: Pen, allowBreaks: bool, before: string, column: nat, rest: string)
    requires PlainAllowed(flow, cfg.unicode, value)
    requires level < cfg.indent && 1 <= cfg.indent && level <= column && pen.footIndent == -1
    requires var text := Plain(cfg, value, pen, allowBreaks).text;
      Terminator(flow, level + 1, before + text + rest, |before + text|)
    ensures var w := Plain(cfg, value, pen, allowBreaks);
      var lead := if pen.whitespace then "" else " ";
      var buf := before + w.text + rest;
      && lead <= w.text
      && Dispatch(flow, buf, |before| + |lead|, column) == PlainScalarStart
      && EndsAt(ScanPlainScalar(flow, level, buf, |before| + |lead|, column), value, |before| + |w.text|)
  {
    hide PlainAllowed, Pl, Dispatch, ScanPlainScalar, Terminator;
    PlainStartsWell(flow, cfg.unicode, value);
    var w := Plain(cfg, value, pen, allowBreaks);
    var lead := if pen.whitespace then "" else " ";
    var pen' := PutPen(pen, |lead|);
    var body := Pl(cfg, value, 0, pen', false, false, allowBreaks).text;
    var buf := before + w.text + rest;
    var p := |before| + |lead|;
    assert w.text == lead + body;
    assert buf == (before + lead) + (body + rest);
    PlainBodyRoundTrip(flow, level, cfg, value, pen', allowBreaks, buf, p, column, rest);
  }

  /** What comes behind a plain scalar in a text: the end, the `:` of a key, an indicator of
      the flow collection, or a line break with the end, a line no deeper than the enclosing
      level or a document marker behind it. */
  ghost predicate ComesNext(flow: bool, level: int, lb: LineBreak, rest: string) {
    || rest == ""
    || (rest[0] == ':' && IsBlankz(At(rest, 1)))
    || (flow && rest[0] in ",]}")
    || rest == BreakOf(lb)
    || (!flow && exists n: nat, x: string ::
          n <= level && rest == BreakOf(lb) + (Spaces(n) + x) && !IsBlank(At(x, 0)) && !IsBreak(At(x, 0)))
    || (exists mark: char, x: string ::
          (mark == '-' || mark == '.') && rest == BreakOf(lb) + ([mark, mark, mark] + x) && IsBlankz(At(x, 0)))
  }

  lemma NextTerminates(flow: bool, level: int, buf: string, q: nat, lb: LineBreak, rest: string)
    requires q <= |buf| && buf[q..] == rest && ComesNext(flow, level, lb, rest)
    ensures Terminator(flow, level + 1, buf, q)
  {
    hide Terminator;
    if rest == "" {
      EndOfInputTerminates(flow, level + 1, buf);
    } else if rest[0] == ':' && IsBlankz(At(rest, 1)) {
      assert buf[q] == rest[0] && At(buf, q + 1) == At(rest, 1);
      ValueIndicatorTerminates(flow, level + 1, buf, q);
    } else if flow && rest[0] in ",]}" {
      assert buf[q] == rest[0];
      FlowIndicatorTerminates(level + 1, buf, q);
    } else if rest == BreakOf(lb) {
      LastBreakTerminates(flow, level + 1, buf, q, lb);
    } else if mark: char, x: string :|
      (mark == '-' || mark == '.') && rest == BreakOf(lb) + ([mark, mark, mark] + x) && IsBlankz(At(x, 0)) {
      DocumentMarkerTerminates(flow, level + 1, buf, q, lb, mark, x);
    } else {
      var n: nat, x: string :|
        n <= level && rest == BreakOf(lb) + (Spaces(n) + x) && !IsBlank(At(x, 0)) && !IsBreak(At(x, 0));
      DedentTerminates(level + 1, buf, q, lb, n, x);
    }
  }

  /** Plain round trip in front of whatever may come next, at every level. */
  lemma PlainReadBeforeNext(flow: bool, level: int, cfg: Settings, value: string, pen: Pen, allowBreaks: bool, before: string, column: nat, rest: string)
    requires PlainAllowed(flow, cfg.unicode, value) && ComesNext(flow, level, cfg.lineBreak, rest)
    requires level < cfg.indent && 1 <= cfg.indent && level <= column && pen.footIndent == -1
    ensures var w := Plain(cfg, value, pen, allowBreaks);
      var lead := if pen.whitespace then "" else " ";
      var buf := before + w.text + rest;
      && lead <= w.text
      && Dispatch(flow, buf, |before| + |lead|, column) == PlainScalarStart
      && EndsAt(ScanPlainScalar(flow, level, buf, |before| + |lead|, column), value, |before| + |w.text|)
  {
    hide Plain, PlainAllowed, ComesNext, Terminator, Dispatch, ScanPlainScalar;
    var text := Plain(cfg, value, pen, allowBreaks).text;
    assert (before + text + rest)[|before + text|..] == rest;
    NextTerminates(flow, level, before + text + rest, |before + text|, cfg.lineBreak, rest);
    PlainRoundTrip(flow, level, cfg, value, pen, allowBreaks, before, column, rest);
  }
}
