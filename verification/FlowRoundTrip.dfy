/**
  The quoted writers and the quoted scanner are inverse: whatever the width, the
  indentation, the line break and the escaping, the scanner reads back the value.
 */
module FlowRoundTrip {
  import opened Basics
  import opened Chars
  import opened ScalarText
  import opened FlowScalar
  import opened ScalarAnalysis

  /** Where the scanner stands between two characters of the writer. */
  function Resume(single: bool, buf: string, p: nat, column: nat, s: string, inWord: bool, g: Gap): Scan
    requires p <= |buf|
  {
    if inWord then Word(single, buf, p, column, s) else Blanks(single, buf, p, column, s, g)
  }

  /** A character that is neither blank nor a break ends the gap before it. */
  lemma Settle(single: bool, buf: string, p: nat, column: nat, s: string, inWord: bool, g: Gap)
    requires p <= |buf| && !IsBlankz(At(buf, p))
    requires column > 0 || (At(buf, p) != '-' && At(buf, p) != '.')
    requires inWord ==> g == NoGap
    ensures Resume(single, buf, p, column, s, inWord, g) == Word(single, buf, p, column, s + Join(g))
  {
    if inWord {
      assert s + Join(g) == s;
    } else {
      assert Blanks(single, buf, p, column, s, g) == Start(single, buf, p, column, s + Join(g));
    }
  }

  /** Indentation after a line break is skipped. */
  lemma {:induction false} SkipMargin(single: bool, buf: string, p: nat, column: nat, s: string, g: Gap, n: nat, rest: string)
    requires p <= |buf| && buf[p..] == Spaces(n) + rest && g.leading
    ensures p + n <= |buf| && buf[p + n..] == rest
    ensures Blanks(single, buf, p, column, s, g) == Blanks(single, buf, p + n, column + n, s, g)
    decreases n
  {
    SpacesStep(n, rest);
    if n > 0 {
      Advance(buf, p, " ", Spaces(n - 1) + rest);
      assert At(buf, p + 0) == ' ';
      SkipMargin(single, buf, p + 1, column + 1, s, g, n - 1, rest);
    }
  }

  /** A line break written by the emitter is read as one line break. */
  lemma ReadBreak(single: bool, buf: string, p: nat, column: nat, s: string, inWord: bool, g: Gap, lb: LineBreak, rest: string)
    requires p <= |buf| && buf[p..] == BreakOf(lb) + rest
    requires At(rest, 0) != '\n' || lb == Ln
    requires inWord ==> g == NoGap
    ensures p + |BreakOf(lb)| <= |buf| && buf[p + |BreakOf(lb)|..] == rest
    ensures Resume(single, buf, p, column, s, inWord, g)
         == Blanks(single, buf, p + |BreakOf(lb)|, 0, s, AddBreak(g, '\n'))
  {
    Advance(buf, p, BreakOf(lb), rest);
    assert At(buf, p + 0) == BreakOf(lb)[0];
    if lb == CrLn {
      assert At(buf, p + 1) == '\n';
    }
    assert inWord ==> Word(single, buf, p, column, s) == Blanks(single, buf, p, column, s, NoGap);
    assert BreakLen(buf, p) == |BreakOf(lb)|;
  }

  /** A fold is read as one line break followed by skipped indentation. */
  lemma FoldReads(single: bool, cfg: Settings, pen: Pen, buf: string, p: nat, column: nat, s: string, inWord: bool, g: Gap, rest: string)
    requires cfg.indent >= 1 && pen.footIndent == -1 && IndentBreaks(cfg, pen)
    requires p <= |buf| && buf[p..] == Indent(cfg, pen).text + rest
    requires inWord ==> g == NoGap
    ensures var q := p + |Indent(cfg, pen).text|;
      && q <= |buf| && buf[q..] == rest
      && Resume(single, buf, p, column, s, inWord, g)
         == Blanks(single, buf, q, cfg.indent, s, AddBreak(g, '\n'))
  {
    hide Word, Blanks;
    var br := BreakOf(cfg.lineBreak);
    var margin := Spaces(cfg.indent);
    FoldText(cfg, pen);
    Assoc(br, margin, rest);
    SpacesStep(cfg.indent, rest);
    ReadBreak(single, buf, p, column, s, inWord, g, cfg.lineBreak, margin + rest);
    SkipMargin(single, buf, p + |br|, 0, s, AddBreak(g, '\n'), cfg.indent, rest);
  }

  /** An ordinary character, neither blank nor special, is copied. */
  lemma CharReads(single: bool, buf: string, p: nat, column: nat, s: string, inWord: bool, g: Gap, c: char, rest: string)
    requires p <= |buf| && buf[p..] == [c] + rest && column > 0
    requires inWord ==> g == NoGap
    requires !IsBlankz(c) && (single ==> c != '\'') && (!single ==> c != '"' && c != '\\')
    ensures p + 1 <= |buf| && buf[p + 1..] == rest
    ensures Resume(single, buf, p, column, s, inWord, g)
         == Word(single, buf, p + 1, column + 1, s + Join(g) + [c])
  {
    Advance(buf, p, [c], rest);
    assert At(buf, p + 0) == c;
    Settle(single, buf, p, column, s, inWord, g);
  }

  /** A space between words is remembered. */
  lemma SpaceReads(single: bool, buf: string, p: nat, column: nat, s: string, inWord: bool, g: Gap, rest: string)
    requires p <= |buf| && buf[p..] == " " + rest
    requires inWord ==> g == NoGap
    ensures p + 1 <= |buf| && buf[p + 1..] == rest
    ensures Resume(single, buf, p, column, s, inWord, g)
         == Blanks(single, buf, p + 1, column + 1, s, AddBlank(g, ' '))
  {
    Advance(buf, p, " ", rest);
    assert At(buf, p + 0) == ' ';
    if inWord {
      assert Word(single, buf, p, column, s) == Blanks(single, buf, p, column, s, NoGap);
    }
  }

  // ----- escapes -----

  lemma HexDigitReads(d: nat)
    requires d < 16
    ensures IsHex(HexDigit(d)) && AsHex(HexDigit(d)) == d
  {}

  lemma {:induction false} HexTextReads(v: nat, w: nat, buf: string, p: nat)
    requires v < Pow16(w)
    requires forall k :: 0 <= k < w ==> At(buf, p + k) == HexText(v, w)[k]
    ensures AllHex(buf, p, w) && HexValue(buf, p, w) == v
    decreases w
  {
    if w > 0 {
      var t := HexText(v / 16, w - 1);
      forall k | 0 <= k < w - 1
        ensures At(buf, p + k) == t[k]
      {
        assert HexText(v, w)[k] == t[k];
      }
      HexTextReads(v / 16, w - 1, buf, p);
      HexDigitReads(v % 16);
      assert At(buf, p + (w - 1)) == HexText(v, w)[w - 1] == HexDigit(v % 16);
      assert AllHex(buf, p, w - 1);
      forall k | p <= k < p + w
        ensures IsHex(At(buf, k))
      {
        assert k == p + (w - 1) || k < p + (w - 1);
      }
    }
  }

  lemma ShortEscapeReads(c: char)
    requires ShortEscape(c) != ""
    ensures |ShortEscape(c)| == 1 && Escape(ShortEscape(c)[0]) == [c] && !IsBreak(ShortEscape(c)[0])
  {}

  lemma LongEscapeLetter(v: nat)
    requires v <= 0x10FFFF
    ensures Escape(EscapeLetter(v)) == "" && CodeLength(EscapeLetter(v)) == EscapeWidth(v)
  {}

  lemma EscapeReads(c: char, buf: string, p: nat, column: nat, s: string, rest: string)
    requires p <= |buf| && buf[p..] == EscapeText(c) + rest
    ensures p + |EscapeText(c)| <= |buf| && buf[p + |EscapeText(c)|..] == rest
    ensures !IsBlankz(At(buf, p))
    ensures Word(false, buf, p, column, s)
         == Word(false, buf, p + |EscapeText(c)|, column + |EscapeText(c)|, s + [c])
  {
    var e := EscapeText(c);
    Advance(buf, p, e, rest);
    assert At(buf, p + 0) == e[0] == '\\';
    assert At(buf, p + 1) == e[1];
    if ShortEscape(c) != "" {
      ShortEscapeReads(c);
      assert e[1] == ShortEscape(c)[0];
    } else {
      var v := c as int;
      var w := EscapeWidth(v);
      EscapeFits(v);
      LongEscapeLetter(v);
      assert e[1] == EscapeLetter(v);
      forall k | 0 <= k < w
        ensures At(buf, p + 2 + k) == HexText(v, w)[k]
      {
        assert At(buf, p + (2 + k)) == e[2 + k];
      }
      HexTextReads(v, w, buf, p + 2);
    }
  }

  // ----- double-quoted -----

  predicate ReadsAs(r: Scan, value: string, next: nat) {
    r.Done? && r.value == value && r.next == next
  }

  /** Writer and scanner side by side: the writer is about to write value[i], the scanner
      is about to read what the writer writes. */
  datatype Meet = Meet(
    i: nat, pen: Pen, spaces: bool, breaks: bool,
    p: nat, column: nat, s: string, inWord: bool, g: Gap)

  function Reading(single: bool, buf: string, m: Meet): Scan
    requires m.p <= |buf|
  {
    Resume(single, buf, m.p, m.column, m.s, m.inWord, m.g)
  }

  /** The scanner has taken over value[..i], counting the gap it is collecting. */
  predicate Together(value: string, buf: string, m: Meet) {
    && m.i <= |value| && m.p <= |buf|
    && m.s + Join(m.g) == value[..m.i]
    && (m.inWord ==> m.g == NoGap)
  }

  /** A character taken over by both. */
  function TakeChar(m: Meet, pen: Pen, c: char, n: nat): Meet {
    Meet(m.i + 1, pen, false, false, m.p + n, m.column + n, m.s + Join(m.g) + [c], true, NoGap)
  }

  function TakeSpace(m: Meet): Meet {
    m.(i := m.i + 1, pen := PutPen(m.pen, 1), spaces := true,
       p := m.p + 1, column := m.column + 1, inWord := false, g := AddBlank(m.g, ' '))
  }

  function TakeFold(m: Meet, pen: Pen, n: nat): Meet {
    m.(i := m.i + 1, pen := pen, spaces := true,
       p := m.p + n, column := pen.column, inWord := false, g := AddBreak(m.g, '\n'))
  }

  predicate DqMeet(cfg: Settings, value: string, allowBreaks: bool, buf: string, rest: string, m: Meet) {
    && Together(value, buf, m)
    && cfg.indent >= 1 && m.pen.footIndent == -1 && m.column > 0
    && buf[m.p..] == Dq(cfg, value, m.i, m.pen, m.spaces, allowBreaks).text + ("\"" + rest)
    && (!m.spaces ==> m.inWord)
    && (m.g.leading ==> m.i < |value| && !IsSpace(value[m.i]))
    && (m.pen.indention ==> m.pen.column >= cfg.indent)
    && (m.pen.indention && !m.spaces ==> m.pen.column > cfg.indent)
  }

  lemma DqClose(cfg: Settings, value: string, allowBreaks: bool, buf: string, rest: string, m: Meet)
    requires DqMeet(cfg, value, allowBreaks, buf, rest, m) && m.i == |value|
    ensures ReadsAs(Reading(false, buf, m), value, |buf| - |rest|)
  {
    assert "" + ("\"" + rest) == "\"" + rest;
    Advance(buf, m.p, "\"", rest);
    assert At(buf, m.p + 0) == '"';
    Settle(false, buf, m.p, m.column, m.s, m.inWord, m.g);
  }

  lemma DqEscape(cfg: Settings, value: string, allowBreaks: bool, buf: string, rest: string, m: Meet) returns (n: Meet)
    requires DqMeet(cfg, value, allowBreaks, buf, rest, m)
    requires m.i < |value| && NeedsEscape(cfg.unicode, value, m.i)
    ensures n.i > m.i && DqMeet(cfg, value, allowBreaks, buf, rest, n)
    ensures Reading(false, buf, m) == Reading(false, buf, n)
  {
    hide Word, Blanks;
    var e := EscapeText(value[m.i]);
    n := TakeChar(m, PutPen(m.pen, |e|), value[m.i], |e|);
    var t := Dq(cfg, value, n.i, n.pen, false, allowBreaks).text;
    var tail := t + ("\"" + rest);
    Assoc(e, t, "\"" + rest);
    EscapeReads(value[m.i], buf, m.p, m.column, m.s + Join(m.g), tail);
    Settle(false, buf, m.p, m.column, m.s, m.inWord, m.g);
  }

  predicate DqFoldsHere(cfg: Settings, value: string, allowBreaks: bool, m: Meet) {
    && m.i < |value| && IsSpace(value[m.i]) && !NeedsEscape(cfg.unicode, value, m.i)
    && DqFolds(cfg, value, m.i, m.pen, m.spaces, allowBreaks)
  }

  function FoldMark(value: string, i: nat): string {
    if IsSpace(At(value, i + 1)) then "\\" else ""
  }

  lemma DqAtFold(cfg: Settings, value: string, allowBreaks: bool, m: Meet, end: string)
    requires DqFoldsHere(cfg, value, allowBreaks, m)
    ensures var w := Indent(cfg, m.pen);
      var mark := FoldMark(value, m.i);
      Dq(cfg, value, m.i, m.pen, m.spaces, allowBreaks).text + end
        == w.text + (mark + Dq(cfg, value, m.i + 1, PutPen(w.pen, |mark|), true, allowBreaks).text + end)
  {
    hide Indent;
    var w := Indent(cfg, m.pen);
    var mark := FoldMark(value, m.i);
    var t := Dq(cfg, value, m.i + 1, PutPen(w.pen, |mark|), true, allowBreaks).text;
    assert Dq(cfg, value, m.i, m.pen, m.spaces, allowBreaks).text == w.text + mark + t;
    Assoc4(w.text, mark, t, end);
    Assoc(mark, t, end);
  }

  /** The line break and the indentation of a fold. */
  lemma DqFoldBreak(cfg: Settings, value: string, allowBreaks: bool, buf: string, rest: string, m: Meet) returns (n: Meet)
    requires DqMeet(cfg, value, allowBreaks, buf, rest, m) && DqFoldsHere(cfg, value, allowBreaks, m)
    ensures n == TakeFold(m, Indent(cfg, m.pen).pen, |Indent(cfg, m.pen).text|)
    ensures Together(value, buf, n) && n.column == n.pen.column == cfg.indent && n.pen.footIndent == -1
    ensures var mark := FoldMark(value, m.i);
      buf[n.p..] == mark + Dq(cfg, value, n.i, PutPen(n.pen, |mark|), true, allowBreaks).text + ("\"" + rest)
    ensures Reading(false, buf, m) == Reading(false, buf, n)
  {
    hide Word, Blanks, Dq;
    var w := Indent(cfg, m.pen);
    var mark := FoldMark(value, m.i);
    var end := "\"" + rest;
    var t := Dq(cfg, value, m.i + 1, PutPen(w.pen, |mark|), true, allowBreaks).text;
    DqAtFold(cfg, value, allowBreaks, m, end);
    FoldReads(false, cfg, m.pen, buf, m.p, m.column, m.s, m.inWord, m.g, mark + t + end);
    n := TakeFold(m, w.pen, |w.text|);
  }

  lemma DqFold(cfg: Settings, value: string, allowBreaks: bool, buf: string, rest: string, m: Meet) returns (n: Meet)
    requires DqMeet(cfg, value, allowBreaks, buf, rest, m) && DqFoldsHere(cfg, value, allowBreaks, m)
    ensures n.i > m.i && DqMeet(cfg, value, allowBreaks, buf, rest, n)
    ensures Reading(false, buf, m) == Reading(false, buf, n)
  {
    hide Word, Blanks, Dq;
    n := DqFoldBreak(cfg, value, allowBreaks, buf, rest, m);
    if IsSpace(value[m.i + 1]) {
      n := DqSpaceAfterFold(cfg, value, allowBreaks, buf, rest, n.(pen := PutPen(n.pen, 1)));
    } else {
      var t := Dq(cfg, value, n.i, n.pen, true, allowBreaks).text;
      assert PutPen(n.pen, 0) == n.pen;
      assert "" + t == t;
    }
  }

  /** The escaped space that keeps a run of spaces alive across a fold. */
  lemma DqSpaceAfterFold(cfg: Settings, value: string, allowBreaks: bool, buf: string, rest: string, m: Meet) returns (n: Meet)
    requires m.i < |value| && IsSpace(value[m.i]) && !NeedsEscape(cfg.unicode, value, m.i)
    requires cfg.indent >= 1 && m.pen.footIndent == -1 && m.pen.column > cfg.indent && m.column > 0
    requires Together(value, buf, m) && m.spaces && !m.inWord
    requires buf[m.p..] == "\\" + Dq(cfg, value, m.i, m.pen, true, allowBreaks).text + ("\"" + rest)
    ensures n.i > m.i && DqMeet(cfg, value, allowBreaks, buf, rest, n)
    ensures Reading(false, buf, m) == Reading(false, buf, n)
  {
    hide Word, Blanks, Dq;
    n := TakeChar(m, PutPen(m.pen, 1), ' ', 2).(spaces := true);
    var t := Dq(cfg, value, n.i, n.pen, true, allowBreaks).text;
    var tail := t + ("\"" + rest);
    DqAtSpace(cfg, value, m.i, m.pen, allowBreaks);
    assert "\\" + (" " + t) + ("\"" + rest) == "\\ " + tail;
    EscapedSpaceReads(buf, m.p, m.column, m.s, m.g, tail);
  }

  lemma DqAtSpace(cfg: Settings, value: string, i: nat, pen: Pen, allowBreaks: bool)
    requires i < |value| && IsSpace(value[i]) && !NeedsEscape(cfg.unicode, value, i)
    ensures Dq(cfg, value, i, pen, true, allowBreaks).text == " " + Dq(cfg, value, i + 1, PutPen(pen, 1), true, allowBreaks).text
  {}

  lemma EscapedSpaceReads(buf: string, p: nat, column: nat, s: string, g: Gap, rest: string)
    requires p <= |buf| && buf[p..] == "\\ " + rest && column > 0
    ensures p + 2 <= |buf| && buf[p + 2..] == rest
    ensures Blanks(false, buf, p, column, s, g) == Word(false, buf, p + 2, column + 2, s + Join(g) + [' '])
  {
    Advance(buf, p, "\\ ", rest);
    assert At(buf, p + 0) == '\\' && At(buf, p + 1) == ' ';
    Settle(false, buf, p, column, s, false, g);
  }

  lemma DqAtPlainChar(cfg: Settings, value: string, allowBreaks: bool, m: Meet)
    requires m.i < |value| && !NeedsEscape(cfg.unicode, value, m.i)
    requires !(IsSpace(value[m.i]) && DqFolds(cfg, value, m.i, m.pen, m.spaces, allowBreaks))
    ensures Dq(cfg, value, m.i, m.pen, m.spaces, allowBreaks).text
         == [value[m.i]] + Dq(cfg, value, m.i + 1, PutPen(m.pen, 1), IsSpace(value[m.i]), allowBreaks).text
  {}

  lemma DqPlainChar(cfg: Settings, value: string, allowBreaks: bool, buf: string, rest: string, m: Meet) returns (n: Meet)
    requires DqMeet(cfg, value, allowBreaks, buf, rest, m) && m.i < |value| && !NeedsEscape(cfg.unicode, value, m.i)
    requires !(IsSpace(value[m.i]) && DqFolds(cfg, value, m.i, m.pen, m.spaces, allowBreaks))
    ensures n.i > m.i && DqMeet(cfg, value, allowBreaks, buf, rest, n)
    ensures Reading(false, buf, m) == Reading(false, buf, n)
  {
    hide Word, Blanks, Dq;
    var c := value[m.i];
    var t := Dq(cfg, value, m.i + 1, PutPen(m.pen, 1), IsSpace(c), allowBreaks).text;
    var tail := t + ("\"" + rest);
    DqAtPlainChar(cfg, value, allowBreaks, m);
    Assoc([c], t, "\"" + rest);
    if IsSpace(c) {
      SpaceReads(false, buf, m.p, m.column, m.s, m.inWord, m.g, tail);
      n := TakeSpace(m);
    } else {
      CharReads(false, buf, m.p, m.column, m.s, m.inWord, m.g, c, tail);
      n := TakeChar(m, PutPen(m.pen, 1), c, 1);
    }
  }

  lemma {:induction false} DqReads(cfg: Settings, value: string, allowBreaks: bool, buf: string, rest: string, m: Meet)
    requires DqMeet(cfg, value, allowBreaks, buf, rest, m)
    ensures ReadsAs(Reading(false, buf, m), value, |buf| - |rest|)
    decreases |value| - m.i
  {
    if m.i == |value| {
      DqClose(cfg, value, allowBreaks, buf, rest, m);
    } else {
      var n: Meet;
      if NeedsEscape(cfg.unicode, value, m.i) {
        n := DqEscape(cfg, value, allowBreaks, buf, rest, m);
      } else if IsSpace(value[m.i]) && DqFolds(cfg, value, m.i, m.pen, m.spaces, allowBreaks) {
        n := DqFold(cfg, value, allowBreaks, buf, rest, m);
      } else {
        n := DqPlainChar(cfg, value, allowBreaks, buf, rest, m);
      }
      DqReads(cfg, value, allowBreaks, buf, rest, n);
    }
  }

  /** A quoted text between what precedes and what follows it. */
  lemma QuotedBuffer(before: string, lead: string, q: char, body: string, rest: string)
    ensures var text := lead + [q] + body + [q];
      var buf := before + text + rest;
      var p := |before| + |lead|;
      && lead <= text
      && p < |buf| && buf[p] == q && buf[p + 1..] == body + ([q] + rest)
  {
    var text := lead + [q] + body + [q];
    assert text == lead + ([q] + body + [q]);
    var tail := body + ([q] + rest);
    assert before + text + rest == before + lead + [q] + tail;
    AfterOpening(before + lead, q, tail);
  }

  lemma Opens(single: bool, buf: string, p: nat, column: nat)
    requires p < |buf| && !IsZ(At(buf, p + 1))
    ensures ScanFlowScalar(single, buf, p, column) == Word(single, buf, p + 1, column + 1, "")
  {}

  lemma StartsTogether(value: string)
    ensures "" + Join(NoGap) == value[..0]
  {}

  /** Double-quoted round trip, for every value, width, break, indentation and escaping:
      scanning from the opening quote gives the value back and stops just past the closing
      quote, whatever follows. */
  lemma DoubleQuotedRoundTrip(cfg: Settings, value: string, pen: Pen, allowBreaks: bool, before: string, column: nat, rest: string)
    requires cfg.indent >= 1 && pen.footIndent == -1
    ensures var w := DoubleQuoted(cfg, value, pen, allowBreaks);
      var lead := if pen.whitespace then "" else " ";
      var buf := before + w.text + rest;
      && lead <= w.text
      && ReadsAs(ScanFlowScalar(false, buf, |before| + |lead|, column), value, |before| + |w.text|)
  {
    hide Dq, Word, Blanks, ScanFlowScalar;
    var lead := if pen.whitespace then "" else " ";
    var open := Indicator("\"", pen, true, false, false);
    var body := Dq(cfg, value, 0, open.pen, false, allowBreaks).text;
    assert DoubleQuoted(cfg, value, pen, allowBreaks).text == lead + "\"" + body + "\"";
    QuotedBuffer(before, lead, '"', body, rest);
    var buf := before + (lead + "\"" + body + "\"") + rest;
    var p := |before| + |lead|;
    StartsTogether(value);
    DqReads(cfg, value, allowBreaks, buf, rest, Meet(0, open.pen, false, false, p + 1, column + 1, "", true, NoGap));
    DqFirst(cfg, value, open.pen, allowBreaks);
    assert At(buf, p + 1) == (body + ("\"" + rest))[0];
    Opens(false, buf, p, column);
  }

  lemma DqFirst(cfg: Settings, value: string, pen: Pen, allowBreaks: bool)
    ensures var t := Dq(cfg, value, 0, pen, false, allowBreaks).text;
      t == "" || !IsZ(t[0])
  {}

  // ----- single-quoted -----

  predicate SqMeet(cfg: Settings, value: string, allowBreaks: bool, buf: string, rest: string, m: Meet) {
    && Together(value, buf, m)
    && cfg.indent >= 1 && m.pen.footIndent == -1
    && SingleQuotedAllowed(cfg.unicode, value)
    && At(rest, 0) != '\''
    && buf[m.p..] == Sq(cfg, value, m.i, m.pen, m.spaces, m.breaks, allowBreaks).text + ("'" + rest)
    && (m.spaces <==> m.i > 0 && IsSpace(value[m.i - 1]))
    && (m.breaks <==> m.i > 0 && IsBreak(value[m.i - 1]))
    && (!m.spaces && !m.breaks ==> m.inWord && !m.pen.indention)
    && (m.g.leading && !m.breaks ==> m.i < |value| && !IsSpace(value[m.i]))
    && (if m.breaks then
          m.pen.column == 0 && m.pen.indention && m.column == 0 && InBreaks(m.g)
        else m.column > 0)
  }

  /** The gap of a run of line breaks stands for exactly that run. */
  predicate InBreaks(g: Gap) {
    g.leading && g.first != "" && (g.first[0] == '\n' ==> g.rest != "")
  }

  lemma SqClose(cfg: Settings, value: string, allowBreaks: bool, buf: string, rest: string, m: Meet)
    requires SqMeet(cfg, value, allowBreaks, buf, rest, m) && m.i == |value|
    ensures ReadsAs(Reading(true, buf, m), value, |buf| - |rest|)
  {
    assert "" + ("'" + rest) == "'" + rest;
    Advance(buf, m.p, "'", rest);
    assert At(buf, m.p + 0) == '\'';
    Settle(true, buf, m.p, m.column, m.s, m.inWord, m.g);
  }

  lemma SqNeighbours(cfg: Settings, value: string, i: nat)
    requires SingleQuotedAllowed(cfg.unicode, value) && i < |value|
    ensures value[i] != '\t' && value[i] != '\r' && value[i] != NEL && value[i] != '\0'
    ensures IsSpace(value[i]) && i > 0 ==> !IsBreak(value[i - 1])
    ensures IsSpace(value[i]) && i + 1 < |value| ==> !IsBreak(value[i + 1])
  {
    assert !SpecialAt(cfg.unicode, value, i) && !TabAt(value, i);
    assert !BreakSpaceAt(value, i);
    assert !SpaceBreakAt(value, i + 1);
  }

  lemma SqSpace(cfg: Settings, value: string, allowBreaks: bool, buf: string, rest: string, m: Meet) returns (n: Meet)
    requires SqMeet(cfg, value, allowBreaks, buf, rest, m) && m.i < |value| && IsSpace(value[m.i])
    requires !SqFolds(cfg, value, m.i, m.pen, m.spaces, allowBreaks)
    ensures n.i > m.i && SqMeet(cfg, value, allowBreaks, buf, rest, n)
    ensures Reading(true, buf, m) == Reading(true, buf, n)
  {
    hide Word, Blanks, SingleQuotedAllowed;
    SqNeighbours(cfg, value, m.i);
    n := TakeSpace(m);
    var tail := Sq(cfg, value, n.i, n.pen, true, false, allowBreaks).text + ("'" + rest);
    assert buf[m.p..] == " " + tail;
    SpaceReads(true, buf, m.p, m.column, m.s, m.inWord, m.g, tail);
  }

  lemma SqFold(cfg: Settings, value: string, allowBreaks: bool, buf: string, rest: string, m: Meet) returns (n: Meet)
    requires SqMeet(cfg, value, allowBreaks, buf, rest, m) && m.i < |value| && IsSpace(value[m.i])
    requires SqFolds(cfg, value, m.i, m.pen, m.spaces, allowBreaks)
    ensures n.i > m.i && SqMeet(cfg, value, allowBreaks, buf, rest, n)
    ensures Reading(true, buf, m) == Reading(true, buf, n)
  {
    hide Word, Blanks, SingleQuotedAllowed;
    SqNeighbours(cfg, value, m.i);
    var w := Indent(cfg, m.pen);
    n := TakeFold(m, w.pen, |w.text|);
    var tail := Sq(cfg, value, n.i, w.pen, true, false, allowBreaks).text + ("'" + rest);
    assert buf[m.p..] == w.text + tail;
    FoldReads(true, cfg, m.pen, buf, m.p, m.column, m.s, m.inWord, m.g, tail);
  }

  /** What follows a line break never merges with it into a CR LF pair. */
  lemma SqHead(cfg: Settings, value: string, i: nat, pen: Pen, spaces: bool, breaks: bool, allowBreaks: bool, rest: string)
    requires i <= |value| && SingleQuotedAllowed(cfg.unicode, value)
    requires pen.footIndent == -1
    ensures var t := Sq(cfg, value, i, pen, spaces, breaks, allowBreaks).text + ("'" + rest);
      At(t, 0) != '\n' || cfg.lineBreak == Ln
  {
    if i < |value| {
      SqNeighbours(cfg, value, i);
    }
  }

  lemma SqBreakText(cfg: Settings, value: string, allowBreaks: bool, buf: string, rest: string, m: Meet) returns (tail: string)
    requires SqMeet(cfg, value, allowBreaks, buf, rest, m) && m.i < |value| && IsBreak(value[m.i])
    ensures tail == Sq(cfg, value, m.i + 1, BreakPen(m.pen), false, true, allowBreaks).text + ("'" + rest)
    ensures buf[m.p..] == BreakRun(cfg, value[m.i], m.breaks) + tail
    ensures value[m.i] == '\n' || value[m.i] == LS || value[m.i] == PS
    ensures At(tail, 0) != '\n' || cfg.lineBreak == Ln
    ensures !m.spaces
  {
    hide SingleQuotedAllowed, Together, InBreaks;
    SqNeighbours(cfg, value, m.i);
    if m.spaces {
      SqNeighbours(cfg, value, m.i - 1);
    }
    var t := Sq(cfg, value, m.i + 1, BreakPen(m.pen), false, true, allowBreaks).text;
    tail := t + ("'" + rest);
    assert BreakRun(cfg, value[m.i], m.breaks) + t + ("'" + rest) == BreakRun(cfg, value[m.i], m.breaks) + tail;
    SqHead(cfg, value, m.i + 1, BreakPen(m.pen), false, true, allowBreaks, rest);
  }

  lemma SqBreak(cfg: Settings, value: string, allowBreaks: bool, buf: string, rest: string, m: Meet) returns (n: Meet)
    requires SqMeet(cfg, value, allowBreaks, buf, rest, m) && m.i < |value| && IsBreak(value[m.i])
    ensures n.i > m.i && SqMeet(cfg, value, allowBreaks, buf, rest, n)
    ensures Reading(true, buf, m) == Reading(true, buf, n)
  {
    hide Word, Blanks, SingleQuotedAllowed, Sq;
    var c := value[m.i];
    var tail := SqBreakText(cfg, value, allowBreaks, buf, rest, m);
    var g := BreakRunReads(true, cfg, buf, m.p, m.column, m.s, m.inWord, m.g, c, m.breaks, tail);
    n := m.(i := m.i + 1, pen := BreakPen(m.pen), breaks := true,
            p := m.p + |BreakRun(cfg, c, m.breaks)|, column := 0, inWord := false, g := g);
    assert value[..m.i + 1] == value[..m.i] + [c];
  }

  /** An LS or PS is copied. */
  lemma RawBreakReads(single: bool, buf: string, p: nat, column: nat, s: string, inWord: bool, g: Gap, c: char, rest: string)
    requires c == LS || c == PS
    requires p <= |buf| && buf[p..] == [c] + rest
    requires inWord ==> g == NoGap
    ensures p + 1 <= |buf| && buf[p + 1..] == rest
    ensures Resume(single, buf, p, column, s, inWord, g) == Blanks(single, buf, p + 1, 0, s, AddBreak(g, c))
  {
    Advance(buf, p, [c], rest);
    assert At(buf, p + 0) == c;
    if inWord {
      assert Word(single, buf, p, column, s) == Blanks(single, buf, p, column, s, NoGap);
    }
  }

  /** A doubled LF is read as one LF that folding keeps. */
  lemma DoubleBreakReads(single: bool, buf: string, p: nat, column: nat, s: string, lb: LineBreak, rest: string)
    requires p <= |buf| && buf[p..] == BreakOf(lb) + BreakOf(lb) + rest
    requires At(rest, 0) != '\n' || lb == Ln
    ensures var n := 2 * |BreakOf(lb)|;
      && p + n <= |buf| && buf[p + n..] == rest
      && Word(single, buf, p, column, s) == Blanks(single, buf, p + n, 0, s, Gap("", "\n", "\n", true))
  {
    hide Word, Blanks;
    var br := BreakOf(lb);
    assert br + br + rest == br + (br + rest);
    ReadBreak(single, buf, p, column, s, true, NoGap, lb, br + rest);
    var g := Gap("", "\n", "", true);
    assert "" + "\n" == "\n";
    assert AddBreak(NoGap, '\n') == g && AddBreak(g, '\n') == Gap("", "\n", "\n", true);
    ReadBreak(single, buf, p + |br|, 0, s, false, g, lb, rest);
  }

  lemma JoinBreak(g: Gap, c: char)
    requires c == '\n' || c == LS || c == PS
    requires if g.leading then InBreaks(g) else g == NoGap && c != '\n'
    ensures InBreaks(AddBreak(g, c)) && Join(AddBreak(g, c)) == Join(g) + [c]
  {
    Assoc(g.first, g.rest, [c]);
    if !g.leading {
      assert AddBreak(g, c) == Gap("", [c], "", true) by { assert "" + [c] == [c]; }
      assert [c] + "" == "" + [c];
    }
  }

  /** A doubled first LF, a further LF, or an LS or PS as it is. */
  lemma BreakRunReads(single: bool, cfg: Settings, buf: string, p: nat, column: nat, s: string, inWord: bool, g: Gap,
                      c: char, breaks: bool, rest: string) returns (h: Gap)
    requires c == '\n' || c == LS || c == PS
    requires p <= |buf| && buf[p..] == BreakRun(cfg, c, breaks) + rest
    requires At(rest, 0) != '\n' || cfg.lineBreak == Ln
    requires inWord ==> g == NoGap
    requires if breaks then !inWord && InBreaks(g) else inWord
    ensures InBreaks(h) && Join(h) == Join(g) + [c]
    ensures var q := p + |BreakRun(cfg, c, breaks)|;
      && q <= |buf| && buf[q..] == rest
      && Resume(single, buf, p, column, s, inWord, g) == Blanks(single, buf, q, 0, s, h)
  {
    hide Word, Blanks, AddBreak;
    if c != '\n' {
      RawBreakReads(single, buf, p, column, s, inWord, g, c, rest);
      JoinBreak(g, c);
      h := AddBreak(g, c);
    } else if breaks {
      ReadBreak(single, buf, p, column, s, inWord, g, cfg.lineBreak, rest);
      JoinBreak(g, '\n');
      h := AddBreak(g, '\n');
    } else {
      DoubleBreakReads(single, buf, p, column, s, cfg.lineBreak, rest);
      h := Gap("", "\n", "\n", true);
    }
  }

  function SqMargin(cfg: Settings, m: Meet): Written {
    if m.breaks then Indent(cfg, m.pen) else Written("", m.pen)
  }

  function SqContentPen(cfg: Settings, m: Meet, c: char): Pen {
    PutPen(SqMargin(cfg, m).pen, |QuotedChar(c)|).(indention := false)
  }

  lemma SqContentText(cfg: Settings, value: string, allowBreaks: bool, buf: string, rest: string, m: Meet) returns (tail: string)
    requires SqMeet(cfg, value, allowBreaks, buf, rest, m)
    requires m.i < |value| && !IsSpace(value[m.i]) && !IsBreak(value[m.i])
    ensures tail == Sq(cfg, value, m.i + 1, SqContentPen(cfg, m, value[m.i]), false, false, allowBreaks).text + ("'" + rest)
    ensures buf[m.p..] == SqMargin(cfg, m).text + (QuotedChar(value[m.i]) + tail)
    ensures SqMargin(cfg, m).text == if m.breaks then Spaces(cfg.indent) else ""
  {
    hide Sq, SingleQuotedAllowed, Together, InBreaks;
    SqAtWord(cfg, value, m.i, m.pen, m.spaces, m.breaks, allowBreaks);
    var t := Sq(cfg, value, m.i + 1, SqContentPen(cfg, m, value[m.i]), false, false, allowBreaks).text;
    var margin := SqMargin(cfg, m).text;
    var c := QuotedChar(value[m.i]);
    tail := t + ("'" + rest);
    assert margin + c + t + ("'" + rest) == margin + (c + tail);
  }

  /** The indentation after a run of line breaks. */
  lemma SqMarginReads(cfg: Settings, value: string, allowBreaks: bool, buf: string, rest: string, m: Meet) returns (tail: string)
    requires SqMeet(cfg, value, allowBreaks, buf, rest, m)
    requires m.i < |value| && !IsSpace(value[m.i]) && !IsBreak(value[m.i])
    ensures tail == Sq(cfg, value, m.i + 1, SqContentPen(cfg, m, value[m.i]), false, false, allowBreaks).text + ("'" + rest)
    ensures var q, column := m.p + |SqMargin(cfg, m).text|, m.column + |SqMargin(cfg, m).text|;
      && column > 0 && q <= |buf| && buf[q..] == QuotedChar(value[m.i]) + tail
      && Reading(true, buf, m) == Resume(true, buf, q, column, m.s, m.inWord, m.g)
  {
    hide Word, Blanks, Sq, SingleQuotedAllowed, Join, Indent, QuotedChar;
    tail := SqContentText(cfg, value, allowBreaks, buf, rest, m);
    var end := QuotedChar(value[m.i]) + tail;
    if m.breaks {
      SkipMargin(true, buf, m.p, m.column, m.s, m.g, cfg.indent, end);
    } else {
      assert "" + end == end;
    }
  }

  /** A word character, after the indentation that follows a run of line breaks. */
  lemma SqContent(cfg: Settings, value: string, allowBreaks: bool, buf: string, rest: string, m: Meet) returns (n: Meet)
    requires SqMeet(cfg, value, allowBreaks, buf, rest, m)
    requires m.i < |value| && !IsSpace(value[m.i]) && !IsBreak(value[m.i])
    ensures n.i > m.i && SqMeet(cfg, value, allowBreaks, buf, rest, n)
    ensures Reading(true, buf, m) == Reading(true, buf, n)
  {
    hide Word, Blanks, Sq, SingleQuotedAllowed, InBreaks, QuotedChar, Indent;
    var c := value[m.i];
    var w := SqMargin(cfg, m);
    assert !IsBlankz(c) by { SqNeighbours(cfg, value, m.i); }
    var tail := SqMarginReads(cfg, value, allowBreaks, buf, rest, m);
    assert w.pen.footIndent == -1 by { SqMarginFoot(cfg, m); }
    QuotedCharReads(buf, m.p + |w.text|, m.column + |w.text|, m.s, m.inWord, m.g, c, tail);
    n := TakeChar(m, SqContentPen(cfg, m, c), c, |w.text| + |QuotedChar(c)|);
    Grow(value, m.i);
  }

  lemma SqMarginFoot(cfg: Settings, m: Meet)
    requires m.pen.footIndent == -1
    ensures SqMargin(cfg, m).pen.footIndent == -1
  {}

  lemma Grow(value: string, i: nat)
    requires i < |value|
    ensures value[..i + 1] == value[..i] + [value[i]]
  {}

  lemma QuotedCharReads(buf: string, p: nat, column: nat, s: string, inWord: bool, g: Gap, c: char, rest: string)
    requires !IsBlankz(c) && column > 0
    requires inWord ==> g == NoGap
    requires p <= |buf| && buf[p..] == QuotedChar(c) + rest
    ensures var n := |QuotedChar(c)|;
      && p + n <= |buf| && buf[p + n..] == rest
      && Resume(true, buf, p, column, s, inWord, g) == Word(true, buf, p + n, column + n, s + Join(g) + [c])
  {
    if c == '\'' {
      Advance(buf, p, "''", rest);
      assert At(buf, p + 0) == '\'' && At(buf, p + 1) == '\'';
      Settle(true, buf, p, column, s, inWord, g);
    } else {
      CharReads(true, buf, p, column, s, inWord, g, c, rest);
    }
  }

  lemma {:induction false} SqReads(cfg: Settings, value: string, allowBreaks: bool, buf: string, rest: string, m: Meet)
    requires SqMeet(cfg, value, allowBreaks, buf, rest, m)
    ensures ReadsAs(Reading(true, buf, m), value, |buf| - |rest|)
    decreases |value| - m.i
  {
    if m.i == |value| {
      SqClose(cfg, value, allowBreaks, buf, rest, m);
    } else {
      var n: Meet;
      if IsSpace(value[m.i]) {
        if SqFolds(cfg, value, m.i, m.pen, m.spaces, allowBreaks) {
          n := SqFold(cfg, value, allowBreaks, buf, rest, m);
        } else {
          n := SqSpace(cfg, value, allowBreaks, buf, rest, m);
        }
      } else if IsBreak(value[m.i]) {
        n := SqBreak(cfg, value, allowBreaks, buf, rest, m);
      } else {
        n := SqContent(cfg, value, allowBreaks, buf, rest, m);
      }
      SqReads(cfg, value, allowBreaks, buf, rest, n);
    }
  }

  /** Single-quoted round trip, whenever the analysis allows the style: runs of line
      breaks, LS and PS, leading and trailing breaks, quotes and folds included. */
  lemma SingleQuotedRoundTrip(cfg: Settings, value: string, pen: Pen, allowBreaks: bool, before: string, column: nat, rest: string)
    requires cfg.indent >= 1 && pen.footIndent == -1
    requires SingleQuotedAllowed(cfg.unicode, value)
    requires At(rest, 0) != '\''
    ensures var w := SingleQuoted(cfg, value, pen, allowBreaks);
      var lead := if pen.whitespace then "" else " ";
      var buf := before + w.text + rest;
      && lead <= w.text
      && ReadsAs(ScanFlowScalar(true, buf, |before| + |lead|, column), value, |before| + |w.text|)
  {
    hide Sq, Word, Blanks, ScanFlowScalar, SingleQuotedAllowed;
    var lead := if pen.whitespace then "" else " ";
    var open := Indicator("'", pen, true, false, false);
    var body := Sq(cfg, value, 0, open.pen, false, false, allowBreaks).text;
    assert SingleQuoted(cfg, value, pen, allowBreaks).text == lead + "'" + body + "'";
    QuotedBuffer(before, lead, '\'', body, rest);
    var buf := before + (lead + "'" + body + "'") + rest;
    var p := |before| + |lead|;
    StartsTogether(value);
    SqReads(cfg, value, allowBreaks, buf, rest, Meet(0, open.pen, false, false, p + 1, column + 1, "", true, NoGap));
    SqFirst(cfg, value, open.pen, allowBreaks);
    assert At(buf, p + 1) == (body + ("'" + rest))[0];
    Opens(true, buf, p, column);
  }

  lemma SqFirst(cfg: Settings, value: string, pen: Pen, allowBreaks: bool)
    requires SingleQuotedAllowed(cfg.unicode, value)
    ensures var t := Sq(cfg, value, 0, pen, false, false, allowBreaks).text;
      t == "" || !IsZ(t[0])
  {
    if value != "" {
      SqNeighbours(cfg, value, 0);
    }
  }
}
