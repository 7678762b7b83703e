/**
  Where the writers of plain and quoted scalars fold a value that has no line breaks itself,
  judged from the text alone: never within the best width, and beyond it at every single space.
 */
module LineWidth {
  import opened Basics
  import opened Chars
  import opened ScalarText
  import opened ScalarAnalysis

  /** Is every line full when it is broken, and broken at the first single space once it is? The
      text stands at the column, behind the character `prev`. In a double-quoted scalar the
      first of several spaces behind a fold has a backslash in front. */
  predicate Filled(width: int, quoted: bool, column: nat, prev: char, t: string)
    decreases |t|
  {
    t == "" || (
      && (IsBreak(t[0]) ==> column > width || prev == '\r')
      && (IsSpace(t[0]) && Single(quoted, prev, t) ==> column <= width)
      && Filled(width, quoted, if IsBreak(t[0]) then 0 else column + 1, t[0], t[1..]))
  }

  /** Is there no white space on either side of the first character? */
  predicate Single(quoted: bool, prev: char, t: string) {
    !IsBlankz(prev) && !(quoted && prev == '\\') && |t| > 1 && !IsBlankz(t[1])
  }

  lemma FilledStep(width: int, quoted: bool, column: nat, prev: char, c: char, t: string)
    requires IsBreak(c) ==> column > width || prev == '\r'
    requires IsSpace(c) && Single(quoted, prev, [c] + t) ==> column <= width
    requires Filled(width, quoted, if IsBreak(c) then 0 else column + 1, c, t)
    ensures Filled(width, quoted, column, prev, [c] + t)
  {
    assert ([c] + t)[1..] == t;
  }

  lemma {:induction false} FilledMargin(width: int, quoted: bool, column: nat, prev: char, n: nat, t: string)
    requires IsBlankz(prev) && Filled(width, quoted, column + n, if n == 0 then prev else ' ', t)
    ensures Filled(width, quoted, column, prev, Spaces(n) + t)
    decreases n
  {
    hide Filled;
    SpacesStep(n, t);
    if n > 0 {
      FilledMargin(width, quoted, column + 1, ' ', n - 1, t);
      FilledStep(width, quoted, column, prev, ' ', Spaces(n - 1) + t);
    }
  }

  /** A fold beyond the width. */
  lemma FilledFold(width: int, quoted: bool, column: nat, prev: char, lb: LineBreak, n: nat, t: string)
    requires column > width && n > 0 && Filled(width, quoted, n, ' ', t)
    ensures Filled(width, quoted, column, prev, BreakOf(lb) + (Spaces(n) + t))
  {
    hide Filled;
    var line := Spaces(n) + t;
    match lb
    case Cr =>
      FilledMargin(width, quoted, 0, '\r', n, t);
      FilledStep(width, quoted, column, prev, '\r', line);
    case Ln =>
      FilledMargin(width, quoted, 0, '\n', n, t);
      FilledStep(width, quoted, column, prev, '\n', line);
    case CrLn =>
      FilledMargin(width, quoted, 0, '\n', n, t);
      FilledStep(width, quoted, 0, '\r', '\n', line);
      FilledStep(width, quoted, column, prev, '\r', "\n" + line);
      assert BreakOf(lb) + line == "\r" + ("\n" + line);
  }

  /** Characters that are neither spaces nor breaks. */
  lemma {:induction false} FilledWord(width: int, quoted: bool, column: nat, prev: char, w: string, t: string)
    requires w != "" && (forall k :: 0 <= k < |w| ==> !IsSpace(w[k]) && !IsBreak(w[k]))
    requires Filled(width, quoted, column + |w|, w[|w| - 1], t)
    ensures Filled(width, quoted, column, prev, w + t)
    decreases |w|
  {
    hide Filled;
    assert w + t == [w[0]] + (w[1..] + t);
    if |w| == 1 {
      assert w[1..] + t == t;
    } else {
      FilledWord(width, quoted, column + 1, w[0], w[1..], t);
    }
    FilledStep(width, quoted, column, prev, w[0], w[1..] + t);
  }

  predicate PenReady(cfg: Settings, pen: Pen) { cfg.indent >= 1 && pen.footIndent == -1 && !pen.indention }

  lemma FoldPen(cfg: Settings, pen: Pen)
    requires PenReady(cfg, pen)
    ensures Indent(cfg, pen) == Written(BreakOf(cfg.lineBreak) + Spaces(cfg.indent), Pen(cfg.indent, true, true, -1))
  {
    FoldText(cfg, pen);
  }

  // ----- plain -----

  /** The pen behind a fold may start a line, but no space is next then. */
  predicate PlainReady(cfg: Settings, value: string, i: nat, pen: Pen) {
    cfg.indent >= 1 && pen.footIndent == -1 && (pen.indention && i < |value| ==> !IsSpace(value[i]))
  }

  lemma PlainBegins(cfg: Settings, value: string, i: nat, pen: Pen, allowBreaks: bool)
    requires i < |value| && IsSpace(value[i])
    ensures Pl(cfg, value, i, pen, true, false, allowBreaks).text == " " + Pl(cfg, value, i + 1, PutPen(pen, 1), true, false, allowBreaks).text
  {}

  /** `prev` is the character before the text. */
  lemma {:induction false} PlainFilled(cfg: Settings, value: string, i: nat, pen: Pen, spaces: bool, prev: char)
    requires i <= |value| && !HasBreak(value) && PlainReady(cfg, value, i, pen) && (spaces ==> prev == ' ')
    ensures Filled(cfg.bestWidth, false, pen.column, prev, Pl(cfg, value, i, pen, spaces, false, true).text)
    decreases |value| - i
  {
    hide Filled, HasBreak, Indent;
    if i == |value| {
      Empty(cfg.bestWidth, false, pen.column, prev);
    } else {
      NoBreakAt(value, i);
      var c := value[i];
      if IsSpace(c) && PlainFolds(cfg, value, i, pen, spaces, true) {
        FoldPen(cfg, pen);
        var next := Indent(cfg, pen).pen;
        var t := Pl(cfg, value, i + 1, next, true, false, true).text;
        PlainFilled(cfg, value, i + 1, next, true, ' ');
        FilledFold(cfg.bestWidth, false, pen.column, prev, cfg.lineBreak, cfg.indent, t);
        Assoc(BreakOf(cfg.lineBreak), Spaces(cfg.indent), t);
      } else if IsSpace(c) {
        var t := Pl(cfg, value, i + 1, PutPen(pen, 1), true, false, true).text;
        PlainFilled(cfg, value, i + 1, PutPen(pen, 1), true, ' ');
        if i + 1 == |value| {
          assert " " + t == " ";
        } else if IsSpace(value[i + 1]) {
          PlainBegins(cfg, value, i + 1, PutPen(pen, 1), true);
          assert (" " + t)[1] == ' ';
        }
        FilledStep(cfg.bestWidth, false, pen.column, prev, ' ', t);
      } else {
        var next := PutPen(pen, 1).(indention := false);
        PlainFilled(cfg, value, i + 1, next, false, c);
        assert "" + [c] == [c];
        FilledWord(cfg.bestWidth, false, pen.column, prev, [c], Pl(cfg, value, i + 1, next, false, false, true).text);
      }
    }
  }

  lemma Empty(width: int, quoted: bool, column: nat, prev: char)
    ensures Filled(width, quoted, column, prev, "")
  {}

  lemma NoBreakAt(value: string, i: nat)
    requires i < |value| && !HasBreak(value)
    ensures !IsBreak(value[i])
  {
    assert !BreakAt(value, i);
  }

  // ----- single-quoted -----

  lemma SingleBegins(cfg: Settings, value: string, i: nat, pen: Pen, allowBreaks: bool)
    requires i < |value| && IsSpace(value[i])
    ensures Sq(cfg, value, i, pen, true, false, allowBreaks).text == " " + Sq(cfg, value, i + 1, PutPen(pen, 1), true, false, allowBreaks).text
  {}

  /** The first character and the last one are left alone. */
  lemma {:induction false} SingleFilled(cfg: Settings, value: string, i: nat, pen: Pen, spaces: bool, prev: char)
    requires i <= |value| && !HasBreak(value) && cfg.indent >= 1 && pen.footIndent == -1 && (pen.indention ==> spaces)
    requires (spaces ==> prev == ' ') && (i == 0 ==> IsBlankz(prev))
    ensures Filled(cfg.bestWidth, false, pen.column, prev, Sq(cfg, value, i, pen, spaces, false, true).text)
    decreases |value| - i
  {
    hide Filled, HasBreak, Indent, Sq;
    if i == |value| {
      SqAtEnd(cfg, value, pen, spaces, false, true);
      Empty(cfg.bestWidth, false, pen.column, prev);
    } else {
      NoBreakAt(value, i);
      var c := value[i];
      if IsSpace(c) && SqFolds(cfg, value, i, pen, spaces, true) {
        SqAtFold(cfg, value, i, pen, spaces, false, true);
        FoldPen(cfg, pen);
        var next := Indent(cfg, pen).pen;
        var t := Sq(cfg, value, i + 1, next, true, false, true).text;
        SingleFilled(cfg, value, i + 1, next, true, ' ');
        FilledFold(cfg.bestWidth, false, pen.column, prev, cfg.lineBreak, cfg.indent, t);
        Assoc(BreakOf(cfg.lineBreak), Spaces(cfg.indent), t);
      } else if IsSpace(c) {
        SqAtSpace(cfg, value, i, pen, spaces, false, true);
        var t := Sq(cfg, value, i + 1, PutPen(pen, 1), true, false, true).text;
        SingleFilled(cfg, value, i + 1, PutPen(pen, 1), true, ' ');
        if i + 1 == |value| {
          SqAtEnd(cfg, value, PutPen(pen, 1), true, false, true);
          assert " " + t == " ";
        } else if IsSpace(value[i + 1]) {
          SingleBegins(cfg, value, i + 1, PutPen(pen, 1), true);
          assert (" " + t)[1] == ' ';
        }
        FilledStep(cfg.bestWidth, false, pen.column, prev, ' ', t);
      } else {
        SqAtWord(cfg, value, i, pen, spaces, false, true);
        var w := QuotedChar(c);
        var next := PutPen(pen, |w|).(indention := false);
        SingleFilled(cfg, value, i + 1, next, false, c);
        assert "" + w == w;
        FilledWord(cfg.bestWidth, false, pen.column, prev, w, Sq(cfg, value, i + 1, next, false, false, true).text);
      }
    }
  }

  // ----- double-quoted -----

  lemma EscapeIsWord(c: char)
    ensures var e := EscapeText(c); e != "" && forall k :: 0 <= k < |e| ==> !IsSpace(e[k]) && !IsBreak(e[k])
  {
    HexIsWord(c as int, EscapeWidth(c as int));
  }

  lemma {:induction false} HexIsWord(v: nat, w: nat)
    ensures forall k :: 0 <= k < w ==> !IsSpace(HexText(v, w)[k]) && !IsBreak(HexText(v, w)[k])
  {
    if w > 0 {
      HexIsWord(v / 16, w - 1);
    }
  }

  lemma NotEscapedIsNoBreak(unicode: bool, value: string, i: nat)
    requires i < |value| && !NeedsEscape(unicode, value, i)
    ensures !IsBreak(value[i])
  {}

  lemma DoubleFolds(cfg: Settings, value: string, i: nat, pen: Pen)
    requires i + 1 < |value| && !NeedsEscape(cfg.unicode, value, i) && IsSpace(value[i]) && DqFolds(cfg, value, i, pen, false, true)
    requires DoubleReady(cfg, pen, false)
    ensures var mark := if IsSpace(value[i + 1]) then "\\" else "";
      Dq(cfg, value, i, pen, false, true).text
      == BreakOf(cfg.lineBreak) + (Spaces(cfg.indent)
         + (mark + Dq(cfg, value, i + 1, PutPen(Pen(cfg.indent, true, true, -1), |mark|), true, true).text))
  {
    hide Indent;
    FoldText(cfg, pen);
    var mark := if IsSpace(value[i + 1]) then "\\" else "";
    var t := Dq(cfg, value, i + 1, PutPen(Pen(cfg.indent, true, true, -1), |mark|), true, true).text;
    Assoc(BreakOf(cfg.lineBreak) + Spaces(cfg.indent), mark, t);
    Assoc(BreakOf(cfg.lineBreak), Spaces(cfg.indent), mark + t);
  }

  /** At the margin there are only spaces to be skipped. */
  predicate DoubleReady(cfg: Settings, pen: Pen, spaces: bool) {
    && cfg.indent >= 1 && pen.footIndent == -1
    && (pen.indention ==> pen.column >= cfg.indent && (spaces || pen.column > cfg.indent))
  }

  lemma {:induction false} DoubleFilled(cfg: Settings, value: string, i: nat, pen: Pen, spaces: bool, prev: char)
    requires i <= |value| && DoubleReady(cfg, pen, spaces)
    requires (spaces ==> prev == ' ' || prev == '\\') && (i == 0 ==> IsBlankz(prev))
    ensures Filled(cfg.bestWidth, true, pen.column, prev, Dq(cfg, value, i, pen, spaces, true).text)
    decreases |value| - i
  {
    hide Filled, Indent, EscapeText, NeedsEscape;
    if i == |value| {
      Empty(cfg.bestWidth, true, pen.column, prev);
    } else if NeedsEscape(cfg.unicode, value, i) {
      var e := EscapeText(value[i]);
      EscapeIsWord(value[i]);
      DoubleFilled(cfg, value, i + 1, PutPen(pen, |e|), false, e[|e| - 1]);
      FilledWord(cfg.bestWidth, true, pen.column, prev, e, Dq(cfg, value, i + 1, PutPen(pen, |e|), false, true).text);
    } else if IsSpace(value[i]) && DqFolds(cfg, value, i, pen, spaces, true) {
      DoubleFolds(cfg, value, i, pen);
      var m: nat := cfg.indent;
      var mark := if IsSpace(value[i + 1]) then "\\" else "";
      var next := PutPen(Pen(m, true, true, -1), |mark|);
      var t := Dq(cfg, value, i + 1, next, true, true).text;
      if mark == "" {
        DoubleFilled(cfg, value, i + 1, next, true, ' ');
        assert mark + t == t;
      } else {
        DoubleFilled(cfg, value, i + 1, next, true, '\\');
        FilledWord(cfg.bestWidth, true, m, ' ', mark, t);
      }
      FilledFold(cfg.bestWidth, true, pen.column, prev, cfg.lineBreak, m, mark + t);
    } else if IsSpace(value[i]) {
      var t := Dq(cfg, value, i + 1, PutPen(pen, 1), true, true).text;
      DoubleFilled(cfg, value, i + 1, PutPen(pen, 1), true, ' ');
      if i + 1 == |value| {
        assert " " + t == " ";
      }
      FilledStep(cfg.bestWidth, true, pen.column, prev, ' ', t);
    } else {
      DoubleFilled(cfg, value, i + 1, PutPen(pen, 1), false, value[i]);
      NotEscapedIsNoBreak(cfg.unicode, value, i);
      FilledWord(cfg.bestWidth, true, pen.column, prev, [value[i]], Dq(cfg, value, i + 1, PutPen(pen, 1), false, true).text);
    }
  }
}
