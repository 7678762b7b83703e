/**
  What the emitter writes for a scalar gets through the reader: every character is one that
  the reader accepts, so the scanner sees the text that was written.
 */
module EmittedText {
  import opened Chars
  import opened ScalarText
  import opened ScalarAnalysis
  import opened StyleSelection
  import Decoding
  import Utf8

  lemma AcceptedConcat(a: string, b: string)
    requires Decoding.AllAccepted(a) && Decoding.AllAccepted(b)
    ensures Decoding.AllAccepted(a + b)
  {}

  lemma BreakAccepted(lb: LineBreak)
    ensures Decoding.AllAccepted(BreakOf(lb))
  {}

  lemma IndentAccepted(cfg: Settings, pen: Pen)
    ensures Decoding.AllAccepted(Indent(cfg, pen).text)
  {
    hide Spaces;
    BreakAccepted(cfg.lineBreak);
    var moved := IndentBreaks(cfg, pen) || pen.footIndent == Margin(cfg);
    var first := if IndentBreaks(cfg, pen) then BreakOf(cfg.lineBreak) else "";
    var second := if pen.footIndent == Margin(cfg) then BreakOf(cfg.lineBreak) else "";
    AcceptedConcat(first, second);
    AcceptedConcat(first + second, Spaces(Margin(cfg) - if moved then 0 else pen.column));
  }

  lemma IndicatorAccepted(s: string, pen: Pen, needWhitespace: bool, isWhitespace: bool, isIndention: bool)
    requires Decoding.AllAccepted(s)
    ensures Decoding.AllAccepted(Indicator(s, pen, needWhitespace, isWhitespace, isIndention).text)
  {
    AcceptedConcat(if needWhitespace && !pen.whitespace then " " else "", s);
  }

  lemma {:induction false} HexAccepted(v: nat, w: nat)
    ensures Decoding.AllAccepted(HexText(v, w))
  {
    if w > 0 {
      HexAccepted(v / 16, w - 1);
      AcceptedConcat(HexText(v / 16, w - 1), [HexDigit(v % 16)]);
    }
  }

  lemma EscapeAccepted(c: char)
    ensures Decoding.AllAccepted(EscapeText(c))
  {
    var v := c as int;
    HexAccepted(v, EscapeWidth(v));
    if ShortEscape(c) == "" {
      AcceptedConcat([EscapeLetter(v)], HexText(v, EscapeWidth(v)));
      AcceptedConcat("\\", [EscapeLetter(v)] + HexText(v, EscapeWidth(v)));
    } else {
      AcceptedConcat("\\", ShortEscape(c));
    }
  }

  lemma RawAccepted(unicode: bool, value: string, i: nat)
    requires i < |value| && !NeedsEscape(unicode, value, i)
    ensures ReaderAccepts(value[i])
  {}

  lemma {:induction false} DqAccepted(cfg: Settings, value: string, i: nat, pen: Pen, spaces: bool, allowBreaks: bool)
    requires i <= |value|
    ensures Decoding.AllAccepted(Dq(cfg, value, i, pen, spaces, allowBreaks).text)
    decreases |value| - i
  {
    hide Indent, EscapeText, NeedsEscape, DqFolds, ReaderAccepts;
    if i == |value| {
    } else if NeedsEscape(cfg.unicode, value, i) {
      var e := EscapeText(value[i]);
      EscapeAccepted(value[i]);
      DqAccepted(cfg, value, i + 1, PutPen(pen, |e|), false, allowBreaks);
      AcceptedConcat(e, Dq(cfg, value, i + 1, PutPen(pen, |e|), false, allowBreaks).text);
    } else if IsSpace(value[i]) && DqFolds(cfg, value, i, pen, spaces, allowBreaks) {
      var w := Indent(cfg, pen);
      assert i + 1 < |value| by { FoldsInside(cfg, value, i, pen, spaces, allowBreaks); }
      var mark := if IsSpace(value[i + 1]) then "\\" else "";
      IndentAccepted(cfg, pen);
      BackslashAccepted();
      AcceptedConcat(w.text, mark);
      DqAccepted(cfg, value, i + 1, PutPen(w.pen, |mark|), true, allowBreaks);
      AcceptedConcat(w.text + mark, Dq(cfg, value, i + 1, PutPen(w.pen, |mark|), true, allowBreaks).text);
    } else {
      RawAccepted(cfg.unicode, value, i);
      DqAccepted(cfg, value, i + 1, PutPen(pen, 1), IsSpace(value[i]), allowBreaks);
      AcceptedConcat([value[i]], Dq(cfg, value, i + 1, PutPen(pen, 1), IsSpace(value[i]), allowBreaks).text);
    }
  }

  lemma FoldsInside(cfg: Settings, value: string, i: nat, pen: Pen, spaces: bool, allowBreaks: bool)
    requires DqFolds(cfg, value, i, pen, spaces, allowBreaks)
    ensures i + 1 < |value|
  {}

  lemma BackslashAccepted()
    ensures Decoding.AllAccepted("\\") && Decoding.AllAccepted("\"") && Decoding.AllAccepted("'") && Decoding.AllAccepted("''") && Decoding.AllAccepted(" ") && Decoding.AllAccepted("")
  {}

  lemma PlainCharacter(unicode: bool, value: string, i: nat)
    requires i < |value| && !HasSpecial(unicode, value)
    ensures ReaderAccepts(value[i])
  {
    assert !SpecialAt(unicode, value, i);
  }

  lemma BreakRunAccepted(cfg: Settings, c: char, breaks: bool)
    requires ReaderAccepts(c)
    ensures Decoding.AllAccepted(BreakRun(cfg, c, breaks))
  {
    BreakAccepted(cfg.lineBreak);
    AcceptedConcat(BreakOf(cfg.lineBreak), BreakOf(cfg.lineBreak));
  }

  /** The margin before a word that follows line breaks, and the word's first character. */
  lemma MarginAccepted(cfg: Settings, pen: Pen, breaks: bool, chunk: string)
    requires Decoding.AllAccepted(chunk)
    ensures Decoding.AllAccepted((if breaks then Indent(cfg, pen) else Written("", pen)).text + chunk)
  {
    IndentAccepted(cfg, pen);
    AcceptedConcat((if breaks then Indent(cfg, pen) else Written("", pen)).text, chunk);
  }

  lemma {:induction false} SqAccepted(cfg: Settings, value: string, i: nat, pen: Pen, spaces: bool, breaks: bool, allowBreaks: bool)
    requires i <= |value| && !HasSpecial(cfg.unicode, value)
    ensures Decoding.AllAccepted(Sq(cfg, value, i, pen, spaces, breaks, allowBreaks).text)
    decreases |value| - i
  {
    hide Sq, Indent, HasSpecial, SqFolds, ReaderAccepts;
    BackslashAccepted();
    if i == |value| {
      SqAtEnd(cfg, value, pen, spaces, breaks, allowBreaks);
    } else {
      PlainCharacter(cfg.unicode, value, i);
      if IsSpace(value[i]) && SqFolds(cfg, value, i, pen, spaces, allowBreaks) {
        SqAtFold(cfg, value, i, pen, spaces, breaks, allowBreaks);
        IndentAccepted(cfg, pen);
        SqAccepted(cfg, value, i + 1, Indent(cfg, pen).pen, true, breaks, allowBreaks);
        AcceptedConcat(Indent(cfg, pen).text, Sq(cfg, value, i + 1, Indent(cfg, pen).pen, true, breaks, allowBreaks).text);
      } else if IsSpace(value[i]) {
        SqAtSpace(cfg, value, i, pen, spaces, breaks, allowBreaks);
        SqAccepted(cfg, value, i + 1, PutPen(pen, 1), true, breaks, allowBreaks);
        AcceptedConcat(" ", Sq(cfg, value, i + 1, PutPen(pen, 1), true, breaks, allowBreaks).text);
      } else if IsBreak(value[i]) {
        SqAtBreak(cfg, value, i, pen, spaces, breaks, allowBreaks);
        BreakRunAccepted(cfg, value[i], breaks);
        SqAccepted(cfg, value, i + 1, BreakPen(pen), spaces, true, allowBreaks);
        AcceptedConcat(BreakRun(cfg, value[i], breaks), Sq(cfg, value, i + 1, BreakPen(pen), spaces, true, allowBreaks).text);
      } else {
        SqAtWord(cfg, value, i, pen, spaces, breaks, allowBreaks);
        var w := if breaks then Indent(cfg, pen) else Written("", pen);
        var pen' := PutPen(w.pen, |QuotedChar(value[i])|).(indention := false);
        MarginAccepted(cfg, pen, breaks, QuotedChar(value[i]));
        SqAccepted(cfg, value, i + 1, pen', false, false, allowBreaks);
        AcceptedConcat(w.text + QuotedChar(value[i]), Sq(cfg, value, i + 1, pen', false, false, allowBreaks).text);
      }
    }
  }

  lemma {:induction false} PlAccepted(cfg: Settings, value: string, i: nat, pen: Pen, spaces: bool, breaks: bool, allowBreaks: bool)
    requires i <= |value| && !HasSpecial(cfg.unicode, value)
    ensures Decoding.AllAccepted(Pl(cfg, value, i, pen, spaces, breaks, allowBreaks).text)
    decreases |value| - i
  {
    hide Indent, HasSpecial, PlainFolds, ReaderAccepts;
    BackslashAccepted();
    if i < |value| {
      PlainCharacter(cfg.unicode, value, i);
      if IsSpace(value[i]) && PlainFolds(cfg, value, i, pen, spaces, allowBreaks) {
        IndentAccepted(cfg, pen);
        PlAccepted(cfg, value, i + 1, Indent(cfg, pen).pen, true, breaks, allowBreaks);
        AcceptedConcat(Indent(cfg, pen).text, Pl(cfg, value, i + 1, Indent(cfg, pen).pen, true, breaks, allowBreaks).text);
      } else if IsSpace(value[i]) {
        PlAccepted(cfg, value, i + 1, PutPen(pen, 1), true, breaks, allowBreaks);
        AcceptedConcat(" ", Pl(cfg, value, i + 1, PutPen(pen, 1), true, breaks, allowBreaks).text);
      } else if IsBreak(value[i]) {
        BreakRunAccepted(cfg, value[i], breaks);
        PlAccepted(cfg, value, i + 1, BreakPen(pen), spaces, true, allowBreaks);
        AcceptedConcat(BreakRun(cfg, value[i], breaks), Pl(cfg, value, i + 1, BreakPen(pen), spaces, true, allowBreaks).text);
      } else {
        var w := if breaks then Indent(cfg, pen) else Written("", pen);
        var pen' := PutPen(w.pen, 1).(indention := false);
        MarginAccepted(cfg, pen, breaks, [value[i]]);
        PlAccepted(cfg, value, i + 1, pen', false, false, allowBreaks);
        AcceptedConcat(w.text + [value[i]], Pl(cfg, value, i + 1, pen', false, false, allowBreaks).text);
      }
    }
  }

  lemma {:induction false} LitAccepted(cfg: Settings, value: string, i: nat, pen: Pen, breaks: bool)
    requires i <= |value| && !HasSpecial(cfg.unicode, value)
    ensures Decoding.AllAccepted(Lit(cfg, value, i, pen, breaks).text)
    decreases |value| - i
  {
    hide Indent, HasSpecial, ReaderAccepts;
    BackslashAccepted();
    if i < |value| {
      PlainCharacter(cfg.unicode, value, i);
      if IsBreak(value[i]) {
        BreakRunAccepted(cfg, value[i], true);
        LitAccepted(cfg, value, i + 1, BreakPen(pen), true);
        AcceptedConcat(BreakRun(cfg, value[i], true), Lit(cfg, value, i + 1, BreakPen(pen), true).text);
      } else {
        var w := if breaks then Indent(cfg, pen) else Written("", pen);
        var pen' := PutPen(w.pen, 1).(indention := false);
        MarginAccepted(cfg, pen, breaks, [value[i]]);
        LitAccepted(cfg, value, i + 1, pen', false);
        AcceptedConcat(w.text + [value[i]], Lit(cfg, value, i + 1, pen', false).text);
      }
    }
  }

  lemma {:induction false} FoAccepted(cfg: Settings, value: string, i: nat, pen: Pen, breaks: bool, leadingSpaces: bool)
    requires i <= |value| && !HasSpecial(cfg.unicode, value)
    ensures Decoding.AllAccepted(Fo(cfg, value, i, pen, breaks, leadingSpaces).text)
    decreases |value| - i
  {
    hide Indent, HasSpecial, ReaderAccepts, DoublesBreak;
    if i < |value| {
      PlainCharacter(cfg.unicode, value, i);
      if IsBreak(value[i]) {
        var extra := if DoublesBreak(value, i, breaks, leadingSpaces) then BreakOf(cfg.lineBreak) else "";
        BreakAccepted(cfg.lineBreak);
        BreakRunAccepted(cfg, value[i], true);
        AcceptedConcat(extra, BreakRun(cfg, value[i], true));
        FoAccepted(cfg, value, i + 1, BreakPen(pen), true, leadingSpaces);
        AcceptedConcat(extra + BreakRun(cfg, value[i], true), Fo(cfg, value, i + 1, BreakPen(pen), true, leadingSpaces).text);
      } else if FoldsLine(cfg, value, i, pen, breaks) {
        var w := Indent(cfg, pen);
        IndentAccepted(cfg, pen);
        FoAccepted(cfg, value, i + 1, w.pen.(indention := false), false, leadingSpaces);
        AcceptedConcat(w.text, Fo(cfg, value, i + 1, w.pen.(indention := false), false, leadingSpaces).text);
      } else {
        var w := if breaks then Indent(cfg, pen) else Written("", pen);
        var pen' := PutPen(w.pen, 1).(indention := false);
        var leading := if breaks then IsBlank(value[i]) else leadingSpaces;
        MarginAccepted(cfg, pen, breaks, [value[i]]);
        FoAccepted(cfg, value, i + 1, pen', false, leading);
        AcceptedConcat(w.text + [value[i]], Fo(cfg, value, i + 1, pen', false, leading).text);
      }
    }
  }

  lemma HintsAccepted(cfg: Settings, value: string)
    requires 2 <= cfg.bestIndent <= 9
    ensures Decoding.AllAccepted("|" + Hints(cfg, value)) && Decoding.AllAccepted(">" + Hints(cfg, value))
  {
    var digit := if value != "" && (IsSpace(value[0]) || IsBreak(value[0])) then [HexDigit(cfg.bestIndent)] else "";
    AcceptedConcat(digit, ChompHint(value));
    AcceptedConcat("|", Hints(cfg, value));
    AcceptedConcat(">", Hints(cfg, value));
  }

  lemma DoubleQuotedAccepted(cfg: Settings, value: string, pen: Pen, allowBreaks: bool)
    ensures Decoding.AllAccepted(DoubleQuoted(cfg, value, pen, allowBreaks).text)
  {
    hide Dq, Indicator, ReaderAccepts;
    BackslashAccepted();
    var open := Indicator("\"", pen, true, false, false);
    var body := Dq(cfg, value, 0, open.pen, false, allowBreaks);
    IndicatorAccepted("\"", pen, true, false, false);
    DqAccepted(cfg, value, 0, open.pen, false, allowBreaks);
    IndicatorAccepted("\"", body.pen, false, false, false);
    AcceptedConcat(open.text, body.text);
    AcceptedConcat(open.text + body.text, Indicator("\"", body.pen, false, false, false).text);
  }

  lemma SingleQuotedAccepted(cfg: Settings, value: string, pen: Pen, allowBreaks: bool)
    requires !HasSpecial(cfg.unicode, value)
    ensures Decoding.AllAccepted(SingleQuoted(cfg, value, pen, allowBreaks).text)
  {
    hide Sq, Indicator, ReaderAccepts, HasSpecial;
    BackslashAccepted();
    var open := Indicator("'", pen, true, false, false);
    var body := Sq(cfg, value, 0, open.pen, false, false, allowBreaks);
    IndicatorAccepted("'", pen, true, false, false);
    SqAccepted(cfg, value, 0, open.pen, false, false, allowBreaks);
    IndicatorAccepted("'", body.pen, false, false, false);
    AcceptedConcat(open.text, body.text);
    AcceptedConcat(open.text + body.text, Indicator("'", body.pen, false, false, false).text);
  }

  lemma PlainAccepted(cfg: Settings, value: string, pen: Pen, allowBreaks: bool)
    requires !HasSpecial(cfg.unicode, value)
    ensures Decoding.AllAccepted(Plain(cfg, value, pen, allowBreaks).text)
  {
    hide Pl, ReaderAccepts, HasSpecial;
    BackslashAccepted();
    var lead := if value != "" && !pen.whitespace then " " else "";
    PlAccepted(cfg, value, 0, PutPen(pen, |lead|), false, false, allowBreaks);
    AcceptedConcat(lead, Pl(cfg, value, 0, PutPen(pen, |lead|), false, false, allowBreaks).text);
  }

  lemma LiteralAccepted(cfg: Settings, value: string, pen: Pen)
    requires !HasSpecial(cfg.unicode, value) && 2 <= cfg.bestIndent <= 9
    ensures Decoding.AllAccepted(Literal(cfg, value, pen).text)
  {
    hide Lit, Indicator, ReaderAccepts, HasSpecial, Hints;
    HintsAccepted(cfg, value);
    var open := Indicator("|" + Hints(cfg, value), pen, true, false, false);
    IndicatorAccepted("|" + Hints(cfg, value), pen, true, false, false);
    LitAccepted(cfg, value, 0, open.pen.(whitespace := true), true);
    AcceptedConcat(open.text, Lit(cfg, value, 0, open.pen.(whitespace := true), true).text);
  }

  lemma FoldedAccepted(cfg: Settings, value: string, pen: Pen)
    requires !HasSpecial(cfg.unicode, value) && 2 <= cfg.bestIndent <= 9
    ensures Decoding.AllAccepted(Folded(cfg, value, pen).text)
  {
    hide Fo, Indicator, ReaderAccepts, HasSpecial, Hints;
    HintsAccepted(cfg, value);
    var open := Indicator(">" + Hints(cfg, value), pen, true, false, false);
    IndicatorAccepted(">" + Hints(cfg, value), pen, true, false, false);
    FoAccepted(cfg, value, 0, open.pen.(whitespace := true), true, true);
    AcceptedConcat(open.text, Fo(cfg, value, 0, open.pen.(whitespace := true), true, true).text);
  }

  /** Whatever style is chosen for a value, the reader lets every character of its text
      through, and gives the text back from its bytes. */
  lemma ScalarTextIsRead(cfg: Settings, value: string, r: Request, pen: Pen)
    requires 2 <= cfg.bestIndent <= 9 && Select(cfg.unicode, value, r).Chosen?
    ensures var style := Select(cfg.unicode, value, r).style;
      (style.LiteralStyle? ==> value != "")
      && var text := WriteScalar(cfg, value, pen, style, !r.simpleKey).text;
      && Decoding.AllAccepted(text)
      && Decoding.DecodeAll([0xEF, 0xBB, 0xBF] + Utf8.EncodeAll(text)) == Decoding.Text(text, Decoding.Clean)
  {
    hide Select, Plain, SingleQuoted, DoubleQuoted, Literal, Folded, Utf8.EncodeAll, Decoding.DecodeAll, ReaderAccepts;
    ChosenStyleIsSafe(cfg.unicode, value, r);
    var style := Select(cfg.unicode, value, r).style;
    if style.DoubleStyle? {
      DoubleQuotedAccepted(cfg, value, pen, !r.simpleKey);
    } else {
      SafeHasNoSpecial(cfg.unicode, value, r);
      if style.PlainStyle? {
        PlainAccepted(cfg, value, pen, !r.simpleKey);
      } else if style.SingleStyle? {
        SingleQuotedAccepted(cfg, value, pen, !r.simpleKey);
      } else if style.FoldedStyle? {
        FoldedAccepted(cfg, value, pen);
      } else {
        LiteralAccepted(cfg, value, pen);
      }
    }
    Decoding.EncodingsRoundTrip(WriteScalar(cfg, value, pen, style, !r.simpleKey).text);
  }

  lemma SafeHasNoSpecial(unicode: bool, value: string, r: Request)
    requires Select(unicode, value, r).Chosen? && !Select(unicode, value, r).style.DoubleStyle?
    ensures !HasSpecial(unicode, value)
  {
    hide Select;
    ChosenStyleIsSafe(unicode, value, r);
  }
}
