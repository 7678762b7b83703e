/**
  The text that the scalar writers of emitterc.go produce and the pen they leave behind,
  as functions of the settings, the value and the pen they start with.
 */
module ScalarText {
  import opened Basics
  import opened Chars

  datatype LineBreak = Cr | Ln | CrLn

  datatype Settings = Settings(
    indent: int, bestIndent: int, bestWidth: int, unicode: bool, lineBreak: LineBreak, rootContext: bool)

  /** The part of the emitter that decides where white space goes. */
  datatype Pen = Pen(column: nat, whitespace: bool, indention: bool, footIndent: int)

  datatype Written = Written(text: string, pen: Pen)

  function Before(chunk: string, w: Written): Written {
    w.(text := chunk + w.text)
  }

  function BreakOf(lb: LineBreak): string {
    match lb
    case Cr => "\r"
    case Ln => "\n"
    case CrLn => "\r\n"
  }

  function PutPen(pen: Pen, n: nat): Pen { pen.(column := pen.column + n) }

  function BreakPen(pen: Pen): Pen { pen.(column := 0, indention := true) }

  function Margin(cfg: Settings): nat { if cfg.indent < 0 then 0 else cfg.indent }

  predicate IndentBreaks(cfg: Settings, pen: Pen) {
    !pen.indention || pen.column > Margin(cfg) || (pen.column == Margin(cfg) && !pen.whitespace)
  }

  function Indent(cfg: Settings, pen: Pen): Written {
    var breaks := IndentBreaks(cfg, pen);
    var foot := pen.footIndent == Margin(cfg);
    var column := if breaks || foot then 0 else pen.column;
    Written(
      (if breaks then BreakOf(cfg.lineBreak) else "")
      + (if foot then BreakOf(cfg.lineBreak) else "")
      + Spaces(Margin(cfg) - column),
      Pen(Margin(cfg), true, pen.indention || breaks || foot, -1))
  }

  /** The three parts of an indentation, one written after the other. */
  lemma IndentParts(cfg: Settings, pen: Pen, out: string)
    ensures var first := if IndentBreaks(cfg, pen) then BreakOf(cfg.lineBreak) else "";
      var second := if pen.footIndent == Margin(cfg) then BreakOf(cfg.lineBreak) else "";
      var moved := IndentBreaks(cfg, pen) || pen.footIndent == Margin(cfg);
      var start := if moved then 0 else pen.column;
      && start <= Margin(cfg)
      && out + Indent(cfg, pen).text == out + first + second + Spaces(Margin(cfg) - start)
      && Indent(cfg, pen).pen == Pen(Margin(cfg), true, pen.indention || moved, -1)
  {
    var first := if IndentBreaks(cfg, pen) then BreakOf(cfg.lineBreak) else "";
    var second := if pen.footIndent == Margin(cfg) then BreakOf(cfg.lineBreak) else "";
    var pad := Spaces(Margin(cfg) - if IndentBreaks(cfg, pen) || pen.footIndent == Margin(cfg) then 0 else pen.column);
    Assoc4(out, first, second, pad);
    Assoc(first, second, pad);
  }

  /** Indenting where a new line is due writes one line break and the margin. */
  lemma FoldText(cfg: Settings, pen: Pen)
    requires cfg.indent >= 1 && pen.footIndent == -1 && IndentBreaks(cfg, pen)
    ensures Indent(cfg, pen) == Written(BreakOf(cfg.lineBreak) + Spaces(cfg.indent), Pen(cfg.indent, true, true, -1))
  {
    assert BreakOf(cfg.lineBreak) + "" == BreakOf(cfg.lineBreak);
  }

  function Indicator(s: string, pen: Pen, needWhitespace: bool, isWhitespace: bool, isIndention: bool): Written {
    var lead := if needWhitespace && !pen.whitespace then " " else "";
    Written(lead + s, Pen(pen.column + |lead| + |s|, isWhitespace, pen.indention && isIndention, pen.footIndent))
  }

  // ----- double-quoted -----

  function HexDigit(d: nat): char
    requires d < 16
  {
    if d < 10 then (d + '0' as int) as char else (d - 10 + 'A' as int) as char
  }

  /** The w upper-case hexadecimal digits of v, most significant first. */
  function HexText(v: nat, w: nat): (s: string)
    ensures |s| == w
  {
    if w == 0 then "" else HexText(v / 16, w - 1) + [HexDigit(v % 16)]
  }

  function Pow16(n: nat): nat { if n == 0 then 1 else 16 * Pow16(n - 1) }

  /** v shifted right by k hexadecimal digits. */
  function ShiftRight(v: nat, k: nat): nat {
    if k == 0 then v else ShiftRight(v, k - 1) / 16
  }

  function EscapeWidth(v: nat): nat {
    if v <= 0xFF then 2 else if v <= 0xFFFF then 4 else 8
  }

  lemma EscapeFits(v: nat)
    requires v <= 0x10FFFF
    ensures v < Pow16(EscapeWidth(v))
  {
    assert Pow16(2) == 0x100;
    assert Pow16(4) == 0x10000 by { assert Pow16(3) == 0x1000; }
    assert Pow16(8) == 0x1_0000_0000 by {
      assert Pow16(5) == 0x100000;
      assert Pow16(6) == 0x1000000;
      assert Pow16(7) == 0x10000000;
    }
  }

  function EscapeLetter(v: nat): char {
    if v <= 0xFF then 'x' else if v <= 0xFFFF then 'u' else 'U'
  }

  function ShortEscape(c: char): string {
    match c as int
    case 0x00 => "0"
    case 0x07 => "a"
    case 0x08 => "b"
    case 0x09 => "t"
    case 0x0A => "n"
    case 0x0B => "v"
    case 0x0C => "f"
    case 0x0D => "r"
    case 0x1B => "e"
    case 0x22 => "\""
    case 0x5C => "\\"
    case 0x85 => "N"
    case 0xA0 => "_"
    case 0x2028 => "L"
    case 0x2029 => "P"
    case _ => ""
  }

  function EscapeText(c: char): string {
    "\\" + if ShortEscape(c) != "" then ShortEscape(c)
           else [EscapeLetter(c as int)] + HexText(c as int, EscapeWidth(c as int))
  }

  /** `is_bom` looks at the start of the value whatever the position, so a value that
      starts with a byte order mark has every character escaped. */
  predicate NeedsEscape(unicode: bool, value: string, i: nat)
    requires i < |value|
  {
    var c := value[i];
    !IsPrintable(c) || (!unicode && !IsAscii(c)) || value[0] == BOM || IsBreak(c) || c == '"' || c == '\\'
  }

  predicate DqFolds(cfg: Settings, value: string, i: nat, pen: Pen, spaces: bool, allowBreaks: bool) {
    allowBreaks && !spaces && pen.column > cfg.bestWidth && 0 < i < |value| - 1
  }

  function Dq(cfg: Settings, value: string, i: nat, pen: Pen, spaces: bool, allowBreaks: bool): Written
    requires i <= |value|
    decreases |value| - i
  {
    if i == |value| then Written("", pen)
    else if NeedsEscape(cfg.unicode, value, i) then
      var e := EscapeText(value[i]);
      Before(e, Dq(cfg, value, i + 1, PutPen(pen, |e|), false, allowBreaks))
    else if IsSpace(value[i]) && DqFolds(cfg, value, i, pen, spaces, allowBreaks) then
      var w := Indent(cfg, pen);
      var mark := if IsSpace(value[i + 1]) then "\\" else "";
      Before(w.text + mark, Dq(cfg, value, i + 1, PutPen(w.pen, |mark|), true, allowBreaks))
    else
      Before([value[i]], Dq(cfg, value, i + 1, PutPen(pen, 1), IsSpace(value[i]), allowBreaks))
  }

  function DoubleQuoted(cfg: Settings, value: string, pen: Pen, allowBreaks: bool): Written {
    var open := Indicator("\"", pen, true, false, false);
    var body := Dq(cfg, value, 0, open.pen, false, allowBreaks);
    var close := Indicator("\"", body.pen, false, false, false);
    Written(open.text + body.text + close.text, close.pen)
  }

  // ----- single-quoted and plain -----

  /** A line break in a flow scalar: the first LF of a run is doubled. */
  function BreakRun(cfg: Settings, c: char, breaks: bool): string {
    if c != '\n' then [c]
    else if breaks then BreakOf(cfg.lineBreak)
    else BreakOf(cfg.lineBreak) + BreakOf(cfg.lineBreak)
  }

  predicate SqFolds(cfg: Settings, value: string, i: nat, pen: Pen, spaces: bool, allowBreaks: bool) {
    allowBreaks && !spaces && pen.column > cfg.bestWidth && 0 < i < |value| - 1 && !IsSpace(value[i + 1])
  }

  function Sq(cfg: Settings, value: string, i: nat, pen: Pen, spaces: bool, breaks: bool, allowBreaks: bool): Written
    requires i <= |value|
    decreases |value| - i
  {
    if i == |value| then Written("", pen)
    else
      var c := value[i];
      if IsSpace(c) && SqFolds(cfg, value, i, pen, spaces, allowBreaks) then
        var w := Indent(cfg, pen);
        Before(w.text, Sq(cfg, value, i + 1, w.pen, true, breaks, allowBreaks))
      else if IsSpace(c) then
        Before(" ", Sq(cfg, value, i + 1, PutPen(pen, 1), true, breaks, allowBreaks))
      else if IsBreak(c) then
        Before(BreakRun(cfg, c, breaks), Sq(cfg, value, i + 1, BreakPen(pen), spaces, true, allowBreaks))
      else
        var w := if breaks then Indent(cfg, pen) else Written("", pen);
        var chunk := w.text + if c == '\'' then "''" else [c];
        var p := PutPen(w.pen, |chunk| - |w.text|).(indention := false);
        Before(chunk, Sq(cfg, value, i + 1, p, false, false, allowBreaks))
  }

  lemma SqAtFold(cfg: Settings, value: string, i: nat, pen: Pen, spaces: bool, breaks: bool, allowBreaks: bool)
    requires i < |value| && IsSpace(value[i]) && SqFolds(cfg, value, i, pen, spaces, allowBreaks)
    ensures var w := Indent(cfg, pen);
      Sq(cfg, value, i, pen, spaces, breaks, allowBreaks)
        == Before(w.text, Sq(cfg, value, i + 1, w.pen, true, breaks, allowBreaks))
  {}

  lemma SqAtSpace(cfg: Settings, value: string, i: nat, pen: Pen, spaces: bool, breaks: bool, allowBreaks: bool)
    requires i < |value| && IsSpace(value[i]) && !SqFolds(cfg, value, i, pen, spaces, allowBreaks)
    ensures Sq(cfg, value, i, pen, spaces, breaks, allowBreaks)
         == Before(" ", Sq(cfg, value, i + 1, PutPen(pen, 1), true, breaks, allowBreaks))
  {}

  lemma SqAtBreak(cfg: Settings, value: string, i: nat, pen: Pen, spaces: bool, breaks: bool, allowBreaks: bool)
    requires i < |value| && IsBreak(value[i])
    ensures Sq(cfg, value, i, pen, spaces, breaks, allowBreaks)
         == Before(BreakRun(cfg, value[i], breaks), Sq(cfg, value, i + 1, BreakPen(pen), spaces, true, allowBreaks))
  {}

  function QuotedChar(c: char): string { if c == '\'' then "''" else [c] }

  lemma SqAtWord(cfg: Settings, value: string, i: nat, pen: Pen, spaces: bool, breaks: bool, allowBreaks: bool)
    requires i < |value| && !IsSpace(value[i]) && !IsBreak(value[i])
    ensures var w := if breaks then Indent(cfg, pen) else Written("", pen);
      var pen' := PutPen(w.pen, |QuotedChar(value[i])|).(indention := false);
      Sq(cfg, value, i, pen, spaces, breaks, allowBreaks)
        == Before(w.text + QuotedChar(value[i]), Sq(cfg, value, i + 1, pen', false, false, allowBreaks))
  {}

  lemma SqAtEnd(cfg: Settings, value: string, pen: Pen, spaces: bool, breaks: bool, allowBreaks: bool)
    ensures Sq(cfg, value, |value|, pen, spaces, breaks, allowBreaks) == Written("", pen)
  {}

  function SingleQuoted(cfg: Settings, value: string, pen: Pen, allowBreaks: bool): Written {
    var open := Indicator("'", pen, true, false, false);
    var body := Sq(cfg, value, 0, open.pen, false, false, allowBreaks);
    var close := Indicator("'", body.pen, false, false, false);
    Written(open.text + body.text + close.text, close.pen)
  }

  predicate PlainFolds(cfg: Settings, value: string, i: nat, pen: Pen, spaces: bool, allowBreaks: bool) {
    allowBreaks && !spaces && pen.column > cfg.bestWidth && !IsSpace(At(value, i + 1))
  }

  function Pl(cfg: Settings, value: string, i: nat, pen: Pen, spaces: bool, breaks: bool, allowBreaks: bool): Written
    requires i <= |value|
    decreases |value| - i
  {
    if i == |value| then Written("", pen)
    else
      var c := value[i];
      if IsSpace(c) && PlainFolds(cfg, value, i, pen, spaces, allowBreaks) then
        var w := Indent(cfg, pen);
        Before(w.text, Pl(cfg, value, i + 1, w.pen, true, breaks, allowBreaks))
      else if IsSpace(c) then
        Before(" ", Pl(cfg, value, i + 1, PutPen(pen, 1), true, breaks, allowBreaks))
      else if IsBreak(c) then
        Before(BreakRun(cfg, c, breaks), Pl(cfg, value, i + 1, BreakPen(pen), spaces, true, allowBreaks))
      else
        var w := if breaks then Indent(cfg, pen) else Written("", pen);
        var p := PutPen(w.pen, 1).(indention := false);
        Before(w.text + [c], Pl(cfg, value, i + 1, p, false, false, allowBreaks))
  }

  function Plain(cfg: Settings, value: string, pen: Pen, allowBreaks: bool): Written {
    var lead := if value != "" && !pen.whitespace then " " else "";
    var body := Pl(cfg, value, 0, PutPen(pen, |lead|), false, false, allowBreaks);
    Written(lead + body.text,
            body.pen.(whitespace := if value != "" then false else pen.whitespace, indention := false))
  }

  // ----- literal -----

  function ChompHint(value: string): string {
    var n := |value|;
    if n == 0 || !IsBreak(value[n - 1]) then "-"
    else if n == 1 || IsBreak(value[n - 2]) then "+"
    else ""
  }

  function Hints(cfg: Settings, value: string): string
    requires 2 <= cfg.bestIndent <= 9
  {
    (if value != "" && (IsSpace(value[0]) || IsBreak(value[0])) then [HexDigit(cfg.bestIndent)] else "")
    + ChompHint(value)
  }

  function Lit(cfg: Settings, value: string, i: nat, pen: Pen, breaks: bool): Written
    requires i <= |value|
    decreases |value| - i
  {
    if i == |value| then Written("", pen)
    else
      var c := value[i];
      if IsBreak(c) then
        Before(BreakRun(cfg, c, true), Lit(cfg, value, i + 1, BreakPen(pen), true))
      else
        var w := if breaks then Indent(cfg, pen) else Written("", pen);
        Before(w.text + [c], Lit(cfg, value, i + 1, PutPen(w.pen, 1).(indention := false), false))
  }

  function Literal(cfg: Settings, value: string, pen: Pen): Written
    requires 2 <= cfg.bestIndent <= 9
  {
    var open := Indicator("|" + Hints(cfg, value), pen, true, false, false);
    var body := Lit(cfg, value, 0, open.pen.(whitespace := true), true);
    Written(open.text + body.text, body.pen)
  }

  // ----- folded -----

  /** The number of line breaks that the value begins with. */
  function LeadingBreaks(value: string, k: nat): (n: nat)
    requires k <= |value|
    ensures k <= n <= |value| && (n < |value| ==> !IsBreak(value[n]))
    ensures forall j :: k <= j < n ==> IsBreak(value[j])
    decreases |value| - k
  {
    if k < |value| && IsBreak(value[k]) then LeadingBreaks(value, k + 1) else k
  }

  /** Is the break at i written twice, so that folding keeps it? The source looks at what
      follows the breaks at the beginning of the value, not those at i. */
  predicate DoublesBreak(value: string, i: nat, breaks: bool, leadingSpaces: bool)
    requires i < |value|
  {
    !breaks && !leadingSpaces && value[i] == '\n' && !IsBlankz(At(value, LeadingBreaks(value, 0)))
  }

  predicate FoldsLine(cfg: Settings, value: string, i: nat, pen: Pen, breaks: bool)
    requires i < |value|
  {
    !breaks && IsSpace(value[i]) && !IsSpace(At(value, i + 1)) && pen.column > cfg.bestWidth
  }

  function Fo(cfg: Settings, value: string, i: nat, pen: Pen, breaks: bool, leadingSpaces: bool): Written
    requires i <= |value|
    decreases |value| - i
  {
    if i == |value| then Written("", pen)
    else
      var c := value[i];
      if IsBreak(c) then
        var extra := if DoublesBreak(value, i, breaks, leadingSpaces) then BreakOf(cfg.lineBreak) else "";
        Before(extra + BreakRun(cfg, c, true), Fo(cfg, value, i + 1, BreakPen(pen), true, leadingSpaces))
      else if FoldsLine(cfg, value, i, pen, breaks) then
        var w := Indent(cfg, pen);
        Before(w.text, Fo(cfg, value, i + 1, w.pen.(indention := false), false, leadingSpaces))
      else
        var w := if breaks then Indent(cfg, pen) else Written("", pen);
        Before(w.text + [c],
               Fo(cfg, value, i + 1, PutPen(w.pen, 1).(indention := false), false, if breaks then IsBlank(c) else leadingSpaces))
  }

  function Folded(cfg: Settings, value: string, pen: Pen): Written
    requires 2 <= cfg.bestIndent <= 9
  {
    var open := Indicator(">" + Hints(cfg, value), pen, true, false, false);
    var body := Fo(cfg, value, 0, open.pen.(whitespace := true), true, true);
    Written(open.text + body.text, body.pen)
  }
}
