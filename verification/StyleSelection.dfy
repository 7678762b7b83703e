/**
  Choosing the style of a scalar and writing it: whatever style is asked for, the style
  chosen is one that the value survives, and a simple key stays short and on its line.
 */
module StyleSelection {
  import opened Chars
  import opened ScalarText
  import opened ScalarAnalysis
  import opened FlowScalar
  import opened PlainScalar
  import opened BlockScalar
  import FlowRoundTrip
  import PlainRoundTrip
  import LiteralRoundTrip
  import LiteralLimits
  import FoldedRoundTrip

  datatype Style = AnyStyle | PlainStyle | SingleStyle | DoubleStyle | LiteralStyle | FoldedStyle

  /** What the event asks for and where the emitter stands. */
  datatype Request = Request(
    style: Style, implicit: bool, quotedImplicit: bool, noTag: bool,
    canonical: bool, simpleKey: bool, flow: bool)

  datatype Choice = Chosen(style: Style, forceTag: bool) | NeitherTagNorImplicit

  /** `yaml_emitter_select_scalar_style`. */
  function Select(unicode: bool, value: string, r: Request): Choice {
    if r.noTag && !r.implicit && !r.quotedImplicit then NeitherTagNorImplicit
    else
      var asked := if r.style.AnyStyle? then PlainStyle else r.style;
      var first := if r.canonical || (r.simpleKey && HasBreak(value)) then DoubleStyle else asked;
      var second :=
        if first.PlainStyle? && (
            || (if r.flow then !FlowPlainAllowed(unicode, value) else !BlockPlainAllowed(unicode, value))
            || (value == "" && (r.flow || r.simpleKey))
            || (r.noTag && !r.implicit))
        then SingleStyle else first;
      var third := if second.SingleStyle? && !SingleQuotedAllowed(unicode, value) then DoubleStyle else second;
      var last :=
        if (third.LiteralStyle? || third.FoldedStyle?) && (!BlockAllowed(unicode, value) || r.flow || r.simpleKey)
        then DoubleStyle else third;
      Chosen(last, r.noTag && !r.quotedImplicit && !last.PlainStyle?)
  }

  /** `yaml_emitter_process_scalar`. */
  function WriteScalar(cfg: Settings, value: string, pen: Pen, style: Style, allowBreaks: bool): Written
    requires 2 <= cfg.bestIndent <= 9
    requires style.LiteralStyle? ==> value != ""
  {
    match style
    case PlainStyle => Plain(cfg, value, pen, allowBreaks)
    case SingleStyle => SingleQuoted(cfg, value, pen, allowBreaks)
    case LiteralStyle => Literal(cfg, value, pen)
    case FoldedStyle => Folded(cfg, value, pen)
    case _ => DoubleQuoted(cfg, value, pen, allowBreaks)
  }

  /** The chosen style is safe for the value in its context. */
  lemma ChosenStyleIsSafe(unicode: bool, value: string, r: Request)
    requires Select(unicode, value, r).Chosen?
    ensures match Select(unicode, value, r).style
      case PlainStyle => if value == "" then !r.flow && !r.simpleKey else PlainRoundTrip.PlainAllowed(r.flow, unicode, value)
      case SingleStyle => SingleQuotedAllowed(unicode, value)
      case LiteralStyle => BlockAllowed(unicode, value) && !r.flow && !r.simpleKey
      case FoldedStyle => BlockAllowed(unicode, value) && !r.flow && !r.simpleKey
      case DoubleStyle => true
      case AnyStyle => false
    ensures r.simpleKey && HasBreak(value) ==> Select(unicode, value, r).style.DoubleStyle?
  {
    hide FlowPlainAllowed, BlockPlainAllowed, SingleQuotedAllowed, BlockAllowed, HasBreak;
    EmptyPlain(unicode);
  }

  lemma EmptyPlain(unicode: bool)
    ensures !FlowPlainAllowed(unicode, "") && BlockPlainAllowed(unicode, "")
  {}

  // ----- when the style asked for is kept -----

  /** No style means plain. */
  function Asked(r: Request): Style {
    if r.style.AnyStyle? then PlainStyle else r.style
  }

  /** Canonical output quotes everything, and a simple key keeps to its line. */
  predicate OnlyDouble(value: string, r: Request) {
    r.canonical || (r.simpleKey && HasBreak(value))
  }

  /** May the value be written in this style where the request stands? */
  predicate Suits(unicode: bool, value: string, r: Request, style: Style) {
    match style
    case AnyStyle => false
    case PlainStyle =>
      && (if r.flow then FlowPlainAllowed(unicode, value) else BlockPlainAllowed(unicode, value))
      && (value != "" || !r.simpleKey)
      && (r.implicit || !r.noTag)
    case SingleStyle => SingleQuotedAllowed(unicode, value)
    case DoubleStyle => true
    case _ => BlockAllowed(unicode, value) && !r.flow && !r.simpleKey
  }

  /** The style asked for is kept exactly when it suits the value and nothing forces double
      quotes. A plain scalar falls back to single quotes where these suit the value, and
      everything else to double quotes. A tag is written for what would otherwise be
      resolved as a plain scalar. */
  lemma StyleKeptIff(unicode: bool, value: string, r: Request)
    ensures Select(unicode, value, r).NeitherTagNorImplicit? <==> r.noTag && !r.implicit && !r.quotedImplicit
    ensures Select(unicode, value, r).Chosen? ==>
      var c := Select(unicode, value, r);
      && (c.style == Asked(r) <==> r.style.DoubleStyle? || (!OnlyDouble(value, r) && Suits(unicode, value, r, Asked(r))))
      && (c.style != Asked(r) ==>
            c.style == if Asked(r).PlainStyle? && !OnlyDouble(value, r) && Suits(unicode, value, r, SingleStyle) then SingleStyle
                       else DoubleStyle)
      && (c.forceTag <==> r.noTag && !r.quotedImplicit && !c.style.PlainStyle?)
  {
    hide FlowPlainAllowed, BlockPlainAllowed, SingleQuotedAllowed, BlockAllowed, HasBreak;
    EmptyPlain(unicode);
  }

  /** Characters that no style minds: printable ones that are neither breaks nor indicators. */
  predicate Ordinary(unicode: bool, c: char) {
    IsPrintable(c) && !IsBreak(c) && (IsAscii(c) || unicode) && c !in "-.?:,[]{}#&*!|>'\"%@`"
  }

  /** A text of such characters, with spaces inside, and dashes and dots too, at its beginning
      one of them in front of something else. */
  ghost predicate OrdinaryText(unicode: bool, value: string) {
    && value != ""
    && !IsSpace(value[0]) && !IsSpace(value[|value| - 1])
    && (Ordinary(unicode, value[0]) || (value[0] in "-." && |value| > 1 && Ordinary(unicode, value[1]) && !IsSpace(value[1])))
    && forall i :: 0 < i < |value| ==> value[i] in "-." || Ordinary(unicode, value[i])
  }

  /** Ordinary text is written in whatever style is asked for. */
  lemma OrdinaryTextKeepsItsStyle(unicode: bool, value: string, r: Request)
    requires OrdinaryText(unicode, value) && !r.canonical
    requires Select(unicode, value, r).Chosen?
    requires r.style.LiteralStyle? || r.style.FoldedStyle? ==> !r.flow && !r.simpleKey
    requires Asked(r).PlainStyle? ==> r.implicit || !r.noTag
    ensures Select(unicode, value, r).style == Asked(r)
  {
    StyleKeptIff(unicode, value, r);
    OrdinaryTextSuits(unicode, value);
  }

  predicate Printed(unicode: bool, c: char) { IsPrintable(c) && !IsBreak(c) && (IsAscii(c) || unicode) }

  /** Text that may stand plain in a block: any printable characters, but no `:` in front of a
      space or the end, no `#` behind a space, and at the beginning an ordinary character, or
      one of `?`, `:` and `-` in front of something else. */
  ghost predicate BlockPhrase(unicode: bool, value: string) {
    && value != "" && !("---" <= value) && !("..." <= value)
    && !IsSpace(value[0]) && !IsSpace(value[|value| - 1])
    && (Ordinary(unicode, value[0]) || value[0] == '.' || (value[0] in "?:-" && |value| > 1 && !IsSpace(value[1])))
    && (forall i :: 0 <= i < |value| ==> Printed(unicode, value[i]))
    && (forall i :: 0 <= i < |value| && value[i] == ':' ==> i + 1 < |value| && !IsSpace(value[i + 1]))
    && (forall i :: 0 < i < |value| && value[i] == '#' ==> !IsSpace(value[i - 1]))
  }

  /** Such text is written plain where plain is asked for in a block. */
  lemma BlockPhraseStaysPlain(unicode: bool, value: string, r: Request)
    requires BlockPhrase(unicode, value) && !r.canonical && !r.flow && Asked(r).PlainStyle?
    requires r.implicit || !r.noTag
    ensures Select(unicode, value, r).Chosen? && Select(unicode, value, r).style.PlainStyle?
  {
    StyleKeptIff(unicode, value, r);
    forall i | 0 <= i < |value|
      ensures !SpecialAt(unicode, value, i) && !TabAt(value, i) && !BreakAt(value, i) && !BlockIndicatorAt(value, i)
    {
      PhraseAt(unicode, value, i);
    }
  }

  lemma PhraseAt(unicode: bool, value: string, i: nat)
    requires BlockPhrase(unicode, value) && i < |value|
    ensures !SpecialAt(unicode, value, i) && !TabAt(value, i) && !BreakAt(value, i) && !BlockIndicatorAt(value, i)
  {
    assert Printed(unicode, value[i]);
    if i > 0 {
      assert Printed(unicode, value[i - 1]);
    }
    if i + 1 < |value| {
      assert Printed(unicode, value[i + 1]);
    }
  }

  lemma OrdinaryTextSuits(unicode: bool, value: string)
    requires OrdinaryText(unicode, value)
    ensures FlowPlainAllowed(unicode, value) && BlockPlainAllowed(unicode, value)
    ensures SingleQuotedAllowed(unicode, value) && BlockAllowed(unicode, value) && !HasBreak(value)
  {
    forall i | 0 <= i < |value|
      ensures !SpecialAt(unicode, value, i) && !TabAt(value, i) && !BreakAt(value, i)
      ensures !SpaceBreakAt(value, i) && !BreakSpaceAt(value, i)
      ensures !FlowIndicatorAt(value, i) && !BlockIndicatorAt(value, i)
    {
      OrdinaryAt(unicode, value, i);
    }
  }

  lemma OrdinaryAt(unicode: bool, value: string, i: nat)
    requires OrdinaryText(unicode, value) && i < |value|
    ensures !SpecialAt(unicode, value, i) && !TabAt(value, i) && !BreakAt(value, i)
    ensures !SpaceBreakAt(value, i) && !BreakSpaceAt(value, i)
    ensures !FlowIndicatorAt(value, i) && !BlockIndicatorAt(value, i)
  {}

  // ----- reading a scalar back, whatever its style -----

  datatype ScalarToken = ScalarToken(value: string, end: nat) | NotAScalar

  /** The token fetcher and the scanner it calls. */
  function ScanScalar(flow: bool, level: int, buf: string, p: nat, column: nat): ScalarToken
    requires p < |buf|
  {
    match Dispatch(flow, buf, p, column)
    case PlainScalarStart =>
      var r := ScanPlainScalar(flow, level, buf, p, column);
      if r.PlainDone? then ScalarToken(r.value, r.end) else NotAScalar
    case SingleQuotedScalar =>
      var r := ScanFlowScalar(true, buf, p, column);
      if r.Done? then ScalarToken(r.value, r.next) else NotAScalar
    case DoubleQuotedScalar =>
      var r := ScanFlowScalar(false, buf, p, column);
      if r.Done? then ScalarToken(r.value, r.next) else NotAScalar
    case LiteralScalar =>
      var r := ScanBlockScalar(true, level, buf, p, column);
      if r.BlockDone? then ScalarToken(r.value, r.end) else NotAScalar
    case FoldedScalar =>
      var r := ScanBlockScalar(false, level, buf, p, column);
      if r.BlockDone? then ScalarToken(r.value, r.end) else NotAScalar
    case _ => NotAScalar
  }

  predicate HasValue(t: ScalarToken, value: string) {
    t.ScalarToken? && t.value == value
  }

  /** What the text after the scalar must not do, style by style. */
  ghost predicate MayFollow(style: Style, flow: bool, level: int, cfg: Settings, value: string, before: string, text: string, rest: string) {
    match style
    case PlainStyle => PlainRoundTrip.Terminator(flow, level + 1, before + text + rest, |before + text|)
    case SingleStyle => At(rest, 0) != '\''
    case LiteralStyle => value != "" && LiteralRoundTrip.LiteralFollows(cfg, value, rest)
    case FoldedStyle => value != "" && LiteralRoundTrip.LiteralFollows(cfg, value, rest)
    case _ => true
  }

  /** Does the value come back from this style? In block style not with a break at its beginning,
      nor with a space there and a hint that is not true; folded, not with a line feed or a fold
      next to white space that is not kept. */
  ghost predicate ComesBack(style: Style, level: int, cfg: Settings, value: string)
    requires 2 <= cfg.bestIndent <= 9
  {
    style.LiteralStyle? || style.FoldedStyle? ==>
      && value != "" && !IsBreak(value[0]) && LiteralRoundTrip.HintFits(level, cfg, value)
      && (style.FoldedStyle? ==> FoldedRoundTrip.KeptFrom(cfg, value, 0))
  }

  lemma QuoteIsRecognised(flow: bool, buf: string, p: nat, column: nat)
    requires At(buf, p) == '\'' || At(buf, p) == '"' || ((At(buf, p) == '|' || At(buf, p) == '>') && !flow)
    ensures At(buf, p) == '\'' ==> Dispatch(flow, buf, p, column) == SingleQuotedScalar
    ensures At(buf, p) == '"' ==> Dispatch(flow, buf, p, column) == DoubleQuotedScalar
    ensures At(buf, p) == '|' ==> Dispatch(flow, buf, p, column) == LiteralScalar
    ensures At(buf, p) == '>' ==> Dispatch(flow, buf, p, column) == FoldedScalar
  {}

  function StyleIndicator(style: Style): char {
    match style
    case SingleStyle => '\''
    case LiteralStyle => '|'
    case FoldedStyle => '>'
    case _ => '"'
  }

  /** The text of a quoted or block scalar starts with its indicator. */
  lemma StartsWithIndicator(cfg: Settings, value: string, pen: Pen, style: Style, allowBreaks: bool, before: string, rest: string)
    requires 2 <= cfg.bestIndent <= 9
    requires style.SingleStyle? || style.DoubleStyle? || ((style.LiteralStyle? || style.FoldedStyle?) && value != "")
    ensures var p := |before| + if pen.whitespace then 0 else 1;
      var buf := before + WriteScalar(cfg, value, pen, style, allowBreaks).text + rest;
      && p < |buf|
      && buf[p] == StyleIndicator(style)
  {
    var text := WriteScalar(cfg, value, pen, style, allowBreaks).text;
    var lead := if pen.whitespace then "" else " ";
    var buf := before + text + rest;
    assert forall k :: 0 <= k < |text| ==> buf[|before| + k] == text[k];
    assert text[|lead|] == StyleIndicator(style);
  }

  /** Whatever style the event asks for, the text that is written is recognised as a scalar,
      and read back as the value exactly if the value comes back from the chosen style; the
      token ends where the text does, a literal's where its trailing breaks begin. Left aside
      are the empty plain scalar, which writes nothing, and where a folded scalar ends. */
  lemma ScalarRoundTrip(cfg: Settings, value: string, r: Request, pen: Pen, level: int, before: string, column: nat, rest: string)
    requires 2 <= cfg.bestIndent <= 9 && pen.footIndent == -1
    requires level < cfg.indent && 1 <= cfg.indent && level <= column
    requires Select(cfg.unicode, value, r).Chosen?
    requires var style := Select(cfg.unicode, value, r).style;
      && (style.PlainStyle? ==> value != "")
      && MayFollow(style, r.flow, level, cfg, value, before,
                   WriteScalar(cfg, value, pen, style, !r.simpleKey).text, rest)
    ensures var style := Select(cfg.unicode, value, r).style;
      var text := WriteScalar(cfg, value, pen, style, !r.simpleKey).text;
      var p := |before| + if pen.whitespace then 0 else 1;
      var end := |before + text| - if style.LiteralStyle? then |LiteralRoundTrip.TrailText(cfg, value)| else 0;
      && p < |before + text + rest|
      && var token := ScanScalar(r.flow, level, before + text + rest, p, column);
      && (HasValue(token, value) <==> ComesBack(style, level, cfg, value))
      && (HasValue(token, value) && !style.FoldedStyle? ==> token.end == end)
  {
    hide Select, Dispatch, Plain, SingleQuoted, DoubleQuoted, Literal, Folded, StyleIndicator, FoldedRoundTrip.KeptFrom;
    hide ScanFlowScalar, ScanPlainScalar, ScanBlockScalar;
    hide PlainRoundTrip.Terminator, LiteralRoundTrip.LiteralFollows, BlockAllowed, LiteralRoundTrip.TrailText;
    ChosenStyleIsSafe(cfg.unicode, value, r);
    var style := Select(cfg.unicode, value, r).style;
    var text := WriteScalar(cfg, value, pen, style, !r.simpleKey).text;
    var buf := before + text + rest;
    var p := |before| + if pen.whitespace then 0 else 1;
    if style.PlainStyle? {
      PlainRoundTrip.PlainRoundTrip(r.flow, level, cfg, value, pen, !r.simpleKey, before, column, rest);
      RecognisedIsInside(r.flow, buf, p, column);
    } else {
      StartsWithIndicator(cfg, value, pen, style, !r.simpleKey, before, rest);
      Indicators();
      QuoteIsRecognised(r.flow, buf, p, column);
      if style.SingleStyle? {
        FlowRoundTrip.SingleQuotedRoundTrip(cfg, value, pen, !r.simpleKey, before, column, rest);
      } else if style.DoubleStyle? {
        FlowRoundTrip.DoubleQuotedRoundTrip(cfg, value, pen, !r.simpleKey, before, column, rest);
      } else if style.LiteralStyle? {
        LiteralLimits.LiteralReadsIff(level, cfg, value, pen, before, column, rest);
        if !IsBreak(value[0]) && LiteralRoundTrip.HintFits(level, cfg, value) {
          LiteralRoundTrip.LiteralRoundTrip(level, cfg, value, pen, before, column, rest);
        }
      } else {
        FoldedRoundTrip.FoldedReadsIff(level, cfg, value, pen, before, column, rest);
      }
    }
  }

  lemma Indicators()
    ensures StyleIndicator(SingleStyle) == '\'' && StyleIndicator(DoubleStyle) == '"'
    ensures StyleIndicator(LiteralStyle) == '|' && StyleIndicator(FoldedStyle) == '>'
  {}

  lemma RecognisedIsInside(flow: bool, buf: string, p: nat, column: nat)
    requires Dispatch(flow, buf, p, column) != StreamEnd
    ensures p < |buf|
  {}
}
