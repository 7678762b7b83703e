/**
  What `yaml_parser_scan_plain_scalar` computes, in the same three loops as FlowScalar,
  and how the token fetcher recognises a scalar. YAML 1.2 section 7.3.3.
 */
module PlainScalar {
  import opened Chars
  import opened FlowScalar

  datatype PlainScan =
    | PlainDone(value: string, end: nat, next: nat, column: nat, leading: bool)
    | PlainFail(error: ScanError)

  /** The indicators that end a plain scalar in the middle of a line. */
  predicate EndsPlain(flow: bool, c: char, d: char) {
    || (c == ':' && IsBlankz(d))
    || (flow && c in ",?[]{}")
  }


  /** The head of the outer loop. `indent` is one more than the scanner's level. */
  function PlainStart(flow: bool, indent: int, buf: string, p: nat, column: nat, s: string, g: Gap, end: nat): (r: PlainScan)
    requires end <= p <= |buf|
    ensures r.PlainDone? ==> end <= r.end <= r.next <= |buf| && p <= r.next
    decreases |buf| - p, if IsBlank(At(buf, p)) || IsBreak(At(buf, p)) then 2 else 1
  {
    if DocumentIndicator(buf, p, column) || At(buf, p) == '#' then PlainDone(s, end, p, column, g.leading)
    else PlainWord(flow, indent, buf, p, column, s, g, end)
  }

  /** The loop over non-blank characters. */
  function PlainWord(flow: bool, indent: int, buf: string, p: nat, column: nat, s: string, g: Gap, end: nat): (r: PlainScan)
    requires end <= p <= |buf|
    ensures r.PlainDone? ==> end <= r.end <= r.next <= |buf| && p <= r.next
    decreases |buf| - p, if IsBlank(At(buf, p)) || IsBreak(At(buf, p)) then 1 else 0
  {
    var c := At(buf, p);
    if IsBlank(c) || IsBreak(c) then PlainBlanks(flow, indent, buf, p, column, s, g, end)
    else if IsZ(c) || EndsPlain(flow, c, At(buf, p + 1)) then PlainDone(s, end, p, column, g.leading)
    else PlainWord(flow, indent, buf, p + 1, column + 1, s + Join(g) + [c], NoGap, p + 1)
  }

  /** The loop over blanks and line breaks, and the check of the indentation. */
  function PlainBlanks(flow: bool, indent: int, buf: string, p: nat, column: nat, s: string, g: Gap, end: nat): (r: PlainScan)
    requires end <= p <= |buf|
    ensures r.PlainDone? ==> end <= r.end <= r.next <= |buf| && p <= r.next
    decreases |buf| - p, if IsBlank(At(buf, p)) || IsBreak(At(buf, p)) then 0 else 2
  {
    var c := At(buf, p);
    if IsBlank(c) then
      if g.leading && column < indent && IsTab(c) then PlainFail(TabInIndentation)
      else PlainBlanks(flow, indent, buf, p + 1, column + 1, s, AddBlank(g, c), end)
    else if IsBreak(c) then
      PlainBlanks(flow, indent, buf, p + BreakLen(buf, p), 0, s, AddBreak(g, c), end)
    else if !flow && column < indent then PlainDone(s, end, p, column, g.leading)
    else PlainStart(flow, indent, buf, p, column, s, g, end)
  }

  function ScanPlainScalar(flow: bool, level: int, buf: string, p: nat, column: nat): PlainScan
    requires p <= |buf|
  {
    PlainStart(flow, level + 1, buf, p, column, "", NoGap, p)
  }

  // ----- the token dispatcher -----

  datatype TokenStart =
    | StreamEnd | Directive | DocumentStart | DocumentEnd
    | FlowSequenceStart | FlowMappingStart | FlowSequenceEnd | FlowMappingEnd | FlowEntry
    | BlockEntry | Key | Value | Alias | Anchor | Tag
    | LiteralScalar | FoldedScalar | SingleQuotedScalar | DoubleQuotedScalar | PlainScalarStart
    | NoToken

  /** Which fetcher `yaml_parser_fetch_next_token` calls for the text at p. */
  function Dispatch(flow: bool, buf: string, p: nat, column: nat): TokenStart {
    var c := At(buf, p);
    var d := At(buf, p + 1);
    if IsZ(c) then StreamEnd
    else if column == 0 && c == '%' then Directive
    else if DocumentIndicator(buf, p, column) && c == '-' then DocumentStart
    else if DocumentIndicator(buf, p, column) && c == '.' then DocumentEnd
    else if c == '[' then FlowSequenceStart
    else if c == '{' then FlowMappingStart
    else if c == ']' then FlowSequenceEnd
    else if c == '}' then FlowMappingEnd
    else if c == ',' then FlowEntry
    else if c == '-' && IsBlankz(d) then BlockEntry
    else if c == '?' && (flow || IsBlankz(d)) then Key
    else if c == ':' && (flow || IsBlankz(d)) then Value
    else if c == '*' then Alias
    else if c == '&' then Anchor
    else if c == '!' then Tag
    else if c == '|' && !flow then LiteralScalar
    else if c == '>' && !flow then FoldedScalar
    else if c == '\'' then SingleQuotedScalar
    else if c == '"' then DoubleQuotedScalar
    else if
      || !(IsBlankz(c) || c in "-?:,[]{}#&*!|>'\"%@`")
      || (c == '-' && !IsBlank(d))
      || (!flow && c in "?:" && !IsBlankz(d))
    then PlainScalarStart
    else NoToken
  }
}
