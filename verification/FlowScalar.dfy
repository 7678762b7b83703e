/**
  What `yaml_parser_scan_flow_scalar` computes: the value of a quoted scalar and the
  position just past its closing quote, as tail calls between the head of the outer
  loop (Start), the loop over non-blank characters (Word) and the loop over blanks and
  line breaks (Blanks). YAML 1.2 sections 5.7, 6.5, 7.3.1 and 7.3.2.
 */
module FlowScalar {
  import opened Chars

  datatype ScanError =
    | UnexpectedDocumentIndicator
    | UnexpectedEndOfStream
    | UnknownEscape
    | NotHexadecimal
    | InvalidCodePoint
    | TabInIndentation
    | ZeroIndentationIndicator
    | ExpectedLineBreak

  datatype Scan = Done(value: string, next: nat, column: nat) | Fail(error: ScanError)

  /** White space and line breaks collected between two words. */
  datatype Gap = Gap(blanks: string, first: string, rest: string, leading: bool)

  const NoGap := Gap("", "", "", false)

  /** What a gap contributes to the value once it has been folded. */
  function Join(g: Gap): string {
    if !g.leading then g.blanks
    else if g.first != "" && g.first[0] == '\n' then
      if g.rest == "" then " " else g.rest
    else g.first + g.rest
  }

  function AddBlank(g: Gap, c: char): Gap {
    if g.leading then g else g.(blanks := g.blanks + [c])
  }

  function AddBreak(g: Gap, c: char): Gap
    requires IsBreak(c)
  {
    if g.leading then g.(rest := g.rest + BreakText(c))
    else g.(blanks := "", first := g.first + BreakText(c), leading := true)
  }

  /** `---` or `...` at the beginning of a line, followed by white space or the end. */
  predicate DocumentIndicator(buf: string, p: nat, column: nat) {
    && column == 0
    && (|| (At(buf, p) == '-' && At(buf, p + 1) == '-' && At(buf, p + 2) == '-')
        || (At(buf, p) == '.' && At(buf, p + 1) == '.' && At(buf, p + 2) == '.'))
    && IsBlankz(At(buf, p + 3))
  }

  /** The single-character escapes of double-quoted scalars. */
  function Escape(c: char): (r: string)
    ensures |r| <= 1
    ensures r != "" ==> c != '\0'
  {
    if c == '0' then "\0"
    else if c == 'a' then "\U{07}"
    else if c == 'b' then "\U{08}"
    else if c == 't' || c == '\t' then "\t"
    else if c == 'n' then "\n"
    else if c == 'v' then "\U{0B}"
    else if c == 'f' then "\U{0C}"
    else if c == 'r' then "\r"
    else if c == 'e' then "\U{1B}"
    else if c == ' ' then " "
    else if c == '"' then "\""
    else if c == '\'' then "'"
    else if c == '\\' then "\\"
    else if c == 'N' then [NEL]
    else if c == '_' then "\U{A0}"
    else if c == 'L' then [LS]
    else if c == 'P' then [PS]
    else ""
  }

  function CodeLength(c: char): nat {
    if c == 'x' then 2 else if c == 'u' then 4 else if c == 'U' then 8 else 0
  }

  predicate AllHex(buf: string, p: nat, n: nat) {
    forall k :: p <= k < p + n ==> IsHex(At(buf, k))
  }

  function HexValue(buf: string, p: nat, n: nat): nat
    requires AllHex(buf, p, n)
  {
    if n == 0 then 0 else HexValue(buf, p, n - 1) * 16 + AsHex(At(buf, p + n - 1))
  }

  predicate IsCodePoint(v: int) {
    0 <= v < 0xD800 || 0xDFFF < v <= 0x10FFFF
  }


  function StartRank(c: char): nat {
    if IsZ(c) then 0 else if IsBlankz(c) then 2 else 1
  }

  function WordRank(c: char): nat {
    if IsZ(c) then 2 else if IsBlankz(c) then 1 else 0
  }

  function BlanksRank(c: char): nat {
    if IsZ(c) then 1 else if IsBlankz(c) then 0 else 2
  }

  /** The head of the outer loop. */
  function Start(single: bool, buf: string, p: nat, column: nat, s: string): (r: Scan)
    requires p <= |buf|
    ensures r.Done? ==> p < r.next <= |buf|
    decreases |buf| - p, StartRank(At(buf, p))
  {
    if DocumentIndicator(buf, p, column) then Fail(UnexpectedDocumentIndicator)
    else if IsZ(At(buf, p)) then Fail(UnexpectedEndOfStream)
    else Word(single, buf, p, column, s)
  }

  /** The loop over non-blank characters. */
  function Word(single: bool, buf: string, p: nat, column: nat, s: string): (r: Scan)
    requires p <= |buf|
    ensures r.Done? ==> p < r.next <= |buf|
    decreases |buf| - p, WordRank(At(buf, p))
  {
    var c := At(buf, p);
    var d := At(buf, p + 1);
    if IsBlankz(c) then Blanks(single, buf, p, column, s, NoGap)
    else if single && c == '\'' && d == '\'' then Word(single, buf, p + 2, column + 2, s + "'")
    else if single && c == '\'' then Done(s, p + 1, column + 1)
    else if !single && c == '"' then Done(s, p + 1, column + 1)
    else if !single && c == '\\' && IsBreak(d) then
      var q := p + 1 + BreakLen(buf, p + 1);
      if At(buf, q) == '"' then Done(s, q + 1, 1)
      else Blanks(single, buf, q, 0, s, NoGap.(leading := true))
    else if !single && c == '\\' then
      if Escape(d) != "" then Word(single, buf, p + 2, column + 2, s + Escape(d))
      else if CodeLength(d) == 0 then Fail(UnknownEscape)
      else
        var n := CodeLength(d);
        if !AllHex(buf, p + 2, n) then Fail(NotHexadecimal)
        else
          var v := HexValue(buf, p + 2, n);
          if !IsCodePoint(v) then Fail(InvalidCodePoint)
          else
            assert IsHex(At(buf, p + 1 + n));
            Word(single, buf, p + 2 + n, column + 2 + n, s + [v as char])
    else Word(single, buf, p + 1, column + 1, s + [c])
  }

  /** The loop over blanks and line breaks, and the folding that ends it. */
  function Blanks(single: bool, buf: string, p: nat, column: nat, s: string, g: Gap): (r: Scan)
    requires p <= |buf|
    ensures r.Done? ==> p < r.next <= |buf|
    decreases |buf| - p, BlanksRank(At(buf, p))
  {
    var c := At(buf, p);
    if IsBlank(c) then Blanks(single, buf, p + 1, column + 1, s, AddBlank(g, c))
    else if IsBreak(c) then
      Blanks(single, buf, p + BreakLen(buf, p), 0, s, AddBreak(g, c))
    else Start(single, buf, p, column, s + Join(g))
  }

  lemma BlanksStep(single: bool, buf: string, p: nat, column: nat, s: string, g: Gap)
    requires p <= |buf|
    ensures var c := At(buf, p);
      Blanks(single, buf, p, column, s, g) ==
        if IsBlank(c) then Blanks(single, buf, p + 1, column + 1, s, AddBlank(g, c))
        else if IsBreak(c) then Blanks(single, buf, p + BreakLen(buf, p), 0, s, AddBreak(g, c))
        else Start(single, buf, p, column, s + Join(g))
  {
    hide Start, Word;
  }

  /** A whole quoted scalar whose opening quote is at p. */
  function ScanFlowScalar(single: bool, buf: string, p: nat, column: nat): Scan
    requires p < |buf|
  {
    Start(single, buf, p + 1, column + 1, "")
  }
}
