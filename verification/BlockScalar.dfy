/**
  What `yaml_parser_scan_block_scalar` computes: the header, the detection of the
  indentation, the lines and the chomping. YAML 1.2 sections 8.1.1 and 8.1.2.
 */
module BlockScalar {
  import opened Basics
  import opened Chars
  import opened FlowScalar

  datatype BlockScan =
    | BlockDone(value: string, end: nat, next: nat, column: nat)
    | BlockFail(error: ScanError)

  /** What stays fixed while the lines are read. */
  datatype Block = Block(literal: bool, level: int, chomping: int, buf: string)

  datatype Header =
    | HeaderDone(chomping: int, increment: nat, next: nat, column: nat)
    | HeaderFail(error: ScanError)

  predicate IsChomp(c: char) { c == '+' || c == '-' }

  function Chomping(c: char): int { if c == '+' then 1 else if c == '-' then -1 else 0 }

  function DigitValue(c: char): nat
    requires IsDigit(c)
  {
    c as int - '0' as int
  }

  /** The chomping and indentation indicators, in either order, starting at p. */
  function Indicators(buf: string, p: nat, column: nat): (h: Header)
    requires p <= |buf|
    ensures h.HeaderDone? ==> p <= h.next <= |buf|
  {
    var c := At(buf, p);
    if IsChomp(c) then
      var d := At(buf, p + 1);
      if d == '0' then HeaderFail(ZeroIndentationIndicator)
      else if IsDigit(d) then HeaderDone(Chomping(c), DigitValue(d), p + 2, column + 2)
      else HeaderDone(Chomping(c), 0, p + 1, column + 1)
    else if IsDigit(c) then
      if c == '0' then HeaderFail(ZeroIndentationIndicator)
      else
        var d := At(buf, p + 1);
        if IsChomp(d) then HeaderDone(Chomping(d), DigitValue(c), p + 2, column + 2)
        else HeaderDone(0, DigitValue(c), p + 1, column + 1)
    else HeaderDone(0, 0, p, column)
  }

  function SkipBlanks(buf: string, p: nat): (q: nat)
    requires p <= |buf|
    ensures p <= q <= |buf|
    decreases |buf| - p
  {
    if IsBlank(At(buf, p)) then SkipBlanks(buf, p + 1) else p
  }

  function SkipToBreak(buf: string, p: nat): (q: nat)
    requires p <= |buf|
    ensures p <= q <= |buf|
    decreases |buf| - p
  {
    if IsBreakz(At(buf, p)) then p else SkipToBreak(buf, p + 1)
  }

  function IndentFrom(level: int, increment: nat): int {
    if increment == 0 then 0 else if level >= 0 then level + increment else increment
  }

  /** Indentation spaces and empty lines. Before the first line, the end mark moves along. */
  function Breaks(k: Block, p: nat, column: nat, indent: int, s: string, first: string, rest: string, deepest: nat, afterBlank: bool, end: nat): (r: BlockScan)
    requires end <= p <= |k.buf|
    ensures r.BlockDone? ==> end <= r.end <= r.next <= |k.buf| && p <= r.next
    decreases |k.buf| - p, if IsZ(At(k.buf, p)) then 1 else if IsBreak(At(k.buf, p)) then 0 else 2
  {
    var c := At(k.buf, p);
    if (indent == 0 || column < indent) && IsSpace(c) then
      Breaks(k, p + 1, column + 1, indent, s, first, rest, deepest, afterBlank, end)
    else
      var m: nat := if column > deepest then column else deepest;
      if IsTab(c) && ((indent == 0 && column <= k.level) || (indent > 0 && column < indent)) then
        BlockFail(TabInIndentation)
      else if IsBreak(c) then
        var q := p + BreakLen(k.buf, p);
        Breaks(k, q, 0, indent, s, first, rest + BreakText(c), m, afterBlank, if s == "" then q else end)
      else
        Head(k, p, column, if indent == 0 then Max(Max(m, k.level + 1), 1) else indent, s, first, rest, afterBlank, end)
  }

  /** The beginning of a line that is not empty, or the end of the scalar. */
  function Head(k: Block, p: nat, column: nat, indent: int, s: string, first: string, rest: string, afterBlank: bool, end: nat): (r: BlockScan)
    requires end <= p <= |k.buf|
    ensures r.BlockDone? ==> end <= r.end <= r.next <= |k.buf| && p <= r.next
    decreases |k.buf| - p, if IsZ(At(k.buf, p)) then 0 else if IsBreak(At(k.buf, p)) then 2 else 1
  {
    var c := At(k.buf, p);
    if column == indent && !IsZ(c) then
      var joined :=
        if !k.literal && !afterBlank && !IsBlank(c) && first != "" && first[0] == '\n' then
          if rest == "" then " " else ""
        else first;
      Line(k, p, column, indent, s + joined + rest, IsBlank(c), end)
    else
      BlockDone(s + (if k.chomping != -1 then first else "") + (if k.chomping == 1 then rest else ""), end, p, column)
  }

  /** The characters of a line, up to its line break. */
  function Line(k: Block, p: nat, column: nat, indent: int, s: string, afterBlank: bool, end: nat): (r: BlockScan)
    requires end <= p <= |k.buf|
    ensures r.BlockDone? ==> end <= r.end <= r.next <= |k.buf| && p <= r.next
    decreases |k.buf| - p, if IsZ(At(k.buf, p)) then 2 else if IsBreak(At(k.buf, p)) then 1 else 0
  {
    var c := At(k.buf, p);
    if IsBreak(c) then
      Breaks(k, p + BreakLen(k.buf, p), 0, indent, s, BreakText(c), "", 0, afterBlank, p)
    else if IsZ(c) then Breaks(k, p, column, indent, s, "", "", 0, afterBlank, p)
    else Line(k, p + 1, column + 1, indent, s + [c], afterBlank, end)
  }

  /** A whole block scalar whose `|` or `>` is at p. */
  function ScanBlockScalar(literal: bool, level: int, buf: string, p: nat, column: nat): BlockScan
    requires p < |buf|
  {
    var h := Indicators(buf, p + 1, column + 1);
    if h.HeaderFail? then BlockFail(h.error)
    else
      var q := SkipBlanks(buf, h.next);
      var e := if At(buf, q) == '#' then SkipToBreak(buf, q) else q;
      if !IsBreakz(At(buf, e)) then BlockFail(ExpectedLineBreak)
      else
        var b := e + BreakLen(buf, e);
        var col := if IsBreak(At(buf, e)) then 0 else h.column + (e - h.next);
        Breaks(Block(literal, level, h.chomping, buf), b, col, IndentFrom(level, h.increment), "", "", "", 0, false, b)
  }
}
