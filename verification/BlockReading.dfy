/**
  Reading literal and folded block scalars, whoever wrote them: lines at an indentation, with
  empty lines between them, are read as the value that YAML 1.2 sections 8.1 and 6.5 give them.
 */
module BlockReading {
  import opened Basics
  import opened Chars
  import opened FlowScalar
  import opened BlockScalar
  import opened LineFolding
  import opened LiteralRoundTrip

  // ----- block texts -----

  /** A line that holds nothing but indentation. */
  datatype Empty = Empty(spaces: nat, end: LineEnd)

  /** A line behind its indentation, its end, and the empty lines that follow. */
  datatype Row = Row(content: string, end: LineEnd, empties: seq<Empty>)

  /** `last`: a line that the input ends in, if not empty. */
  datatype Rows = Rows(rows: seq<Row>, last: string)

  datatype Chomping = Strip | Clip | Keep

  /** The header behind `|` or `>`; the digit is 0 if there is none. */
  datatype Intro = Intro(chomping: Chomping, digit: nat, digitFirst: bool, blanks: string, comment: string, end: LineEnd)

  function EmptiesText(es: seq<Empty>): string {
    if es == [] then "" else Spaces(es[0].spaces) + (EndText(es[0].end) + EmptiesText(es[1..]))
  }

  function EmptiesValue(es: seq<Empty>): string {
    if es == [] then "" else EndValue(es[0].end) + EmptiesValue(es[1..])
  }

  function RowsText(r: Rows, indent: nat): string
    decreases |r.rows|, 0
  {
    if r.rows == [] then if r.last == "" then "" else Spaces(indent) + r.last
    else Spaces(indent) + (r.rows[0].content + RowEnd(r.rows[0], r.(rows := r.rows[1..]), indent))
  }

  /** What comes behind the content of a row. */
  function RowEnd(row: Row, more: Rows, indent: nat): string
    decreases |more.rows|, 1
  {
    EndText(row.end) + (EmptiesText(row.empties) + RowsText(more, indent))
  }

  /** A CR is not followed by an LF. */
  predicate EndFits(e: LineEnd, rest: string) { e.CarriageReturn? ==> At(rest, 0) != '\n' }

  /** Empty lines are not deeper than the scalar. */
  predicate EmptiesFit(es: seq<Empty>, indent: nat, rest: string)
    decreases |es|
  {
    es == [] || (es[0].spaces <= indent && EndFits(es[0].end, EmptiesText(es[1..]) + rest) && EmptiesFit(es[1..], indent, rest))
  }

  predicate IsContent(s: string) { s != "" && forall i :: 0 <= i < |s| ==> !IsBreakz(s[i]) }

  predicate RowsFit(r: Rows, indent: nat, rest: string)
    decreases |r.rows|
  {
    if r.rows == [] then r.last != "" ==> IsContent(r.last) && At(rest, 0) == '\0'
    else
      var row, more := r.rows[0], r.(rows := r.rows[1..]);
      IsContent(row.content) && EndRowFits(row, more, indent, rest) && RowsFit(more, indent, rest)
  }

  predicate EndRowFits(row: Row, more: Rows, indent: nat, rest: string) {
    var behind := RowsText(more, indent) + rest;
    EmptiesFit(row.empties, indent, behind) && EndFits(row.end, EmptiesText(row.empties) + behind)
  }

  // ----- their values -----

  /** The line breaks between two lines. A folded scalar turns a single line feed into a space
      and drops the first of several, unless one of the lines begins with white space. */
  function Between(literal: bool, row: Row, next: string): string {
    var end, breaks := EndValue(row.end), EmptiesValue(row.empties);
    if literal || end != "\n" || (row.content != "" && IsBlank(row.content[0])) || (next != "" && IsBlank(next[0])) then end + breaks
    else if row.empties == [] then " "
    else breaks
  }

  /** What chomping leaves of the breaks at the end. */
  function Chomped(c: Chomping, row: Row): string {
    match c
    case Strip => ""
    case Clip => EndValue(row.end)
    case Keep => EndValue(row.end) + EmptiesValue(row.empties)
  }

  /** The value behind the content of a row. */
  function ValueBehind(literal: bool, c: Chomping, row: Row, more: Rows): string
    decreases |more.rows|
  {
    if more.rows == [] then if more.last == "" then Chomped(c, row) else Between(literal, row, more.last) + more.last
    else
      var next := more.rows[0];
      Between(literal, row, next.content) + (next.content + ValueBehind(literal, c, next, more.(rows := more.rows[1..])))
  }

  function BlockValue(literal: bool, c: Chomping, lead: seq<Empty>, r: Rows): string {
    if r.rows == [] then
      if r.last != "" then EmptiesValue(lead) + r.last
      else if c.Keep? then EmptiesValue(lead)
      else ""
    else EmptiesValue(lead) + (r.rows[0].content + ValueBehind(literal, c, r.rows[0], r.(rows := r.rows[1..])))
  }

  function ChompingOf(c: Chomping): int { if c.Strip? then -1 else if c.Keep? then 1 else 0 }

  // ----- empty lines -----

  /** Once the indentation is known, the depth of empty lines does not matter. */
  lemma {:induction false} DeepestIrrelevant(k: Block, p: nat, column: nat, indent: int, s: string, first: string, trail: string,
                                             d: nat, e: nat, blank: bool, end: nat)
    requires end <= p <= |k.buf| && indent > 0
    ensures Breaks(k, p, column, indent, s, first, trail, d, blank, end) == Breaks(k, p, column, indent, s, first, trail, e, blank, end)
    decreases |k.buf| - p
  {
    hide Head;
    var c := At(k.buf, p);
    if column < indent && IsSpace(c) {
      DeepestIrrelevant(k, p + 1, column + 1, indent, s, first, trail, d, e, blank, end);
    } else if IsBreak(c) {
      var q := p + BreakLen(k.buf, p);
      DeepestIrrelevant(k, q, 0, indent, s, first, trail + BreakText(c),
                        if column > d then column else d, if column > e then column else e, blank, if s == "" then q else end);
    }
  }

  /** The end of an empty line. */
  lemma EmptyEnds(k: Block, p: nat, column: nat, indent: int, s: string, first: string, trail: string, d: nat, blank: bool, end: nat,
                  e: LineEnd, rest: string) returns (end': nat)
    requires end <= p <= |k.buf| && k.buf[p..] == EndText(e) + rest && EndFits(e, rest)
    ensures var q := p + |EndText(e)|;
      && q <= |k.buf| && k.buf[q..] == rest && end' <= q && (s != "" ==> end' == end)
      && Breaks(k, p, column, indent, s, first, trail, d, blank, end)
         == Breaks(k, q, 0, indent, s, first, trail + EndValue(e), if column > d then column else d, blank, end')
  {
    hide Head, EndText, EndValue, BreakText, BreakLen;
    EndReads(k.buf, p, e, rest);
    assert !IsTab(At(k.buf, p)) && !IsSpace(At(k.buf, p));
    end' := if s == "" then p + BreakLen(k.buf, p) else end;
  }

  /** All empty lines. `deepest` stays within the indentation. */
  lemma {:induction false} EmptiesRead(k: Block, p: nat, indent: int, s: string, first: string, trail: string, d: nat, blank: bool, end: nat,
                                       es: seq<Empty>, margin: nat, rest: string) returns (d': nat, end': nat)
    requires end <= p <= |k.buf| && k.buf[p..] == EmptiesText(es) + rest && EmptiesFit(es, margin, rest)
    requires (indent == 0 || indent == margin) && d <= margin
    ensures d' <= margin
    ensures var q := p + |EmptiesText(es)|;
      && q <= |k.buf| && k.buf[q..] == rest && end' <= q && (s != "" ==> end' == end)
      && Breaks(k, p, 0, indent, s, first, trail, d, blank, end)
         == Breaks(k, q, 0, indent, s, first, trail + EmptiesValue(es), d', blank, end')
    decreases |es|
  {
    hide *;
    EmptiesStep(es, margin, rest, trail);
    if es == [] {
      d', end' := d, end;
    } else {
      var x := es[0];
      var behind := EmptiesText(es[1..]) + rest;
      SkipIndent(k, p, 0, indent, s, first, trail, d, blank, end, x.spaces, EndText(x.end) + behind);
      var e1 := EmptyEnds(k, p + x.spaces, x.spaces, indent, s, first, trail, d, blank, end, x.end, behind);
      d', end' := EmptiesRead(k, p + x.spaces + |EndText(x.end)|, indent, s, first, trail + EndValue(x.end),
                              if x.spaces > d then x.spaces else d, blank, e1, es[1..], margin, rest);
    }
  }

  lemma EmptiesStep(es: seq<Empty>, margin: nat, rest: string, trail: string)
    requires EmptiesFit(es, margin, rest)
    ensures es == [] ==> EmptiesText(es) == "" && EmptiesText(es) + rest == rest && trail + EmptiesValue(es) == trail
    ensures es != [] ==>
      var x, behind := es[0], EmptiesText(es[1..]) + rest;
      && EmptiesText(es) + rest == Spaces(x.spaces) + (EndText(x.end) + behind)
      && |EmptiesText(es)| == x.spaces + |EndText(x.end)| + |EmptiesText(es[1..])|
      && trail + EmptiesValue(es) == trail + EndValue(x.end) + EmptiesValue(es[1..])
      && x.spaces <= margin && EndFits(x.end, behind) && EmptiesFit(es[1..], margin, rest)
  {
    hide EndText, EndValue, EndFits;
    if es == [] {
      assert "" + rest == rest && trail + "" == trail;
    } else {
      var x := es[0];
      Assoc(EndText(x.end), EmptiesText(es[1..]), rest);
      Assoc(Spaces(x.spaces), EndText(x.end) + EmptiesText(es[1..]), rest);
      Assoc(trail, EndValue(x.end), EmptiesValue(es[1..]));
    }
  }

  // ----- lines -----

  lemma LineStep(k: Block, p: nat, column: nat, indent: int, s: string, blank: bool, end: nat, c: char, rest: string)
    requires end <= p <= |k.buf| && k.buf[p..] == [c] + rest && !IsBreakz(c)
    ensures p + 1 <= |k.buf| && k.buf[p + 1..] == rest
    ensures Line(k, p, column, indent, s, blank, end) == Line(k, p + 1, column + 1, indent, s + [c], blank, end)
  {
    Advance(k.buf, p, [c], rest);
    assert At(k.buf, p + 0) == [c][0];
  }

  lemma {:induction false} ContentReads(k: Block, p: nat, column: nat, indent: int, s: string, blank: bool, end: nat, x: string, rest: string)
    requires end <= p <= |k.buf| && k.buf[p..] == x + rest && forall i :: 0 <= i < |x| ==> !IsBreakz(x[i])
    ensures p + |x| <= |k.buf| && k.buf[p + |x|..] == rest
    ensures Line(k, p, column, indent, s, blank, end) == Line(k, p + |x|, column + |x|, indent, s + x, blank, end)
    decreases |x|
  {
    hide Line;
    if x == "" {
      assert "" + rest == rest && s + "" == s;
    } else {
      assert x + rest == [x[0]] + (x[1..] + rest);
      LineStep(k, p, column, indent, s, blank, end, x[0], x[1..] + rest);
      assert s + [x[0]] + x[1..] == s + x;
      ContentReads(k, p + 1, column + 1, indent, s + [x[0]], blank, end, x[1..], rest);
    }
  }

  /** A line that is not empty, at the indentation; `indent` is 0 if that is detected here. */
  lemma LineBegins(k: Block, p: nat, indent: nat, margin: nat, s: string, first: string, trail: string, d: nat, blank: bool, end: nat,
                   x: string, rest: string)
    requires end <= p <= |k.buf| && k.buf[p..] == Spaces(margin) + (x + rest) && IsContent(x) && margin > 0 && d <= margin
    requires indent == margin || (indent == 0 && !IsSpace(x[0]) && k.level < margin)
    ensures var q := p + margin + |x|;
      && q <= |k.buf| && k.buf[q..] == rest
      && Breaks(k, p, 0, indent, s, first, trail, d, blank, end)
         == Line(k, q, margin + |x|, margin, s + Joined(k.literal, blank, x[0], first, trail) + trail + x, IsBlank(x[0]), end)
  {
    hide Line, Breaks;
    SkipIndent(k, p, 0, indent, s, first, trail, d, blank, end, margin, x + rest);
    assert k.buf[p + margin..][0] == x[0];
    AtMargin(k, p + margin, indent, margin, s, first, trail, d, blank, end);
    ContentReads(k, p + margin, margin, margin, s + Joined(k.literal, blank, x[0], first, trail) + trail, IsBlank(x[0]), end, x, rest);
  }

  function Joined(literal: bool, blank: bool, c: char, first: string, trail: string): string {
    if !literal && !blank && !IsBlank(c) && first != "" && first[0] == '\n' then if trail == "" then " " else "" else first
  }

  lemma AtMargin(k: Block, q: nat, indent: nat, margin: nat, s: string, first: string, trail: string, d: nat, blank: bool, end: nat)
    requires end <= q <= |k.buf| && margin > 0 && d <= margin && !IsBreakz(At(k.buf, q))
    requires indent == margin || (indent == 0 && !IsSpace(At(k.buf, q)) && k.level < margin)
    ensures Breaks(k, q, margin, indent, s, first, trail, d, blank, end)
         == Line(k, q, margin, margin, s + Joined(k.literal, blank, At(k.buf, q), first, trail) + trail, IsBlank(At(k.buf, q)), end)
  {
    hide Line;
    assert Breaks(k, q, margin, indent, s, first, trail, d, blank, end) == Head(k, q, margin, margin, s, first, trail, blank, end);
  }

  /** Joining as the scanner does it is what comes between the lines. */
  lemma JoinedIsBetween(literal: bool, row: Row, next: string)
    requires IsContent(row.content) && IsContent(next)
    ensures Joined(literal, IsBlank(row.content[0]), next[0], EndValue(row.end), EmptiesValue(row.empties)) + EmptiesValue(row.empties)
         == Between(literal, row, next)
  {
    var end, breaks := EndValue(row.end), EmptiesValue(row.empties);
    assert |end| == 1;
    assert breaks == "" <==> row.empties == [] by { NoValue(row.empties); }
    assert " " + "" == " " && "" + breaks == breaks;
  }

  lemma NoValue(es: seq<Empty>)
    ensures EmptiesValue(es) == "" <==> es == []
  {
    if es != [] {
      assert |EndValue(es[0].end)| == 1;
    }
  }

  /** From the end of a row to the beginning of what is behind its empty lines. */
  lemma RowEnds(k: Block, p: nat, column: nat, indent: nat, s: string, blank: bool, end: nat, row: Row, more: Rows, rest: string)
    returns (d: nat, q: nat)
    requires end <= p <= |k.buf| && s != "" && indent > 0 && EndRowFits(row, more, indent, rest)
    requires k.buf[p..] == RowEnd(row, more, indent) + rest
    ensures d <= indent && p <= q <= |k.buf| && k.buf[q..] == RowsText(more, indent) + rest
    ensures Line(k, p, column, indent, s, blank, end) == Breaks(k, q, 0, indent, s, EndValue(row.end), EmptiesValue(row.empties), d, blank, p)
  {
    hide Breaks, RowsText, EmptiesText, EmptiesValue, EmptiesFit;
    var behind := RowsText(more, indent) + rest;
    Assoc(EmptiesText(row.empties), RowsText(more, indent), rest);
    Assoc(EndText(row.end), EmptiesText(row.empties) + RowsText(more, indent), rest);
    EndReads(k.buf, p, row.end, EmptiesText(row.empties) + behind);
    hide EndText, EndValue, BreakText, BreakLen;
    var r := p + |EndText(row.end)|;
    assert Line(k, p, column, indent, s, blank, end) == Breaks(k, r, 0, indent, s, EndValue(row.end), "", 0, blank, p);
    var e;
    d, e := EmptiesRead(k, r, indent, s, EndValue(row.end), "", 0, blank, p, row.empties, indent, behind);
    q := r + |EmptiesText(row.empties)|;
    assert "" + EmptiesValue(row.empties) == EmptiesValue(row.empties);
  }

  /** The scalar ends at a shallower line, or at the end of the input. */
  lemma BlockEnds(k: Block, q: nat, indent: nat, s: string, c: Chomping, row: Row, d: nat, blank: bool, end: nat, rest: string)
    requires end <= q <= |k.buf| && k.buf[q..] == rest && indent > 0 && (rest == "" || Dedent(indent, rest))
    requires k.chomping == ChompingOf(c)
    ensures BlockReads(Breaks(k, q, 0, indent, s, EndValue(row.end), EmptiesValue(row.empties), d, blank, end), s + Chomped(c, row))
  {
    hide Breaks, EndValue, EmptiesValue;
    DeepestIrrelevant(k, q, 0, indent, s, EndValue(row.end), EmptiesValue(row.empties), d, 0, blank, end);
    DedentEnds(k, q, indent, s, EndValue(row.end), EmptiesValue(row.empties), blank, end, rest);
    Assoc(s, EndValue(row.end), EmptiesValue(row.empties));
    assert s + "" == s && s + EndValue(row.end) + "" == s + EndValue(row.end);
  }

  lemma LastEnds(k: Block, p: nat, column: nat, indent: nat, s: string, blank: bool, end: nat)
    requires end <= p <= |k.buf| && At(k.buf, p) == '\0' && indent > 0
    ensures BlockReads(Line(k, p, column, indent, s, blank, end), s)
  {
    assert Line(k, p, column, indent, s, blank, end) == Breaks(k, p, column, indent, s, "", "", 0, blank, p);
    assert Breaks(k, p, column, indent, s, "", "", 0, blank, p) == Head(k, p, column, indent, s, "", "", blank, p);
    assert s + "" + "" == s;
  }

  /** What may follow the scalar. */
  ghost predicate Follows(r: Rows, indent: nat, rest: string) {
    r.last == "" ==> rest == "" || Dedent(indent, rest)
  }

  function NextContent(more: Rows): string { if more.rows == [] then more.last else more.rows[0].content }

  /** What comes behind the content of the next line. */
  function BehindNext(more: Rows, indent: nat, rest: string): string {
    if more.rows == [] then rest else RowEnd(more.rows[0], more.(rows := more.rows[1..]), indent) + rest
  }

  /** The next line, joined to what has been read. */
  lemma NextRead(k: Block, p: nat, column: nat, indent: nat, s: string, end: nat, row: Row, more: Rows, rest: string) returns (q: nat)
    requires end <= p <= |k.buf| && s != "" && indent > 0 && (more.rows != [] || more.last != "")
    requires IsContent(row.content) && EndRowFits(row, more, indent, rest) && RowsFit(more, indent, rest)
    requires k.buf[p..] == RowEnd(row, more, indent) + rest
    ensures var next := NextContent(more);
      && IsContent(next) && p <= q <= |k.buf| && k.buf[q..] == BehindNext(more, indent, rest)
      && Line(k, p, column, indent, s, IsBlank(row.content[0]), end)
         == Line(k, q, indent + |next|, indent, s + (Between(k.literal, row, next) + next), IsBlank(next[0]), p)
  {
    hide *;
    NextLine(more, indent, rest);
    assert row.content != "" by { ContentIs(row.content); }
    var blank, next := IsBlank(row.content[0]), NextContent(more);
    ContentIs(next);
    var d, m := RowEnds(k, p, column, indent, s, blank, end, row, more, rest);
    LineBegins(k, m, indent, indent, s, EndValue(row.end), EmptiesValue(row.empties), d, blank, p, next, BehindNext(more, indent, rest));
    JoinedIsBetween(k.literal, row, next);
    Assoc(s, Joined(k.literal, blank, next[0], EndValue(row.end), EmptiesValue(row.empties)), EmptiesValue(row.empties));
    Assoc(s, Between(k.literal, row, next), next);
    q := m + indent + |next|;
  }

  lemma ContentIs(s: string)
    requires IsContent(s)
    ensures s != ""
  {}

  /** Behind the content of a row. */
  lemma {:induction false} RowsRead(k: Block, p: nat, column: nat, indent: nat, s: string, end: nat, c: Chomping, row: Row, more: Rows, rest: string)
    requires end <= p <= |k.buf| && s != "" && indent > 0 && k.chomping == ChompingOf(c)
    requires IsContent(row.content) && EndRowFits(row, more, indent, rest) && RowsFit(more, indent, rest) && Follows(more, indent, rest)
    requires k.buf[p..] == RowEnd(row, more, indent) + rest
    ensures BlockReads(Line(k, p, column, indent, s, IsBlank(row.content[0]), end), s + ValueBehind(k.literal, c, row, more))
    decreases |more.rows|
  {
    hide Line, Breaks, Dedent, Between, EmptiesValue, EndValue, Spaces, EndRowFits, Chomped, RowEnd, RowsText, IsContent;
    ContentIs(row.content);
    if more.rows == [] && more.last == "" {
      var d, q := RowEnds(k, p, column, indent, s, IsBlank(row.content[0]), end, row, more, rest);
      assert RowsText(more, indent) + rest == rest by { NoRows(more, indent, rest); }
      BlockEnds(k, q, indent, s, c, row, d, IsBlank(row.content[0]), p, rest);
    } else {
      var q := NextRead(k, p, column, indent, s, end, row, more, rest);
      var next := NextContent(more);
      var head := Between(k.literal, row, next) + next;
      ContentIs(next);
      if more.rows == [] {
        LastAt(k.buf, q, rest);
        LastEnds(k, q, indent + |next|, indent, s + head, IsBlank(next[0]), p);
      } else {
        var one, others := more.rows[0], more.(rows := more.rows[1..]);
        RowsRead(k, q, indent + |next|, indent, s + head, p, c, one, others, rest);
        Assoc(s, head, ValueBehind(k.literal, c, one, others));
        Assoc(Between(k.literal, row, next), next, ValueBehind(k.literal, c, one, others));
      }
    }
  }

  lemma NoRows(more: Rows, indent: nat, rest: string)
    requires more.rows == [] && more.last == ""
    ensures RowsText(more, indent) + rest == rest
  {
    assert "" + rest == rest;
  }

  lemma LastAt(buf: string, q: nat, rest: string)
    requires q <= |buf| && buf[q..] == rest && At(rest, 0) == '\0'
    ensures At(buf, q) == '\0'
  {
    if q < |buf| {
      assert buf[q] == rest[0];
    }
  }

  /** The next line's text. */
  lemma NextLine(more: Rows, indent: nat, rest: string)
    requires RowsFit(more, indent, rest) && (more.rows != [] || more.last != "")
    ensures IsContent(NextContent(more))
    ensures RowsText(more, indent) + rest == Spaces(indent) + (NextContent(more) + BehindNext(more, indent, rest))
  {
    hide RowEnd, Spaces;
    if more.rows == [] {
      Assoc(Spaces(indent), more.last, rest);
    } else {
      var end := RowEnd(more.rows[0], more.(rows := more.rows[1..]), indent);
      Assoc(more.rows[0].content, end, rest);
      Assoc(Spaces(indent), more.rows[0].content + end, rest);
    }
  }

  // ----- the header -----

  function ChompText(c: Chomping): string { match c case Strip => "-" case Clip => "" case Keep => "+" }

  function DigitText(d: nat): string { if 1 <= d <= 9 then ["0123456789"[d]] else "" }

  function IntroText(h: Intro): string {
    var a, b := ChompText(h.chomping), DigitText(h.digit);
    (if h.digitFirst then b + a else a + b) + (h.blanks + (h.comment + EndText(h.end)))
  }

  predicate IntroFits(h: Intro) {
    && h.digit <= 9 && AllBlank(h.blanks)
    && (h.comment != "" ==> h.comment[0] == '#' && forall i :: 0 <= i < |h.comment| ==> !IsBreakz(h.comment[i]))
  }

  lemma IndicatorsRead(buf: string, p: nat, column: nat, h: Intro, rest: string)
    requires p <= |buf| && IntroFits(h) && !IsDigit(At(rest, 0)) && !IsChomp(At(rest, 0))
    requires buf[p..] == (if h.digitFirst then DigitText(h.digit) + ChompText(h.chomping) else ChompText(h.chomping) + DigitText(h.digit)) + rest
    ensures var n := |ChompText(h.chomping)| + |DigitText(h.digit)|;
      && p + n <= |buf| && buf[p + n..] == rest
      && Indicators(buf, p, column) == HeaderDone(ChompingOf(h.chomping), h.digit, p + n, column + n)
  {
    var t := if h.digitFirst then DigitText(h.digit) + ChompText(h.chomping) else ChompText(h.chomping) + DigitText(h.digit);
    Advance(buf, p, t, rest);
    if |t| > 0 {
      assert At(buf, p + 0) == t[0];
    }
    if |t| > 1 {
      assert At(buf, p + 1) == t[1];
    }
    if h.digit > 0 {
      assert "0123456789"[h.digit] == ('0' as int + h.digit) as char;
    }
  }

  lemma {:induction false} BlanksSkipped(buf: string, p: nat, blanks: string, rest: string)
    requires p <= |buf| && AllBlank(blanks) && buf[p..] == blanks + rest && !IsBlank(At(rest, 0))
    ensures p + |blanks| <= |buf| && buf[p + |blanks|..] == rest && SkipBlanks(buf, p) == p + |blanks|
    decreases |blanks|
  {
    if blanks == "" {
      assert "" + rest == rest;
      Advance(buf, p, "", rest);
    } else {
      assert blanks + rest == [blanks[0]] + (blanks[1..] + rest);
      Advance(buf, p, [blanks[0]], blanks[1..] + rest);
      assert At(buf, p + 0) == [blanks[0]][0];
      BlanksSkipped(buf, p + 1, blanks[1..], rest);
    }
  }

  lemma {:induction false} CommentSkipped(buf: string, p: nat, comment: string, rest: string)
    requires p <= |buf| && buf[p..] == comment + rest && IsBreakz(At(rest, 0))
    requires forall i :: 0 <= i < |comment| ==> !IsBreakz(comment[i])
    ensures p + |comment| <= |buf| && buf[p + |comment|..] == rest && SkipToBreak(buf, p) == p + |comment|
    decreases |comment|
  {
    if comment == "" {
      assert "" + rest == rest;
      Advance(buf, p, "", rest);
    } else {
      assert comment + rest == [comment[0]] + (comment[1..] + rest);
      Advance(buf, p, [comment[0]], comment[1..] + rest);
      assert At(buf, p + 0) == [comment[0]][0];
      CommentSkipped(buf, p + 1, comment[1..], rest);
    }
  }

  /** The whole header, up to the first line behind it. */
  lemma IntroReads(literal: bool, level: int, buf: string, p: nat, column: nat, h: Intro, rest: string)
    requires p < |buf| && IntroFits(h) && EndFits(h.end, rest) && buf[p + 1..] == IntroText(h) + rest
    ensures var b := p + 1 + |IntroText(h)|;
      && b <= |buf| && buf[b..] == rest
      && ScanBlockScalar(literal, level, buf, p, column)
         == Breaks(Block(literal, level, ChompingOf(h.chomping), buf), b, 0, IndentFrom(level, h.digit), "", "", "", 0, false, b)
  {
    hide *;
    var a := if h.digitFirst then DigitText(h.digit) + ChompText(h.chomping) else ChompText(h.chomping) + DigitText(h.digit);
    var t3 := EndText(h.end) + rest;
    var t2 := h.comment + t3;
    var t1 := h.blanks + t2;
    IntroParts(h, a, rest);
    EndBegins(h.end, rest);
    CommentHead(h, t3);
    IndicatorsRead(buf, p + 1, column + 1, h, t1);
    var q := p + 1 + |a|;
    BlanksSkipped(buf, q, h.blanks, t2);
    var e := q + |h.blanks|;
    SameHead(buf, e, t2);
    if h.comment != "" {
      CommentSkipped(buf, e, h.comment, t3);
    }
    EndFitsIs(h.end, rest);
    EndReads(buf, e + |h.comment|, h.end, rest);
    HeaderIs(literal, level, buf, p, column, HeaderDone(ChompingOf(h.chomping), h.digit, q, column + 1 + |a|), e, e + |h.comment|);
  }

  lemma EndFitsIs(e: LineEnd, rest: string)
    requires EndFits(e, rest)
    ensures e.CarriageReturn? ==> At(rest, 0) != '\n'
  {}

  lemma HeaderIs(literal: bool, level: int, buf: string, p: nat, column: nat, header: Header, e: nat, f: nat)
    requires p < |buf| && Indicators(buf, p + 1, column + 1) == header && header.HeaderDone? && header.next <= |buf|
    requires e <= f <= |buf| && SkipBlanks(buf, header.next) == e && IsBreak(At(buf, f))
    requires f == if At(buf, e) == '#' then SkipToBreak(buf, e) else e
    ensures var b := f + BreakLen(buf, f);
      ScanBlockScalar(literal, level, buf, p, column)
         == Breaks(Block(literal, level, header.chomping, buf), b, 0, IndentFrom(level, header.increment), "", "", "", 0, false, b)
  {
    hide Breaks, Indicators, SkipBlanks, SkipToBreak;
  }

  lemma SameHead(buf: string, q: nat, rest: string)
    requires q <= |buf| && buf[q..] == rest
    ensures At(buf, q) == At(rest, 0)
  {}

  lemma EndBegins(e: LineEnd, rest: string)
    ensures IsBreak(At(EndText(e) + rest, 0))
  {
    assert (EndText(e) + rest)[0] == EndText(e)[0];
  }

  lemma IntroParts(h: Intro, a: string, rest: string)
    requires a == if h.digitFirst then DigitText(h.digit) + ChompText(h.chomping) else ChompText(h.chomping) + DigitText(h.digit)
    ensures IntroText(h) + rest == a + (h.blanks + (h.comment + (EndText(h.end) + rest)))
    ensures |a| == |ChompText(h.chomping)| + |DigitText(h.digit)| && |IntroText(h)| == |a| + |h.blanks| + |h.comment| + |EndText(h.end)|
  {
    hide ChompText, DigitText, EndText;
    Assoc(h.comment, EndText(h.end), rest);
    Assoc(h.blanks, h.comment + EndText(h.end), rest);
    Assoc(a, h.blanks + (h.comment + EndText(h.end)), rest);
  }

  /** What comes behind the indicators is neither of them, and behind the white space no blank. */
  lemma CommentHead(h: Intro, t3: string)
    requires IntroFits(h) && IsBreak(At(t3, 0))
    ensures forall i :: 0 <= i < |h.comment| ==> !IsBreakz(h.comment[i])
    ensures AllBlank(h.blanks) && IsBreakz(At(t3, 0))
    ensures h.comment == "" ==> h.comment + t3 == t3
    ensures var t2 := h.comment + t3;
      && !IsBlank(At(t2, 0)) && At(t2, 0) != '\0' && (h.comment == "" ==> At(t2, 0) != '#') && (h.comment != "" ==> At(t2, 0) == '#') && (h.comment == "" ==> At(t2, 0) == At(t3, 0))
      && !IsDigit(At(h.blanks + t2, 0)) && !IsChomp(At(h.blanks + t2, 0))
  {
    var t2 := h.comment + t3;
    if h.comment == "" {
      assert t2 == t3;
    }
    if h.blanks == "" {
      assert h.blanks + t2 == t2;
    } else {
      assert IsBlank(h.blanks[0]);
    }
  }

  // ----- the whole scalar -----

  /** The indentation: the one that the header gives, or that of the first line, which then does
      not begin with a space and is deeper than the block around the scalar. */
  predicate IndentFits(level: int, h: Intro, indent: nat, r: Rows) {
    && indent > 0
    && if h.digit > 0 then indent == IndentFrom(level, h.digit)
       else (level < indent && (r.rows != [] || r.last != "" ==> NextContent(r) != "" && !IsSpace(NextContent(r)[0])))
  }

  /** Every block scalar is read as the value of its lines. `rest` is a shallower line or the end
      of the input. */
  lemma BlockTextReads(literal: bool, level: int, before: string, c: char, column: nat, h: Intro, lead: seq<Empty>, indent: nat, r: Rows, rest: string)
    requires IntroFits(h) && IndentFits(level, h, indent, r) && (r.rows != [] || r.last != "")
    requires EmptiesFit(lead, indent, RowsText(r, indent) + rest) && EndFits(h.end, EmptiesText(lead) + (RowsText(r, indent) + rest))
    requires RowsFit(r, indent, rest) && Follows(r, indent, rest)
    ensures var buf := before + [c] + (IntroText(h) + (EmptiesText(lead) + (RowsText(r, indent) + rest)));
      |before| < |buf| && BlockReads(ScanBlockScalar(literal, level, buf, |before|, column), BlockValue(literal, h.chomping, lead, r))
  {
    hide *;
    var lines := RowsText(r, indent) + rest;
    var buf := before + [c] + (IntroText(h) + (EmptiesText(lead) + lines));
    AfterOpening(before, c, IntroText(h) + (EmptiesText(lead) + lines));
    IntroReads(literal, level, buf, |before|, column, h, EmptiesText(lead) + lines);
    var k := Block(literal, level, ChompingOf(h.chomping), buf);
    var b := |before| + 1 + |IntroText(h)|;
    IndentIs(level, h, indent, r);
    var d, e := EmptiesRead(k, b, IndentFrom(level, h.digit), "", "", "", 0, false, b, lead, indent, lines);
    assert "" + EmptiesValue(lead) == EmptiesValue(lead) by { NothingFirst(EmptiesValue(lead)); }
    FirstLineReads(k, b + |EmptiesText(lead)|, indent, IndentFrom(level, h.digit), h, lead, d, e, r, rest);
  }

  lemma NothingFirst(s: string)
    ensures "" + s == s && "" + "" + s == s
  {}

  lemma IndentIs(level: int, h: Intro, indent: nat, r: Rows)
    requires IndentFits(level, h, indent, r) && (r.rows != [] || r.last != "")
    ensures indent > 0 && (IndentFrom(level, h.digit) == indent || IndentFrom(level, h.digit) == 0)
    ensures IndentFrom(level, h.digit) != indent ==> level < indent && NextContent(r) != "" && !IsSpace(NextContent(r)[0])
  {}

  lemma FirstLineReads(k: Block, p: nat, indent: nat, indent0: int, h: Intro, lead: seq<Empty>, d: nat, e: nat, r: Rows, rest: string)
    requires e <= p <= |k.buf| && k.buf[p..] == RowsText(r, indent) + rest && d <= indent && (r.rows != [] || r.last != "") && indent > 0
    requires indent0 == indent || (indent0 == 0 && k.level < indent && NextContent(r) != "" && !IsSpace(NextContent(r)[0]))
    requires RowsFit(r, indent, rest) && Follows(r, indent, rest) && k.chomping == ChompingOf(h.chomping)
    ensures BlockReads(Breaks(k, p, 0, indent0, "", "", EmptiesValue(lead), d, false, e), BlockValue(k.literal, h.chomping, lead, r))
  {
    hide Line, Breaks, Dedent, RowsText, RowEnd, EmptiesValue, Spaces, IsContent, EndRowFits, Between, Chomped;
    var x, v := NextContent(r), EmptiesValue(lead);
    NextLine(r, indent, rest);
    ContentIs(x);
    LineBegins(k, p, indent0, indent, "", "", v, d, false, e, x, BehindNext(r, indent, rest));
    var q := p + indent + |x|;
    NothingFirst(v);
    assert "" + "" + v + x == v + x;
    if r.rows == [] {
      LastAt(k.buf, q, rest);
      LastEnds(k, q, indent + |x|, indent, v + x, IsBlank(x[0]), e);
    } else {
      var one, others := r.rows[0], r.(rows := r.rows[1..]);
      RowsRead(k, q, indent + |x|, indent, v + x, e, h.chomping, one, others, rest);
      Assoc(v, x, ValueBehind(k.literal, h.chomping, one, others));
    }
  }

  /** A block scalar without any line: its value is empty, or the empty lines if they are kept.
      `depth`: no empty line is deeper. */
  lemma EmptyBlockReads(literal: bool, level: int, before: string, c: char, column: nat, h: Intro, lead: seq<Empty>, depth: nat, rest: string)
    requires IntroFits(h) && level >= -1 && EndFits(h.end, EmptiesText(lead) + rest) && EmptiesFit(lead, depth, rest)
    requires h.digit > 0 ==> depth == IndentFrom(level, h.digit)
    requires rest == "" || Dedent(if h.digit > 0 then depth else Max(level + 1, 1), rest)
    ensures var buf := before + [c] + (IntroText(h) + (EmptiesText(lead) + rest));
      |before| < |buf| && BlockReads(ScanBlockScalar(literal, level, buf, |before|, column), BlockValue(literal, h.chomping, lead, Rows([], "")))
  {
    hide *;
    var buf := before + [c] + (IntroText(h) + (EmptiesText(lead) + rest));
    AfterOpening(before, c, IntroText(h) + (EmptiesText(lead) + rest));
    IntroReads(literal, level, buf, |before|, column, h, EmptiesText(lead) + rest);
    var k := Block(literal, level, ChompingOf(h.chomping), buf);
    var b := |before| + 1 + |IntroText(h)|;
    NoLineIndent(level, h);
    var d, e := EmptiesRead(k, b, IndentFrom(level, h.digit), "", "", "", 0, false, b, lead, depth, rest);
    NothingFirst(EmptiesValue(lead));
    NothingEnds(k, b + |EmptiesText(lead)|, IndentFrom(level, h.digit), EmptiesValue(lead), d, e, if h.digit > 0 then depth else Max(level + 1, 1), rest);
    NoLineValue(literal, h.chomping, lead);
  }

  lemma NoLineIndent(level: int, h: Intro)
    requires level >= -1
    ensures IndentFrom(level, h.digit) >= 0 && Max(level + 1, 1) >= 1
    ensures IndentFrom(level, h.digit) == 0 <==> h.digit == 0
  {}

  lemma NoLineValue(literal: bool, c: Chomping, lead: seq<Empty>)
    ensures BlockValue(literal, c, lead, Rows([], ""))
         == "" + (if ChompingOf(c) != -1 then "" else "") + (if ChompingOf(c) == 1 then EmptiesValue(lead) else "")
  {
    assert "" + "" + "" == "" && "" + "" + EmptiesValue(lead) == EmptiesValue(lead);
  }

  lemma NothingEnds(k: Block, q: nat, indent0: int, trail: string, d: nat, e: nat, margin: int, rest: string)
    requires e <= q <= |k.buf| && k.buf[q..] == rest && (rest == "" || Dedent(margin, rest))
    requires indent0 >= 0 && margin >= 1 && (if indent0 == 0 then margin <= Max(k.level + 1, 1) else margin == indent0)
    ensures BlockReads(Breaks(k, q, 0, indent0, "", "", trail, d, false, e),
      "" + (if k.chomping != -1 then "" else "") + (if k.chomping == 1 then trail else ""))
  {
    if rest == "" {
      assert q == |k.buf|;
    } else {
      var n: nat, x: string :| n < margin && rest == Spaces(n) + x && !IsBlank(At(x, 0)) && !IsBreak(At(x, 0));
      SkipIndent(k, q, 0, indent0, "", "", trail, d, false, e, n, x);
      assert At(k.buf, q + n) == At(x, 0) by { Advance(k.buf, q, Spaces(n), x); }
    }
  }
}
