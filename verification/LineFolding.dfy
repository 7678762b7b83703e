/**
  Line folding as YAML 1.2 section 6.5 describes it, apart from any scanner: what the white
  space and line breaks between two words are worth.
 */
module LineFolding {
  import opened Chars

  datatype LineEnd = CarriageReturn | LineFeed | ReturnFeed | NextLine | LineSeparator | ParagraphSeparator

  function EndText(e: LineEnd): string {
    match e
    case CarriageReturn => "\r"
    case LineFeed => "\n"
    case ReturnFeed => "\r\n"
    case NextLine => [NEL]
    case LineSeparator => [LS]
    case ParagraphSeparator => [PS]
  }

  /** All line ends but LS and PS are line feeds. */
  function EndValue(e: LineEnd): string {
    match e
    case LineSeparator => [LS]
    case ParagraphSeparator => [PS]
    case _ => "\n"
  }

  /** A line end and the white space that begins the next line. */
  datatype Fold = Fold(end: LineEnd, indent: string)

  predicate AllBlank(s: string) { forall i :: 0 <= i < |s| ==> IsBlank(s[i]) }

  /** The indents are white space, and no CR runs into an LF. */
  predicate LinesFit(lines: seq<Fold>) {
    forall i :: 0 <= i < |lines| ==>
      && AllBlank(lines[i].indent)
      && (lines[i].end.CarriageReturn? && lines[i].indent == "" && i + 1 < |lines| ==> !lines[i + 1].end.LineFeed?)
  }

  function LinesText(lines: seq<Fold>): string {
    if lines == [] then "" else EndText(lines[0].end) + (lines[0].indent + LinesText(lines[1..]))
  }

  function EndValues(lines: seq<Fold>): string {
    if lines == [] then "" else EndValue(lines[0].end) + EndValues(lines[1..])
  }

  /** One line feed is a space, more are one less; LS and PS are kept, and what follows them. */
  function FoldedValue(lines: seq<Fold>): string
    requires lines != []
  {
    if EndValue(lines[0].end) != "\n" then EndValues(lines)
    else if |lines| == 1 then " "
    else EndValues(lines[1..])
  }

  /** The column behind the lines. */
  function LastIndent(lines: seq<Fold>): nat
    requires lines != []
  {
    |lines[|lines| - 1].indent|
  }

  lemma EndReads(buf: string, p: nat, e: LineEnd, rest: string)
    requires p <= |buf| && buf[p..] == EndText(e) + rest && (e.CarriageReturn? ==> At(rest, 0) != '\n')
    ensures p + |EndText(e)| <= |buf| && buf[p + |EndText(e)|..] == rest
    ensures IsBreak(At(buf, p)) && BreakLen(buf, p) == |EndText(e)| && BreakText(At(buf, p)) == EndValue(e)
  {
    Advance(buf, p, EndText(e), rest);
    assert At(buf, p + 0) == EndText(e)[0];
    if e.ReturnFeed? {
      assert At(buf, p + 1) == '\n';
    }
  }

  /** What follows a line end inside lines that fit: never the LF of a CR LF pair. */
  lemma NoFeed(lines: seq<Fold>, rest: string)
    requires LinesFit(lines) && lines != [] && lines[0].end.CarriageReturn? && At(rest, 0) != '\n'
    ensures At(lines[0].indent + (LinesText(lines[1..]) + rest), 0) != '\n'
  {
    var indent := lines[0].indent;
    if indent != "" {
      assert IsBlank(indent[0]);
    } else {
      assert "" + (LinesText(lines[1..]) + rest) == LinesText(lines[1..]) + rest;
      if |lines| > 1 {
        assert lines[1..][0] == lines[1];
        assert LinesText(lines[1..])[0] == EndText(lines[1].end)[0];
      } else {
        assert LinesText(lines[1..]) + rest == rest;
      }
    }
  }

  lemma EndValuesAreNone(lines: seq<Fold>)
    ensures EndValues(lines) == "" <==> lines == []
  {
    if lines != [] {
      assert |EndValue(lines[0].end)| == 1;
    }
  }
}
