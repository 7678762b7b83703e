/**
  The scalar side of emitterc.go: the object whose methods analyse a scalar and write it.
  Each writer is proved to append exactly the text that ScalarText gives it, so the round
  trips of FlowRoundTrip, PlainRoundTrip and LiteralRoundTrip speak about these methods.
 */
module ScalarEmitter {
  import opened Basics
  import opened Chars
  import opened ScalarText
  import opened ScalarAnalysis
  import opened StyleSelection
  import opened SimpleKeyText
  import EmitterMachine
  import AnchorsAndTags
  import Events
  import Utf8

  class Emitter {
    /** All that was written: what was flushed and what is still in the buffer. */
    var out: string
    var column: nat
    var whitespace: bool
    var indention: bool
    var openEnded: bool
    var footIndent: int

    var indent: int
    var bestIndent: int
    var bestWidth: int
    var unicode: bool
    var lineBreak: LineBreak
    var rootContext: bool

    // scalar_data
    var multiline: bool
    var flowPlainAllowed: bool
    var blockPlainAllowed: bool
    var singleQuotedAllowed: bool
    var blockAllowed: bool
    var scalarStyle: Style

    function Cfg(): Settings
      reads this
    {
      Settings(indent, bestIndent, bestWidth, unicode, lineBreak, rootContext)
    }

    function CurrentPen(): Pen
      reads this
    {
      Pen(column, whitespace, indention, footIndent)
    }

    /** The text was appended, the pen moved, and no setting changed. */
    twostate predicate Wrote(w: Written)
      reads this
    {
      Cfg() == old(Cfg()) && out == old(out) + w.text && CurrentPen() == w.pen
    }

    // ----- characters -----

    method Put(c: char)
      modifies this`out, this`column
      ensures Wrote(Written([c], PutPen(old(CurrentPen()), 1)))
    {
      out := out + [c];
      column := column + 1;
    }

    method PutBreak()
      modifies this`out, this`column, this`indention
      ensures Wrote(Written(BreakOf(lineBreak), BreakPen(old(CurrentPen()))))
    {
      match lineBreak {
        case Cr => out := out + "\r";
        case Ln => out := out + "\n";
        case CrLn => out := out + "\r\n";
      }
      column := 0;
      indention := true;
    }

    /** Writes a line break of the value: LF as the chosen line break, others as they are. */
    method WriteBreak(c: char)
      requires IsBreak(c)
      modifies this`out, this`column, this`indention
      ensures Wrote(Written(BreakRun(Cfg(), c, true), BreakPen(old(CurrentPen()))))
    {
      if c == '\n' {
        PutBreak();
      } else {
        Put(c);
        column := 0;
        indention := true;
      }
    }

    /** Pads the line with spaces up to the margin. */
    method PadTo(margin: nat)
      requires column <= margin
      modifies this`out, this`column
      ensures Wrote(Written(Spaces(margin - old(column)), old(CurrentPen()).(column := margin)))
    {
      ghost var start := column;
      ghost var before := out;
      assert out + Spaces(0) == out;
      while column < margin
        invariant start <= column <= margin
        invariant out == before + Spaces(column - start)
      {
        assert Spaces(column - start) + " " == Spaces(column + 1 - start);
        Put(' ');
      }
    }

    method WriteIndent()
      modifies this`out, this`column, this`whitespace, this`indention, this`footIndent
      ensures Wrote(Indent(old(Cfg()), old(CurrentPen())))
    {
      hide Indent, Spaces;
      IndentParts(Cfg(), CurrentPen(), out);
      var margin := if indent < 0 then 0 else indent;
      if !indention || column > margin || (column == margin && !whitespace) {
        PutBreak();
      }
      if footIndent == margin {
        PutBreak();
      }
      PadTo(margin);
      whitespace := true;
      footIndent := -1;
    }

    method WriteAll(s: string)
      modifies this`out, this`column
      ensures Wrote(Written(s, PutPen(old(CurrentPen()), |s|)))
    {
      ghost var start := out;
      for i := 0 to |s|
        invariant out == start + s[..i] && column == old(column) + i
      {
        assert s[..i + 1] == s[..i] + [s[i]];
        Put(s[i]);
      }
      assert s[..|s|] == s;
    }

    method WriteIndicator(s: string, needWhitespace: bool, isWhitespace: bool, isIndention: bool)
      modifies this`out, this`column, this`whitespace, this`indention, this`openEnded
      ensures Wrote(Indicator(s, old(CurrentPen()), needWhitespace, isWhitespace, isIndention))
      ensures !openEnded
    {
      if needWhitespace && !whitespace {
        Put(' ');
      }
      WriteAll(s);
      whitespace := isWhitespace;
      indention := indention && isIndention;
      openEnded := false;
    }

    // ----- double-quoted -----

    /** The digits of an escape code, from the most significant on. */
    method WriteHex(v: nat, w: nat)
      modifies this`out, this`column
      ensures Wrote(Written(HexText(v, w), PutPen(old(CurrentPen()), w)))
    {
      ghost var start := out;
      var k := w;
      while k > 0
        invariant 0 <= k <= w
        invariant out == start + HexText(ShiftRight(v, k), w - k) && column == old(column) + (w - k)
      {
        k := k - 1;
        var digit := ShiftRight(v, k) % 16;
        Assoc(start, HexText(ShiftRight(v, k + 1), w - k - 1), [HexDigit(digit)]);
        Put(HexDigit(digit));
      }
    }

    method WriteEscape(c: char)
      modifies this`out, this`column
      ensures Wrote(Written(EscapeText(c), PutPen(old(CurrentPen()), |EscapeText(c)|)))
    {
      hide HexText;
      var v := c as int;
      Put('\\');
      if ShortEscape(c) != "" {
        Assoc(old(out), "\\", ShortEscape(c));
        WriteAll(ShortEscape(c));
      } else {
        var w := EscapeWidth(v);
        Assoc(old(out) + "\\", [EscapeLetter(v)], HexText(v, w));
        Assoc(old(out), "\\", [EscapeLetter(v)] + HexText(v, w));
        Put(EscapeLetter(v));
        WriteHex(v, w);
      }
    }

    /** The loop over the value, between the quotes. */
    method WriteDoubleQuotedBody(value: string, allowBreaks: bool)
      modifies this`out, this`column, this`whitespace, this`indention, this`footIndent
      ensures Wrote(Dq(old(Cfg()), value, 0, old(CurrentPen()), false, allowBreaks))
    {
      hide Indent, EscapeText, NeedsEscape;
      ghost var start := out;
      ghost var cfg := Cfg();
      ghost var body := Dq(cfg, value, 0, CurrentPen(), false, allowBreaks);
      var spaces := false;
      var i := 0;
      while i < |value|
        invariant 0 <= i <= |value|
        invariant var w := Dq(cfg, value, i, CurrentPen(), spaces, allowBreaks);
          out + w.text == start + body.text && w.pen == body.pen
      {
        ghost var before := out;
        ghost var chunk: string;
        if NeedsEscape(unicode, value, i) {
          chunk := EscapeText(value[i]);
          WriteEscape(value[i]);
          spaces := false;
        } else if IsSpace(value[i]) {
          if allowBreaks && !spaces && column > bestWidth && i > 0 && i < |value| - 1 {
            chunk := Indent(cfg, CurrentPen()).text;
            WriteIndent();
            if IsSpace(value[i + 1]) {
              Assoc(before, chunk, "\\");
              chunk := chunk + "\\";
              Put('\\');
            } else {
              assert chunk + "" == chunk;
            }
          } else {
            chunk := [value[i]];
            Put(value[i]);
          }
          spaces := true;
        } else {
          chunk := [value[i]];
          Put(value[i]);
          spaces := false;
        }
        i := i + 1;
        Assoc(before, chunk, Dq(cfg, value, i, CurrentPen(), spaces, allowBreaks).text);
      }
      assert out + "" == out;
    }

    method WriteDoubleQuoted(value: string, allowBreaks: bool)
      modifies this`out, this`column, this`whitespace, this`indention, this`footIndent, this`openEnded
      ensures Wrote(DoubleQuoted(old(Cfg()), value, old(CurrentPen()), allowBreaks))
      ensures !openEnded
    {
      hide Dq;
      WriteIndicator("\"", true, false, false);
      WriteDoubleQuotedBody(value, allowBreaks);
      WriteIndicator("\"", false, false, false);
      whitespace := false;
      indention := false;
    }

    // ----- single-quoted and plain -----

    /** A line break inside a flow scalar; the first LF of a run is doubled. */
    method WriteBreakRun(c: char, breaks: bool)
      requires IsBreak(c)
      modifies this`out, this`column, this`indention
      ensures Wrote(Written(BreakRun(old(Cfg()), c, breaks), BreakPen(old(CurrentPen()))))
    {
      if !breaks && c == '\n' {
        Assoc(out, BreakOf(lineBreak), BreakOf(lineBreak));
        PutBreak();
      }
      WriteBreak(c);
    }

    /** The loop over the value, between the quotes. */
    method WriteSingleQuotedBody(value: string, allowBreaks: bool)
      modifies this`out, this`column, this`whitespace, this`indention, this`footIndent
      ensures Wrote(Sq(old(Cfg()), value, 0, old(CurrentPen()), false, false, allowBreaks))
    {
      hide Indent, BreakRun, Sq;
      ghost var start := out;
      ghost var cfg := Cfg();
      ghost var body := Sq(cfg, value, 0, CurrentPen(), false, false, allowBreaks);
      var spaces, breaks := false, false;
      var i := 0;
      while i < |value|
        invariant 0 <= i <= |value|
        invariant var w := Sq(cfg, value, i, CurrentPen(), spaces, breaks, allowBreaks);
          out + w.text == start + body.text && w.pen == body.pen
      {
        ghost var before := out;
        ghost var chunk: string;
        if IsSpace(value[i]) {
          if allowBreaks && !spaces && column > bestWidth && i > 0 && i < |value| - 1 && !IsSpace(value[i + 1]) {
            SqAtFold(cfg, value, i, CurrentPen(), spaces, breaks, allowBreaks);
            chunk := Indent(cfg, CurrentPen()).text;
            WriteIndent();
          } else {
            SqAtSpace(cfg, value, i, CurrentPen(), spaces, breaks, allowBreaks);
            chunk := " ";
            Put(value[i]);
          }
          spaces := true;
        } else if IsBreak(value[i]) {
          SqAtBreak(cfg, value, i, CurrentPen(), spaces, breaks, allowBreaks);
          chunk := BreakRun(cfg, value[i], breaks);
          WriteBreakRun(value[i], breaks);
          breaks := true;
        } else {
          SqAtWord(cfg, value, i, CurrentPen(), spaces, breaks, allowBreaks);
          chunk := WriteQuotedChar(value[i], breaks);
          spaces, breaks := false, false;
        }
        i := i + 1;
        Assoc(before, chunk, Sq(cfg, value, i, CurrentPen(), spaces, breaks, allowBreaks).text);
      }
      assert Sq(cfg, value, i, CurrentPen(), spaces, breaks, allowBreaks) == Written("", CurrentPen()) by { SqAtEnd(cfg, value, CurrentPen(), spaces, breaks, allowBreaks); }
      assert out + "" == out;
    }

    method WriteSingleQuoted(value: string, allowBreaks: bool)
      modifies this`out, this`column, this`whitespace, this`indention, this`footIndent, this`openEnded
      ensures Wrote(SingleQuoted(old(Cfg()), value, old(CurrentPen()), allowBreaks))
      ensures !openEnded
    {
      hide Sq;
      WriteIndicator("'", true, false, false);
      WriteSingleQuotedBody(value, allowBreaks);
      WriteIndicator("'", false, false, false);
      whitespace := false;
      indention := false;
    }

    /** A character between the quotes, indented after line breaks and doubled if a quote. */
    method WriteQuotedChar(c: char, breaks: bool) returns (ghost chunk: string)
      modifies this`out, this`column, this`whitespace, this`indention, this`footIndent
      ensures var w := if breaks then Indent(old(Cfg()), old(CurrentPen())) else Written("", old(CurrentPen()));
        && chunk == w.text + QuotedChar(c)
        && Wrote(Written(chunk, PutPen(w.pen, |QuotedChar(c)|).(indention := false)))
    {
      hide Indent;
      ghost var margin := "";
      if breaks {
        margin := Indent(Cfg(), CurrentPen()).text;
        WriteIndent();
      }
      chunk := margin + QuotedChar(c);
      Assoc(old(out), margin, QuotedChar(c));
      if c == '\'' {
        Put('\'');
        assert "'" + [c] == "''";
        Assoc(old(out) + margin, "'", [c]);
      }
      Put(c);
      indention := false;
    }

    /** The loop over the value. */
    method WritePlainBody(value: string, allowBreaks: bool)
      requires value != "" ==> !IsSpace(value[|value| - 1])
      modifies this`out, this`column, this`whitespace, this`indention, this`footIndent
      ensures Wrote(Pl(old(Cfg()), value, 0, old(CurrentPen()), false, false, allowBreaks))
    {
      hide Indent, BreakRun;
      ghost var start := out;
      ghost var cfg := Cfg();
      ghost var body := Pl(cfg, value, 0, CurrentPen(), false, false, allowBreaks);
      var spaces, breaks := false, false;
      var i := 0;
      while i < |value|
        invariant 0 <= i <= |value|
        invariant var w := Pl(cfg, value, i, CurrentPen(), spaces, breaks, allowBreaks);
          out + w.text == start + body.text && w.pen == body.pen
      {
        ghost var before := out;
        ghost var chunk: string;
        if IsSpace(value[i]) {
          if allowBreaks && !spaces && column > bestWidth && !IsSpace(value[i + 1]) {
            chunk := Indent(cfg, CurrentPen()).text;
            WriteIndent();
          } else {
            chunk := " ";
            Put(value[i]);
          }
          spaces := true;
        } else if IsBreak(value[i]) {
          chunk := BreakRun(cfg, value[i], breaks);
          WriteBreakRun(value[i], breaks);
          breaks := true;
        } else {
          chunk := WriteLineChar(value[i], breaks);
          spaces, breaks := false, false;
        }
        i := i + 1;
        Assoc(before, chunk, Pl(cfg, value, i, CurrentPen(), spaces, breaks, allowBreaks).text);
      }
      assert out + "" == out;
    }

    method WritePlain(value: string, allowBreaks: bool)
      requires value != "" ==> !IsSpace(value[|value| - 1])
      modifies this`out, this`column, this`whitespace, this`indention, this`footIndent, this`openEnded
      ensures Wrote(Plain(old(Cfg()), value, old(CurrentPen()), allowBreaks))
      ensures openEnded == (old(openEnded) || rootContext)
    {
      ghost var lead := if value != "" && !whitespace then " " else "";
      if |value| > 0 && !whitespace {
        Put(' ');
      }
      assert out == old(out) + lead && CurrentPen() == PutPen(old(CurrentPen()), |lead|);
      Assoc(old(out), lead, Pl(Cfg(), value, 0, CurrentPen(), false, false, allowBreaks).text);
      WritePlainBody(value, allowBreaks);
      if |value| > 0 {
        whitespace := false;
      }
      indention := false;
      if rootContext {
        openEnded := true;
      }
    }

    /** A character of a plain or literal scalar, indented after line breaks. */
    method WriteLineChar(c: char, breaks: bool) returns (ghost chunk: string)
      modifies this`out, this`column, this`whitespace, this`indention, this`footIndent
      ensures var w := if breaks then Indent(old(Cfg()), old(CurrentPen())) else Written("", old(CurrentPen()));
        && chunk == w.text + [c]
        && Wrote(Written(chunk, PutPen(w.pen, 1).(indention := false)))
    {
      hide Indent;
      ghost var margin := "";
      if breaks {
        margin := Indent(Cfg(), CurrentPen()).text;
        WriteIndent();
      }
      chunk := margin + [c];
      Assoc(old(out), margin, [c]);
      Put(c);
      indention := false;
    }

    // ----- literal -----

    /** Writing the hint clears `openEnded` again, so a '+' hint leaves no trace there. */
    method WriteBlockScalarHints(value: string)
      requires value != "" && 2 <= bestIndent <= 9
      modifies this`out, this`column, this`whitespace, this`indention, this`openEnded
      ensures Cfg() == old(Cfg()) && out == old(out) + Hints(old(Cfg()), value)
      ensures column == old(column) + |Hints(old(Cfg()), value)| && footIndent == old(footIndent)
      ensures !old(indention) ==> !indention
      ensures !openEnded
    {
      ghost var lead := if IsSpace(value[0]) || IsBreak(value[0]) then [HexDigit(bestIndent)] else "";
      if IsSpace(value[0]) || IsBreak(value[0]) {
        WriteIndicator([HexDigit(bestIndent)], false, false, false);
      }
      openEnded := false;
      var n := |value|;
      var chomp := "";
      if !IsBreak(value[n - 1]) {
        chomp := "-";
      } else if n == 1 {
        chomp := "+";
        openEnded := true;
      } else if IsBreak(value[n - 2]) {
        chomp := "+";
        openEnded := true;
      }
      Assoc(old(out), lead, chomp);
      if chomp != "" {
        WriteIndicator(chomp, false, false, false);
      }
    }

    method WriteLiteral(value: string)
      requires value != "" && 2 <= bestIndent <= 9
      modifies this`out, this`column, this`whitespace, this`indention, this`footIndent, this`openEnded
      ensures Wrote(Literal(old(Cfg()), value, old(CurrentPen())))
      ensures !openEnded
    {
      hide Lit, ChompHint, Hints;
      WriteIndicator("|", true, false, false);
      WriteBlockScalarHints(value);
      whitespace := true;
      WriteLiteralBody(value);
    }

    /** The loop over the value, after the header. */
    method WriteLiteralBody(value: string)
      modifies this`out, this`column, this`whitespace, this`indention, this`footIndent
      ensures Wrote(Lit(old(Cfg()), value, 0, old(CurrentPen()), true))
    {
      hide Indent, BreakRun;
      ghost var start := out;
      ghost var cfg := Cfg();
      ghost var body := Lit(cfg, value, 0, CurrentPen(), true);
      var breaks := true;
      var i := 0;
      while i < |value|
        invariant 0 <= i <= |value|
        invariant var w := Lit(cfg, value, i, CurrentPen(), breaks);
          out + w.text == start + body.text && w.pen == body.pen
      {
        ghost var before := out;
        ghost var chunk: string;
        if IsBreak(value[i]) {
          chunk := BreakRun(cfg, value[i], true);
          WriteBreak(value[i]);
          breaks := true;
        } else {
          chunk := WriteLineChar(value[i], breaks);
          breaks := false;
        }
        i := i + 1;
        Assoc(before, chunk, Lit(cfg, value, i, CurrentPen(), breaks).text);
      }
      assert out + "" == out;
    }

    // ----- folded -----

    /** The value does not end with a space, so looking one character ahead of a space, or
        behind the breaks at the beginning, stays inside it. */
    method WriteFolded(value: string)
      requires value != "" && !IsSpace(value[|value| - 1]) && 2 <= bestIndent <= 9
      modifies this`out, this`column, this`whitespace, this`indention, this`footIndent, this`openEnded
      ensures Wrote(Folded(old(Cfg()), value, old(CurrentPen())))
      ensures !openEnded
    {
      hide Fo, ChompHint, Hints;
      WriteIndicator(">", true, false, false);
      WriteBlockScalarHints(value);
      whitespace := true;
      WriteFoldedBody(value);
    }

    /** The loop over the value, after the header. */
    method WriteFoldedBody(value: string)
      requires value != "" && !IsSpace(value[|value| - 1])
      modifies this`out, this`column, this`whitespace, this`indention, this`footIndent
      ensures Wrote(Fo(old(Cfg()), value, 0, old(CurrentPen()), true, true))
    {
      hide Indent, BreakRun, LeadingBreaks;
      ghost var start := out;
      ghost var cfg := Cfg();
      ghost var body := Fo(cfg, value, 0, CurrentPen(), true, true);
      var breaks, leadingSpaces := true, true;
      var i := 0;
      while i < |value|
        invariant 0 <= i <= |value|
        invariant !breaks ==> i > 0 && !IsBreak(value[i - 1])
        invariant Cfg() == cfg
        invariant var w := Fo(cfg, value, i, CurrentPen(), breaks, leadingSpaces);
          out + w.text == start + body.text && w.pen == body.pen
      {
        ghost var before := out;
        ghost var chunk: string;
        if IsBreak(value[i]) {
          chunk := WriteFoldedBreak(value, i, breaks, leadingSpaces);
          breaks := true;
        } else if !breaks && IsSpace(value[i]) && !IsSpace(value[i + 1]) && column > bestWidth {
          chunk := Indent(cfg, CurrentPen()).text;
          WriteIndent();
          indention := false;
        } else {
          chunk := WriteLineChar(value[i], breaks);
          if breaks {
            leadingSpaces := IsBlank(value[i]);
          }
          breaks := false;
        }
        i := i + 1;
        Assoc(before, chunk, Fo(cfg, value, i, CurrentPen(), breaks, leadingSpaces).text);
      }
      assert out + "" == out;
    }

    /** A break, written twice in the middle of a text. */
    method WriteFoldedBreak(value: string, i: nat, breaks: bool, leadingSpaces: bool) returns (ghost chunk: string)
      requires i < |value| && IsBreak(value[i]) && (!breaks ==> i > 0 && !IsBreak(value[i - 1]))
      modifies this`out, this`column, this`indention
      ensures chunk == (if DoublesBreak(value, i, breaks, leadingSpaces) then BreakOf(lineBreak) else "")
                       + BreakRun(old(Cfg()), value[i], true)
      ensures Wrote(Written(chunk, BreakPen(old(CurrentPen()))))
    {
      hide BreakRun;
      ghost var extra := "";
      if !breaks && !leadingSpaces && value[i] == '\n' {
        var k := 0;
        while IsBreak(value[k])
          invariant 0 <= k < i && LeadingBreaks(value, 0) == LeadingBreaks(value, k)
          decreases |value| - k
        {
          k := k + 1;
        }
        if !IsBlankz(value[k]) {
          PutBreak();
          extra := BreakOf(lineBreak);
        }
      }
      WriteBreak(value[i]);
      chunk := extra + BreakRun(old(Cfg()), value[i], true);
      Assoc(old(out), extra, BreakRun(old(Cfg()), value[i], true));
      assert old(out) + "" == old(out);
    }

    // ----- style -----

    /** `yaml_emitter_select_scalar_style`, after the analysis of the value. */
    method SelectScalarStyle(value: string, r: Request) returns (ok: bool, forceTag: bool)
      requires Analysed(value)
      modifies this`scalarStyle
      ensures Select(unicode, value, r) == if ok then Chosen(scalarStyle, forceTag) else NeitherTagNorImplicit
    {
      hide FlowPlainAllowed, BlockPlainAllowed, SingleQuotedAllowed, BlockAllowed, HasBreak;
      if r.noTag && !r.implicit && !r.quotedImplicit {
        return false, false;
      }
      var style := r.style;
      if style.AnyStyle? {
        style := PlainStyle;
      }
      if r.canonical {
        style := DoubleStyle;
      }
      if r.simpleKey && multiline {
        style := DoubleStyle;
      }
      if style.PlainStyle? {
        if (r.flow && !flowPlainAllowed) || (!r.flow && !blockPlainAllowed) {
          style := SingleStyle;
        }
        if |value| == 0 && (r.flow || r.simpleKey) {
          style := SingleStyle;
        }
        if r.noTag && !r.implicit {
          style := SingleStyle;
        }
      }
      if style.SingleStyle? {
        if !singleQuotedAllowed {
          style := DoubleStyle;
        }
      }
      if style.LiteralStyle? || style.FoldedStyle? {
        if !blockAllowed || r.flow || r.simpleKey {
          style := DoubleStyle;
        }
      }
      scalarStyle := style;
      return true, r.noTag && !r.quotedImplicit && !style.PlainStyle?;
    }

    ghost predicate Analysed(value: string)
      reads this
    {
      && (multiline <==> HasBreak(value))
      && (flowPlainAllowed <==> FlowPlainAllowed(unicode, value))
      && (blockPlainAllowed <==> BlockPlainAllowed(unicode, value))
      && (singleQuotedAllowed <==> SingleQuotedAllowed(unicode, value))
      && (blockAllowed <==> BlockAllowed(unicode, value))
    }

    // ----- anchors and tags -----

    method WriteAnchor(value: string)
      modifies this`out, this`column, this`whitespace, this`indention
      ensures Wrote(Raw(value, old(CurrentPen())))
    {
      WriteAll(value);
      whitespace := false;
      indention := false;
    }

    method ProcessAnchor(anchor: string, alias: bool)
      modifies this`out, this`column, this`whitespace, this`indention, this`openEnded
      ensures Wrote(AnchorText(if alias then "*" else "&", anchor, old(CurrentPen())))
    {
      if anchor == "" {
        assert out + "" == out;
        return;
      }
      var mark := if alias then "*" else "&";
      WriteIndicator(mark, true, false, false);
      ghost var lead := if old(whitespace) then "" else " ";
      Assoc(old(out), lead + mark, anchor);
      WriteAnchor(anchor);
    }

    /** The first directive with a prefix of the tag abbreviates it. */
    method AnalyzeTag(tag: string, tagDirectives: seq<Events.Directive>) returns (ok: bool, data: EmitterMachine.TagData)
      ensures ok <==> tag != ""
      ensures ok ==> data == AnchorsAndTags.AnalyzeTag(tagDirectives, tag)
    {
      data := EmitterMachine.TagData("", "");
      if |tag| == 0 {
        return false, data;
      }
      for i := 0 to |tagDirectives|
        invariant AnchorsAndTags.AnalyzeTag(tagDirectives[i..], tag) == AnchorsAndTags.AnalyzeTag(tagDirectives, tag)
      {
        var d := tagDirectives[i];
        assert tagDirectives[i..][0] == d && tagDirectives[i..][1..] == tagDirectives[i + 1..];
        if d.prefix <= tag {
          return true, EmitterMachine.TagData(d.handle, tag[|d.prefix|..]);
        }
      }
      return true, EmitterMachine.TagData("", tag);
    }

    method WriteTagHandle(value: string)
      modifies this`out, this`column, this`whitespace, this`indention
      ensures Wrote(Raw((if old(whitespace) then "" else " ") + value, old(CurrentPen())))
    {
      ghost var lead := if whitespace then "" else " ";
      if !whitespace {
        Put(' ');
      }
      assert out == old(out) + lead by { assert old(out) + "" == old(out); }
      Assoc(old(out), lead, value);
      WriteAll(value);
      whitespace := false;
      indention := false;
    }

    /** Every byte of a character that may not stand in a tag is written as `%` and two digits. */
    method WriteTagContent(value: string)
      modifies this`out, this`column, this`whitespace, this`indention
      ensures Wrote(Raw(TagContent(value), old(CurrentPen())))
    {
      ghost var start, pen := out, CurrentPen();
      for i := 0 to |value|
        invariant start + TagContent(value) == out + TagContent(value[i..])
        invariant Cfg() == old(Cfg()) && |out| >= |start| && CurrentPen() == PutPen(pen, |out| - |start|)
      {
        ghost var before := out;
        var c := value[i];
        assert value[i..][0] == c && value[i..][1..] == value[i + 1..];
        ghost var chunk := if MustWrite(c) then [c] else PercentAll(Utf8.Encode(c));
        if MustWrite(c) {
          Put(c);
        } else {
          WritePercent(Utf8.Encode(c));
        }
        Assoc(before, chunk, TagContent(value[i + 1..]));
      }
      assert value[|value|..] == "" && out + "" == out;
      whitespace := false;
      indention := false;
    }

    method WritePercent(octets: seq<Utf8.byte>)
      modifies this`out, this`column
      ensures Wrote(Written(PercentAll(octets), PutPen(old(CurrentPen()), |PercentAll(octets)|)))
    {
      ghost var start, pen := out, CurrentPen();
      for k := 0 to |octets|
        invariant start + PercentAll(octets) == out + PercentAll(octets[k..])
        invariant Cfg() == old(Cfg()) && |out| >= |start| && CurrentPen() == PutPen(pen, |out| - |start|)
      {
        ghost var before := out;
        var octet := octets[k];
        assert octets[k..][0] == octet && octets[k..][1..] == octets[k + 1..];
        Put('%');
        Put(HexDigit(octet / 16));
        Put(HexDigit(octet % 16));
        assert out == before + Percent(octet);
        Assoc(before, Percent(octet), PercentAll(octets[k + 1..]));
      }
      assert octets[|octets|..] == [] && out + "" == out;
    }

    method ProcessTag(handle: string, suffix: string)
      modifies this`out, this`column, this`whitespace, this`indention, this`openEnded
      ensures Wrote(TagText(handle, suffix, old(CurrentPen())))
    {
      hide TagContent;
      if |handle| == 0 && |suffix| == 0 {
        assert out + "" == out;
        return;
      }
      if |handle| > 0 {
        ghost var lead := if whitespace then "" else " ";
        WriteTagHandle(handle);
        if |suffix| > 0 {
          Assoc(old(out), lead + handle, TagContent(suffix));
          WriteTagContent(suffix);
        } else {
          NoTagContent();
          assert lead + handle + "" == lead + handle;
        }
      } else {
        ghost var lead := if whitespace then "" else " ";
        WriteIndicator("!<", true, false, false);
        Assoc(old(out), lead + "!<", TagContent(suffix));
        WriteTagContent(suffix);
        Assoc(old(out), lead + "!<" + TagContent(suffix), ">");
        WriteIndicator(">", false, false, false);
        assert "" + ">" == ">";
      }
    }

    lemma NoTagContent()
      ensures TagContent("") == ""
    {}

    // ----- scalars -----

    /** `yaml_emitter_process_scalar`. */
    method ProcessScalar(value: string, allowBreaks: bool)
      requires 2 <= bestIndent <= 9 && !scalarStyle.AnyStyle?
      requires scalarStyle.LiteralStyle? || scalarStyle.FoldedStyle? ==> value != ""
      requires (scalarStyle.PlainStyle? || scalarStyle.FoldedStyle?) && value != "" ==> !IsSpace(value[|value| - 1])
      modifies this`out, this`column, this`whitespace, this`indention, this`footIndent, this`openEnded
      ensures Wrote(WriteScalar(old(Cfg()), value, old(CurrentPen()), scalarStyle, allowBreaks))
    {
      hide Plain, SingleQuoted, DoubleQuoted, Literal, Folded;
      if scalarStyle.PlainStyle? {
        WritePlain(value, allowBreaks);
      } else if scalarStyle.SingleStyle? {
        WriteSingleQuoted(value, allowBreaks);
      } else if scalarStyle.DoubleStyle? {
        WriteDoubleQuoted(value, allowBreaks);
      } else if scalarStyle.LiteralStyle? {
        WriteLiteral(value);
      } else {
        WriteFolded(value);
      }
    }

    method ProcessProperties(anchor: string, handle: string, suffix: string)
      modifies this`out, this`column, this`whitespace, this`indention, this`openEnded
      ensures Wrote(Properties(anchor, handle, suffix, old(CurrentPen())))
    {
      hide AnchorText, TagText;
      ProcessAnchor(anchor, false);
      ghost var a := AnchorText("&", anchor, old(CurrentPen()));
      ProcessTag(handle, suffix);
      Assoc(old(out), a.text, TagText(handle, suffix, a.pen).text);
    }

    /** Analysis and choice of the style. */
    method PrepareScalar(value: string, r: Request) returns (ok: bool, forceTag: bool)
      modifies this`multiline, this`flowPlainAllowed, this`blockPlainAllowed, this`singleQuotedAllowed, this`blockAllowed, this`scalarStyle
      ensures ok == Select(unicode, value, r).Chosen?
      ensures ok ==> Select(unicode, value, r) == Chosen(scalarStyle, forceTag)
    {
      hide Select, FlowPlainAllowed, BlockPlainAllowed, SingleQuotedAllowed, BlockAllowed, HasBreak;
      AnalyzeScalar(value);
      ok, forceTag := SelectScalarStyle(value, r);
    }

    /** Writes the scalar one level deeper; `item` tells whether it is directly in a block
        sequence. */
    method ProcessDeeper(value: string, r: Request, item: bool)
      requires 2 <= bestIndent <= 9 && Select(unicode, value, r).Chosen? && scalarStyle == Select(unicode, value, r).style
      modifies this`out, this`column, this`whitespace, this`indention, this`footIndent, this`openEnded, this`indent
      ensures scalarStyle.LiteralStyle? ==> value != ""
      ensures Wrote(WriteScalar(Deeper(old(Cfg()), item), value, old(CurrentPen()), scalarStyle, !r.simpleKey))
    {
      hide Select, WriteScalar, FlowPlainAllowed, BlockPlainAllowed, SingleQuotedAllowed, BlockAllowed, HasBreak, EmitterMachine.NextIndent;
      ChosenStyleIsSafe(unicode, value, r);
      SafeShape(unicode, value);
      var enclosing := indent;
      indent := EmitterMachine.NextIndent(bestIndent, indent, true, item);
      ProcessScalar(value, !r.simpleKey);
      indent := enclosing;
    }

    /** The settings with the margin one level deeper. */
    function Deeper(cfg: Settings, item: bool): Settings
      requires cfg.bestIndent > 0
    {
      cfg.(indent := EmitterMachine.NextIndent(cfg.bestIndent, cfg.indent, true, item))
    }

    /** `yaml_emitter_emit_scalar`, with the analysis before it. */
    method EmitScalar(value: string, r: Request, anchor: string, handle: string, suffix: string, item: bool) returns (ok: bool)
      requires 2 <= bestIndent <= 9 && (r.noTag <==> handle == "" && suffix == "")
      modifies this
      ensures unicode == old(unicode) && ok == Select(unicode, value, r).Chosen?
      ensures ok ==>
        Wrote(ScalarNodeText(Deeper(old(Cfg()), item), anchor, handle, suffix, value, r, old(CurrentPen())))
    {
      hide Select, WriteScalar, Properties, EmitterMachine.NextIndent;
      var forceTag;
      ok, forceTag := PrepareScalar(value, r);
      if ok {
        ProcessProperties(anchor, if forceTag then "!" else handle, suffix);
        ghost var p := Properties(anchor, if forceTag then "!" else handle, suffix, old(CurrentPen()));
        ProcessDeeper(value, r, item);
        ghost var deeper := Deeper(old(Cfg()), item);
        Assoc(old(out), p.text, WriteScalar(deeper, value, p.pen, scalarStyle, !r.simpleKey).text);
      }
    }

    lemma SafeShape(unicode: bool, value: string)
      ensures BlockAllowed(unicode, value) ==> value != "" && !IsSpace(value[|value| - 1])
      ensures value != "" && (FlowPlainAllowed(unicode, value) || BlockPlainAllowed(unicode, value)) ==> !IsSpace(value[|value| - 1])
    {}

    // ----- analysis -----

    /** Sets the flags that say which styles are safe for the value. */
    method AnalyzeScalar(value: string)
      modifies this`multiline, this`flowPlainAllowed, this`blockPlainAllowed, this`singleQuotedAllowed, this`blockAllowed
      ensures multiline <==> HasBreak(value)
      ensures flowPlainAllowed <==> FlowPlainAllowed(unicode, value)
      ensures blockPlainAllowed <==> BlockPlainAllowed(unicode, value)
      ensures singleQuotedAllowed <==> SingleQuotedAllowed(unicode, value)
      ensures blockAllowed <==> BlockAllowed(unicode, value)
    {
      if |value| == 0 {
        multiline := false;
        flowPlainAllowed := false;
        blockPlainAllowed := true;
        singleQuotedAllowed := true;
        blockAllowed := false;
        return;
      }

      hide HasBreak, HasSpecial, HasTab, HasSpaceBreak, HasBreakSpace, HasFlowIndicator, HasBlockIndicator;
      var lineBreaks, specialCharacters, tabCharacters, breakSpace, spaceBreak := InspectCharacters(value);
      var flowIndicators, blockIndicators := InspectIndicators(value);
      var leadingSpace, leadingBreak := IsSpace(value[0]), IsBreak(value[0]);
      var trailingSpace, trailingBreak := IsSpace(value[|value| - 1]), IsBreak(value[|value| - 1]);
      AnyBreak(value);
      var flowPlain, blockPlain, single, block := true, true, true, true;
      if leadingSpace || leadingBreak || trailingSpace || trailingBreak {
        flowPlain, blockPlain := false, false;
      }
      if trailingSpace {
        block := false;
      }
      if breakSpace {
        flowPlain, blockPlain, single := false, false, false;
      }
      if spaceBreak || tabCharacters || specialCharacters {
        flowPlain, blockPlain, single := false, false, false;
      }
      if spaceBreak || specialCharacters {
        block := false;
      }
      if lineBreaks {
        flowPlain, blockPlain := false, false;
      }
      if flowIndicators {
        flowPlain := false;
      }
      if blockIndicators {
        blockPlain := false;
      }
      multiline := lineBreaks;
      flowPlainAllowed := flowPlain;
      blockPlainAllowed := blockPlain;
      singleQuotedAllowed := single;
      blockAllowed := block;
    }

    /** The character classes and the neighbourhoods of spaces and breaks. */
    method InspectCharacters(value: string)
      returns (lineBreaks: bool, specialCharacters: bool, tabCharacters: bool, breakSpace: bool, spaceBreak: bool)
      ensures lineBreaks == HasBreak(value) && specialCharacters == HasSpecial(unicode, value) && tabCharacters == HasTab(value)
      ensures breakSpace == HasBreakSpace(value) && spaceBreak == HasSpaceBreak(value)
    {
      hide IsPrintable, IsAscii;
      lineBreaks, specialCharacters, tabCharacters, breakSpace, spaceBreak := false, false, false, false, false;
      var previousSpace, previousBreak := false, false;
      var i := 0;
      while i < |value|
        invariant 0 <= i <= |value|
        invariant lineBreaks <==> exists j :: 0 <= j < i && BreakAt(value, j)
        invariant specialCharacters <==> exists j :: 0 <= j < i && SpecialAt(unicode, value, j)
        invariant tabCharacters <==> exists j :: 0 <= j < i && TabAt(value, j)
        invariant breakSpace <==> exists j :: 0 <= j < i && BreakSpaceAt(value, j)
        invariant spaceBreak <==> exists j :: 0 <= j < i && SpaceBreakAt(value, j)
        invariant previousSpace <==> i > 0 && IsSpace(value[i - 1])
        invariant previousBreak <==> i > 0 && IsBreak(value[i - 1])
      {
        var c := value[i];
        assert BreakAt(value, i) == IsBreak(c) && TabAt(value, i) == IsTab(c);
        assert SpecialAt(unicode, value, i) == SpecialCharacter(unicode, c);
        assert SpaceBreakAt(value, i) == (previousSpace && IsBreak(c));
        assert BreakSpaceAt(value, i) == (previousBreak && IsSpace(c));
        if c == '\t' {
          tabCharacters := true;
        } else if !IsPrintable(c) || (!IsAscii(c) && !unicode) {
          specialCharacters := true;
        }
        if IsSpace(c) {
          breakSpace := breakSpace || previousBreak;
          previousSpace, previousBreak := true, false;
        } else if IsBreak(c) {
          lineBreaks := true;
          spaceBreak := spaceBreak || previousSpace;
          previousSpace, previousBreak := false, true;
        } else {
          previousSpace, previousBreak := false, false;
        }
        i := i + 1;
      }
    }

    /** The indicators, which depend on what precedes and follows them. */
    method InspectIndicators(value: string) returns (flowIndicators: bool, blockIndicators: bool)
      requires value != ""
      ensures flowIndicators == HasFlowIndicator(value) && blockIndicators == HasBlockIndicator(value)
    {
      hide FlowIndicatorAt, BlockIndicatorAt;
      var start := "---" <= value || "..." <= value;
      flowIndicators, blockIndicators := start, start;
      var precededByWhitespace := true;
      var i := 0;
      while i < |value|
        invariant 0 <= i <= |value|
        invariant flowIndicators <==> start || exists j :: 0 <= j < i && FlowIndicatorAt(value, j)
        invariant blockIndicators <==> start || exists j :: 0 <= j < i && BlockIndicatorAt(value, j)
        invariant precededByWhitespace <==> i == 0 || IsBlankz(value[i - 1])
      {
        var followedByWhitespace := i + 1 >= |value| || IsBlank(value[i + 1]);
        var inFlow, inBlock := IndicatorsAt(value, i, precededByWhitespace, followedByWhitespace);
        flowIndicators := flowIndicators || inFlow;
        blockIndicators := blockIndicators || inBlock;
        precededByWhitespace := IsBlankz(value[i]);
        i := i + 1;
      }
    }

    /** Does the character at i act as an indicator in flow and in block context? */
    method IndicatorsAt(value: string, i: nat, precededByWhitespace: bool, followedByWhitespace: bool) returns (flow: bool, block: bool)
      requires i < |value|
      requires precededByWhitespace <==> i == 0 || IsBlankz(value[i - 1])
      requires followedByWhitespace <==> BlankFollows(value, i)
      ensures flow <==> FlowIndicatorAt(value, i)
      ensures block <==> BlockIndicatorAt(value, i)
    {
      flow, block := false, false;
      var c := value[i];
      if i == 0 {
        if c in "#,[]{}&*!|>'\"%@`" {
          flow, block := true, true;
        } else if c == '?' || c == ':' {
          flow := true;
          block := followedByWhitespace;
        } else if c == '-' && followedByWhitespace {
          flow, block := true, true;
        }
      } else {
        if c in ",?[]{}" {
          flow := true;
        } else if c == ':' {
          flow := true;
          block := followedByWhitespace;
        } else if c == '#' && precededByWhitespace {
          flow, block := true, true;
        }
      }
    }
  }
}
