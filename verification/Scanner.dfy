/**
  The scalar side of scannerc.go: the object whose methods read a quoted, a plain or a
  block scalar, an anchor or a tag from the buffer. Each is proved to compute what FlowScalar,
  PlainScalar, BlockScalar and AnchorsAndTags say, and to leave the position and the column
  just past what it read.

  The buffer stands for all the input that is left; module Reader shows that the sliding
  buffer of readerc.go delivers it whatever the sizes of the reads.
 */
module ScalarScanner {
  import opened Chars
  import opened FlowScalar
  import opened PlainScalar
  import opened BlockScalar
  import AnchorsAndTags
  import Utf8

  class Scanner {
    const buffer: string
    var pos: nat
    var column: nat
    var indent: int
    var flowLevel: nat
    var simpleKeyAllowed: bool

    // ----- moving over characters -----

    method Skip()
      requires pos < |buffer|
      modifies this`pos, this`column
      ensures pos == old(pos) + 1 && column == old(column) + 1
    {
      column := column + 1;
      pos := pos + 1;
    }

    method SkipLine()
      requires pos <= |buffer| && IsBreak(At(buffer, pos))
      modifies this`pos, this`column
      ensures pos == old(pos) + BreakLen(buffer, old(pos)) && column == 0
    {
      if buffer[pos] == '\r' && At(buffer, pos + 1) == '\n' {
        pos := pos + 2;
      } else {
        pos := pos + 1;
      }
      column := 0;
    }

    /** Copies a character. */
    method Read(s: string) returns (r: string)
      requires pos < |buffer|
      modifies this`pos, this`column
      ensures r == s + [buffer[old(pos)]] && pos == old(pos) + 1 && column == old(column) + 1
    {
      r := s + [buffer[pos]];
      pos := pos + 1;
      column := column + 1;
    }

    /** Copies a line break, normalised; does nothing elsewhere. */
    method ReadLine(s: string) returns (r: string)
      requires pos <= |buffer|
      modifies this`pos, this`column
      ensures IsBreak(At(buffer, old(pos))) ==>
        r == s + BreakText(At(buffer, old(pos))) && pos == old(pos) + BreakLen(buffer, old(pos)) && column == 0
      ensures !IsBreak(At(buffer, old(pos))) ==> r == s && pos == old(pos) && column == old(column)
    {
      var c := At(buffer, pos);
      if c == '\r' && At(buffer, pos + 1) == '\n' {
        r := s + "\n";
        pos := pos + 2;
      } else if c == '\r' || c == '\n' || c == NEL {
        r := s + "\n";
        pos := pos + 1;
      } else if c == LS || c == PS {
        r := s + [c];
        pos := pos + 1;
      } else {
        return s;
      }
      column := 0;
    }

    // ----- quoted scalars -----

    /** An escape sequence other than an escaped line break. */
    method ScanEscape(s: string, ghost goal: Scan) returns (r: string, error: bool, failure: ScanError)
      requires pos <= |buffer| && At(buffer, pos) == '\\' && !IsBreak(At(buffer, pos + 1))
      requires Word(false, buffer, pos, column, s) == goal
      modifies this`pos, this`column
      ensures old(pos) <= pos <= |buffer|
      ensures if error then goal == Fail(failure)
              else old(pos) < pos <= |buffer| && Word(false, buffer, pos, column, r) == goal
    {
      r, error, failure := s, false, UnknownEscape;
      var d := At(buffer, pos + 1);
      var codeLength := 0;
      if Escape(d) != "" {
        r := s + Escape(d);
      } else {
        codeLength := CodeLength(d);
        if codeLength == 0 {
          error := true;
          return;
        }
      }
      Skip();
      Skip();
      if codeLength > 0 {
        var value := 0;
        for k := 0 to codeLength
          invariant AllHex(buffer, pos, k) && value == HexValue(buffer, pos, k)
        {
          if !IsHex(At(buffer, pos + k)) {
            error, failure := true, NotHexadecimal;
            return;
          }
          value := value * 16 + AsHex(At(buffer, pos + k));
        }
        if !IsCodePoint(value) {
          error, failure := true, InvalidCodePoint;
          return;
        }
        r := s + [value as char];
        assert IsHex(At(buffer, pos + codeLength - 1));
        ghost var p := pos;
        for k := 0 to codeLength
          invariant pos == p + k <= |buffer| && column == old(column) + 2 + k
        {
          Skip();
        }
      }
    }

    method ScanFlowScalar(single: bool) returns (r: Scan)
      requires pos < |buffer|
      modifies this`pos, this`column
      ensures r == FlowScalar.ScanFlowScalar(single, buffer, old(pos), old(column))
      ensures r.Done? ==> pos == r.next && column == r.column
    {
      ghost var goal := FlowScalar.ScanFlowScalar(single, buffer, pos, column);
      var quote := if single then '\'' else '"';
      Skip();
      var s := "";
      while true
        invariant pos <= |buffer| && Start(single, buffer, pos, column, s) == goal
        decreases |buffer| - pos
      {
        if DocumentIndicator(buffer, pos, column) {
          return Fail(UnexpectedDocumentIndicator);
        }
        if IsZ(At(buffer, pos)) {
          return Fail(UnexpectedEndOfStream);
        }
        ghost var p := pos;
        var leading, error, failure;
        s, leading, error, failure := ScanQuotedWord(single, s, goal);
        if error {
          return Fail(failure);
        }
        if At(buffer, pos) == quote {
          Skip();
          return Done(s, pos, column);
        }
        assert Blanks(single, buffer, pos, column, s, NoGap.(leading := leading)) == goal;
        var g := ScanGap(single, s, leading, goal);
        s := s + Join(g);
      }
    }

    /** The loop over non-blank characters; `leading` says that it ended with an escaped
        line break. */
    method ScanQuotedWord(single: bool, s: string, ghost goal: Scan) returns (r: string, leading: bool, error: bool, failure: ScanError)
      requires pos <= |buffer| && !IsZ(At(buffer, pos))
      requires Word(single, buffer, pos, column, s) == goal
      modifies this`pos, this`column
      ensures old(pos) <= pos <= |buffer|
      ensures error ==> goal == Fail(failure)
      ensures !error ==>
        var quote := if single then '\'' else '"';
        if At(buffer, pos) == quote then goal == Done(r, pos + 1, column + 1)
        else
          && goal == Blanks(single, buffer, pos, column, r, NoGap.(leading := leading))
          && (pos == old(pos) ==> IsBlank(At(buffer, pos)) || IsBreak(At(buffer, pos)))
    {
      r, leading, error, failure := s, false, false, UnknownEscape;
      while !IsBlankz(At(buffer, pos))
        invariant old(pos) <= pos <= |buffer| && !leading && !error
        invariant Word(single, buffer, pos, column, r) == goal
        decreases |buffer| - pos
      {
        var c := At(buffer, pos);
        var d := At(buffer, pos + 1);
        if single && c == '\'' && d == '\'' {
          r := r + "'";
          Skip();
          Skip();
        } else if single && c == '\'' {
          return;
        } else if !single && c == '"' {
          return;
        } else if !single && c == '\\' && IsBreak(d) {
          Skip();
          SkipLine();
          leading := true;
          return;
        } else if !single && c == '\\' {
          r, error, failure := ScanEscape(r, goal);
          if error {
            return;
          }
        } else {
          r := Read(r);
        }
      }
    }

    /** The loop over blanks and line breaks. */
    method ScanGap(single: bool, s: string, leading: bool, ghost goal: Scan) returns (g: Gap)
      requires pos <= |buffer|
      requires Blanks(single, buffer, pos, column, s, NoGap.(leading := leading)) == goal
      modifies this`pos, this`column
      ensures old(pos) <= pos <= |buffer|
      ensures IsBlank(At(buffer, old(pos))) || IsBreak(At(buffer, old(pos))) ==> old(pos) < pos
      ensures goal == Start(single, buffer, pos, column, s + Join(g))
    {
      hide Blanks, Start, Word;
      var leadingBlanks := leading;
      var whitespaces, leadingBreak, trailingBreaks := "", "", "";
      while IsBlank(At(buffer, pos)) || IsBreak(At(buffer, pos))
        invariant old(pos) <= pos <= |buffer|
        invariant pos == old(pos) || IsBlank(At(buffer, old(pos))) || IsBreak(At(buffer, old(pos)))
        invariant Blanks(single, buffer, pos, column, s, Gap(whitespaces, leadingBreak, trailingBreaks, leadingBlanks)) == goal
        decreases |buffer| - pos
      {
        BlanksStep(single, buffer, pos, column, s, Gap(whitespaces, leadingBreak, trailingBreaks, leadingBlanks));
        if IsBlank(At(buffer, pos)) {
          if !leadingBlanks {
            whitespaces := Read(whitespaces);
          } else {
            Skip();
          }
        } else if !leadingBlanks {
          whitespaces := "";
          leadingBreak := ReadLine(leadingBreak);
          leadingBlanks := true;
        } else {
          trailingBreaks := ReadLine(trailingBreaks);
        }
      }
      g := Gap(whitespaces, leadingBreak, trailingBreaks, leadingBlanks);
      BlanksStep(single, buffer, pos, column, s, g);
    }

    // ----- plain scalars -----

    method ScanPlainScalar() returns (r: PlainScan)
      requires pos <= |buffer|
      modifies this`pos, this`column, this`simpleKeyAllowed
      ensures r == PlainScalar.ScanPlainScalar(flowLevel > 0, indent, buffer, old(pos), old(column))
      ensures r.PlainDone? ==> pos == r.next && column == r.column
      ensures simpleKeyAllowed == (old(simpleKeyAllowed) || (r.PlainDone? && r.leading))
    {
      ghost var goal := PlainScalar.ScanPlainScalar(flowLevel > 0, indent, buffer, pos, column);
      var s, g := "", NoGap;
      var end: nat := pos;
      var level := indent + 1;
      while true
        invariant end <= pos <= |buffer| && simpleKeyAllowed == old(simpleKeyAllowed)
        invariant PlainStart(flowLevel > 0, level, buffer, pos, column, s, g, end) == goal
        decreases |buffer| - pos
      {
        if DocumentIndicator(buffer, pos, column) || At(buffer, pos) == '#' {
          break;
        }
        s, g, end := ScanPlainWord(level, s, g, end, goal);
        if !(IsBlank(At(buffer, pos)) || IsBreak(At(buffer, pos))) {
          break;
        }
        var error;
        g, error := ScanPlainGap(level, s, g, end, goal);
        if error {
          return PlainFail(TabInIndentation);
        }
        if flowLevel == 0 && column < level {
          break;
        }
      }
      if g.leading {
        simpleKeyAllowed := true;
      }
      r := PlainDone(s, end, pos, column, g.leading);
    }

    /** The loop over non-blank characters. */
    method ScanPlainWord(level: int, s: string, g: Gap, end: nat, ghost goal: PlainScan) returns (r: string, h: Gap, end': nat)
      requires end <= pos <= |buffer|
      requires PlainWord(flowLevel > 0, level, buffer, pos, column, s, g, end) == goal
      modifies this`pos, this`column
      ensures old(pos) <= pos <= |buffer| && end' <= pos
      ensures if IsBlank(At(buffer, pos)) || IsBreak(At(buffer, pos))
              then goal == PlainBlanks(flowLevel > 0, level, buffer, pos, column, r, h, end')
              else goal == PlainDone(r, end', pos, column, h.leading)
    {
      r, h, end' := s, g, end;
      while !IsBlankz(At(buffer, pos))
        invariant old(pos) <= pos <= |buffer| && end' <= pos
        invariant PlainWord(flowLevel > 0, level, buffer, pos, column, r, h, end') == goal
        decreases |buffer| - pos
      {
        var c := At(buffer, pos);
        if (c == ':' && IsBlankz(At(buffer, pos + 1))) || (flowLevel > 0 && c in ",?[]{}") {
          break;
        }
        r := r + Join(h);
        h := NoGap;
        r := Read(r);
        end' := pos;
      }
    }

    /** The loop over blanks and line breaks. */
    method ScanPlainGap(level: int, s: string, g: Gap, end: nat, ghost goal: PlainScan) returns (h: Gap, error: bool)
      requires end <= pos <= |buffer| && (IsBlank(At(buffer, pos)) || IsBreak(At(buffer, pos)))
      requires PlainBlanks(flowLevel > 0, level, buffer, pos, column, s, g, end) == goal
      modifies this`pos, this`column
      ensures if error then goal == PlainFail(TabInIndentation)
              else
                && old(pos) < pos <= |buffer|
                && goal == (if flowLevel == 0 && column < level then PlainDone(s, end, pos, column, h.leading)
                            else PlainStart(flowLevel > 0, level, buffer, pos, column, s, h, end))
    {
      h, error := g, false;
      while IsBlank(At(buffer, pos)) || IsBreak(At(buffer, pos))
        invariant old(pos) <= pos <= |buffer| && end <= pos && !error
        invariant pos == old(pos) ==> IsBlank(At(buffer, pos)) || IsBreak(At(buffer, pos))
        invariant PlainBlanks(flowLevel > 0, level, buffer, pos, column, s, h, end) == goal
        decreases |buffer| - pos
      {
        if IsBlank(At(buffer, pos)) {
          if h.leading && column < level && IsTab(At(buffer, pos)) {
            error := true;
            return;
          }
          if !h.leading {
            var whitespaces := Read(h.blanks);
            h := h.(blanks := whitespaces);
          } else {
            Skip();
          }
        } else if !h.leading {
          var first := ReadLine(h.first);
          h := h.(blanks := "", first := first, leading := true);
        } else {
          var rest := ReadLine(h.rest);
          h := h.(rest := rest);
        }
      }
    }

    // ----- block scalars -----

    method ScanBlockScalar(literal: bool) returns (r: BlockScan)
      requires pos < |buffer|
      modifies this`pos, this`column
      ensures r == BlockScalar.ScanBlockScalar(literal, indent, buffer, old(pos), old(column))
      ensures r.BlockDone? ==> pos == r.next && column == r.column
    {
      hide Breaks, Line, Indicators, SkipBlanks, SkipToBreak;
      Skip();
      var h := ScanIndicators();
      if h.HeaderFail? {
        return BlockFail(h.error);
      }
      SkipHeaderRest();
      if !IsBreakz(At(buffer, pos)) {
        return BlockFail(ExpectedLineBreak);
      }
      if IsBreak(At(buffer, pos)) {
        SkipLine();
      }
      var level := 0;
      if h.increment > 0 {
        level := if indent >= 0 then indent + h.increment else h.increment;
      }
      r := ScanBlockLines(Block(literal, indent, h.chomping, buffer), level);
    }

    /** Blanks and a comment behind the indicators. */
    method SkipHeaderRest()
      requires pos <= |buffer|
      modifies this`pos, this`column
      ensures var q := SkipBlanks(buffer, old(pos));
        pos == if At(buffer, q) == '#' then SkipToBreak(buffer, q) else q
      ensures column == old(column) + (pos - old(pos))
    {
      ghost var q := SkipBlanks(buffer, pos);
      while IsBlank(At(buffer, pos))
        invariant old(pos) <= pos <= |buffer| && SkipBlanks(buffer, pos) == q && column == old(column) + (pos - old(pos))
        decreases |buffer| - pos
      {
        Skip();
      }
      if At(buffer, pos) == '#' {
        ghost var e := SkipToBreak(buffer, pos);
        while !IsBreakz(At(buffer, pos))
          invariant old(pos) <= pos <= |buffer| && SkipToBreak(buffer, pos) == e && column == old(column) + (pos - old(pos))
          decreases |buffer| - pos
        {
          Skip();
        }
      }
    }

    method ScanIndicators() returns (h: Header)
      requires pos <= |buffer|
      modifies this`pos, this`column
      ensures h == Indicators(buffer, old(pos), old(column))
      ensures h.HeaderDone? ==> pos == h.next && column == h.column
    {
      var chomping, increment := 0, 0;
      if IsChomp(At(buffer, pos)) {
        chomping := if At(buffer, pos) == '+' then 1 else -1;
        Skip();
        if IsDigit(At(buffer, pos)) {
          if At(buffer, pos) == '0' {
            return HeaderFail(ZeroIndentationIndicator);
          }
          increment := DigitValue(At(buffer, pos));
          Skip();
        }
      } else if IsDigit(At(buffer, pos)) {
        if At(buffer, pos) == '0' {
          return HeaderFail(ZeroIndentationIndicator);
        }
        increment := DigitValue(At(buffer, pos));
        Skip();
        if IsChomp(At(buffer, pos)) {
          chomping := if At(buffer, pos) == '+' then 1 else -1;
          Skip();
        }
      }
      h := HeaderDone(chomping, increment, pos, column);
    }

    /** The loop over the lines. */
    method ScanBlockLines(k: Block, level: int) returns (r: BlockScan)
      requires pos <= |buffer| && k.buf == buffer && k.level == indent
      modifies this`pos, this`column
      ensures r == Breaks(k, old(pos), old(column), level, "", "", "", 0, false, old(pos))
      ensures r.BlockDone? ==> pos == r.next && column == r.column
    {
      hide Breaks, Line;
      ghost var goal := Breaks(k, pos, column, level, "", "", "", 0, false, pos);
      var s, leadingBreak, trailingBreaks, leadingBlank := "", "", "", false;
      var end: nat := pos;
      var margin, error;
      margin, trailingBreaks, end, error := ScanBlockBreaks(k, level, s, leadingBreak, leadingBlank, end, goal);
      if error {
        return BlockFail(TabInIndentation);
      }
      while column == margin && !IsZ(At(buffer, pos))
        invariant end <= pos <= |buffer| && !IsBreak(At(buffer, pos))
        invariant Head(k, pos, column, margin, s, leadingBreak, trailingBreaks, leadingBlank, end) == goal
        decreases |buffer| - pos
      {
        ghost var p := pos;
        var trailingBlank := IsBlank(At(buffer, pos));
        var joined := "";
        if !k.literal && !leadingBlank && !trailingBlank && leadingBreak != "" && leadingBreak[0] == '\n' {
          if trailingBreaks == "" {
            joined := " ";
          }
        } else {
          joined := leadingBreak;
        }
        s := s + joined + trailingBreaks;
        leadingBlank := IsBlank(At(buffer, pos));
        s, leadingBreak, end := ScanBlockLine(k, margin, s, leadingBlank, end, goal);
        margin, trailingBreaks, end, error := ScanBlockBreaks(k, margin, s, leadingBreak, leadingBlank, end, goal);
        if error {
          return BlockFail(TabInIndentation);
        }
      }
      var tail := if k.chomping != -1 then leadingBreak else "";
      var kept := if k.chomping == 1 then trailingBreaks else "";
      r := BlockDone(s + tail + kept, end, pos, column);
    }

    /** The characters of a line and its line break. */
    method ScanBlockLine(k: Block, margin: int, s: string, blank: bool, end: nat, ghost goal: BlockScan)
      returns (r: string, first: string, end': nat)
      requires end <= pos <= |buffer| && k.buf == buffer && !IsBreakz(At(buffer, pos))
      requires Line(k, pos, column, margin, s, blank, end) == goal
      modifies this`pos, this`column
      ensures old(pos) < pos <= |buffer| && end' <= pos
      ensures Breaks(k, pos, column, margin, r, first, "", 0, blank, end') == goal
    {
      hide Breaks, Head;
      r := s;
      while !IsBreakz(At(buffer, pos))
        invariant old(pos) <= pos <= |buffer| && end <= pos
        invariant pos == old(pos) ==> !IsBreakz(At(buffer, pos))
        invariant Line(k, pos, column, margin, r, blank, end) == goal
        decreases |buffer| - pos
      {
        r := Read(r);
      }
      end' := pos;
      assert IsBreak(At(buffer, pos)) ==> "" + BreakText(At(buffer, pos)) == BreakText(At(buffer, pos));
      first := ReadLine("");
    }

    /** Indentation spaces and empty lines; detects the indentation if it is not known. */
    method ScanBlockBreaks(k: Block, level: int, s: string, first: string, afterBlank: bool, end: nat, ghost goal: BlockScan)
      returns (margin: int, breaks: string, end': nat, error: bool)
      requires end <= pos <= |buffer| && k.buf == buffer && k.level == indent
      requires Breaks(k, pos, column, level, s, first, "", 0, afterBlank, end) == goal
      modifies this`pos, this`column
      ensures old(pos) <= pos <= |buffer| && end' <= pos
      ensures !error ==> !IsBreak(At(buffer, pos))
      ensures if error then goal == BlockFail(TabInIndentation)
              else Head(k, pos, column, margin, s, first, breaks, afterBlank, end') == goal
    {
      hide Head;
      margin, breaks, end', error := level, "", end, false;
      var maxIndent: nat := 0;
      while true
        invariant old(pos) <= pos <= |buffer| && end' <= pos && margin == level && !error
        invariant Breaks(k, pos, column, level, s, first, breaks, maxIndent, afterBlank, end') == goal
        decreases |buffer| - pos
      {
        while (level == 0 || column < level) && IsSpace(At(buffer, pos))
          invariant old(pos) <= pos <= |buffer| && end' <= pos
          invariant Breaks(k, pos, column, level, s, first, breaks, maxIndent, afterBlank, end') == goal
          decreases |buffer| - pos
        {
          Skip();
        }
        if column > maxIndent {
          maxIndent := column;
        }
        if IsTab(At(buffer, pos)) && ((level == 0 && column <= indent) || (level > 0 && column < level)) {
          error := true;
          return;
        }
        if !IsBreak(At(buffer, pos)) {
          break;
        }
        breaks := ReadLine(breaks);
        if s == "" {
          end' := pos;
        }
      }
      if level == 0 {
        margin := maxIndent;
        if margin < indent + 1 {
          margin := indent + 1;
        }
        if margin < 1 {
          margin := 1;
        }
      }
    }

    // ----- anchors and tags -----

    /** Skips over the characters of an anchor or a handle. */
    method SkipAlpha()
      requires pos <= |buffer|
      modifies this`pos, this`column
      ensures pos == AnchorsAndTags.AlphaEnd(buffer, old(pos)) && column == old(column) + (pos - old(pos))
    {
      while IsAlpha(At(buffer, pos))
        invariant old(pos) <= pos <= |buffer| && column == old(column) + (pos - old(pos))
        invariant AnchorsAndTags.AlphaEnd(buffer, pos) == AnchorsAndTags.AlphaEnd(buffer, old(pos))
        decreases |buffer| - pos
      {
        Skip();
      }
    }

    method ScanAnchor() returns (r: AnchorsAndTags.AnchorScan)
      requires pos < |buffer|
      modifies this`pos, this`column
      ensures r == AnchorsAndTags.ScanAnchor(buffer, old(pos))
      ensures r.AnchorDone? ==> pos == r.next && column == old(column) + (pos - old(pos))
    {
      ghost var p := pos;
      Skip();
      var start := pos;
      SkipAlpha();
      if pos == start || !AnchorsAndTags.EndsAnchor(At(buffer, pos)) {
        return AnchorsAndTags.AnchorFail(AnchorsAndTags.ExpectedAlphanumeric);
      }
      return AnchorsAndTags.AnchorDone(buffer[start..pos], pos);
    }

    method ScanTagHandle(directive: bool) returns (r: AnchorsAndTags.HandleScan)
      requires pos <= |buffer|
      modifies this`pos, this`column
      ensures r == AnchorsAndTags.ScanHandle(directive, buffer, old(pos))
      ensures r.HandleDone? ==> pos == r.next && column == old(column) + (pos - old(pos))
    {
      if At(buffer, pos) != '!' {
        return AnchorsAndTags.HandleFail(AnchorsAndTags.ExpectedMark);
      }
      var start := pos;
      Skip();
      assert buffer[start..start + 1] == "!";
      SkipAlpha();
      if At(buffer, pos) == '!' {
        Skip();
      } else if directive && buffer[start..pos] != "!" {
        return AnchorsAndTags.HandleFail(AnchorsAndTags.ExpectedMark);
      }
      return AnchorsAndTags.HandleDone(buffer[start..pos], pos);
    }

    /** One character, given by the bytes of its encoding; their number is known once the first
        is. */
    method ScanUriEscapes(s: seq<Utf8.byte>) returns (r: AnchorsAndTags.UriScan)
      requires pos <= |buffer|
      modifies this`pos, this`column
      ensures r == AnchorsAndTags.UriEscape(buffer, old(pos), s)
      ensures r.UriDone? ==> pos == r.next && column == old(column) + (pos - old(pos))
    {
      var uri := s;
      var w := 1024;
      while w > 0
        invariant w == 1024 || w <= 3
        invariant old(pos) <= pos <= |buffer| && column == old(column) + (pos - old(pos))
        invariant if w == 1024 then pos == old(pos) && uri == s
                  else AnchorsAndTags.Trailers(buffer, pos, uri, w) == AnchorsAndTags.UriEscape(buffer, old(pos), s)
      {
        if !AnchorsAndTags.OctetAt(buffer, pos) {
          return AnchorsAndTags.UriFail(AnchorsAndTags.ExpectedOctet);
        }
        var octet := AnchorsAndTags.Octet(buffer, pos);
        if w == 1024 {
          w := Utf8.Width(octet);
          if w == 0 {
            return AnchorsAndTags.UriFail(AnchorsAndTags.IncorrectLeading);
          }
        } else if octet / 0x40 != 2 {
          return AnchorsAndTags.UriFail(AnchorsAndTags.IncorrectTrailing);
        }
        assert pos + 2 < |buffer| by { assert IsHex(At(buffer, pos + 2)); }
        uri := uri + [octet];
        Skip();
        Skip();
        Skip();
        w := w - 1;
      }
      return AnchorsAndTags.UriDone(uri, pos);
    }

    /** `head`: what has been read as a handle and was none. Its mark is not copied. */
    method ScanTagUri(head: string) returns (r: AnchorsAndTags.UriScan)
      requires pos <= |buffer|
      modifies this`pos, this`column
      ensures r == AnchorsAndTags.Uri(buffer, old(pos), if head == "" then [] else Utf8.EncodeAll(head[1..]), head != "")
      ensures r.UriDone? ==> pos == r.next && column == old(column) + (pos - old(pos))
    {
      var uri := [];
      var hasTag := |head| > 0;
      if |head| > 1 {
        uri := Utf8.EncodeAll(head[1..]);
      }
      ghost var goal := AnchorsAndTags.Uri(buffer, pos, uri, hasTag);
      while AnchorsAndTags.IsUri(At(buffer, pos))
        invariant old(pos) <= pos <= |buffer| && column == old(column) + (pos - old(pos))
        invariant AnchorsAndTags.Uri(buffer, pos, uri, hasTag) == goal
        decreases |buffer| - pos
      {
        if At(buffer, pos) == '%' {
          var e := ScanUriEscapes(uri);
          if e.UriFail? {
            return e;
          }
          uri := e.uri;
        } else {
          uri := uri + Utf8.Encode(buffer[pos]);
          Skip();
        }
        hasTag := true;
      }
      if !hasTag {
        return AnchorsAndTags.UriFail(AnchorsAndTags.ExpectedUri);
      }
      return AnchorsAndTags.UriDone(uri, pos);
    }

    method ScanTag() returns (r: AnchorsAndTags.TagScan)
      requires pos < |buffer| && At(buffer, pos) == '!'
      modifies this`pos, this`column
      ensures r == AnchorsAndTags.ScanTag(buffer, old(pos))
      ensures r.TagDone? ==> pos == r.next && column == old(column) + (pos - old(pos))
    {
      hide AnchorsAndTags.Uri, AnchorsAndTags.ScanHandle, Utf8.EncodeAll;
      var handle, suffix := "", [];
      if At(buffer, pos + 1) == '<' {
        Skip();
        Skip();
        var u := ScanTagUri("");
        if u.UriFail? {
          return AnchorsAndTags.TagFail(u.error);
        }
        suffix := u.uri;
        if At(buffer, pos) != '>' {
          return AnchorsAndTags.TagFail(AnchorsAndTags.ExpectedClosing);
        }
        Skip();
      } else {
        var h := ScanTagHandle(false);
        if h.HandleFail? {
          return AnchorsAndTags.TagFail(h.error);
        }
        handle := h.handle;
        if |handle| > 1 && handle[|handle| - 1] == '!' {
          var u := ScanTagUri("");
          if u.UriFail? {
            return AnchorsAndTags.TagFail(u.error);
          }
          suffix := u.uri;
        } else {
          var u := ScanTagUri(handle);
          if u.UriFail? {
            return AnchorsAndTags.TagFail(u.error);
          }
          handle, suffix := "!", u.uri;
          if |suffix| == 0 {
            handle, suffix := "", ['!' as int];
          }
        }
      }
      if !IsBlankz(At(buffer, pos)) {
        return AnchorsAndTags.TagFail(AnchorsAndTags.ExpectedBlank);
      }
      return AnchorsAndTags.TagDone(handle, suffix, pos);
    }
  }
}
