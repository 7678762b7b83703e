/**
  How far the literal style can be trusted. The header line has no break of its own in front
  of a value that begins with one, and the indentation hint is the best indent, whatever the
  indentation is. So the round trip holds for exactly the values that do not begin with a
  break and, if they begin with a space, stand where the hint is true.
 */
module LiteralLimits {
  import opened Basics
  import opened Chars
  import opened ScalarText
  import opened ScalarAnalysis
  import opened FlowScalar
  import opened BlockScalar
  import opened LiteralRoundTrip

  // ----- what has been read stays -----

  lemma {:induction false} LineKeeps(k: Block, p: nat, column: nat, indent: int, s: string, blank: bool, end: nat)
    requires end <= p <= |k.buf|
    ensures var r := Line(k, p, column, indent, s, blank, end); r.BlockDone? ==> s <= r.value
    decreases |k.buf| - p, if IsZ(At(k.buf, p)) then 2 else if IsBreak(At(k.buf, p)) then 1 else 0
  {
    hide Breaks;
    var c := At(k.buf, p);
    if IsBreak(c) {
      BreaksKeep(k, p + BreakLen(k.buf, p), 0, indent, s, BreakText(c), "", 0, blank, p);
    } else if IsZ(c) {
      BreaksKeep(k, p, column, indent, s, "", "", 0, blank, p);
    } else {
      LineKeeps(k, p + 1, column + 1, indent, s + [c], blank, end);
    }
  }

  lemma {:induction false} BreaksKeep(k: Block, p: nat, column: nat, indent: int, s: string, first: string, trail: string,
                                      deepest: nat, blank: bool, end: nat)
    requires end <= p <= |k.buf|
    ensures var r := Breaks(k, p, column, indent, s, first, trail, deepest, blank, end); r.BlockDone? ==> s <= r.value
    decreases |k.buf| - p, if IsZ(At(k.buf, p)) then 1 else if IsBreak(At(k.buf, p)) then 0 else 2
  {
    hide Head;
    var c := At(k.buf, p);
    var m: nat := if column > deepest then column else deepest;
    if (indent == 0 || column < indent) && IsSpace(c) {
      BreaksKeep(k, p + 1, column + 1, indent, s, first, trail, deepest, blank, end);
    } else if IsBreak(c) {
      var q := p + BreakLen(k.buf, p);
      BreaksKeep(k, q, 0, indent, s, first, trail + BreakText(c), m, blank, if s == "" then q else end);
    } else {
      HeadKeeps(k, p, column, if indent == 0 then Max(Max(m, k.level + 1), 1) else indent, s, first, trail, blank, end);
    }
  }

  lemma {:induction false} HeadKeeps(k: Block, p: nat, column: nat, indent: int, s: string, first: string, trail: string,
                                     blank: bool, end: nat)
    requires end <= p <= |k.buf|
    ensures var r := Head(k, p, column, indent, s, first, trail, blank, end); r.BlockDone? ==> s <= r.value
    decreases |k.buf| - p, if IsZ(At(k.buf, p)) then 0 else if IsBreak(At(k.buf, p)) then 2 else 1
  {
    hide Line;
    var c := At(k.buf, p);
    if column == indent && !IsZ(c) {
      var joined :=
        if !k.literal && !blank && !IsBlank(c) && first != "" && first[0] == '\n' then
          if trail == "" then " " else ""
        else first;
      LineKeeps(k, p, column, indent, s + joined + trail, IsBlank(c), end);
    }
  }

  // ----- the first line, at a margin that may not be its own -----

  lemma LineStep(k: Block, p: nat, column: nat, indent: int, s: string, blank: bool, end: nat, c: char, rest: string)
    requires end <= p <= |k.buf| && k.buf[p..] == [c] + rest && !IsBreak(c) && !IsZ(c)
    ensures p + 1 <= |k.buf| && k.buf[p + 1..] == rest
    ensures Line(k, p, column, indent, s, blank, end) == Line(k, p + 1, column + 1, indent, s + [c], blank, end)
  {
    Advance(k.buf, p, [c], rest);
    assert At(k.buf, p + 0) == c;
  }

  lemma {:induction false} LineReadsSpaces(k: Block, p: nat, column: nat, indent: int, s: string, blank: bool, end: nat,
                                           n: nat, c: char, rest: string)
    requires end <= p <= |k.buf| && k.buf[p..] == Spaces(n) + ([c] + rest) && !IsBreak(c) && !IsZ(c)
    ensures var r := Line(k, p, column, indent, s, blank, end); r.BlockDone? ==> s + (Spaces(n) + [c]) <= r.value
    decreases n
  {
    hide Line;
    SpacesStep(n, [c] + rest);
    SpacesStep(n, [c]);
    if n == 0 {
      LineStep(k, p, column, indent, s, blank, end, c, rest);
      LineKeeps(k, p + 1, column + 1, indent, s + [c], blank, end);
    } else {
      LineStep(k, p, column, indent, s, blank, end, ' ', Spaces(n - 1) + ([c] + rest));
      Assoc(s, " ", Spaces(n - 1) + [c]);
      LineReadsSpaces(k, p + 1, column + 1, indent, s + " ", blank, end, n - 1, c, rest);
    }
  }

  /** A line that is not deep enough ends the scalar. */
  lemma ShallowLine(k: Block, p: nat, indent: nat, n: nat, c: char, rest: string)
    requires p <= |k.buf| && n < indent && k.buf[p..] == Spaces(n) + ([c] + rest)
    requires !IsSpace(c) && !IsBreak(c) && !IsZ(c)
    ensures var r := Breaks(k, p, 0, indent, "", "", "", 0, false, p); r.BlockDone? ==> r.value == ""
  {
    hide Line;
    SkipIndent(k, p, 0, indent, "", "", "", 0, false, p, n, [c] + rest);
    Advance(k.buf, p + n, [c], rest);
    assert At(k.buf, p + n + 0) == c;
  }

  /** What is deeper than the margin counts as content. */
  lemma DeepLine(k: Block, p: nat, indent: nat, n: nat, c: char, rest: string)
    requires p <= |k.buf| && 0 < indent <= n && k.buf[p..] == Spaces(n) + ([c] + rest)
    requires !IsSpace(c) && !IsBreak(c) && !IsZ(c)
    ensures var r := Breaks(k, p, 0, indent, "", "", "", 0, false, p); r.BlockDone? ==> Spaces(n - indent) + [c] <= r.value
  {
    hide Line, Breaks, Spaces, IsBreak, IsZ, IsSpace, IsBlank;
    var x := Spaces(n - indent) + ([c] + rest);
    JoinSpaces(indent, n - indent);
    Assoc(Spaces(indent), Spaces(n - indent), [c] + rest);
    SkipIndent(k, p, 0, indent, "", "", "", 0, false, p, indent, x);
    var q := p + indent;
    FirstOf(k.buf, q, n - indent, c, rest);
    ContentAtMargin(k, q, indent, p);
    LineReadsSpaces(k, q, indent, indent, "", IsBlank(At(k.buf, q)), p, n - indent, c, rest);
    assert "" + (Spaces(n - indent) + [c]) == Spaces(n - indent) + [c];
  }

  lemma FirstOf(buf: string, q: nat, n: nat, c: char, rest: string)
    requires q <= |buf| && buf[q..] == Spaces(n) + ([c] + rest) && !IsBreak(c) && !IsZ(c)
    ensures !IsBreak(At(buf, q)) && !IsZ(At(buf, q))
  {
    SpacesStep(n, [c] + rest);
    assert At(buf, q) == At(buf[q..], 0);
  }

  lemma JoinSpaces(m: nat, n: nat)
    ensures Spaces(m) + Spaces(n) == Spaces(m + n)
  {}

  lemma ContentAtMargin(k: Block, q: nat, indent: nat, end: nat)
    requires end <= q <= |k.buf| && indent > 0 && !IsBreak(At(k.buf, q)) && !IsZ(At(k.buf, q))
    ensures Breaks(k, q, indent, indent, "", "", "", 0, false, end) == Line(k, q, indent, indent, "", IsBlank(At(k.buf, q)), end)
  {
    hide Line;
    assert Breaks(k, q, indent, indent, "", "", "", 0, false, end) == Head(k, q, indent, indent, "", "", "", false, end);
    assert "" + "" + "" == "";
  }

  function LeadingSpaces(s: string): (n: nat)
    ensures n <= |s| && s[..n] == Spaces(n) && (n < |s| ==> !IsSpace(s[n]))
  {
    if s != "" && IsSpace(s[0]) then
      assert s == [s[0]] + s[1..];
      SpacesStep(1 + LeadingSpaces(s[1..]), "");
      1 + LeadingSpaces(s[1..])
    else 0
  }

  lemma LitStep(cfg: Settings, value: string, i: nat, pen: Pen)
    requires i < |value| && !IsBreak(value[i])
    ensures Lit(cfg, value, i, pen, false).text
         == [value[i]] + Lit(cfg, value, i + 1, PutPen(pen, 1).(indention := false), false).text
  {
    assert "" + [value[i]] == [value[i]];
  }

  /** Inside a line the value is copied. */
  lemma {:induction false} LitCopies(cfg: Settings, value: string, i: nat, j: nat, pen: Pen) returns (last: Pen)
    requires i <= j <= |value| && forall l :: i <= l < j ==> !IsBreak(value[l])
    ensures Lit(cfg, value, i, pen, false).text == value[i..j] + Lit(cfg, value, j, last, false).text
    decreases j - i
  {
    hide Lit;
    if i == j {
      last := pen;
    } else {
      LitStep(cfg, value, i, pen);
      last := LitCopies(cfg, value, i + 1, j, PutPen(pen, 1).(indention := false));
      assert value[i..j] == [value[i]] + value[i + 1..j];
      Assoc([value[i]], value[i + 1..j], Lit(cfg, value, j, last, false).text);
    }
  }

  lemma Regroup(m: nat, n: nat, a: string, b: string, c: string, x: string, y: string)
    requires a + b == Spaces(n) + c
    ensures Spaces(m) + (a + ((b + x) + y)) == Spaces(m + n) + (c + (x + y))
  {
    Assoc(b, x, y);
    Assoc(a, b, x + y);
    Assoc(Spaces(n), c, x + y);
    Assoc(Spaces(m), Spaces(n), c + (x + y));
    JoinSpaces(m, n);
  }

  /** The first line of a value that begins with spaces: margin, spaces and a character. */
  lemma SpacedLine(cfg: Settings, value: string, pen: Pen, rest: string) returns (tail: string)
    requires BlockAllowed(cfg.unicode, value) && IsSpace(value[0]) && cfg.indent >= 1
    ensures var n := LeadingSpaces(value);
      && n < |value| && !IsBreak(value[n]) && !IsZ(value[n])
      && Spaces(cfg.indent) + ([value[0]] + (Lit(cfg, value, 1, pen, false).text + rest))
         == Spaces(cfg.indent + n) + ([value[n]] + tail)
  {
    hide Lit, LeadingSpaces, HasSpecial;
    var n := LeadingSpaces(value);
    BehindSpaces(cfg, value);
    LitNeighbours(cfg.unicode, value, n);
    var last := LitCopies(cfg, value, 1, n + 1, pen);
    var body := Lit(cfg, value, n + 1, last, false).text;
    tail := body + rest;
    assert [value[0]] + value[1..n + 1] == value[..n] + [value[n]];
    Regroup(cfg.indent, n, [value[0]], value[1..n + 1], [value[n]], body, rest);
  }

  lemma BehindSpaces(cfg: Settings, value: string)
    requires BlockAllowed(cfg.unicode, value) && IsSpace(value[0])
    ensures var n := LeadingSpaces(value); 0 < n < |value| && forall l :: 0 <= l <= n ==> !IsBreak(value[l])
  {
    hide HasSpecial, LeadingSpaces;
    var n := LeadingSpaces(value);
    forall l | 0 <= l < n ensures !IsBreak(value[l]) && IsSpace(value[l]) {
      assert value[l] == value[..n][l] == ' ';
    }
    assert !SpaceBreakAt(value, n);
  }

  /** Read at any other margin, a value that begins with a space comes out different. */
  lemma OtherMarginDiffers(cfg: Settings, value: string, k: Block, p: nat, indent: nat, pen: Pen, rest: string)
    requires BlockAllowed(cfg.unicode, value) && IsSpace(value[0]) && cfg.indent >= 1
    requires 0 < indent != cfg.indent && p <= |k.buf|
    requires k.buf[p..] == Spaces(cfg.indent) + ([value[0]] + (Lit(cfg, value, 1, pen, false).text + rest))
    ensures !BlockReads(Breaks(k, p, 0, indent, "", "", "", 0, false, p), value)
  {
    hide BlockAllowed, Breaks, Lit;
    var tail := SpacedLine(cfg, value, pen, rest);
    var n := LeadingSpaces(value);
    if cfg.indent + n < indent {
      ShallowLine(k, p, indent, cfg.indent + n, value[n], tail);
    } else {
      DeepLine(k, p, indent, cfg.indent + n, value[n], tail);
    }
    var r := Breaks(k, p, 0, indent, "", "", "", 0, false, p);
    if r.BlockDone? && r.value != "" {
      SpacesThen(r.value, cfg.indent + n - indent, value[n]);
    }
  }

  lemma {:induction false} SpacesThen(s: string, m: nat, c: char)
    requires Spaces(m) + [c] <= s && !IsSpace(c)
    ensures LeadingSpaces(s) == m
    decreases m
  {
    SpacesStep(m, [c]);
    assert s[0] == (Spaces(m) + [c])[0];
    if m > 0 {
      assert Spaces(m) + [c] == " " + (Spaces(m - 1) + [c]);
      assert (Spaces(m) + [c])[1..] == Spaces(m - 1) + [c];
      SpacesThen(s[1..], m - 1, c);
    }
  }

  // ----- a break at the beginning -----

  /** Spaces, and then something that is not a line break. */
  predicate BeginsLine(t: string) {
    if t != "" && IsSpace(t[0]) then BeginsLine(t[1..]) else !IsBreak(At(t, 0))
  }

  lemma {:induction false} IndentedBegins(n: nat, t: string)
    requires BeginsLine(t)
    ensures BeginsLine(Spaces(n) + t)
  {
    SpacesStep(n, t);
    if n > 0 {
      IndentedBegins(n - 1, t);
      assert (" " + (Spaces(n - 1) + t))[1..] == Spaces(n - 1) + t;
    }
  }

  lemma DedentBegins(margin: int, rest: string)
    requires rest == "" || Dedent(margin, rest)
    ensures BeginsLine(rest)
  {
    if rest != "" {
      var n: nat, x: string :| n < margin && rest == Spaces(n) + x && !IsBlank(At(x, 0)) && !IsBreak(At(x, 0));
      IndentedBegins(n, x);
    }
  }

  /** No value has a break behind a space, so a line that begins does not end at once. */
  lemma {:induction false} LitBegins(cfg: Settings, value: string, i: nat, pen: Pen, rest: string)
    requires BlockAllowed(cfg.unicode, value) && i < |value| && !IsBreak(value[i])
    ensures BeginsLine(Lit(cfg, value, i, pen, false).text + rest)
    decreases |value| - i
  {
    hide HasSpecial, HasSpaceBreak, Lit;
    var next := PutPen(pen, 1).(indention := false);
    var tail := Lit(cfg, value, i + 1, next, false).text + rest;
    LitStep(cfg, value, i, pen);
    Assoc([value[i]], Lit(cfg, value, i + 1, next, false).text, rest);
    if IsSpace(value[i]) {
      NoBreakBehind(cfg, value, i);
      LitBegins(cfg, value, i + 1, next, rest);
      assert ([value[i]] + tail)[1..] == tail;
    }
  }

  lemma NoBreakBehind(cfg: Settings, value: string, i: nat)
    requires BlockAllowed(cfg.unicode, value) && i < |value| && IsSpace(value[i])
    ensures i + 1 < |value| && !IsBreak(value[i + 1])
  {
    assert !SpaceBreakAt(value, i + 1);
  }

  /** Behind nothing but breaks: the value that is read has at most these breaks in front of
      a character that is none. */
  lemma {:induction false} BreaksThenLine(k: Block, p: nat, column: nat, indent: nat, trail: string, deepest: nat, end: nat)
    requires end <= p <= |k.buf| && column <= indent && indent > 0 && BeginsLine(k.buf[p..])
    ensures var r := Breaks(k, p, column, indent, "", "", trail, deepest, false, end);
      r.BlockDone? ==> r.value == "" || r.value == trail || (trail < r.value && !IsBreak(r.value[|trail|]))
    decreases |k.buf| - p
  {
    hide Line;
    var c := At(k.buf, p);
    assert c == At(k.buf[p..], 0);
    if column < indent && IsSpace(c) {
      assert k.buf[p..][1..] == k.buf[p + 1..];
      BreaksThenLine(k, p + 1, column + 1, indent, trail, deepest, end);
    } else if column == indent && !IsZ(c) {
      assert "" + "" + trail == trail;
      LineCopies(k, p, column, indent, trail, IsBlank(c), end);
    } else {
      assert "" + "" + trail == trail && "" + "" + "" == "";
    }
  }

  lemma LineCopies(k: Block, p: nat, column: nat, indent: int, s: string, blank: bool, end: nat)
    requires end <= p <= |k.buf| && !IsBreak(At(k.buf, p)) && !IsZ(At(k.buf, p))
    ensures var r := Line(k, p, column, indent, s, blank, end); r.BlockDone? ==> s + [At(k.buf, p)] <= r.value
  {
    LineKeeps(k, p + 1, column + 1, indent, s + [At(k.buf, p)], blank, end);
  }

  /** The text at a line's beginning inside a value, or behind it. */
  lemma LineAhead(cfg: Settings, value: string, i: nat, pen: Pen, rest: string)
    requires BlockAllowed(cfg.unicode, value) && LiteralFollows(cfg, value, rest) && cfg.indent >= 1
    requires 0 < i <= |value| && IsBreak(value[i - 1]) && (i < |value| ==> !IsBreak(value[i]))
    requires pen.column == 0 && pen.indention && pen.footIndent == -1
    ensures BeginsLine(Lit(cfg, value, i, pen, true).text + rest)
  {
    hide BlockAllowed, Dedent, Lit, Indent;
    if i == |value| {
      NothingLeft(cfg, value, pen, rest);
      DedentBegins(cfg.indent, rest);
    } else {
      var margin := Indent(cfg, pen).pen;
      var line := Lit(cfg, value, i, margin, false).text;
      LitBegins(cfg, value, i, margin, rest);
      IndentedBegins(cfg.indent, line + rest);
      MarginFirst(cfg, value, i, pen);
      Assoc(Spaces(cfg.indent), line, rest);
    }
  }

  lemma NothingLeft(cfg: Settings, value: string, pen: Pen, rest: string)
    ensures Lit(cfg, value, |value|, pen, true).text + rest == rest
  {}

  lemma MarginFirst(cfg: Settings, value: string, i: nat, pen: Pen)
    requires i < |value| && !IsBreak(value[i])
    requires cfg.indent >= 1 && pen.column == 0 && pen.indention && pen.footIndent == -1
    ensures Lit(cfg, value, i, pen, true).text == Spaces(cfg.indent) + Lit(cfg, value, i, Indent(cfg, pen).pen, false).text
  {
    hide Indent;
    MarginOnly(cfg, pen);
    var margin := Indent(cfg, pen).pen;
    LitStep(cfg, value, i, margin);
    Assoc(Spaces(cfg.indent), [value[i]], Lit(cfg, value, i + 1, PutPen(margin, 1).(indention := false), false).text);
  }

  ghost predicate BehindBreaks(cfg: Settings, value: string, k: Block, p: nat, i: nat, pen: Pen, trail: string, rest: string) {
    && p <= |k.buf| && 0 < i <= |value| && |trail| == i - 1
    && (forall j :: 0 <= j < i ==> IsBreak(value[j]))
    && BlockAllowed(cfg.unicode, value) && LiteralFollows(cfg, value, rest) && cfg.indent >= 1
    && pen.column == 0 && pen.indention && pen.footIndent == -1
    && k.buf[p..] == Lit(cfg, value, i, pen, true).text + rest
  }

  /** The first i breaks of the value are i - 1 breaks for the scanner, and so they stay. */
  lemma {:induction false} OneBreakShort(cfg: Settings, value: string, k: Block, p: nat, i: nat, indent: nat, pen: Pen,
                                         trail: string, deepest: nat, end: nat, rest: string)
    requires BehindBreaks(cfg, value, k, p, i, pen, trail, rest) && end <= p && indent > 0
    ensures !BlockReads(Breaks(k, p, 0, indent, "", "", trail, deepest, false, end), value)
    decreases |value| - i
  {
    hide BlockAllowed, LiteralFollows, Breaks;
    if i < |value| && IsBreak(value[i]) {
      var c := value[i];
      var run := BreakRun(cfg, c, true);
      var tail := Lit(cfg, value, i + 1, BreakPen(pen), true).text + rest;
      LitNeighbours(cfg.unicode, value, i);
      assert k.buf[p..] == run + tail;
      LitHead(cfg, value, i + 1, BreakPen(pen), rest);
      AfterRun(cfg, k.buf, p, c, tail);
      BreaksAtBreak(k, p, indent, trail, deepest, end);
      OneBreakShort(cfg, value, k, p + |run|, i + 1, indent, BreakPen(pen), trail + [c], deepest, p + |run|, rest);
    } else {
      LineAhead(cfg, value, i, pen, rest);
      BreaksThenLine(k, p, 0, indent, trail, deepest, end);
      assert IsBreak(value[|trail|]);
    }
  }

  lemma BreaksAtBreak(k: Block, p: nat, indent: nat, trail: string, deepest: nat, end: nat)
    requires end <= p <= |k.buf| && indent > 0 && IsBreak(At(k.buf, p))
    ensures var q := p + BreakLen(k.buf, p);
      Breaks(k, p, 0, indent, "", "", trail, deepest, false, end)
        == Breaks(k, q, 0, indent, "", "", trail + BreakText(At(k.buf, p)), deepest, false, q)
  {
    hide Head;
  }

  // ----- exactly the values that come back -----

  lemma BreakFirst(cfg: Settings, value: string, pen: Pen, rest: string)
    requires 2 <= cfg.bestIndent <= 9 && value != "" && IsBreak(value[0])
    ensures OpenPen(cfg, value, pen).footIndent == pen.footIndent
    ensures var open := OpenPen(cfg, value, pen);
      Lit(cfg, value, 0, open, true).text + rest
        == BreakRun(cfg, value[0], true) + (Lit(cfg, value, 1, BreakPen(open), true).text + rest)
  {
    Assoc(BreakRun(cfg, value[0], true), Lit(cfg, value, 1, BreakPen(OpenPen(cfg, value, pen)), true).text, rest);
  }

  /** With a break at the beginning, the header eats that break. */
  lemma LeadingBreakIsLost(level: int, cfg: Settings, value: string, pen: Pen, before: string, column: nat, rest: string)
    requires BlockAllowed(cfg.unicode, value) && LiteralFollows(cfg, value, rest) && IsBreak(value[0])
    requires 2 <= cfg.bestIndent <= 9 && pen.footIndent == -1 && 1 <= cfg.indent
    ensures var lead := if pen.whitespace then "" else " ";
      var buf := before + Literal(cfg, value, pen).text + rest;
      && |before| + |lead| < |buf|
      && !BlockReads(ScanBlockScalar(true, level, buf, |before| + |lead|, column), value)
  {
    hide HasSpecial, HasSpaceBreak, LiteralFollows, Literal, Lit, Hints, OpenPen, BreakRun, ScanBlockScalar, Breaks;
    HeaderBuffer(cfg, value, pen, before, rest);
    var buf := before + Literal(cfg, value, pen).text + rest;
    var p := |before| + if pen.whitespace then 0 else 1;
    var c := value[0];
    var next := BreakPen(OpenPen(cfg, value, pen));
    var tail := Lit(cfg, value, 1, next, true).text + rest;
    BreakFirst(cfg, value, pen, rest);
    LitNeighbours(cfg.unicode, value, 0);
    LitHead(cfg, value, 1, next, rest);
    HeaderReads(level, cfg, value, c, buf, p, column, tail);
    var k := Block(true, level, Chomp(value), buf);
    var b := p + 1 + |Hints(cfg, value)| + |BreakRun(cfg, c, true)|;
    OneBreakShort(cfg, value, k, b, 1, IndentFrom(level, cfg.bestIndent), next, "", 0, b, rest);
  }

  /** With a space at the beginning, the hint may be wrong. */
  lemma WrongHintDiffers(level: int, cfg: Settings, value: string, pen: Pen, before: string, column: nat, rest: string)
    requires BlockAllowed(cfg.unicode, value) && IsSpace(value[0])
    requires 2 <= cfg.bestIndent <= 9 && pen.footIndent == -1 && 1 <= cfg.indent && !HintFits(level, cfg, value)
    ensures var lead := if pen.whitespace then "" else " ";
      var buf := before + Literal(cfg, value, pen).text + rest;
      && |before| + |lead| < |buf|
      && !BlockReads(ScanBlockScalar(true, level, buf, |before| + |lead|, column), value)
  {
    hide BlockAllowed, Literal, Hints, ScanBlockScalar, Breaks, Lit, OpenPen, FirstPen;
    HeaderBuffer(cfg, value, pen, before, rest);
    FirstLineText(cfg, value, pen, rest);
    var buf := before + Literal(cfg, value, pen).text + rest;
    var p := |before| + if pen.whitespace then 0 else 1;
    var first := FirstPen(cfg, value, pen);
    var tail := Spaces(cfg.indent) + ([value[0]] + (Lit(cfg, value, 1, first, false).text + rest));
    HeaderReads(level, cfg, value, '\n', buf, p, column, tail);
    var k := Block(true, level, Chomp(value), buf);
    var b := p + 1 + |Hints(cfg, value)| + |BreakOf(cfg.lineBreak)|;
    OtherMarginDiffers(cfg, value, k, b, IndentFrom(level, cfg.bestIndent), first, rest);
  }

  /** A space and a letter in a sequence item, where the indent is 2 and the best indent 4. */
  lemma WrongHintExample(pen: Pen, column: nat)
    requires pen.footIndent == -1
    ensures var cfg := Settings(2, 4, 80, true, Ln, false);
      var p := if pen.whitespace then 0 else 1;
      var text := Literal(cfg, " x", pen).text;
      BlockAllowed(true, " x") && p < |text| && !BlockReads(ScanBlockScalar(true, 0, text, p, column), " x")
  {
    var cfg := Settings(2, 4, 80, true, Ln, false);
    var text := Literal(cfg, " x", pen).text;
    assert "" + text + "" == text;
    WrongHintDiffers(0, cfg, " x", pen, "", column, "");
  }

  /** For every value that the analysis allows in block style: it is read back if and only if
      it does not begin with a break and, beginning with a space, has a true hint. */
  lemma LiteralReadsIff(level: int, cfg: Settings, value: string, pen: Pen, before: string, column: nat, rest: string)
    requires BlockAllowed(cfg.unicode, value) && LiteralFollows(cfg, value, rest)
    requires 2 <= cfg.bestIndent <= 9 && pen.footIndent == -1
    requires level < cfg.indent && 1 <= cfg.indent
    ensures var lead := if pen.whitespace then "" else " ";
      var buf := before + Literal(cfg, value, pen).text + rest;
      && |before| + |lead| < |buf|
      && (BlockReads(ScanBlockScalar(true, level, buf, |before| + |lead|, column), value)
          <==> !IsBreak(value[0])
               && (IsSpace(value[0]) ==> cfg.indent == if level >= 0 then level + cfg.bestIndent else cfg.bestIndent))
  {
    hide HasSpecial, HasSpaceBreak, LiteralFollows, Literal, ScanBlockScalar;
    if IsBreak(value[0]) {
      LeadingBreakIsLost(level, cfg, value, pen, before, column, rest);
    } else if HintFits(level, cfg, value) {
      LiteralRoundTrip.LiteralRoundTrip(level, cfg, value, pen, before, column, rest);
    } else {
      WrongHintDiffers(level, cfg, value, pen, before, column, rest);
    }
  }

  /** A line feed and a letter, at the end of the input: allowed in block style, and lost. */
  lemma LostLineFeed(level: int, cfg: Settings, pen: Pen, column: nat)
    requires 2 <= cfg.bestIndent <= 9 && pen.footIndent == -1
    requires level < cfg.indent && 1 <= cfg.indent
    ensures BlockAllowed(cfg.unicode, "\nx")
    ensures var p := if pen.whitespace then 0 else 1;
      var text := Literal(cfg, "\nx", pen).text;
      p < |text| && !BlockReads(ScanBlockScalar(true, level, text, p, column), "\nx")
  {
    var text := Literal(cfg, "\nx", pen).text;
    assert "" + text + "" == text;
    LiteralReadsIff(level, cfg, "\nx", pen, "", column, "");
  }
}
