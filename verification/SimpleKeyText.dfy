/**
  A node that the emitter writes as a simple key fits the limits under which the scanner
  still takes it for one: a single line and fewer than 1024 characters before the ':'
  (YAML 1.2 section 7.4.2), whatever style and escaping are chosen.
 */
module SimpleKeyText {
  import opened Chars
  import opened ScalarText
  import opened ScalarAnalysis
  import opened StyleSelection
  import BlockMachine
  import Utf8

  /** The emitter does not consider longer nodes, counted in bytes. */
  const MAX_KEY_BYTES := 128

  datatype KeyNode =
    | AliasKey(anchor: string)
    | ScalarKey(anchor: string, handle: string, suffix: string, value: string, request: Request)
    | EmptySequenceKey(anchor: string, handle: string, suffix: string)
    | EmptyMappingKey(anchor: string, handle: string, suffix: string)

  function Bytes(s: string): nat { |Utf8.EncodeAll(s)| }

  /** `yaml_emitter_check_simple_key`, for the nodes it may accept. */
  predicate CheckSimpleKey(n: KeyNode) {
    match n
    case AliasKey(anchor) => Bytes(anchor) <= MAX_KEY_BYTES
    case ScalarKey(anchor, handle, suffix, value, _) =>
      !HasBreak(value) && Bytes(anchor) + Bytes(handle) + Bytes(suffix) + Bytes(value) <= MAX_KEY_BYTES
    case EmptySequenceKey(anchor, handle, suffix) => Bytes(anchor) + Bytes(handle) + Bytes(suffix) <= MAX_KEY_BYTES
    case EmptyMappingKey(anchor, handle, suffix) => Bytes(anchor) + Bytes(handle) + Bytes(suffix) <= MAX_KEY_BYTES
  }

  /** Anchors are checked to consist of such characters, and tag handles too. */
  predicate AllPlainAscii(s: string) {
    forall i :: 0 <= i < |s| ==> IsAlpha(s[i]) || s[i] == '!'
  }

  predicate WellFormedKey(n: KeyNode) {
    && AllPlainAscii(n.anchor)
    && (n.ScalarKey? || n.EmptySequenceKey? || n.EmptyMappingKey? ==> AllPlainAscii(n.handle))
    && (n.ScalarKey? ==> n.request.simpleKey)
  }

  // ----- what is written -----

  function Then(a: Written, b: Written): Written { Written(a.text + b.text, b.pen) }

  function Raw(s: string, pen: Pen): Written {
    Written(s, PutPen(pen, |s|).(whitespace := false, indention := false))
  }

  function AnchorText(mark: string, anchor: string, pen: Pen): Written {
    if anchor == "" then Written("", pen)
    else
      var w := Indicator(mark, pen, true, false, false);
      Then(w, Raw(anchor, w.pen))
  }

  predicate MustWrite(c: char) { c in ";/?:@&=+$,_.~*'()[]" || IsAlpha(c) }

  function Percent(b: Utf8.byte): string { ['%', HexDigit(b / 16), HexDigit(b % 16)] }

  function PercentAll(b: seq<Utf8.byte>): string {
    if b == [] then "" else Percent(b[0]) + PercentAll(b[1..])
  }

  function TagContent(s: string): string {
    if s == "" then ""
    else (if MustWrite(s[0]) then [s[0]] else PercentAll(Utf8.Encode(s[0]))) + TagContent(s[1..])
  }

  function TagText(handle: string, suffix: string, pen: Pen): Written {
    if handle == "" && suffix == "" then Written("", pen)
    else if handle != "" then
      var lead := if pen.whitespace then "" else " ";
      Raw(lead + handle + TagContent(suffix), pen)
    else
      var w := Indicator("!<", pen, true, false, false);
      Then(Then(w, Raw(TagContent(suffix), w.pen)), Indicator(">", Raw(TagContent(suffix), w.pen).pen, false, false, false))
  }

  function Properties(anchor: string, handle: string, suffix: string, pen: Pen): Written {
    var a := AnchorText("&", anchor, pen);
    Then(a, TagText(handle, suffix, a.pen))
  }

  /** The anchor, the tag and the value of a scalar. Only keys that are not simple may break. */
  function ScalarNodeText(cfg: Settings, anchor: string, handle: string, suffix: string, value: string, r: Request, pen: Pen): Written
    requires 2 <= cfg.bestIndent <= 9 && Select(cfg.unicode, value, r).Chosen?
  {
    var c := Select(cfg.unicode, value, r);
    var p := Properties(anchor, if c.forceTag then "!" else handle, suffix, pen);
    ChosenStyleIsSafe(cfg.unicode, value, r);
    Then(p, WriteScalar(cfg, value, p.pen, c.style, !r.simpleKey))
  }

  /** The text of the whole key node. */
  function KeyText(cfg: Settings, n: KeyNode, pen: Pen): Written
    requires 2 <= cfg.bestIndent <= 9 && WellFormedKey(n)
  {
    match n
    case AliasKey(anchor) => AnchorText("*", anchor, pen)
    case ScalarKey(anchor, handle, suffix, value, request) =>
      if Select(cfg.unicode, value, request).Chosen? then ScalarNodeText(cfg, anchor, handle, suffix, value, request, pen)
      else Written("", pen)
    case EmptySequenceKey(anchor, handle, suffix) => EmptyCollection(anchor, handle, suffix, pen, "[", "]")
    case EmptyMappingKey(anchor, handle, suffix) => EmptyCollection(anchor, handle, suffix, pen, "{", "}")
  }

  function EmptyCollection(anchor: string, handle: string, suffix: string, pen: Pen, open: string, close: string): Written {
    var a := AnchorText("&", anchor, pen);
    var t := TagText(handle, suffix, a.pen);
    var o := Indicator(open, t.pen, true, true, false);
    Then(Then(Then(a, t), o), Indicator(close, o.pen, false, false, false))
  }

  predicate OneLine(s: string) {
    forall i :: 0 <= i < |s| ==> !IsBreak(s[i])
  }

  lemma OneLineConcat(a: string, b: string)
    requires OneLine(a) && OneLine(b)
    ensures OneLine(a + b)
  {}

  // ----- bounds, part by part -----

  lemma {:induction false} CharactersAreBytes(s: string)
    ensures |s| <= Bytes(s)
  {
    if s != "" {
      CharactersAreBytes(s[1..]);
    }
  }

  lemma {:induction false} PercentAllBound(b: seq<Utf8.byte>)
    ensures |PercentAll(b)| == 3 * |b| && OneLine(PercentAll(b))
  {
    if b != [] {
      PercentAllBound(b[1..]);
      OneLineConcat(Percent(b[0]), PercentAll(b[1..]));
    }
  }

  lemma NotEscaped(unicode: bool, value: string, i: nat)
    requires i < |value|
    ensures !NeedsEscape(unicode, value, i) ==> !IsBreak(value[i])
    ensures 1 <= |Utf8.Encode(value[i])|
  {}

  lemma WrittenOnOneLine(c: char)
    requires MustWrite(c)
    ensures !IsBreak(c)
  {}

  lemma {:induction false} TagContentBound(s: string)
    ensures |TagContent(s)| <= 3 * Bytes(s) && OneLine(TagContent(s))
  {
    hide Utf8.Encode, PercentAll, MustWrite;
    if s != "" {
      TagContentBound(s[1..]);
      var head := if MustWrite(s[0]) then [s[0]] else PercentAll(Utf8.Encode(s[0]));
      PercentAllBound(Utf8.Encode(s[0]));
      assert OneLine(head) by {
        if MustWrite(s[0]) {
          WrittenOnOneLine(s[0]);
        }
      }
      assert |head| <= 3 * |Utf8.Encode(s[0])| by { NotEscaped(true, s, 0); }
      OneLineConcat(head, TagContent(s[1..]));
      assert Utf8.EncodeAll(s) == Utf8.Encode(s[0]) + Utf8.EncodeAll(s[1..]);
    }
  }

  lemma {:induction false} HexTextOneLine(v: nat, w: nat)
    ensures OneLine(HexText(v, w))
  {
    if w > 0 {
      HexTextOneLine(v / 16, w - 1);
      OneLineConcat(HexText(v / 16, w - 1), [HexDigit(v % 16)]);
    }
  }

  /** The worst case is a control character: one byte, four characters. */
  lemma EscapeBound(c: char)
    ensures |EscapeText(c)| <= 4 * |Utf8.Encode(c)| && OneLine(EscapeText(c))
  {
    var v := c as int;
    HexTextOneLine(v, EscapeWidth(v));
    if ShortEscape(c) == "" {
      OneLineConcat([EscapeLetter(v)], HexText(v, EscapeWidth(v)));
      OneLineConcat("\\", [EscapeLetter(v)] + HexText(v, EscapeWidth(v)));
    } else {
      OneLineConcat("\\", ShortEscape(c));
    }
  }

  lemma BytesStep(s: string, i: nat)
    requires i < |s|
    ensures Bytes(s[i..]) == |Utf8.Encode(s[i])| + Bytes(s[i + 1..])
  {
    assert s[i..][1..] == s[i + 1..];
  }

  lemma {:induction false} DqBound(cfg: Settings, value: string, i: nat, pen: Pen, spaces: bool)
    requires i <= |value|
    ensures var t := Dq(cfg, value, i, pen, spaces, false).text;
      |t| <= 4 * Bytes(value[i..]) && OneLine(t)
    decreases |value| - i
  {
    hide Utf8.EncodeAll, Utf8.Encode, EscapeText, NeedsEscape;
    if i < |value| {
      BytesStep(value, i);
      var escaped := NeedsEscape(cfg.unicode, value, i);
      var chunk := if escaped then EscapeText(value[i]) else [value[i]];
      assert |chunk| <= 4 * |Utf8.Encode(value[i])| && OneLine(chunk) by {
        EscapeBound(value[i]);
        NotEscaped(cfg.unicode, value, i);
      }
      var spaces' := !escaped && IsSpace(value[i]);
      DqBound(cfg, value, i + 1, PutPen(pen, |chunk|), spaces');
      OneLineConcat(chunk, Dq(cfg, value, i + 1, PutPen(pen, |chunk|), spaces', false).text);
    }
  }

  lemma {:induction false} SqBound(cfg: Settings, value: string, i: nat, pen: Pen, spaces: bool)
    requires i <= |value| && !HasBreak(value)
    ensures var t := Sq(cfg, value, i, pen, spaces, false, false).text;
      |t| <= 2 * Bytes(value[i..]) && OneLine(t)
    decreases |value| - i
  {
    hide Utf8.EncodeAll, Utf8.Encode, Sq;
    if i == |value| {
      SqAtEnd(cfg, value, pen, spaces, false, false);
    } else {
      BytesStep(value, i);
      assert 1 <= |Utf8.Encode(value[i])| by { NotEscaped(true, value, i); }
      assert !BreakAt(value, i);
      if IsSpace(value[i]) {
        SqAtSpace(cfg, value, i, pen, spaces, false, false);
        SqBound(cfg, value, i + 1, PutPen(pen, 1), true);
        OneLineConcat(" ", Sq(cfg, value, i + 1, PutPen(pen, 1), true, false, false).text);
      } else {
        SqAtWord(cfg, value, i, pen, spaces, false, false);
        var pen' := PutPen(pen, |QuotedChar(value[i])|).(indention := false);
        SqBound(cfg, value, i + 1, pen', false);
        assert "" + QuotedChar(value[i]) == QuotedChar(value[i]);
        OneLineConcat(QuotedChar(value[i]), Sq(cfg, value, i + 1, pen', false, false, false).text);
      }
    }
  }

  lemma {:induction false} PlBound(cfg: Settings, value: string, i: nat, pen: Pen, spaces: bool)
    requires i <= |value| && !HasBreak(value)
    ensures var t := Pl(cfg, value, i, pen, spaces, false, false).text;
      |t| <= Bytes(value[i..]) && OneLine(t)
    decreases |value| - i
  {
    if i < |value| {
      BytesStep(value, i);
      assert !BreakAt(value, i);
      if IsSpace(value[i]) {
        PlBound(cfg, value, i + 1, PutPen(pen, 1), true);
        OneLineConcat(" ", Pl(cfg, value, i + 1, PutPen(pen, 1), true, false, false).text);
      } else {
        var pen' := PutPen(pen, 1).(indention := false);
        PlBound(cfg, value, i + 1, pen', false);
        assert "" + [value[i]] == [value[i]];
        OneLineConcat([value[i]], Pl(cfg, value, i + 1, pen', false, false, false).text);
      }
    }
  }

  lemma PlainPartBound(cfg: Settings, value: string, pen: Pen)
    requires !HasBreak(value)
    ensures var t := Plain(cfg, value, pen, false).text;
      |t| <= 4 * Bytes(value) + 3 && OneLine(t)
  {
    hide Pl, HasBreak;
    assert value[0..] == value;
    var lead := if value != "" && !pen.whitespace then " " else "";
    PlBound(cfg, value, 0, PutPen(pen, |lead|), false);
    OneLineConcat(lead, Pl(cfg, value, 0, PutPen(pen, |lead|), false, false, false).text);
  }

  /** An indicator around a body that does not fold. */
  lemma QuotedPartBound(mark: string, body: string, pen: Pen, inner: Pen)
    requires |mark| == 1 && OneLine(mark) && OneLine(body)
    ensures var t := Indicator(mark, pen, true, false, false).text + body + Indicator(mark, inner, false, false, false).text;
      |t| <= |body| + 3 && OneLine(t)
  {
    var open := Indicator(mark, pen, true, false, false).text;
    OneLineConcat(open, body);
    OneLineConcat(open + body, mark);
    assert "" + mark == mark;
  }

  lemma SinglePartBound(cfg: Settings, value: string, pen: Pen)
    requires !HasBreak(value)
    ensures var t := SingleQuoted(cfg, value, pen, false).text;
      |t| <= 4 * Bytes(value) + 3 && OneLine(t)
  {
    hide Sq, HasBreak;
    assert value[0..] == value;
    var open := Indicator("'", pen, true, false, false);
    var body := Sq(cfg, value, 0, open.pen, false, false, false);
    SqBound(cfg, value, 0, open.pen, false);
    QuotedPartBound("'", body.text, pen, body.pen);
  }

  lemma DoublePartBound(cfg: Settings, value: string, pen: Pen)
    ensures var t := DoubleQuoted(cfg, value, pen, false).text;
      |t| <= 4 * Bytes(value) + 3 && OneLine(t)
  {
    hide Dq;
    assert value[0..] == value;
    var open := Indicator("\"", pen, true, false, false);
    var body := Dq(cfg, value, 0, open.pen, false, false);
    DqBound(cfg, value, 0, open.pen, false);
    QuotedPartBound("\"", body.text, pen, body.pen);
  }

  lemma ScalarPartBound(cfg: Settings, value: string, pen: Pen, style: Style)
    requires 2 <= cfg.bestIndent <= 9 && !HasBreak(value) && !style.LiteralStyle? && !style.FoldedStyle?
    ensures var t := WriteScalar(cfg, value, pen, style, false).text;
      |t| <= 4 * Bytes(value) + 3 && OneLine(t)
  {
    hide Plain, SingleQuoted, DoubleQuoted, HasBreak;
    PlainPartBound(cfg, value, pen);
    SinglePartBound(cfg, value, pen);
    DoublePartBound(cfg, value, pen);
  }

  lemma AnchorBound(mark: string, anchor: string, pen: Pen)
    requires AllPlainAscii(anchor) && |mark| == 1 && OneLine(mark)
    ensures var t := AnchorText(mark, anchor, pen).text;
      |t| <= Bytes(anchor) + 2 && OneLine(t)
  {
    CharactersAreBytes(anchor);
    var lead := if pen.whitespace then "" else " ";
    OneLineConcat(lead, mark);
    OneLineConcat(lead + mark, anchor);
  }

  lemma TagBound(handle: string, suffix: string, pen: Pen)
    requires AllPlainAscii(handle)
    ensures var t := TagText(handle, suffix, pen).text;
      |t| <= Bytes(handle) + 3 * Bytes(suffix) + 4 && OneLine(t)
  {
    CharactersAreBytes(handle);
    TagContentBound(suffix);
    var lead := if pen.whitespace then "" else " ";
    OneLineConcat(lead, handle);
    OneLineConcat(lead + handle, TagContent(suffix));
    OneLineConcat(lead, "!<");
    OneLineConcat(lead + "!<", TagContent(suffix));
    OneLineConcat("", ">");
    OneLineConcat(lead + "!<" + TagContent(suffix), "" + ">");
  }

  lemma EmptyCollectionBound(anchor: string, handle: string, suffix: string, pen: Pen, open: string, close: string)
    requires AllPlainAscii(anchor) && AllPlainAscii(handle)
    requires |open| == 1 && |close| == 1 && OneLine(open) && OneLine(close)
    ensures var t := EmptyCollection(anchor, handle, suffix, pen, open, close).text;
      |t| <= Bytes(anchor) + Bytes(handle) + 3 * Bytes(suffix) + 9 && OneLine(t)
  {
    hide AnchorText, TagText;
    var a := AnchorText("&", anchor, pen);
    var t := TagText(handle, suffix, a.pen);
    var o := Indicator(open, t.pen, true, true, false);
    AnchorBound("&", anchor, pen);
    TagBound(handle, suffix, a.pen);
    OneLineConcat(a.text, t.text);
    OneLineConcat(if t.pen.whitespace then "" else " ", open);
    OneLineConcat(a.text + t.text, o.text);
    OneLineConcat("", close);
    OneLineConcat(a.text + t.text + o.text, "" + close);
  }

  lemma ScalarKeyBound(cfg: Settings, n: KeyNode, pen: Pen)
    requires 2 <= cfg.bestIndent <= 9 && n.ScalarKey? && WellFormedKey(n) && !HasBreak(n.value)
    ensures var t := KeyText(cfg, n, pen).text;
      |t| <= Bytes(n.anchor) + Bytes(n.handle) + 3 * Bytes(n.suffix) + 4 * Bytes(n.value) + 10 && OneLine(t)
  {
    hide AnchorText, TagText, WriteScalar, Select, HasBreak;
    var c := Select(cfg.unicode, n.value, n.request);
    if c.Chosen? {
      var handle := if c.forceTag then "!" else n.handle;
      var a := AnchorText("&", n.anchor, pen);
      var t := TagText(handle, n.suffix, a.pen);
      ChosenStyleIsSafe(cfg.unicode, n.value, n.request);
      var s := WriteScalar(cfg, n.value, t.pen, c.style, false);
      AnchorBound("&", n.anchor, pen);
      assert Bytes("!") == 1;
      TagBound(handle, n.suffix, a.pen);
      ScalarPartBound(cfg, n.value, t.pen, c.style);
      OneLineConcat(a.text, t.text);
      OneLineConcat(a.text + t.text, s.text);
    }
  }

  /** What the emitter treats as a simple key is written on one line, in fewer characters
      than the scanner's limit, so the key is still valid when its ':' is reached. */
  lemma SimpleKeyFits(cfg: Settings, n: KeyNode, pen: Pen, key: BlockMachine.SimpleKey)
    requires 2 <= cfg.bestIndent <= 9 && WellFormedKey(n) && CheckSimpleKey(n)
    ensures var text := KeyText(cfg, n, pen).text;
      && OneLine(text) && |text| < BlockMachine.MAX_KEY_LENGTH
      && !BlockMachine.Expired(key, key.mark.(index := key.mark.index + |text|, column := key.mark.column + |text|))
  {
    hide HasBreak, AnchorText, EmptyCollection;
    match n {
      case AliasKey(anchor) => AnchorBound("*", anchor, pen);
      case ScalarKey(_, _, _, _, _) => ScalarKeyBound(cfg, n, pen);
      case EmptySequenceKey(anchor, handle, suffix) => EmptyCollectionBound(anchor, handle, suffix, pen, "[", "]");
      case EmptyMappingKey(anchor, handle, suffix) => EmptyCollectionBound(anchor, handle, suffix, pen, "{", "}");
    }
  }
}
