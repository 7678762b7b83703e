/**
  Anchors and tags between the emitter and the scanner: what the scanner makes of them, that
  an anchor comes back, and which tags do when they are written with the directives in force.
 */
module AnchorsAndTags {
  import opened Basics
  import opened Chars
  import opened Utf8
  import opened ScalarText
  import opened SimpleKeyText
  import EmitterMachine
  import Events
  import ParserMachine
  import ParserSafety
  import ParserErrors

  datatype Error =
    | ExpectedAlphanumeric | ExpectedMark | ExpectedUri | ExpectedOctet | IncorrectLeading | IncorrectTrailing
    | ExpectedClosing | ExpectedBlank

  // ----- what the scanner does -----

  /** The first character from p on that may not be part of an anchor or a handle. */
  function AlphaEnd(buf: string, p: nat): (q: nat)
    requires p <= |buf|
    ensures p <= q <= |buf| && (forall k :: p <= k < q ==> IsAlpha(buf[k])) && !IsAlpha(At(buf, q))
    decreases |buf| - p
  {
    if IsAlpha(At(buf, p)) then AlphaEnd(buf, p + 1) else p
  }

  datatype AnchorScan = AnchorDone(name: string, next: nat) | AnchorFail(error: Error)

  predicate EndsAnchor(c: char) { IsBlankz(c) || c in "?:,]}%@`" }

  /** `yaml_parser_scan_anchor`, for anchors and aliases. */
  function ScanAnchor(buf: string, p: nat): AnchorScan
    requires p < |buf|
  {
    var q := AlphaEnd(buf, p + 1);
    if q == p + 1 || !EndsAnchor(At(buf, q)) then AnchorFail(ExpectedAlphanumeric) else AnchorDone(buf[p + 1..q], q)
  }

  datatype HandleScan = HandleDone(handle: string, next: nat) | HandleFail(error: Error)

  /** `yaml_parser_scan_tag_handle`. */
  function ScanHandle(directive: bool, buf: string, p: nat): (h: HandleScan)
    requires p <= |buf|
    ensures h.HandleDone? ==> p < h.next <= |buf| && h.handle == buf[p..h.next]
  {
    if At(buf, p) != '!' then HandleFail(ExpectedMark)
    else
      var q := AlphaEnd(buf, p + 1);
      if At(buf, q) == '!' then HandleDone(buf[p..q + 1], q + 1)
      else if directive && q > p + 1 then HandleFail(ExpectedMark)
      else HandleDone(buf[p..q], q)
  }

  predicate IsUri(c: char) { IsAlpha(c) || c in ";/?:@&=+$,.!~*'()[]%" }

  datatype UriScan = UriDone(uri: seq<byte>, next: nat) | UriFail(error: Error)

  predicate OctetAt(buf: string, p: nat) {
    At(buf, p) == '%' && IsHex(At(buf, p + 1)) && IsHex(At(buf, p + 2))
  }

  function Octet(buf: string, p: nat): byte
    requires OctetAt(buf, p)
  {
    AsHex(At(buf, p + 1)) * 16 + AsHex(At(buf, p + 2))
  }

  /** The w bytes of a character that are still to come. */
  function Trailers(buf: string, p: nat, s: seq<byte>, w: nat): (u: UriScan)
    requires p <= |buf|
    ensures u.UriDone? ==> p <= u.next <= |buf|
    decreases w
  {
    if w == 0 then UriDone(s, p)
    else if !OctetAt(buf, p) then UriFail(ExpectedOctet)
    else if Octet(buf, p) / 0x40 != 2 then UriFail(IncorrectTrailing)
    else Trailers(buf, p + 3, s + [Octet(buf, p)], w - 1)
  }

  /** `yaml_parser_scan_uri_escapes`: the bytes of one character. */
  function UriEscape(buf: string, p: nat, s: seq<byte>): (u: UriScan)
    requires p <= |buf|
    ensures u.UriDone? ==> p < u.next <= |buf|
  {
    if !OctetAt(buf, p) then UriFail(ExpectedOctet)
    else
      var w := Width(Octet(buf, p));
      if w == 0 then UriFail(IncorrectLeading) else Trailers(buf, p + 3, s + [Octet(buf, p)], w - 1)
  }

  /** `yaml_parser_scan_tag_uri`, behind what has been read; `some`: there may be nothing more. */
  function Uri(buf: string, p: nat, s: seq<byte>, some: bool): (u: UriScan)
    requires p <= |buf|
    ensures u.UriDone? ==> p <= u.next <= |buf|
    decreases |buf| - p
  {
    var c := At(buf, p);
    if !IsUri(c) then if some then UriDone(s, p) else UriFail(ExpectedUri)
    else if c == '%' then
      var u := UriEscape(buf, p, s);
      if u.UriFail? then u else Uri(buf, u.next, u.uri, true)
    else Uri(buf, p + 1, s + Encode(c), true)
  }

  datatype TagScan = TagDone(handle: string, suffix: seq<byte>, next: nat) | TagFail(error: Error)

  predicate IsHandle(h: string) { |h| > 1 && h[|h| - 1] == '!' }

  /** The handle and the suffix, before what ends the tag is looked at. */
  function ScanTagParts(buf: string, p: nat): (t: TagScan)
    requires p <= |buf|
    ensures t.TagDone? ==> t.next <= |buf|
  {
    if At(buf, p + 1) == '<' then
      var u := Uri(buf, p + 2, [], false);
      if u.UriFail? then TagFail(u.error)
      else if At(buf, u.next) != '>' then TagFail(ExpectedClosing)
      else TagDone("", u.uri, u.next + 1)
    else
      var h := ScanHandle(false, buf, p);
      if h.HandleFail? then TagFail(h.error)
      else if IsHandle(h.handle) then
        var u := Uri(buf, h.next, [], false);
        if u.UriFail? then TagFail(u.error) else TagDone(h.handle, u.uri, u.next)
      else
        var u := Uri(buf, h.next, EncodeAll(h.handle[1..]), true);
        if u.UriFail? then TagFail(u.error)
        else if u.uri == [] then TagDone("", ['!' as int], u.next)
        else TagDone("!", u.uri, u.next)
  }

  /** `yaml_parser_scan_tag`. */
  function ScanTag(buf: string, p: nat): TagScan
    requires p <= |buf|
  {
    var t := ScanTagParts(buf, p);
    if t.TagFail? then t else if !IsBlankz(At(buf, t.next)) then TagFail(ExpectedBlank) else t
  }

  // ----- anchors come back -----

  lemma AlphaEndIs(buf: string, p: nat, name: string, rest: string)
    requires p <= |buf| && buf[p..] == name + rest && (forall k :: 0 <= k < |name| ==> IsAlpha(name[k])) && !IsAlpha(At(rest, 0))
    ensures p + |name| <= |buf| && buf[p..p + |name|] == name && buf[p + |name|..] == rest && At(buf, p + |name|) == At(rest, 0)
    ensures AlphaEnd(buf, p) == p + |name|
    decreases |name|
  {
    Advance(buf, p, name, rest);
    assert buf[p..p + |name|] == buf[p..][..|name|];
    if name != "" {
      assert At(buf, p + 0) == name[0];
      assert buf[p + 1..] == buf[p..][1..] == name[1..] + rest;
      AlphaEndIs(buf, p + 1, name[1..], rest);
    }
  }

  /** An anchor or an alias that is written is read back, in front of what may follow one. */
  lemma AnchorReads(mark: string, anchor: string, pen: Pen, before: string, rest: string)
    requires |mark| == 1 && anchor != "" && (forall k :: 0 <= k < |anchor| ==> IsAlpha(anchor[k]))
    requires EndsAnchor(At(rest, 0))
    ensures var text := AnchorText(mark, anchor, pen).text;
      var p := |before| + if pen.whitespace then 0 else 1;
      && p < |before + text + rest| && (before + text + rest)[p] == mark[0]
      && ScanAnchor(before + text + rest, p) == AnchorDone(anchor, |before + text|)
  {
    hide AnchorText;
    var lead := if pen.whitespace then "" else " ";
    var text := AnchorText(mark, anchor, pen).text;
    assert text == lead + (mark + anchor) by { AnchorParts(mark, anchor, pen); }
    InPlace(before, lead, text, mark + anchor, rest);
    var buf, p := before + text + rest, |before + lead|;
    assert buf[p + 1..] == buf[p..][1..] == anchor + rest;
    AlphaEndIs(buf, p + 1, anchor, rest);
  }

  lemma AnchorParts(mark: string, anchor: string, pen: Pen)
    requires anchor != ""
    ensures AnchorText(mark, anchor, pen).text == (if pen.whitespace then "" else " ") + (mark + anchor)
  {
    Assoc(if pen.whitespace then "" else " ", mark, anchor);
  }

  // ----- tags come back -----

  lemma DigitReads(d: nat)
    requires d < 16
    ensures IsHex(HexDigit(d)) && AsHex(HexDigit(d)) == d
  {}

  lemma PercentReads(buf: string, p: nat, b: byte, rest: string)
    requires p <= |buf| && buf[p..] == Percent(b) + rest
    ensures p + 3 <= |buf| && buf[p + 3..] == rest && OctetAt(buf, p) && Octet(buf, p) == b
  {
    Advance(buf, p, Percent(b), rest);
    assert At(buf, p + 0) == Percent(b)[0] && At(buf, p + 1) == Percent(b)[1] && At(buf, p + 2) == Percent(b)[2];
    DigitReads(b / 16);
    DigitReads(b % 16);
  }

  lemma {:induction false} TrailersRead(buf: string, p: nat, s: seq<byte>, bs: seq<byte>, rest: string)
    requires p <= |buf| && buf[p..] == PercentAll(bs) + rest && forall k :: 0 <= k < |bs| ==> bs[k] / 0x40 == 2
    ensures Trailers(buf, p, s, |bs|) == UriDone(s + bs, p + |PercentAll(bs)|)
    ensures p + |PercentAll(bs)| <= |buf| && buf[p + |PercentAll(bs)|..] == rest
    decreases |bs|
  {
    hide OctetAt, Octet, Percent;
    if bs == [] {
      assert "" + rest == rest && s + bs == s;
    } else {
      Assoc(Percent(bs[0]), PercentAll(bs[1..]), rest);
      PercentReads(buf, p, bs[0], PercentAll(bs[1..]) + rest);
      assert |Percent(bs[0])| == 3 by { PercentLength(bs[0]); }
      TrailersRead(buf, p + 3, s + [bs[0]], bs[1..], rest);
      assert s + [bs[0]] + bs[1..] == s + bs;
    }
  }

  lemma PercentLength(b: byte)
    ensures |Percent(b)| == 3 && Percent(b)[0] == '%'
  {}

  lemma EncodingShape(c: char)
    ensures Width(Encode(c)[0]) == |Encode(c)| && forall k :: 1 <= k < |Encode(c)| ==> Encode(c)[k] / 0x40 == 2
  {}

  lemma EscapeReads(buf: string, p: nat, s: seq<byte>, c: char, rest: string)
    requires p <= |buf| && buf[p..] == PercentAll(Encode(c)) + rest
    ensures var q := p + |PercentAll(Encode(c))|;
      && q <= |buf| && buf[q..] == rest && UriEscape(buf, p, s) == UriDone(s + Encode(c), q) && At(buf, p) == '%'
  {
    hide OctetAt, Octet, Percent, Width, Encode;
    var e := Encode(c);
    EncodingShape(c);
    Assoc(Percent(e[0]), PercentAll(e[1..]), rest);
    PercentReads(buf, p, e[0], PercentAll(e[1..]) + rest);
    PercentLength(e[0]);
    assert buf[p] == buf[p..][0] == Percent(e[0])[0];
    TrailersRead(buf, p + 3, s + [e[0]], e[1..], rest);
    assert s + [e[0]] + e[1..] == s + e;
  }

  lemma WrittenIsUri(c: char)
    requires MustWrite(c)
    ensures IsUri(c) && c != '%' && c != '!' && c != '<'
  {}

  function TagCharacter(c: char): string { if MustWrite(c) then [c] else PercentAll(Encode(c)) }

  /** One character of a tag's content. */
  lemma CharacterReads(buf: string, p: nat, s: seq<byte>, some: bool, c: char, rest: string)
    requires p <= |buf| && buf[p..] == TagCharacter(c) + rest
    ensures var q := p + |TagCharacter(c)|;
      && p < q <= |buf| && buf[q..] == rest && Uri(buf, p, s, some) == Uri(buf, q, s + Encode(c), true)
  {
    hide UriEscape, PercentAll, Encode, MustWrite;
    if MustWrite(c) {
      WrittenIsUri(c);
      Advance(buf, p, [c], rest);
      assert At(buf, p + 0) == [c][0];
    } else {
      EscapeReads(buf, p, s, c, rest);
    }
  }

  /** The content of a tag is read back byte for byte. */
  lemma {:induction false} UriReads(buf: string, p: nat, s: seq<byte>, some: bool, t: string, rest: string)
    requires p <= |buf| && buf[p..] == TagContent(t) + rest && !IsUri(At(rest, 0)) && (some || t != "")
    ensures Uri(buf, p, s, some) == UriDone(s + EncodeAll(t), p + |TagContent(t)|)
    ensures p + |TagContent(t)| <= |buf| && buf[p + |TagContent(t)|..] == rest
    decreases |t|
  {
    hide Uri, Encode, MustWrite, PercentAll, IsUri;
    if t == "" {
      assert "" + rest == rest && s + [] == s;
      Advance(buf, p, "", rest);
      UriStops(buf, p, s);
    } else {
      assert TagContent(t) == TagCharacter(t[0]) + TagContent(t[1..]);
      Assoc(TagCharacter(t[0]), TagContent(t[1..]), rest);
      CharacterReads(buf, p, s, some, t[0], TagContent(t[1..]) + rest);
      UriReads(buf, p + |TagCharacter(t[0])|, s + Encode(t[0]), true, t[1..], rest);
      Assoc(s, Encode(t[0]), EncodeAll(t[1..]));
    }
  }

  lemma UriStops(buf: string, p: nat, s: seq<byte>)
    requires p <= |buf| && !IsUri(At(buf, p))
    ensures Uri(buf, p, s, true) == UriDone(s, p) && Uri(buf, p, s, false) == UriFail(ExpectedUri)
  {}

  /** Handles as `yaml_emitter_analyze_tag_directive` admits them. */
  predicate ProperHandle(h: string) {
    h != "" && h[0] == '!' && (h == "!" || IsHandle(h)) && forall k :: 1 <= k < |h| - 1 ==> IsAlpha(h[k])
  }

  function AlphaCount(t: string): (n: nat)
    ensures n <= |t| && (forall k :: 0 <= k < n ==> IsAlpha(t[k])) && !IsAlpha(At(t, n))
  {
    if t != "" && IsAlpha(t[0]) then 1 + AlphaCount(t[1..]) else 0
  }

  /** The content of a tag that is no handle: first the characters that could be one. */
  lemma {:induction false} AlphaFirst(t: string, n: nat)
    requires n <= AlphaCount(t)
    ensures TagContent(t) == t[..n] + TagContent(t[n..]) && EncodeAll(t) == EncodeAll(t[..n]) + EncodeAll(t[n..])
    decreases n
  {
    hide MustWrite, PercentAll, Encode;
    if n == 0 {
      assert t[..0] == "" && t[0..] == t && "" + TagContent(t) == TagContent(t) && [] + EncodeAll(t) == EncodeAll(t);
    } else {
      AlphaFirst(t[1..], n - 1);
      assert t[1..][..n - 1] == t[1..n] && t[1..][n - 1..] == t[n..] && t[..n] == [t[0]] + t[1..n];
      assert t[..n][1..] == t[1..n];
      AlphaIsWritten(t[0]);
      Assoc([t[0]], t[1..n], TagContent(t[n..]));
      Assoc(Encode(t[0]), EncodeAll(t[1..n]), EncodeAll(t[n..]));
    }
  }

  lemma AlphaIsWritten(c: char)
    requires IsAlpha(c)
    ensures MustWrite(c)
  {}

  /** What the content of a tag begins with. */
  lemma ContentHead(t: string, rest: string)
    requires !IsAlpha(At(t, 0)) && IsBlankz(At(rest, 0))
    ensures var c := At(TagContent(t) + rest, 0); !IsAlpha(c) && c != '!' && c != '<'
  {
    if t == "" {
      assert TagContent(t) + rest == rest;
    } else if MustWrite(t[0]) {
      assert (TagContent(t) + rest)[0] == t[0];
      WrittenIsUri(t[0]);
    } else {
      assert PercentAll(Encode(t[0]))[0] == '%' by { PercentLength(Encode(t[0])[0]); }
      assert (TagContent(t) + rest)[0] == '%';
    }
  }

  lemma VerbatimIs(buf: string, p: nat, u: UriScan)
    requires p + 2 <= |buf| && At(buf, p + 1) == '<' && u == Uri(buf, p + 2, [], false) && u.UriDone?
    requires At(buf, u.next) == '>' && IsBlankz(At(buf, u.next + 1))
    ensures ScanTag(buf, p) == TagDone("", u.uri, u.next + 1)
  {
    hide Uri;
  }

  lemma OpeningIs(buf: string, p: nat, tail: string)
    requires p <= |buf| && buf[p..] == "!<" + tail
    ensures p + 2 <= |buf| && buf[p + 2..] == tail && At(buf, p + 1) == '<'
  {
    Advance(buf, p, "!<", tail);
    assert At(buf, p + 1) == "!<"[1];
  }

  lemma ClosingIs(buf: string, q: nat, rest: string)
    requires q <= |buf| && buf[q..] == ">" + rest
    ensures At(buf, q) == '>' && q + 1 == |buf| - |rest| && At(buf, q + 1) == At(rest, 0)
  {
    Advance(buf, q, ">", rest);
    assert At(buf, q + 0) == ">"[0];
    EndsAt(buf, q + 1, rest);
  }

  /** A verbatim tag. */
  lemma VerbatimReads(buf: string, p: nat, suffix: string, rest: string)
    requires p <= |buf| && buf[p..] == "!<" + (TagContent(suffix) + (">" + rest)) && suffix != "" && IsBlankz(At(rest, 0))
    ensures ScanTag(buf, p) == TagDone("", EncodeAll(suffix), |buf| - |rest|)
  {
    hide *;
    OpeningIs(buf, p, TagContent(suffix) + (">" + rest));
    NoUriBehind(rest);
    UriReads(buf, p + 2, [], false, suffix, ">" + rest);
    assert [] + EncodeAll(suffix) == EncodeAll(suffix);
    var q := p + 2 + |TagContent(suffix)|;
    ClosingIs(buf, q, rest);
    VerbatimIs(buf, p, UriDone(EncodeAll(suffix), q));
  }

  lemma NoUriBehind(rest: string)
    ensures !IsUri(At(">" + rest, 0))
  {}

  /** The part of a tag behind "!" that could be a handle. */
  lemma NoHandleThere(buf: string, p: nat, name: string, tail: string)
    requires p <= |buf| && buf[p..] == "!" + (name + tail) && forall k :: 0 <= k < |name| ==> IsAlpha(name[k])
    requires !IsAlpha(At(tail, 0)) && At(tail, 0) != '!' && At(tail, 0) != '<'
    ensures var q := p + 1 + |name|;
      && q <= |buf| && buf[q..] == tail && buf[p..q] == "!" + name && At(buf, p + 1) != '<'
      && ScanHandle(false, buf, p) == HandleDone("!" + name, q) && !IsHandle("!" + name)
  {
    var q := p + 1 + |name|;
    Advance(buf, p, "!", name + tail);
    assert At(buf, p + 0) == "!"[0];
    AlphaEndIs(buf, p + 1, name, tail);
    assert buf[p..q] == [buf[p]] + buf[p + 1..q];
    if name != "" {
      assert IsAlpha(name[0]) && buf[p + 1] == buf[p + 1..q][0] == name[0];
      assert ("!" + name)[|name|] == name[|name| - 1] && IsAlpha(name[|name| - 1]);
    }
  }

  lemma TagIs(buf: string, p: nat, h: HandleScan, u: UriScan)
    requires p <= |buf| && At(buf, p + 1) != '<' && h == ScanHandle(false, buf, p) && h.HandleDone?
    requires u == if IsHandle(h.handle) then Uri(buf, h.next, [], false) else Uri(buf, h.next, EncodeAll(h.handle[1..]), true)
    requires u.UriDone? ==> IsBlankz(At(buf, u.next))
    ensures ScanTag(buf, p)
         == if u.UriFail? then TagFail(u.error)
            else if IsHandle(h.handle) then TagDone(h.handle, u.uri, u.next)
            else if u.uri == [] then TagDone("", ['!' as int], u.next)
            else TagDone("!", u.uri, u.next)
  {
    hide Uri, ScanHandle, IsHandle, EncodeAll;
  }

  lemma EndsAt(buf: string, q: nat, rest: string)
    requires q <= |buf| && buf[q..] == rest
    ensures At(buf, q) == At(rest, 0) && q == |buf| - |rest|
  {}

  /** A tag behind "!". */
  lemma LocalReads(buf: string, p: nat, suffix: string, rest: string)
    requires p <= |buf| && buf[p..] == "!" + (TagContent(suffix) + rest) && IsBlankz(At(rest, 0))
    ensures ScanTag(buf, p) == if suffix == "" then TagDone("", ['!' as int], |buf| - |rest|) else TagDone("!", EncodeAll(suffix), |buf| - |rest|)
  {
    hide *;
    var n := AlphaCount(suffix);
    var name := suffix[..n];
    AlphaFirst(suffix, n);
    Assoc(name, TagContent(suffix[n..]), rest);
    AlphaCounted(suffix);
    ContentHead(suffix[n..], rest);
    NoHandleThere(buf, p, name, TagContent(suffix[n..]) + rest);
    var q := p + 1 + n;
    BlankIsNoUri(At(rest, 0));
    UriReads(buf, q, EncodeAll(name), true, suffix[n..], rest);
    assert ("!" + name)[1..] == name;
    var e := q + |TagContent(suffix[n..])|;
    EndsAt(buf, e, rest);
    TagIs(buf, p, HandleDone("!" + name, q), UriDone(EncodeAll(suffix), e));
    EncodesToNothing(suffix);
  }

  lemma AlphaCounted(t: string)
    ensures var n := AlphaCount(t); n <= |t| && (forall k :: 0 <= k < n ==> IsAlpha(t[..n][k])) && !IsAlpha(At(t[n..], 0))
  {
    var n := AlphaCount(t);
    assert At(t[n..], 0) == At(t, n);
  }

  lemma BlankIsNoUri(c: char)
    requires IsBlankz(c)
    ensures !IsUri(c)
  {}

  lemma EncodesToNothing(t: string)
    ensures EncodeAll(t) == [] <==> t == ""
  {}

  lemma HandleThere(buf: string, p: nat, handle: string, tail: string)
    requires p <= |buf| && buf[p..] == handle + tail && ProperHandle(handle) && handle != "!"
    ensures var q := p + |handle|;
      && q <= |buf| && buf[q..] == tail && At(buf, p + 1) != '<'
      && ScanHandle(false, buf, p) == HandleDone(handle, q) && IsHandle(handle)
  {
    var n := |handle|;
    var name := handle[1..n - 1];
    assert handle == "!" + name + "!";
    assert handle + tail == "!" + (name + ("!" + tail));
    Advance(buf, p, handle, tail);
    assert At(buf, p + 0) == handle[0] && At(buf, p + 1) == handle[1];
    assert buf[p + 1..] == name + ("!" + tail);
    AlphaEndIs(buf, p + 1, name, "!" + tail);
    assert buf[p..p + n] == buf[p..][..n] == handle;
  }

  /** A tag behind another handle. */
  lemma NamedReads(buf: string, p: nat, handle: string, suffix: string, rest: string)
    requires p <= |buf| && buf[p..] == handle + (TagContent(suffix) + rest) && IsBlankz(At(rest, 0))
    requires ProperHandle(handle) && handle != "!"
    ensures ScanTag(buf, p) == if suffix == "" then TagFail(ExpectedUri) else TagDone(handle, EncodeAll(suffix), |buf| - |rest|)
  {
    hide *;
    HandleThere(buf, p, handle, TagContent(suffix) + rest);
    var q := p + |handle|;
    BlankIsNoUri(At(rest, 0));
    if suffix == "" {
      NoContent(rest);
      EndsAt(buf, q, rest);
      UriStops(buf, q, []);
      TagIs(buf, p, HandleDone(handle, q), UriFail(ExpectedUri));
    } else {
      UriReads(buf, q, [], false, suffix, rest);
      assert [] + EncodeAll(suffix) == EncodeAll(suffix);
      EndsAt(buf, q + |TagContent(suffix)|, rest);
      TagIs(buf, p, HandleDone(handle, q), UriDone(EncodeAll(suffix), q + |TagContent(suffix)|));
    }
  }

  lemma NoContent(rest: string)
    ensures TagContent("") + rest == rest
  {
    assert "" + rest == rest;
  }

  /** What the scanner makes of a tag that is written: it gives back handle and suffix, but "!"
      alone for the tag of that name, and nothing for another handle without a suffix. */
  lemma TagTextReads(handle: string, suffix: string, pen: Pen, before: string, rest: string)
    requires handle == "" || ProperHandle(handle)
    requires handle != "" || suffix != ""
    requires IsBlankz(At(rest, 0))
    ensures var text := TagText(handle, suffix, pen).text;
      var p := |before| + if pen.whitespace then 0 else 1;
      && p < |before + text + rest| && (before + text + rest)[p] == '!'
      && ScanTag(before + text + rest, p)
         == if suffix != "" then TagDone(handle, EncodeAll(suffix), |before + text|)
            else if handle == "!" then TagDone("", ['!' as int], |before + text|)
            else TagFail(ExpectedUri)
  {
    hide TagContent, ScanTag, Encode;
    var lead := if pen.whitespace then "" else " ";
    var text := TagText(handle, suffix, pen).text;
    var p := |before + lead|;
    if handle == "" {
      assert "" + ">" == ">";
      InPlace(before, lead, text, "!<" + (TagContent(suffix) + ">"), rest);
      VerbatimParts(TagContent(suffix), rest);
      VerbatimReads(before + text + rest, p, suffix, rest);
    } else {
      InPlace(before, lead, text, handle + TagContent(suffix), rest);
      Assoc(handle, TagContent(suffix), rest);
      if handle == "!" {
        LocalReads(before + text + rest, p, suffix, rest);
      } else {
        NamedReads(before + text + rest, p, handle, suffix, rest);
      }
    }
  }

  lemma InPlace(before: string, lead: string, text: string, mark: string, rest: string)
    requires text == lead + mark && mark != ""
    ensures var buf, p := before + text + rest, |before + lead|; p < |buf| && buf[p..] == mark + rest && buf[p] == mark[0] && |buf| - |rest| == |before + text|
  {
    assert before + text + rest == before + lead + (mark + rest);
  }

  lemma VerbatimParts(content: string, rest: string)
    ensures "!<" + (content + ">") + rest == "!<" + (content + (">" + rest))
  {}

  // ----- from the tag of an event to the tag of an event -----

  /** `yaml_emitter_analyze_tag`: the first directive whose prefix the tag begins with. */
  function AnalyzeTag(ds: seq<Events.Directive>, tag: string): EmitterMachine.TagData {
    if ds == [] then EmitterMachine.TagData("", tag)
    else if ds[0].prefix <= tag then EmitterMachine.TagData(ds[0].handle, tag[|ds[0].prefix|..])
    else AnalyzeTag(ds[1..], tag)
  }

  /** The first directive whose prefix the tag begins with, |ds| if there is none. */
  function FirstPrefix(ds: seq<Events.Directive>, tag: string): (i: nat)
    ensures i <= |ds| && (forall j :: 0 <= j < i ==> !(ds[j].prefix <= tag)) && (i < |ds| ==> ds[i].prefix <= tag)
  {
    if ds == [] || ds[0].prefix <= tag then 0 else 1 + FirstPrefix(ds[1..], tag)
  }

  lemma {:induction false} AnalyzedAt(ds: seq<Events.Directive>, tag: string)
    ensures var i := FirstPrefix(ds, tag);
      AnalyzeTag(ds, tag) == if i < |ds| then EmitterMachine.TagData(ds[i].handle, tag[|ds[i].prefix|..]) else EmitterMachine.TagData("", tag)
    decreases |ds|
  {
    if ds != [] && !(ds[0].prefix <= tag) {
      AnalyzedAt(ds[1..], tag);
    }
  }

  /** Is this token a tag that the parser resolves to `tag`? */
  ghost predicate StandsFor(ds: seq<Events.Directive>, t: TagScan, tag: string) {
    && t.TagDone?
    && exists suffix: string ::
         t.suffix == EncodeAll(suffix) && tag == if t.handle == "" then suffix else ParserMachine.Resolve(ds, t.handle, suffix)
  }

  /** Written with the directives in force and read under the same, a tag comes back exactly if
      it is not all of the prefix by which it is abbreviated, other than "!" by itself. */
  lemma TagComesBackIff(ds: seq<Events.Directive>, tag: string, pen: Pen, before: string, rest: string)
    requires tag != "" && ParserSafety.NoHandleTwice(ds) && (forall i :: 0 <= i < |ds| ==> ProperHandle(ds[i].handle))
    requires IsBlankz(At(rest, 0))
    ensures var t := AnalyzeTag(ds, tag);
      var text := TagText(t.handle, t.suffix, pen).text;
      var p := |before| + if pen.whitespace then 0 else 1;
      var i := FirstPrefix(ds, tag);
      && p < |before + text + rest|
      && (StandsFor(ds, ScanTag(before + text + rest, p), tag)
          <==> !(i < |ds| && ds[i].prefix == tag) || (ds[i].handle == "!" && tag == "!"))
  {
    hide TagContent, ScanTag, Encode, TagText, ParserMachine.Resolve, EncodeAll, AnalyzeTag;
    AnalyzedAt(ds, tag);
    var t := AnalyzeTag(ds, tag);
    var i := FirstPrefix(ds, tag);
    TagTextReads(t.handle, t.suffix, pen, before, rest);
    MarkEncoded();
    if i < |ds| {
      assert ds[i].prefix + t.suffix == tag by { assert tag == tag[..|ds[i].prefix|] + tag[|ds[i].prefix|..]; }
      ParserErrors.ResolvesTo(ds, i, t.suffix);
      if t.suffix == "" {
        assert ds[i].prefix + "" == ds[i].prefix;
        OnlyMark(tag);
      }
    }
  }

  lemma MarkEncoded()
    ensures EncodeAll("!") == ['!' as int]
  {
    assert EncodeAll("!"[1..]) == [];
  }

  lemma OnlyMark(tag: string)
    ensures forall x :: EncodeAll(x) == ['!' as int] ==> x == "!"
  {
    forall x | EncodeAll(x) == ['!' as int]
      ensures x == "!"
    {
      MarkEncoded();
      EncodeAllInjective(x, "!");
    }
  }

  /** The prefix of the standard tags alone, written as "!!", is refused. */
  lemma BarePrefixIsLost(pen: Pen, before: string, rest: string)
    requires IsBlankz(At(rest, 0))
    ensures var ds := ParserMachine.WithDefaults([]);
      var t := AnalyzeTag(ds, "tag:yaml.org,2002:");
      var text := TagText(t.handle, t.suffix, pen).text;
      var p := |before| + if pen.whitespace then 0 else 1;
      t == EmitterMachine.TagData("!!", "") && p < |before + text + rest| && ScanTag(before + text + rest, p) == TagFail(ExpectedUri)
  {
    hide ScanTag, TagText;
    var ds := ParserMachine.WithDefaults([]);
    assert ds == [Events.Directive("!", "!"), Events.Directive("!!", "tag:yaml.org,2002:")];
    TagTextReads("!!", "", pen, before, rest);
  }
}
