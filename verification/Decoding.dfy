/**
  What an input decodes to: the encoding that its first bytes name, and the characters or
  the first error behind them. Section 3 of RFC 3629 and section 2.2 of RFC 2781.
 */
module Decoding {
  import opened Chars
  import opened Utf8

  datatype Encoding = Undetermined | Utf8Text | Utf16Little | Utf16Big

  datatype Problem =
    | InvalidLeadingOctet | IncompleteSequence | InvalidTrailingOctet | InvalidLength | InvalidCharacter
    | IncompleteCharacter | UnexpectedLowSurrogate | IncompletePair | ExpectedLowSurrogate
    | ControlCharacter

  /** A character of some bytes, an error at a distance from here, or not enough bytes. */
  datatype Decoded = Character(c: char, width: nat) | Bad(problem: Problem, at: nat, value: int) | More

  /** The characters the reader lets through. */
  predicate Allowed(v: int) {
    || v == 0x09 || v == 0x0A || v == 0x0D || 0x20 <= v <= 0x7E || v == 0x85
    || 0xA0 <= v <= 0xD7FF || 0xE000 <= v <= 0xFFFD || 0x10000 <= v <= 0x10FFFF
  }

  function Finish(v: int, width: nat): Decoded {
    if Allowed(v) then Character(v as char, width) else Bad(ControlCharacter, 0, v)
  }

  predicate Trailing(b: byte) { b / 0x40 == 2 }

  function DecodeUtf8(raw: seq<byte>, eof: bool): Decoded
    requires raw != []
  {
    var w := Width(raw[0]);
    if w == 0 then Bad(InvalidLeadingOctet, 0, raw[0])
    else if w > |raw| then if eof then Bad(IncompleteSequence, 0, -1) else More
    else if w > 1 && !Trailing(raw[1]) then Bad(InvalidTrailingOctet, 1, raw[1])
    else if w > 2 && !Trailing(raw[2]) then Bad(InvalidTrailingOctet, 2, raw[2])
    else if w > 3 && !Trailing(raw[3]) then Bad(InvalidTrailingOctet, 3, raw[3])
    else
      var v := CodePointAt(raw, 0);
      if (w == 2 && v < 0x80) || (w == 3 && v < 0x800) || (w == 4 && v < 0x10000) then Bad(InvalidLength, 0, -1)
      else if 0xD800 <= v <= 0xDFFF || v > 0x10FFFF then Bad(InvalidCharacter, 0, v)
      else Finish(v, w)
  }

  /** A unit of two bytes. */
  function Unit(raw: seq<byte>, i: nat, big: bool): nat
    requires i + 1 < |raw|
  {
    var first: int, second: int := raw[i], raw[i + 1];
    if big then second + first * 0x100 else first + second * 0x100
  }

  predicate HighSurrogate(u: int) { u / 0x400 == 0x36 }

  predicate LowSurrogate(u: int) { u / 0x400 == 0x37 }

  function DecodeUtf16(raw: seq<byte>, eof: bool, big: bool): Decoded
    requires raw != []
  {
    if |raw| < 2 then if eof then Bad(IncompleteCharacter, 0, -1) else More
    else
      var u := Unit(raw, 0, big);
      if LowSurrogate(u) then Bad(UnexpectedLowSurrogate, 0, u)
      else if HighSurrogate(u) then
        if |raw| < 4 then if eof then Bad(IncompletePair, 0, -1) else More
        else
          var u2 := Unit(raw, 2, big);
          if !LowSurrogate(u2) then Bad(ExpectedLowSurrogate, 2, u2)
          else Finish(0x10000 + u % 0x400 * 0x400 + u2 % 0x400, 4)
      else Finish(u, 2)
  }

  /** The first character of the raw bytes; `eof` tells that no bytes follow them. */
  function DecodeOne(enc: Encoding, raw: seq<byte>, eof: bool): (d: Decoded)
    requires raw != [] && !enc.Undetermined?
    ensures d.Character? ==> 0 < d.width <= |raw|
    ensures d.More? ==> !eof
  {
    if enc.Utf8Text? then DecodeUtf8(raw, eof) else DecodeUtf16(raw, eof, enc.Utf16Big?)
  }

  /** Bytes that are still to come do not change what has been decided. */
  lemma MoreBytes(enc: Encoding, raw: seq<byte>, more: seq<byte>, eof: bool)
    requires raw != [] && !enc.Undetermined? && !DecodeOne(enc, raw, false).More?
    ensures DecodeOne(enc, raw + more, eof) == DecodeOne(enc, raw, false)
  {
    var all := raw + more;
    assert forall i :: 0 <= i < |raw| ==> all[i] == raw[i];
    if enc.Utf8Text? {
      SameCodePoint(raw, more);
      hide CodePointAt;
    }
  }

  lemma SameCodePoint(raw: seq<byte>, more: seq<byte>)
    requires raw != [] && Width(raw[0]) <= |raw|
    ensures Width(raw[0]) > 0 ==> CodePointAt(raw + more, 0) == CodePointAt(raw, 0)
  {
    assert forall i :: 0 <= i < |raw| ==> B(raw + more, i) == B(raw, i);
  }

  // ----- the whole input -----

  datatype Verdict = Clean | Failure(problem: Problem, offset: nat, value: int)

  datatype Text = Text(chars: string, verdict: Verdict)

  function DecodeFrom(enc: Encoding, input: seq<byte>, pos: nat): Text
    requires pos <= |input| && !enc.Undetermined?
    decreases |input| - pos
  {
    if pos == |input| then Text("", Clean)
    else
      var d := DecodeOne(enc, input[pos..], true);
      match d
      case Character(c, width) =>
        var rest := DecodeFrom(enc, input, pos + width);
        Text([c] + rest.chars, rest.verdict)
      case Bad(problem, at, value) => Text("", Failure(problem, pos + at, value))
  }

  /** The encoding that the first three bytes name, and how many of them name it. */
  function Detect(first: seq<byte>): (r: (Encoding, nat))
    ensures !r.0.Undetermined? && r.1 <= |first| && r.1 <= 3
  {
    if |first| >= 2 && first[0] == 0xFF && first[1] == 0xFE then (Utf16Little, 2)
    else if |first| >= 2 && first[0] == 0xFE && first[1] == 0xFF then (Utf16Big, 2)
    else if |first| >= 3 && first[0] == 0xEF && first[1] == 0xBB && first[2] == 0xBF then (Utf8Text, 3)
    else (Utf8Text, 0)
  }

  function DecodeAll(input: seq<byte>): Text {
    var (enc, start) := Detect(input);
    DecodeFrom(enc, input, start)
  }

  lemma DetectPrefix(input: seq<byte>, n: nat)
    requires n <= |input| && (n >= 3 || n == |input|)
    ensures Detect(input[..n]) == Detect(input)
  {}

  /** The decoder is where `soFar` has been read. */
  predicate At(input: seq<byte>, enc: Encoding, pos: nat, soFar: string)
    requires pos <= |input| && !enc.Undetermined?
  {
    var rest := DecodeFrom(enc, input, pos);
    DecodeAll(input) == Text(soFar + rest.chars, rest.verdict)
  }

  lemma Starts(input: seq<byte>)
    ensures var (enc, start) := Detect(input); At(input, enc, start, "")
  {
    var (enc, start) := Detect(input);
    assert "" + DecodeFrom(enc, input, start).chars == DecodeFrom(enc, input, start).chars;
  }

  /** Reading one character from the bytes that are there. */
  lemma Advances(input: seq<byte>, enc: Encoding, pos: nat, end: nat, soFar: string)
    requires pos < end <= |input| && !enc.Undetermined? && At(input, enc, pos, soFar)
    ensures var d := DecodeOne(enc, input[pos..end], end == |input|);
      && (d.Character? ==> pos + d.width <= end && At(input, enc, pos + d.width, soFar + [d.c]))
      && (d.Bad? ==> DecodeAll(input).verdict == Failure(d.problem, pos + d.at, d.value))
  {
    hide DecodeOne;
    var raw := input[pos..end];
    var d := DecodeOne(enc, raw, end == |input|);
    if end == |input| {
      assert raw == input[pos..];
    } else if !d.More? {
      MoreBytes(enc, raw, input[end..], true);
      assert raw + input[end..] == input[pos..];
    }
    if d.Character? {
      var rest := DecodeFrom(enc, input, pos + d.width).chars;
      assert soFar + ([d.c] + rest) == soFar + [d.c] + rest;
    }
  }

  // ----- what is decoded and what was encoded -----

  lemma AllowedCharacters(c: char)
    ensures Allowed(c as int) <==> ReaderAccepts(c)
  {}

  /** A character's UTF-8 bytes decode to it, if the reader lets it through. */
  lemma Utf8Decodes(c: char, rest: seq<byte>, eof: bool)
    ensures DecodeUtf8(Encode(c) + rest, eof)
         == if ReaderAccepts(c) then Character(c, |Encode(c)|) else Bad(ControlCharacter, 0, c as int)
  {
    var raw := Encode(c) + rest;
    assert raw[0..|Encode(c)|] == Encode(c);
    HoldsBytes(raw, 0, c);
    WidthAndCodePoint(raw, 0, c);
    AllowedCharacters(c);
    TrailingBytes(c);
    assert forall k :: 0 <= k < |Encode(c)| ==> raw[k] == Encode(c)[k];
    hide CodePointAt, Encode;
  }

  lemma TrailingBytes(c: char)
    ensures var e, v := Encode(c), c as int;
      && (forall k :: 1 <= k < |e| ==> Trailing(e[k]))
      && (|e| == 2 ==> v >= 0x80) && (|e| == 3 ==> v >= 0x800) && (|e| == 4 ==> v >= 0x10000)
  {}

  lemma Spelled2(a: byte, b: byte)
    requires Width(a) == 2 && Trailing(b)
    ensures var v := a % 0x20 * 0x40 + b % 0x40; a == 0xC0 + v / 0x40 && b == 0x80 + v % 0x40
  {}

  lemma Spelled3(a: byte, b: byte, c: byte)
    requires Width(a) == 3 && Trailing(b) && Trailing(c)
    ensures var v := (a % 0x10 * 0x40 + b % 0x40) * 0x40 + c % 0x40;
      a == 0xE0 + v / 0x1000 && b == 0x80 + v / 0x40 % 0x40 && c == 0x80 + v % 0x40
  {}

  lemma Spelled4(a: byte, b: byte, c: byte, d: byte)
    requires Width(a) == 4 && Trailing(b) && Trailing(c) && Trailing(d)
    ensures var v := ((a % 8 * 0x40 + b % 0x40) * 0x40 + c % 0x40) * 0x40 + d % 0x40;
      && a == 0xF0 + v / 0x40000 && b == 0x80 + v / 0x1000 % 0x40
      && c == 0x80 + v / 0x40 % 0x40 && d == 0x80 + v % 0x40
  {
    var t := (a % 8 * 0x40 + b % 0x40) * 0x40 + c % 0x40;
    var v := t * 0x40 + d % 0x40;
    assert v / 0x40 == t && v % 0x40 == d % 0x40;
    var u := a % 8 * 0x40 + b % 0x40;
    assert t / 0x40 == u && t % 0x40 == c % 0x40;
    assert u / 0x40 == a % 8 && u % 0x40 == b % 0x40;
    assert v / 0x1000 == u && v / 0x40000 == a % 8;
  }

  lemma Only2(a: byte, b: byte, c: char)
    requires Width(a) == 2 && Trailing(b) && c as int == CodePointAt([a, b], 0) >= 0x80
    ensures [a, b] == Encode(c)
  {
    Spelled2(a, b);
  }

  lemma Only3(a: byte, b: byte, d: byte, c: char)
    requires Width(a) == 3 && Trailing(b) && Trailing(d) && c as int == CodePointAt([a, b, d], 0) >= 0x800
    ensures [a, b, d] == Encode(c)
  {
    Spelled3(a, b, d);
  }

  lemma Only4(a: byte, b: byte, d: byte, e: byte, c: char)
    requires Width(a) == 4 && Trailing(b) && Trailing(d) && Trailing(e)
    requires c as int == CodePointAt([a, b, d, e], 0) >= 0x10000
    ensures [a, b, d, e] == Encode(c)
  {
    Spelled4(a, b, d, e);
  }

  /** What decodes to a character is the character's UTF-8 bytes: no other spelling is accepted. */
  lemma OnlyEncoding(raw: seq<byte>, eof: bool)
    requires raw != []
    ensures var d := DecodeUtf8(raw, eof); d.Character? ==> d.width <= |raw| && raw[..d.width] == Encode(d.c)
  {
    hide CodePointAt, Encode;
    var d := DecodeUtf8(raw, eof);
    if d.Character? {
      var w := d.width;
      SameCodePoint(raw[..w], raw[w..]);
      assert raw == raw[..w] + raw[w..];
      if w == 1 {
        assert raw[..1] == [raw[0]];
        Only1(raw[0], d.c);
      } else if w == 2 {
        assert raw[..2] == [raw[0], raw[1]];
        Only2(raw[0], raw[1], d.c);
      } else if w == 3 {
        assert raw[..3] == [raw[0], raw[1], raw[2]];
        Only3(raw[0], raw[1], raw[2], d.c);
      } else {
        assert raw[..4] == [raw[0], raw[1], raw[2], raw[3]];
        Only4(raw[0], raw[1], raw[2], raw[3], d.c);
      }
    }
  }

  lemma Only1(a: byte, c: char)
    requires Width(a) == 1 && c as int == CodePointAt([a], 0)
    ensures [a] == Encode(c)
  {}

  /** A UTF-8 input that decodes cleanly is the encoding of what it decodes to. */
  lemma {:induction false} Utf8IsItself(input: seq<byte>, pos: nat)
    requires pos <= |input|
    ensures var t := DecodeFrom(Utf8Text, input, pos); t.verdict.Clean? ==> EncodeAll(t.chars) == input[pos..]
    decreases |input| - pos
  {
    hide DecodeUtf8, Encode;
    if pos < |input| {
      var d := DecodeOne(Utf8Text, input[pos..], true);
      if d.Character? {
        OnlyEncoding(input[pos..], true);
        Utf8IsItself(input, pos + d.width);
        assert input[pos..] == input[pos..][..d.width] + input[pos + d.width..];
      }
    }
  }

  predicate AllAccepted(s: string) { forall i :: 0 <= i < |s| ==> ReaderAccepts(s[i]) }

  /** Every text of characters that the reader lets through is read back from its UTF-8 bytes. */
  lemma {:induction false} Utf8RoundTrip(input: seq<byte>, pos: nat, s: string)
    requires pos <= |input| && input[pos..] == EncodeAll(s) && AllAccepted(s)
    ensures DecodeFrom(Utf8Text, input, pos) == Text(s, Clean)
    decreases |s|
  {
    hide DecodeUtf8, Encode;
    if s != "" {
      var c, rest := s[0], s[1..];
      Utf8Decodes(c, EncodeAll(rest), true);
      var q := pos + |Encode(c)|;
      assert input[q..] == input[pos..][|Encode(c)|..] == EncodeAll(rest);
      Utf8RoundTrip(input, q, rest);
      assert [c] + rest == s;
    }
  }

  // ----- UTF-16 -----

  function UnitBytes(u: nat, big: bool): (r: seq<byte>)
    requires u < 0x10000
    ensures |r| == 2
  {
    if big then [u / 0x100, u % 0x100] else [u % 0x100, u / 0x100]
  }

  /** Section 2.1 of RFC 2781. */
  function Encode16(c: char, big: bool): (r: seq<byte>)
    ensures |r| == 2 || |r| == 4
  {
    var v := c as int;
    if v < 0x10000 then UnitBytes(v, big)
    else UnitBytes(0xD800 + (v - 0x10000) / 0x400, big) + UnitBytes(0xDC00 + (v - 0x10000) % 0x400, big)
  }

  function Encode16All(s: string, big: bool): seq<byte> {
    if s == "" then [] else Encode16(s[0], big) + Encode16All(s[1..], big)
  }

  lemma UnitOfBytes(u: nat, big: bool, before: seq<byte>, rest: seq<byte>)
    requires u < 0x10000
    ensures Unit(before + UnitBytes(u, big) + rest, |before|, big) == u
  {
    var raw := before + UnitBytes(u, big) + rest;
    assert raw[|before|] == UnitBytes(u, big)[0] && raw[|before| + 1] == UnitBytes(u, big)[1];
  }

  /** A surrogate pair stands for its character. */
  lemma PairDecodes(x: nat)
    requires x < 0x100000
    ensures var hi, lo := 0xD800 + x / 0x400, 0xDC00 + x % 0x400;
      && hi < 0x10000 && lo < 0x10000 && HighSurrogate(hi) && !LowSurrogate(hi) && LowSurrogate(lo)
      && hi % 0x400 * 0x400 + lo % 0x400 == x
  {}

  lemma NoSurrogate(c: char)
    requires c as int < 0x10000
    ensures !HighSurrogate(c as int) && !LowSurrogate(c as int)
  {}

  lemma Utf16Decodes(c: char, rest: seq<byte>, eof: bool, big: bool)
    ensures DecodeUtf16(Encode16(c, big) + rest, eof, big)
         == if ReaderAccepts(c) then Character(c, |Encode16(c, big)|) else Bad(ControlCharacter, 0, c as int)
  {
    hide Unit, UnitBytes, HighSurrogate, LowSurrogate;
    AllowedCharacters(c);
    var v := c as int;
    if v < 0x10000 {
      UnitOfBytes(v, big, [], rest);
      assert [] + UnitBytes(v, big) + rest == Encode16(c, big) + rest;
      NoSurrogate(c);
    } else {
      var x := v - 0x10000;
      var hi, lo := 0xD800 + x / 0x400, 0xDC00 + x % 0x400;
      PairDecodes(x);
      var a, b := UnitBytes(hi, big), UnitBytes(lo, big);
      UnitOfBytes(hi, big, [], b + rest);
      assert [] + a + (b + rest) == a + b + rest;
      UnitOfBytes(lo, big, a, rest);
    }
  }

  lemma {:induction false} Utf16RoundTrip(input: seq<byte>, pos: nat, s: string, big: bool)
    requires pos <= |input| && input[pos..] == Encode16All(s, big) && AllAccepted(s)
    ensures DecodeFrom(if big then Utf16Big else Utf16Little, input, pos) == Text(s, Clean)
    decreases |s|
  {
    hide DecodeUtf16, Encode16;
    if s != "" {
      var c, rest := s[0], s[1..];
      Utf16Decodes(c, Encode16All(rest, big), true, big);
      var q := pos + |Encode16(c, big)|;
      assert input[q..] == input[pos..][|Encode16(c, big)|..] == Encode16All(rest, big);
      Utf16RoundTrip(input, q, rest, big);
      assert [c] + rest == s;
    }
  }

  /** A text written in any of the three encodings behind its byte order mark, or in UTF-8
      without one, is read back; a text that starts with the mark itself needs another one. */
  lemma EncodingsRoundTrip(s: string)
    requires AllAccepted(s)
    ensures s == "" || s[0] != BOM ==> DecodeAll(EncodeAll(s)) == Text(s, Clean)
    ensures DecodeAll([0xEF, 0xBB, 0xBF] + EncodeAll(s)) == Text(s, Clean)
    ensures DecodeAll([0xFF, 0xFE] + Encode16All(s, false)) == Text(s, Clean)
    ensures DecodeAll([0xFE, 0xFF] + Encode16All(s, true)) == Text(s, Clean)
  {
    hide DecodeFrom, Encode16All, EncodeAll;
    var mark8, mark16l, mark16b: seq<byte> := [0xEF, 0xBB, 0xBF], [0xFF, 0xFE], [0xFE, 0xFF];
    assert (mark8 + EncodeAll(s))[3..] == EncodeAll(s);
    Utf8RoundTrip(mark8 + EncodeAll(s), 3, s);
    assert (mark16l + Encode16All(s, false))[2..] == Encode16All(s, false);
    Utf16RoundTrip(mark16l + Encode16All(s, false), 2, s, false);
    assert (mark16b + Encode16All(s, true))[2..] == Encode16All(s, true);
    Utf16RoundTrip(mark16b + Encode16All(s, true), 2, s, true);
    assert EncodeAll(s)[0..] == EncodeAll(s);
    Utf8RoundTrip(EncodeAll(s), 0, s);
    if s == "" || s[0] != BOM {
      NoMark(s);
    }
  }

  lemma NoMark(s: string)
    requires s == "" || s[0] != BOM
    ensures Detect(EncodeAll(s)) == (Utf8Text, 0)
  {
    if s != "" {
      BomAgrees(s, 0);
      FirstByte(s[0]);
      var b := EncodeAll(s);
      assert b[0] == Encode(s[0])[0];
    }
  }

  lemma FirstByte(c: char)
    ensures Encode(c)[0] < 0xF8
  {}
}
