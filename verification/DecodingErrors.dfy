/**
  What the decoder refuses, by ranges of bytes: the table of section 4 of RFC 3629 for UTF-8,
  and the surrogates of section 2.2 of RFC 2781 for UTF-16.
 */
module DecodingErrors {
  import opened Chars
  import opened Utf8
  import opened Decoding

  /** The bytes that a character beginning with this one has; none begin with some. */
  function Needed(b: byte): nat {
    if b <= 0x7F then 1
    else if 0xC0 <= b <= 0xDF then 2
    else if 0xE0 <= b <= 0xEF then 3
    else if 0xF0 <= b <= 0xF7 then 4
    else 0
  }

  predicate Continues(b: byte) { 0x80 <= b <= 0xBF }

  /** Do all bytes of the character but the first say that they continue it? */
  predicate WellJoined(raw: seq<byte>)
    requires raw != []
  {
    && 0 < Needed(raw[0]) <= |raw|
    && forall k :: 1 <= k < Needed(raw[0]) ==> Continues(raw[k])
  }

  /** A character that fewer bytes could spell. */
  predicate Overlong(raw: seq<byte>)
    requires |raw| > 1
  {
    raw[0] == 0xC0 || raw[0] == 0xC1 || (raw[0] == 0xE0 && raw[1] < 0xA0) || (raw[0] == 0xF0 && raw[1] < 0x90)
  }

  /** A surrogate, or beyond the last character. */
  predicate NoCharacter(raw: seq<byte>)
    requires |raw| > 1
  {
    (raw[0] == 0xED && raw[1] >= 0xA0) || (raw[0] == 0xF4 && raw[1] >= 0x90) || 0xF5 <= raw[0] <= 0xF7
  }

  lemma WidthIsNeeded(b: byte)
    ensures Width(b) == Needed(b) && (Trailing(b) <==> Continues(b))
  {}

  /** Two bytes that spell a value. */
  lemma Two(a: byte, b: byte)
    requires 0xC0 <= a <= 0xDF && Continues(b)
    ensures a % 0x20 * 0x40 + b % 0x40 < 0x80 <==> a < 0xC2
    ensures a % 0x20 * 0x40 + b % 0x40 < 0x800
  {
    assert a % 0x20 == a - 0xC0;
  }

  lemma Three(a: byte, b: byte, c: byte)
    requires 0xE0 <= a <= 0xEF && Continues(b) && Continues(c)
    ensures var v := (a % 0x10 * 0x40 + b % 0x40) * 0x40 + c % 0x40;
      && (v < 0x800 <==> a == 0xE0 && b < 0xA0)
      && (0xD800 <= v <= 0xDFFF <==> a == 0xED && b >= 0xA0)
      && v < 0x10000
  {
    assert a % 0x10 == a - 0xE0 && b % 0x40 == b - 0x80 && c % 0x40 == c - 0x80;
  }

  lemma Four(a: byte, b: byte, c: byte, d: byte)
    requires 0xF0 <= a <= 0xF7 && Continues(b) && Continues(c) && Continues(d)
    ensures var v := ((a % 8 * 0x40 + b % 0x40) * 0x40 + c % 0x40) * 0x40 + d % 0x40;
      && (v < 0x10000 <==> a == 0xF0 && b < 0x90)
      && (v > 0x10FFFF <==> (a == 0xF4 && b >= 0x90) || a >= 0xF5)
      && (v >= 0x10000 ==> v > 0xDFFF)
  {
    assert a % 8 == a - 0xF0 && b % 0x40 == b - 0x80 && c % 0x40 == c - 0x80 && d % 0x40 == d - 0x80;
  }

  /** The ranges of the value are ranges of the first two bytes. */
  lemma Ranges(raw: seq<byte>)
    requires raw != [] && WellJoined(raw)
    ensures var v, w := CodePointAt(raw, 0), Needed(raw[0]);
      && w == Width(raw[0])
      && ((w == 2 && v < 0x80) || (w == 3 && v < 0x800) || (w == 4 && v < 0x10000) <==> w > 1 && Overlong(raw))
      && (w == 1 || !Overlong(raw) ==> (0xD800 <= v <= 0xDFFF || v > 0x10FFFF <==> w > 1 && NoCharacter(raw)))
  {
    var w := Needed(raw[0]);
    WidthIsNeeded(raw[0]);
    if w == 2 {
      Two(raw[0], raw[1]);
    } else if w == 3 {
      Three(raw[0], raw[1], raw[2]);
    } else if w == 4 {
      Four(raw[0], raw[1], raw[2], raw[3]);
    }
  }

  /** The errors of UTF-8, each exactly where the bytes are in its ranges. */
  lemma Utf8Errors(raw: seq<byte>, eof: bool)
    requires raw != []
    ensures var d, w := DecodeUtf8(raw, eof), Needed(raw[0]);
      && (w == 0 <==> d == Bad(InvalidLeadingOctet, 0, raw[0]))
      && (w > |raw| && eof <==> d == Bad(IncompleteSequence, 0, -1))
      && (w > |raw| && !eof <==> d == More)
      && (0 < w <= |raw| ==>
            && (forall k :: 1 <= k < w ==>
                  (d == Bad(InvalidTrailingOctet, k, raw[k]) <==> !Continues(raw[k]) && forall j :: 1 <= j < k ==> Continues(raw[j])))
            && (WellJoined(raw) ==>
                  && (d == Bad(InvalidLength, 0, -1) <==> w > 1 && Overlong(raw))
                  && (d == Bad(InvalidCharacter, 0, CodePointAt(raw, 0)) <==> w > 1 && !Overlong(raw) && NoCharacter(raw))
                  && (w == 1 || (!Overlong(raw) && !NoCharacter(raw)) ==> d == Finish(CodePointAt(raw, 0), w))))
  {
    hide CodePointAt, Width, Needed, Trailing, Continues, Overlong, NoCharacter;
    WidthIsNeeded(raw[0]);
    NeededBound(raw[0]);
    forall k | 0 <= k < |raw|
      ensures Trailing(raw[k]) <==> Continues(raw[k])
    {
      WidthIsNeeded(raw[k]);
    }
    if WellJoined(raw) {
      Ranges(raw);
    }
  }

  lemma NeededBound(b: byte)
    ensures Needed(b) <= 4
  {}

  // ----- UTF-16 -----

  predicate Leads(u: int) { 0xD800 <= u <= 0xDBFF }

  predicate Trails(u: int) { 0xDC00 <= u <= 0xDFFF }

  lemma Surrogates(u: int)
    ensures HighSurrogate(u) <==> Leads(u)
    ensures LowSurrogate(u) <==> Trails(u)
  {}

  lemma UnitBound(raw: seq<byte>, i: nat, big: bool)
    requires i + 1 < |raw|
    ensures Unit(raw, i, big) < 0x10000
    ensures raw[i..i + 2] == UnitBytes(Unit(raw, i, big), big)
  {}

  /** The errors of UTF-16: a first unit that trails, a unit that leads without one that trails
      behind it, and an odd or a missing end. Anything else is the encoding of its character. */
  lemma Utf16Errors(raw: seq<byte>, eof: bool, big: bool)
    requires raw != []
    ensures var d := DecodeUtf16(raw, eof, big);
      && (|raw| < 2 ==> d == if eof then Bad(IncompleteCharacter, 0, -1) else More)
      && (|raw| >= 2 ==>
            var u := Unit(raw, 0, big);
            && (Trails(u) ==> d == Bad(UnexpectedLowSurrogate, 0, u))
            && (Leads(u) && |raw| < 4 ==> d == if eof then Bad(IncompletePair, 0, -1) else More)
            && (Leads(u) && |raw| >= 4 && !Trails(Unit(raw, 2, big)) ==> d == Bad(ExpectedLowSurrogate, 2, Unit(raw, 2, big)))
            && (!Trails(u) && (Leads(u) ==> |raw| >= 4 && Trails(Unit(raw, 2, big))) ==> 
                  exists c :: Encode16(c, big) <= raw
                    && d == if ReaderAccepts(c) then Character(c, |Encode16(c, big)|) else Bad(ControlCharacter, 0, c as int)))
  {
    hide Unit, UnitBytes, HighSurrogate, LowSurrogate, ReaderAccepts;
    if |raw| >= 2 {
      var u := Unit(raw, 0, big);
      Surrogates(u);
      UnitBound(raw, 0, big);
      if |raw| >= 4 && Leads(u) {
        var u2 := Unit(raw, 2, big);
        Surrogates(u2);
        UnitBound(raw, 2, big);
        if Trails(u2) {
          PairIsEncoding(raw, u, u2, big);
          var c := PairOf(u, u2);
          Utf16Decodes(c, raw[4..], eof, big);
          assert raw == Encode16(c, big) + raw[4..];
        }
      } else if !Leads(u) && !Trails(u) {
        var c := u as char;
        assert raw == Encode16(c, big) + raw[2..];
        Utf16Decodes(c, raw[2..], eof, big);
      }
    }
  }

  function PairOf(u: int, u2: int): char
    requires Leads(u) && Trails(u2)
  {
    (0x10000 + (u - 0xD800) * 0x400 + (u2 - 0xDC00)) as char
  }

  lemma PairIsEncoding(raw: seq<byte>, u: int, u2: int, big: bool)
    requires |raw| >= 4 && Leads(u) && Trails(u2)
    requires raw[0..2] == UnitBytes(u, big) && raw[2..4] == UnitBytes(u2, big)
    ensures raw[..4] == Encode16(PairOf(u, u2), big)
  {
    hide UnitBytes;
    Divided(u - 0xD800, u2 - 0xDC00);
    assert raw[..4] == raw[0..2] + raw[2..4];
  }

  lemma Divided(x: int, y: int)
    requires 0 <= x && 0 <= y < 0x400
    ensures (x * 0x400 + y) / 0x400 == x && (x * 0x400 + y) % 0x400 == y
  {}
}
