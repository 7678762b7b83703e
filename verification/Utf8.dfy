/**
  The byte predicates of yamlprivateh.go on UTF-8 text, and why the rest of the model may
  speak of characters: on the encoding of a character, each of them answers what the
  predicate of module Chars answers on the character itself. Section 3 of RFC 3629.

  A mask test `b & 0xE0 == 0xC0` is written as `b / 0x20 == 6`, and likewise for the others.
 */
module Utf8 {
  import opened Chars

  type byte = b: int | 0 <= b < 256

  /** The bytes of a character, as the reader and the escape decoder put them together. */
  function Encode(c: char): (r: seq<byte>)
    ensures 1 <= |r| <= 4
  {
    var v := c as int;
    if v <= 0x7F then [v]
    else if v <= 0x7FF then [0xC0 + v / 0x40, 0x80 + v % 0x40]
    else if v <= 0xFFFF then [0xE0 + v / 0x1000, 0x80 + v / 0x40 % 0x40, 0x80 + v % 0x40]
    else [0xF0 + v / 0x40000, 0x80 + v / 0x1000 % 0x40, 0x80 + v / 0x40 % 0x40, 0x80 + v % 0x40]
  }

  function EncodeAll(s: string): seq<byte> {
    if s == "" then [] else Encode(s[0]) + EncodeAll(s[1..])
  }

  /** The byte at i; reading past the end is an error in the source and -1 here. */
  function B(b: seq<byte>, i: nat): int { if i < |b| then b[i] else -1 }

  function Width(b: byte): nat {
    if b / 0x80 == 0 then 1
    else if b / 0x20 == 6 then 2
    else if b / 0x10 == 14 then 3
    else if b / 8 == 30 then 4
    else 0
  }

  predicate IsBreakAt(b: seq<byte>, i: nat) {
    || B(b, i) == 0x0D || B(b, i) == 0x0A
    || (B(b, i) == 0xC2 && B(b, i + 1) == 0x85)
    || (B(b, i) == 0xE2 && B(b, i + 1) == 0x80 && B(b, i + 2) == 0xA8)
    || (B(b, i) == 0xE2 && B(b, i + 1) == 0x80 && B(b, i + 2) == 0xA9)
  }

  predicate IsPrintableAt(b: seq<byte>, i: nat) {
    || B(b, i) == 0x0A
    || 0x20 <= B(b, i) <= 0x7E
    || (B(b, i) == 0xC2 && B(b, i + 1) >= 0xA0)
    || 0xC2 < B(b, i) < 0xED
    || (B(b, i) == 0xED && B(b, i + 1) < 0xA0)
    || B(b, i) == 0xEE
    || (B(b, i) == 0xEF
        && !(B(b, i + 1) == 0xBB && B(b, i + 2) == 0xBF)
        && !(B(b, i + 1) == 0xBF && (B(b, i + 2) == 0xBE || B(b, i + 2) == 0xBF)))
  }

  /** The index is ignored, as in the source. */
  predicate IsBomAt(b: seq<byte>, i: nat) {
    B(b, 0) == 0xEF && B(b, 1) == 0xBB && B(b, 2) == 0xBF
  }

  predicate IsBlankAt(b: seq<byte>, i: nat) { B(b, i) == 0x20 || B(b, i) == 0x09 }

  predicate IsBlankzAt(b: seq<byte>, i: nat) { IsBlankAt(b, i) || IsBreakAt(b, i) || B(b, i) == 0 }

  predicate IsAlphaAt(b: seq<byte>, i: nat) {
    || 0x30 <= B(b, i) <= 0x39 || 0x41 <= B(b, i) <= 0x5A || 0x61 <= B(b, i) <= 0x7A
    || B(b, i) == 0x5F || B(b, i) == 0x2D
  }

  /** The code point that `yaml_emitter_write_double_quoted_scalar` collects from the bytes. */
  function CodePointAt(b: seq<byte>, i: nat): int
    requires i < |b|
  {
    var w := Width(b[i]);
    if w == 1 then b[i] % 0x80
    else if w == 2 then b[i] % 0x20 * 0x40 + B(b, i + 1) % 0x40
    else if w == 3 then (b[i] % 0x10 * 0x40 + B(b, i + 1) % 0x40) * 0x40 + B(b, i + 2) % 0x40
    else ((b[i] % 8 * 0x40 + B(b, i + 1) % 0x40) * 0x40 + B(b, i + 2) % 0x40) * 0x40 + B(b, i + 3) % 0x40
  }

  /** Is the encoding of c at i? */
  predicate Holds(b: seq<byte>, i: nat, c: char) {
    i + |Encode(c)| <= |b| && b[i..i + |Encode(c)|] == Encode(c)
  }

  lemma HoldsBytes(b: seq<byte>, i: nat, c: char)
    requires Holds(b, i, c)
    ensures forall k :: 0 <= k < |Encode(c)| ==> B(b, i + k) == Encode(c)[k]
  {
    forall k | 0 <= k < |Encode(c)|
      ensures B(b, i + k) == Encode(c)[k]
    {
      assert b[i..i + |Encode(c)|][k] == b[i + k];
    }
  }

  /** The mask of a trailing byte strips exactly the marker that encoding added. */
  lemma Strip(x: nat)
    requires x < 0x40
    ensures (0x80 + x) % 0x40 == x
    ensures x < 0x20 ==> (0xC0 + x) % 0x20 == x
    ensures x < 0x10 ==> (0xE0 + x) % 0x10 == x
    ensures x < 8 ==> (0xF0 + x) % 8 == x
  {}

  /** Width and code point: the bytes of a character are taken and decoded as a whole. */
  lemma WidthAndCodePoint(b: seq<byte>, i: nat, c: char)
    requires Holds(b, i, c)
    ensures Width(b[i]) == |Encode(c)|
    ensures CodePointAt(b, i) == c as int
  {
    HoldsBytes(b, i, c);
    var v := c as int;
    var e := Encode(c);
    assert b[i] == e[0] by { assert B(b, i + 0) == e[0]; }
    LeadByte(c);
    var d0, d1, d2 := v % 0x40, v / 0x40 % 0x40, v / 0x1000 % 0x40;
    Strip(d0);
    Strip(d1);
    Strip(d2);
    if |e| == 2 {
      assert B(b, i + 1) == e[1];
      Strip(v / 0x40);
    } else if |e| == 3 {
      assert B(b, i + 1) == e[1] && B(b, i + 2) == e[2];
      Strip(v / 0x1000);
      Digits3(v);
    } else if |e| == 4 {
      assert B(b, i + 1) == e[1] && B(b, i + 2) == e[2] && B(b, i + 3) == e[3];
      Strip(v / 0x40000);
      Digits4(v);
    }
  }

  lemma LeadByte(c: char)
    ensures Width(Encode(c)[0]) == |Encode(c)|
  {}

  lemma Digits3(v: nat)
    ensures v == (v / 0x1000 * 0x40 + v / 0x40 % 0x40) * 0x40 + v % 0x40
  {
    assert v / 0x1000 == v / 0x40 / 0x40;
  }

  lemma Digits4(v: nat)
    ensures v == ((v / 0x40000 * 0x40 + v / 0x1000 % 0x40) * 0x40 + v / 0x40 % 0x40) * 0x40 + v % 0x40
  {
    Digits3(v);
    assert v / 0x40000 == v / 0x1000 / 0x40;
  }

  /** Every byte predicate agrees with the predicate on characters. */
  lemma PredicatesAgree(b: seq<byte>, i: nat, c: char)
    requires Holds(b, i, c)
    ensures IsBreakAt(b, i) <==> IsBreak(c)
    ensures IsPrintableAt(b, i) <==> IsPrintable(c)
    ensures IsBlankAt(b, i) <==> IsBlank(c)
    ensures IsBlankzAt(b, i) <==> IsBlankz(c)
    ensures IsAlphaAt(b, i) <==> IsAlpha(c)
    ensures B(b, i) <= 0x7F <==> IsAscii(c)
  {
    HoldsBytes(b, i, c);
    assert B(b, i + 0) == B(b, i);
  }

  lemma BomAgrees(s: string, i: nat)
    requires s != ""
    ensures IsBomAt(EncodeAll(s), i) <==> s[0] == BOM
  {
    var b := EncodeAll(s);
    assert b[0..|Encode(s[0])|] == Encode(s[0]);
    HoldsBytes(b, 0, s[0]);
    WidthAndCodePoint(b, 0, s[0]);
    assert B(b, 0 + 0) == Encode(s[0])[0];
  }

  lemma {:induction false} EncodeAllConcat(s: string, t: string)
    ensures EncodeAll(s + t) == EncodeAll(s) + EncodeAll(t)
  {
    if s == "" {
      assert s + t == t;
    } else {
      assert (s + t)[1..] == s[1..] + t;
      EncodeAllConcat(s[1..], t);
    }
  }

  /** Where the k-th character of a text sits among its bytes. */
  lemma CharacterAt(s: string, k: nat)
    requires k < |s|
    ensures Holds(EncodeAll(s), |EncodeAll(s[..k])|, s[k])
  {
    var head, tail := s[..k], s[k..];
    assert s == head + tail;
    EncodeAllConcat(head, tail);
    assert EncodeAll(tail) == Encode(s[k]) + EncodeAll(tail[1..]);
  }

  /** At every character of a text the byte functions take and decode that character, and the
      byte predicates answer what the predicates on characters do. */
  lemma TextAgrees(s: string, k: nat)
    requires k < |s|
    ensures var b, i := EncodeAll(s), |EncodeAll(s[..k])|;
      && i < |b| && Width(b[i]) == |Encode(s[k])| && CodePointAt(b, i) == s[k] as int
      && (IsBreakAt(b, i) <==> IsBreak(s[k]))
      && (IsPrintableAt(b, i) <==> IsPrintable(s[k]))
      && (IsBlankAt(b, i) <==> IsBlank(s[k]))
      && (IsBlankzAt(b, i) <==> IsBlankz(s[k]))
      && (IsAlphaAt(b, i) <==> IsAlpha(s[k]))
  {
    hide IsBreakAt, IsPrintableAt, IsBlankAt, IsBlankzAt, IsAlphaAt, Width, Encode;
    var b, i := EncodeAll(s), |EncodeAll(s[..k])|;
    CharacterAt(s, k);
    WidthAndCodePoint(b, i, s[k]);
    PredicatesAgree(b, i, s[k]);
  }

  /** Two texts with the same bytes are the same text, so what is proved of values as
      texts holds of them byte for byte. */
  lemma {:induction false} EncodeAllInjective(s: string, t: string)
    requires EncodeAll(s) == EncodeAll(t)
    ensures s == t
    decreases |s|
  {
    if s != "" && t != "" {
      var b := EncodeAll(s);
      assert b[0..|Encode(s[0])|] == Encode(s[0]) && b[0..|Encode(t[0])|] == Encode(t[0]);
      WidthAndCodePoint(b, 0, s[0]);
      WidthAndCodePoint(b, 0, t[0]);
      assert s[0] == t[0];
      assert EncodeAll(s[1..]) == b[|Encode(s[0])|..] == EncodeAll(t[1..]);
      EncodeAllInjective(s[1..], t[1..]);
      assert s == [s[0]] + s[1..] && t == [t[0]] + t[1..];
    }
  }
}
