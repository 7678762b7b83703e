/**
  Character classes of yamlprivateh.go over Unicode scalar values.

  Dafny's `char` ranges over exactly the Unicode scalar values, so a `string` is a
  well-formed UTF-8 text. Module Utf8 relates these predicates to the byte predicates
  of the source.
 */
module Chars {
  import opened Basics

  const NEL := '\U{0085}'
  const LS := '\U{2028}'
  const PS := '\U{2029}'
  const BOM := '\U{FEFF}'

  /** Reading past the end of the input sees the NULs that the reader pads it with. */
  function At(buf: string, p: nat): char {
    if p < |buf| then buf[p] else '\0'
  }

  predicate IsZ(c: char) { c == '\0' }

  predicate IsSpace(c: char) { c == ' ' }

  predicate IsTab(c: char) { c == '\t' }

  predicate IsBlank(c: char) { c == ' ' || c == '\t' }

  predicate IsBreak(c: char) {
    c == '\r' || c == '\n' || c == NEL || c == LS || c == PS
  }

  predicate IsBreakz(c: char) { IsBreak(c) || IsZ(c) }

  predicate IsBlankz(c: char) { IsBlank(c) || IsBreakz(c) }

  predicate IsAscii(c: char) { c as int <= 0x7F }

  predicate IsDigit(c: char) { '0' <= c <= '9' }

  predicate IsHex(c: char) { '0' <= c <= '9' || 'A' <= c <= 'F' || 'a' <= c <= 'f' }

  function AsHex(c: char): (v: nat)
    requires IsHex(c)
    ensures v < 16
  {
    if 'A' <= c <= 'F' then c as int - 'A' as int + 10
    else if 'a' <= c <= 'f' then c as int - 'a' as int + 10
    else c as int - '0' as int
  }

  predicate IsAlpha(c: char) {
    '0' <= c <= '9' || 'A' <= c <= 'Z' || 'a' <= c <= 'z' || c == '_' || c == '-'
  }

  /** Can the character be written unescaped? TAB cannot, nor can anything beyond U+FFFD. */
  predicate IsPrintable(c: char) {
    || c == '\n'
    || 0x20 <= c as int <= 0x7E
    || 0xA0 <= c as int <= 0xD7FF
    || (0xE000 <= c as int <= 0xFFFD && c != BOM)
  }

  /** The characters that the reader lets into its buffer. */
  predicate ReaderAccepts(c: char) {
    || c == '\t' || c == '\n' || c == '\r'
    || 0x20 <= c as int <= 0x7E
    || c == NEL
    || 0xA0 <= c as int <= 0xD7FF
    || 0xE000 <= c as int <= 0xFFFD
    || 0x10000 <= c as int
  }

  function Spaces(n: nat): (s: string)
    ensures |s| == n && forall k :: 0 <= k < n ==> s[k] == ' '
  {
    seq(n, _ => ' ')
  }

  lemma SpacesStep(n: nat, rest: string)
    ensures n == 0 ==> Spaces(n) + rest == rest
    ensures n > 0 ==> Spaces(n) + rest == " " + (Spaces(n - 1) + rest)
  {
    if n > 0 {
      assert Spaces(n) == " " + Spaces(n - 1);
      Assoc(" ", Spaces(n - 1), rest);
    } else {
      assert Spaces(n) == "";
    }
  }

  /** The number of characters that the line break at p occupies. */
  function BreakLen(buf: string, p: nat): (n: nat)
    ensures n <= 2
    ensures IsBreak(At(buf, p)) ==> 1 <= n && p + n <= |buf|
  {
    if At(buf, p) == '\r' && At(buf, p + 1) == '\n' then 2
    else if IsBreak(At(buf, p)) then 1
    else 0
  }

  /** What a line break stands for: CR LF, CR, LF and NEL are all LF. */
  function BreakText(c: char): string
    requires IsBreak(c)
  {
    if c == LS || c == PS then [c] else "\n"
  }

  /** If what is left to read starts with `a`, then reading `a` leaves `b`. */
  lemma Advance(buf: string, p: nat, a: string, b: string)
    requires p <= |buf| && buf[p..] == a + b
    ensures p + |a| <= |buf| && buf[p + |a|..] == b
    ensures forall k :: 0 <= k < |a| ==> At(buf, p + k) == a[k]
    ensures At(buf, p + |a|) == At(b, 0)
  {
    assert |buf| - p == |a| + |b|;
    forall k | 0 <= k < |a|
      ensures At(buf, p + k) == a[k]
    {
      assert buf[p..][k] == (a + b)[k];
    }
    assert buf[p + |a|..] == buf[p..][|a|..];
    assert (a + b)[|a|..] == b;
    if b != "" {
      assert buf[p..][|a|] == (a + b)[|a|] == b[0];
    }
  }

  /** What is left to read after skipping `a` and one more character. */
  lemma AfterOpening(a: string, q: char, b: string)
    ensures var buf := a + [q] + b;
      |a| < |buf| && buf[|a|] == q && buf[|a| + 1..] == b
  {}
}
