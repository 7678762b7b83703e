/**
  The order of map keys in sorter.go. `Less` on strings decides everything at the first
  character that differs, with look-back and look-ahead over digits. On ASCII strings it is
  the lexicographic order of the strings cut into letters, symbols and numbers, and so a
  strict total order. Integers are unbounded; the source's 64 bits agree with them for runs
  of up to 18 digits.
 */
module KeyOrder {

  predicate IsDigit(c: char) { '0' <= c <= '9' }

  predicate IsLetter(c: char) { 'a' <= c <= 'z' || 'A' <= c <= 'Z' }

  predicate AllDigits(s: string) { forall i :: 0 <= i < |s| ==> IsDigit(s[i]) }

  function DigitValue(c: char): int
    requires IsDigit(c)
  {
    c as int - '0' as int
  }

  /** The number that `start` and the digits behind it spell. */
  function Spelled(start: int, s: string): int
    requires AllDigits(s)
  {
    if s == "" then start else Spelled(start, s[..|s| - 1]) * 10 + DigitValue(s[|s| - 1])
  }

  /** The digits from i on. */
  function Run(s: string, i: nat): (r: string)
    requires i <= |s|
    ensures i + |r| <= |s| && r == s[i..i + |r|] && AllDigits(r)
    ensures i + |r| < |s| ==> !IsDigit(s[i + |r|])
    decreases |s| - i
  {
    if i < |s| && IsDigit(s[i]) then [s[i]] + Run(s, i + 1) else ""
  }

  /** The position where the digits that end before i begin. */
  function RunStart(s: string, i: nat): (q: nat)
    requires i <= |s|
    ensures q <= i && AllDigits(s[q..i]) && (q > 0 ==> !IsDigit(s[q - 1]))
  {
    if i > 0 && IsDigit(s[i - 1]) then
      var q := RunStart(s, i - 1);
      assert s[q..i] == s[q..i - 1] + [s[i - 1]];
      q
    else i
  }

  /** The first position at which the strings differ or one of them ends. */
  function FirstDifference(a: string, b: string, i: nat): (k: nat)
    requires i <= |a| && i <= |b|
    ensures i <= k <= |a| && k <= |b|
    ensures forall j :: i <= j < k ==> a[j] == b[j]
    ensures k < |a| && k < |b| ==> a[k] != b[k]
    decreases |a| - i
  {
    if i < |a| && i < |b| && a[i] == b[i] then FirstDifference(a, b, i + 1) else i
  }

  predicate HasNonZero(s: string) { exists i :: 0 <= i < |s| && s[i] != '0' }

  /** What the numbers from position i on start with: 1 if zeros there do not lead. */
  function Start(a: string, b: string, i: nat): int
    requires i < |a| && i < |b|
  {
    if (a[i] == '0' || b[i] == '0') && HasNonZero(a[RunStart(a, i)..i]) then 1 else 0
  }

  /** `Less` of the source, for strings. */
  predicate Less(a: string, b: string) {
    var i := FirstDifference(a, b, 0);
    if i == |a| || i == |b| then |a| < |b|
    else LessAt(a, b, i)
  }

  /** The decision at the first character that differs. */
  predicate LessAt(a: string, b: string, i: nat)
    requires i < |a| && i < |b|
  {
    var digits := i > 0 && IsDigit(a[i - 1]);
    var al, bl := IsLetter(a[i]), IsLetter(b[i]);
    if al && bl then a[i] < b[i]
    else if al || bl then if digits then al else bl
    else
      var da, db := Run(a, i), Run(b, i);
      var an, bn := Spelled(Start(a, b, i), da), Spelled(Start(a, b, i), db);
      if an != bn then an < bn
      else if |da| != |db| then |da| < |db|
      else a[i] < b[i]
  }

  // ----- the order by tokens -----

  datatype Token = Letter(c: char) | Symbol(c: char) | Number(value: int, length: nat)

  function Tokens(s: string): seq<Token>
    decreases |s|
  {
    if s == "" then []
    else if IsDigit(s[0]) then
      var r := Run(s, 0);
      [Number(Spelled(0, r), |r|)] + Tokens(s[|r|..])
    else [if IsLetter(s[0]) then Letter(s[0]) else Symbol(s[0])] + Tokens(s[1..])
  }

  /** Symbols, numbers, letters; behind a number, letters before symbols. */
  function Rank(t: Token, afterNumber: bool): int {
    match t
    case Symbol(_) => if afterNumber then 3 else 0
    case Number(_, _) => 1
    case Letter(_) => 2
  }

  predicate Before(x: Token, y: Token, afterNumber: bool) {
    if Rank(x, afterNumber) != Rank(y, afterNumber) then Rank(x, afterNumber) < Rank(y, afterNumber)
    else
      match x
      case Letter(c) => c < y.c
      case Symbol(c) => c < y.c
      case Number(v, n) => v < y.value || (v == y.value && n < y.length)
  }

  predicate Precedes(xs: seq<Token>, ys: seq<Token>, afterNumber: bool) {
    if ys == [] then false
    else if xs == [] then true
    else if xs[0] == ys[0] then Precedes(xs[1..], ys[1..], xs[0].Number?)
    else Before(xs[0], ys[0], afterNumber)
  }

  // ----- the order by tokens is strict and total -----

  lemma {:induction false} Irreflexive(xs: seq<Token>, after: bool)
    ensures !Precedes(xs, xs, after)
  {
    if xs != [] {
      Irreflexive(xs[1..], xs[0].Number?);
    }
  }

  lemma {:induction false} Total(xs: seq<Token>, ys: seq<Token>, after: bool)
    requires xs != ys
    ensures Precedes(xs, ys, after) || Precedes(ys, xs, after)
  {
    if xs != [] && ys != [] && xs[0] == ys[0] {
      assert xs == [xs[0]] + xs[1..];
      assert ys == [ys[0]] + ys[1..];
      Total(xs[1..], ys[1..], xs[0].Number?);
    }
  }

  lemma {:induction false} Transitive(xs: seq<Token>, ys: seq<Token>, zs: seq<Token>, after: bool)
    requires Precedes(xs, ys, after) && Precedes(ys, zs, after)
    ensures Precedes(xs, zs, after)
  {
    if xs != [] && xs[0] == ys[0] && ys[0] == zs[0] {
      Transitive(xs[1..], ys[1..], zs[1..], xs[0].Number?);
    }
  }

  // ----- numbers -----

  function Pow10(n: nat): (p: nat)
    ensures p >= 1
  {
    if n == 0 then 1 else 10 * Pow10(n - 1)
  }

  lemma {:induction false} SpelledLinear(start: int, s: string)
    requires AllDigits(s)
    ensures Spelled(start, s) == start * Pow10(|s|) + Spelled(0, s)
    ensures 0 <= Spelled(0, s) < Pow10(|s|)
  {
    if s != "" {
      SpelledLinear(start, s[..|s| - 1]);
    }
  }

  /** The number that digits behind other digits spell. */
  lemma {:induction false} SpelledConcat(start: int, d: string, s: string)
    requires AllDigits(d) && AllDigits(s)
    ensures AllDigits(d + s) && Spelled(start, d + s) == Spelled(Spelled(start, d), s)
    decreases |s|
  {
    if s == "" {
      assert d + s == d;
    } else {
      SpelledConcat(start, d, s[..|s| - 1]);
      assert (d + s)[..|d + s| - 1] == d + s[..|s| - 1];
    }
  }

  /** Without a leading zero a number is at least a power of ten. */
  lemma {:induction false} NoLeadingZero(s: string)
    requires AllDigits(s) && s != "" && s[0] != '0'
    ensures Spelled(0, s) >= Pow10(|s| - 1)
  {
    if |s| == 1 {
      assert Spelled(0, s[..0]) == 0;
    } else {
      NoLeadingZero(s[..|s| - 1]);
    }
  }

  lemma {:induction false} PowGrows(m: nat, n: nat)
    requires m < n
    ensures 10 * Pow10(m) <= Pow10(n)
    decreases n
  {
    if m < n - 1 {
      PowGrows(m, n - 1);
    }
  }

  lemma {:induction false} ZerosSpellZero(s: string)
    requires AllDigits(s)
    ensures Spelled(0, s) == 0 <==> !HasNonZero(s)
  {
    if s != "" {
      var init := s[..|s| - 1];
      ZerosSpellZero(init);
      SpelledLinear(0, init);
      if HasNonZero(init) {
        var i :| 0 <= i < |init| && init[i] != '0';
        assert s[i] != '0';
      }
      if s[|s| - 1] != '0' {
        assert HasNonZero(s);
      }
    }
  }

  /** Digits of the same number and length are the same. */
  lemma {:induction false} SameNumber(s: string, t: string)
    requires AllDigits(s) && AllDigits(t) && |s| == |t| && Spelled(0, s) == Spelled(0, t)
    ensures s == t
    decreases |s|
  {
    if s != "" {
      SameNumber(s[..|s| - 1], t[..|t| - 1]);
      assert s == s[..|s| - 1] + [s[|s| - 1]] && t == t[..|t| - 1] + [t[|t| - 1]];
    }
  }

  predicate NumberBefore(v: int, n: nat, w: int, m: nat) { v < w || (v == w && n < m) }

  lemma Dominates(v: int, p: int, q: int)
    requires v >= 1 && p >= 1 && q >= 10 * p
    ensures v * p + p <= v * q
  {
    assert v * (q - 10 * p) >= 0;
    assert v * q == v * (q - 10 * p) + 10 * (v * p);
    assert v * p >= p;
  }

  /** Of two numbers with common digits in front, the one with fewer digits behind them comes
      first, and what `Less` computes says so too. */
  lemma Shorter(v: int, m: nat, n: nat, x: int, y: int, c: int)
    requires v >= 0 && m < n && 0 <= x < Pow10(m) && 0 <= y < Pow10(n)
    requires v > 0 ==> c == 1 || (c == 0 && y >= Pow10(n - 1))
    requires v == 0 ==> c == 0
    ensures NumberBefore(v * Pow10(m) + x, m, v * Pow10(n) + y, n)
         == NumberBefore(c * Pow10(m) + x, m, c * Pow10(n) + y, n)
  {
    PowGrows(m, n);
    if m < n - 1 {
      PowGrows(m, n - 1);
    }
    if v > 0 {
      Dominates(v, Pow10(m), Pow10(n));
    }
    hide Pow10;
  }

  /** Common digits in front of equally many digits change nothing. */
  lemma SameLength(v: int, n: nat, x: int, y: int, c: int)
    ensures NumberBefore(v * Pow10(n) + x, n, v * Pow10(n) + y, n)
         == NumberBefore(c * Pow10(n) + x, n, c * Pow10(n) + y, n)
  {
    hide Pow10;
  }

  lemma Flips(v: int, n: nat, w: int, m: nat)
    requires n != m
    ensures NumberBefore(v, n, w, m) == !NumberBefore(w, m, v, n)
  {}

  lemma BehindCommon(v: int, m: nat, n: nat, x: int, y: int, c: int)
    requires v >= 0 && 0 <= x < Pow10(m) && 0 <= y < Pow10(n)
    requires v > 0 && m < n ==> c == 1 || (c == 0 && y >= Pow10(n - 1))
    requires v > 0 && n < m ==> c == 1 || (c == 0 && x >= Pow10(m - 1))
    requires v == 0 ==> c == 0
    ensures NumberBefore(v * Pow10(m) + x, m, v * Pow10(n) + y, n)
         == NumberBefore(c * Pow10(m) + x, m, c * Pow10(n) + y, n)
  {
    if m < n {
      Shorter(v, m, n, x, y, c);
    } else if n < m {
      Shorter(v, n, m, y, x, c);
      Flips(v * Pow10(m) + x, m, v * Pow10(n) + y, n);
      Flips(c * Pow10(m) + x, m, c * Pow10(n) + y, n);
    } else {
      SameLength(v, n, x, y, c);
    }
  }

  predicate LeadsZero(s: string) { s != "" && s[0] == '0' }

  /** A number behind common digits, and behind what `Less` starts with. */
  lemma NumberParts(d: string, s: string, c: int)
    requires AllDigits(d) && AllDigits(s)
    ensures AllDigits(d + s)
    ensures Spelled(0, d + s) == Spelled(0, d) * Pow10(|s|) + Spelled(0, s)
    ensures Spelled(c, s) == c * Pow10(|s|) + Spelled(0, s)
    ensures Spelled(0, d) >= 0 && 0 <= Spelled(0, s) < Pow10(|s|)
    ensures s != "" && !LeadsZero(s) ==> Spelled(0, s) >= Pow10(|s| - 1)
  {
    SpelledLinear(0, d);
    SpelledConcat(0, d, s);
    SpelledLinear(Spelled(0, d), s);
    SpelledLinear(c, s);
    if s != "" && !LeadsZero(s) {
      NoLeadingZero(s);
    }
  }

  /** Comparing the rest of two numbers behind common digits, as `Less` does, compares the
      whole numbers. */
  lemma NumbersAgree(d: string, da: string, db: string, c: int)
    requires AllDigits(d) && AllDigits(da) && AllDigits(db)
    requires c == if HasNonZero(d) && (LeadsZero(da) || LeadsZero(db)) then 1 else 0
    ensures AllDigits(d + da) && AllDigits(d + db)
    ensures NumberBefore(Spelled(0, d + da), |d + da|, Spelled(0, d + db), |d + db|)
         == NumberBefore(Spelled(c, da), |da|, Spelled(c, db), |db|)
  {
    hide Spelled, AllDigits, HasNonZero, Pow10, LeadsZero, NumberBefore;
    ZerosSpellZero(d);
    NumberParts(d, da, c);
    NumberParts(d, db, c);
    var v, x, y := Spelled(0, d), Spelled(0, da), Spelled(0, db);
    BehindCommon(v, |da|, |db|, x, y, c);
    SameShift(|d|, v * Pow10(|da|) + x, |da|, v * Pow10(|db|) + y, |db|);
  }

  lemma SameShift(k: nat, v: int, n: nat, w: int, m: nat)
    ensures NumberBefore(v, k + n, w, k + m) == NumberBefore(v, n, w, m)
  {}

  // ----- the two orders agree -----

  /** Digits up to something else are the run. */
  lemma RunIs(s: string, i: nat, n: nat)
    requires i + n <= |s| && AllDigits(s[i..i + n]) && (i + n == |s| || !IsDigit(s[i + n]))
    ensures Run(s, i) == s[i..i + n]
  {
    var r := Run(s, i);
    forall k | i <= k < i + n
      ensures IsDigit(s[k])
    {
      assert s[i..i + n][k - i] == s[k];
    }
    forall k | i <= k < i + |r|
      ensures IsDigit(s[k])
    {
      assert r[k - i] == s[k];
    }
  }

  lemma RunBehind(s: string, q: nat, i: nat)
    requires q <= i <= |s| && AllDigits(s[q..i])
    ensures Run(s[q..], 0) == s[q..i] + Run(s, i)
  {
    var r := Run(s, i);
    var t, n := s[q..], i - q + |r|;
    assert t[0..0 + n] == s[q..i] + r;
    assert AllDigits(t[0..n]);
    RunIs(t, 0, n);
  }

  /** A common beginning that does not end in a digit does not matter. */
  lemma {:induction false} SkipCommon(a: string, b: string, q: nat, after: bool)
    requires q <= |a| && q <= |b| && a[..q] == b[..q] && (q > 0 ==> !IsDigit(a[q - 1]))
    ensures Precedes(Tokens(a), Tokens(b), after) == Precedes(Tokens(a[q..]), Tokens(b[q..]), after && q == 0)
    decreases q
  {
    hide Tokens, Precedes, Run, Spelled;
    if q == 0 {
      assert a[0..] == a && b[0..] == b;
    } else {
      var n := FirstLength(a, b, q);
      var x, y := a[n..], b[n..];
      assert a[..q][0] == b[..q][0];
      assert x[..q - n] == a[..q][n..] && y[..q - n] == b[..q][n..];
      if n < q {
        assert x[q - n - 1] == a[q - 1];
      }
      SkipCommon(x, y, q - n, IsDigit(a[0]));
      assert x[q - n..] == a[q..] && y[q - n..] == b[q..];
      FirstToken(a, n);
      FirstToken(b, n);
      SameHead(Head(a), Tokens(x), Tokens(y), after);
    }
  }

  lemma SameHead(t: Token, xs: seq<Token>, ys: seq<Token>, after: bool)
    ensures Precedes([t] + xs, [t] + ys, after) == Precedes(xs, ys, t.Number?)
  {
    assert ([t] + xs)[1..] == xs && ([t] + ys)[1..] == ys;
  }

  /** The length of the first token of both strings. */
  lemma FirstLength(a: string, b: string, q: nat) returns (n: nat)
    requires 0 < q <= |a| && q <= |b| && a[..q] == b[..q] && !IsDigit(a[q - 1])
    ensures 0 < n <= q && (n == q ==> !IsDigit(a[0]))
    ensures if IsDigit(a[0]) then Run(a, 0) == Run(b, 0) == a[..n] && IsDigit(b[0]) else n == 1 && !IsDigit(b[0])
  {
    assert forall i :: 0 <= i < q ==> a[..q][i] == a[i] == b[i];
    n := 1;
    if IsDigit(a[0]) {
      var r := Run(a, 0);
      n := |r|;
      forall k | 0 <= k < n
        ensures IsDigit(a[k])
      {
        assert r[k] == a[0 + k];
      }
      assert b[0..0 + n] == r;
      RunIs(b, 0, n);
    }
  }

  lemma FirstToken(a: string, n: nat)
    requires a != "" && n <= |a| && if IsDigit(a[0]) then Run(a, 0) == a[..n] else n == 1
    ensures Tokens(a) == [Head(a)] + Tokens(a[n..]) && Tokens(a)[1..] == Tokens(a[n..])
  {}

  /** The first token of a string. */
  function Head(s: string): Token
    requires s != ""
  {
    if IsDigit(s[0]) then Number(Spelled(0, Run(s, 0)), |Run(s, 0)|)
    else if IsLetter(s[0]) then Letter(s[0])
    else Symbol(s[0])
  }

  /** Heads that differ decide. */
  lemma HeadsDecide(x: string, y: string, after: bool)
    requires x != "" && y != "" && Head(x) != Head(y)
    ensures Precedes(Tokens(x), Tokens(y), after) == Before(Head(x), Head(y), after)
  {}

  /** At the first character that differs, with no digits before it. */
  lemma AgreesAtStart(a: string, b: string, i: nat)
    requires i < |a| && i < |b| && a[i] != b[i] && (i > 0 ==> !IsDigit(a[i - 1]))
    ensures LessAt(a, b, i) == Precedes(Tokens(a[i..]), Tokens(b[i..]), false)
  {
    hide Tokens, Precedes, Run, Spelled, HasNonZero;
    var x, y := a[i..], b[i..];
    RunBehind(a, i, i);
    RunBehind(b, i, i);
    var da, db := Run(a, i), Run(b, i);
    assert a[i..i] + da == da && b[i..i] + db == db;
    StartsAtZero(a, b, i);
    if IsDigit(a[i]) && IsDigit(b[i]) {
      assert da[0] == a[i] && db[0] == b[i] by {
        DigitsRun(a, i);
        DigitsRun(b, i);
      }
      if |da| == |db| && Spelled(0, da) == Spelled(0, db) {
        SameNumber(da, db);
      }
    } else {
      SymbolBeforeNumber(a, i);
      SymbolBeforeNumber(b, i);
    }
    HeadsDecide(x, y, false);
  }

  lemma StartsAtZero(a: string, b: string, i: nat)
    requires i < |a| && i < |b| && (i > 0 ==> !IsDigit(a[i - 1]))
    ensures Start(a, b, i) == 0
  {
    assert RunStart(a, i) == i;
    assert a[i..i] == "";
  }

  lemma DigitsRun(s: string, i: nat)
    requires i < |s| && IsDigit(s[i])
    ensures Run(s, i) != "" && Run(s, i)[0] == s[i]
  {}

  /** Where there is no digit nothing is spelled; a digit spells something or is longer. */
  lemma SymbolBeforeNumber(s: string, i: nat)
    requires i < |s|
    ensures !IsDigit(s[i]) ==> Run(s, i) == "" && Spelled(0, Run(s, i)) == 0
    ensures IsDigit(s[i]) ==> Run(s, i) != "" && Spelled(0, Run(s, i)) >= 0
  {
    SpelledLinear(0, Run(s, i));
  }

  /** The number at the beginning of what is left when the digits before i are put back. */
  lemma HeadBehind(s: string, q: nat, i: nat)
    requires q < i <= |s| && AllDigits(s[q..i])
    ensures IsDigit(s[q]) && AllDigits(s[q..i] + Run(s, i))
    ensures var r := s[q..i] + Run(s, i); Head(s[q..]) == Number(Spelled(0, r), |r|)
    ensures i < |s| && !IsDigit(s[i]) ==> Tokens(s[q..]) == [Head(s[q..])] + Tokens(s[i..])
  {
    hide Spelled;
    assert s[q..i][0] == s[q];
    RunBehind(s, q, i);
    if i < |s| && !IsDigit(s[i]) {
      SymbolBeforeNumber(s, i);
      assert s[q..i] + "" == s[q..i];
      var r := s[q..i];
      assert s[q..][..|r|] == r && s[q..][|r|..] == s[i..];
      FirstToken(s[q..], |r|);
    }
  }

  /** At the first character that differs, with digits before it and at least one after. */
  lemma AgreesInNumber(a: string, b: string, i: nat, q: nat)
    requires q < i < |a| && i < |b| && a[i] != b[i] && a[..i] == b[..i]
    requires q == RunStart(a, i) && IsDigit(a[i - 1]) && (IsDigit(a[i]) || IsDigit(b[i]))
    ensures LessAt(a, b, i) == Precedes(Tokens(a[q..]), Tokens(b[q..]), false)
  {
    hide Tokens, Precedes, Run, Spelled, HasNonZero, AllDigits, RunStart, NumberBefore;
    var d, da, db, c := a[q..i], Run(a, i), Run(b, i), Start(a, b, i);
    assert b[q..i] == d by { assert a[..i][q..] == d && b[..i][q..] == b[q..i]; }
    HeadBehind(a, q, i);
    HeadBehind(b, q, i);
    StartIs(a, b, i, d);
    NumbersAgree(d, da, db, c);
    RunsDiffer(a, b, i, d, c);
    HeadsDecide(a[q..], b[q..], false);
    NumberHeads(d + da, d + db);
    RestDecides(a, b, i, c);
  }

  lemma StartIs(a: string, b: string, i: nat, d: string)
    requires i < |a| && i < |b| && d == a[RunStart(a, i)..i]
    ensures Start(a, b, i) == if HasNonZero(d) && (LeadsZero(Run(a, i)) || LeadsZero(Run(b, i))) then 1 else 0
  {
    if IsDigit(a[i]) {
      DigitsRun(a, i);
    } else {
      SymbolBeforeNumber(a, i);
    }
    if IsDigit(b[i]) {
      DigitsRun(b, i);
    } else {
      SymbolBeforeNumber(b, i);
    }
  }

  /** Runs that begin differently make different numbers. */
  lemma RunsDiffer(a: string, b: string, i: nat, d: string, c: int)
    requires i < |a| && i < |b| && a[i] != b[i] && AllDigits(d) && (IsDigit(a[i]) || IsDigit(b[i]))
    ensures var da, db := Run(a, i), Run(b, i);
      && AllDigits(d + da) && AllDigits(d + db)
      && (|d + da| != |d + db| || Spelled(0, d + da) != Spelled(0, d + db))
      && (|da| != |db| || Spelled(c, da) != Spelled(c, db))
  {
    hide Spelled, Pow10;
    var da, db := Run(a, i), Run(b, i);
    NumberParts(d, da, c);
    NumberParts(d, db, c);
    if |da| == |db| {
      DigitOrNot(a, i);
      DigitOrNot(b, i);
      if Spelled(0, da) == Spelled(0, db) {
        SameNumber(da, db);
      }
    }
  }

  lemma DigitOrNot(s: string, i: nat)
    requires i < |s|
    ensures if IsDigit(s[i]) then Run(s, i) != "" && Run(s, i)[0] == s[i] else Run(s, i) == ""
  {}

  lemma NumberHeads(r: string, t: string)
    requires AllDigits(r) && AllDigits(t)
    ensures Before(Number(Spelled(0, r), |r|), Number(Spelled(0, t), |t|), false)
         == NumberBefore(Spelled(0, r), |r|, Spelled(0, t), |t|)
  {
    hide Spelled;
  }

  /** Whatever is not a digit comes before the digits that would continue the number. */
  lemma RestDecides(a: string, b: string, i: nat, c: int)
    requires i < |a| && i < |b| && a[i] != b[i] && i > 0 && IsDigit(a[i - 1]) && (IsDigit(a[i]) || IsDigit(b[i]))
    requires c == Start(a, b, i)
    requires var da, db := Run(a, i), Run(b, i); |da| != |db| || Spelled(c, da) != Spelled(c, db)
    ensures var da, db := Run(a, i), Run(b, i);
      LessAt(a, b, i) == NumberBefore(Spelled(c, da), |da|, Spelled(c, db), |db|)
  {
    hide Run, Spelled, HasNonZero, RunStart, Pow10;
    var da, db := Run(a, i), Run(b, i);
    DigitOrNot(a, i);
    DigitOrNot(b, i);
    AtLeastStart(c, da);
    AtLeastStart(c, db);
  }

  lemma AtLeastStart(c: int, s: string)
    requires AllDigits(s) && c >= 0
    ensures Spelled(c, s) >= c && (s == "" ==> Spelled(c, s) == c)
  {
    if s != "" {
      hide *;
      SpelledLinear(c, s);
      Grows(c, Pow10(|s|));
    }
  }

  lemma Grows(c: int, p: int)
    requires c >= 0 && p >= 1
    ensures c * p >= c
  {}

  /** At the first character that differs, right behind a number. */
  lemma AgreesAfterNumber(a: string, b: string, i: nat, q: nat)
    requires q < i < |a| && i < |b| && a[i] != b[i] && a[..i] == b[..i]
    requires q == RunStart(a, i) && IsDigit(a[i - 1]) && !IsDigit(a[i]) && !IsDigit(b[i])
    ensures LessAt(a, b, i) == Precedes(Tokens(a[q..]), Tokens(b[q..]), false)
  {
    hide Tokens, Precedes, Run, Spelled, HasNonZero, AllDigits, RunStart;
    var d := a[q..i];
    assert b[q..i] == d by { assert a[..i][q..] == d && b[..i][q..] == b[q..i]; }
    HeadBehind(a, q, i);
    HeadBehind(b, q, i);
    SymbolBeforeNumber(a, i);
    SymbolBeforeNumber(b, i);
    SameHead(Head(a[q..]), Tokens(a[i..]), Tokens(b[i..]), false);
    HeadsDecide(a[i..], b[i..], true);
  }

  /** A string that ends in digits, and one that goes on behind them. */
  lemma PrefixInNumber(a: string, b: string, q: nat)
    requires q < |a| < |b| && b[..|a|] == a && AllDigits(a[q..]) && AllDigits(b[q..|a|])
    ensures Precedes(Tokens(a[q..]), Tokens(b[q..]), false)
  {
    hide Tokens, Precedes, Run, Spelled, AllDigits;
    var n := |a|;
    var d := a[q..];
    assert a[q..n] == d && b[q..n] == d by { assert b[..n][q..] == b[q..n]; }
    HeadBehind(a, q, n);
    HeadBehind(b, q, n);
    EmptyRun(a);
    assert d + "" == d;
    DigitOrNot(b, n);
    if IsDigit(b[n]) {
      LongerNumber(d, Run(b, n));
      HeadsDecide(a[q..], b[q..], false);
    } else {
      LastToken(a[q..], d);
      SameHead(Head(a[q..]), [], Tokens(b[n..]), false);
      EndsFirst(b[n..], true);
    }
  }

  lemma LongerNumber(d: string, s: string)
    requires AllDigits(d) && AllDigits(s) && s != ""
    ensures AllDigits(d + s) && Spelled(0, d + s) >= Spelled(0, d) && |d + s| > |d|
  {
    hide Spelled, Pow10;
    SpelledLinear(0, d);
    AtLeastStart(Spelled(0, d), s);
    SpelledConcat(0, d, s);
  }

  /** A string comes before every longer string that begins with it. */
  lemma AgreesOnPrefix(a: string, b: string)
    requires |a| < |b| && b[..|a|] == a
    ensures Precedes(Tokens(a), Tokens(b), false)
  {
    hide Tokens, Precedes, Run, Spelled, AllDigits;
    var n := |a|;
    var q := RunStart(a, n);
    assert a[..q] == b[..q];
    SkipCommon(a, b, q, false);
    if q == n {
      assert a[n..] == "";
      EndsFirst(b[n..], false);
    } else {
      assert a[q..n] == a[q..] && b[q..n] == a[q..] by { assert b[..n][q..] == b[q..n]; }
      PrefixInNumber(a, b, q);
    }
  }

  lemma EmptyRun(s: string)
    ensures Run(s, |s|) == ""
  {}

  lemma EndsFirst(s: string, after: bool)
    requires s != ""
    ensures Tokens("") == [] && Precedes([], Tokens(s), after)
  {}

  lemma LastToken(s: string, d: string)
    requires s == d && d != "" && AllDigits(d)
    ensures Tokens(s) == [Head(s)] + []
  {
    assert s[0..|s|] == s;
    RunIs(s, 0, |s|);
    assert s[|s|..] == "";
  }

  /** `Less` on strings is the lexicographic order of their tokens. */
  lemma LessIsTokenOrder(a: string, b: string)
    ensures Less(a, b) == Precedes(Tokens(a), Tokens(b), false)
  {
    hide Tokens, Precedes, Run, Spelled, AllDigits, LessAt;
    var i := FirstDifference(a, b, 0);
    assert a[..i] == b[..i];
    if i == |a| || i == |b| {
      if |a| < |b| {
        AgreesOnPrefix(a, b);
      } else if |b| < |a| {
        AgreesOnPrefix(b, a);
        if Precedes(Tokens(a), Tokens(b), false) {
          Transitive(Tokens(a), Tokens(b), Tokens(a), false);
          Irreflexive(Tokens(a), false);
        }
      } else {
        assert a == b;
        Irreflexive(Tokens(a), false);
      }
    } else {
      var q := RunStart(a, i);
      assert a[..q] == b[..q];
      SkipCommon(a, b, q, false);
      if q == i {
        NotInRun(a, i);
        AgreesAtStart(a, b, i);
      } else {
        InRun(a, i);
        if IsDigit(a[i]) || IsDigit(b[i]) {
          AgreesInNumber(a, b, i, q);
        } else {
          AgreesAfterNumber(a, b, i, q);
        }
      }
    }
  }

  lemma NotInRun(s: string, i: nat)
    requires i <= |s| && RunStart(s, i) == i
    ensures i > 0 ==> !IsDigit(s[i - 1])
  {}

  lemma InRun(s: string, i: nat)
    requires i <= |s| && RunStart(s, i) < i
    ensures IsDigit(s[i - 1])
  {}

  // ----- the tokens say everything -----

  /** Two strings with the same tokens are the same. */
  lemma {:induction false} TokensInjective(a: string, b: string)
    requires Tokens(a) == Tokens(b)
    ensures a == b
    decreases |a|
  {
    hide Run, Spelled;
    if a != "" && b != "" {
      var m, n := HeadLength(a), HeadLength(b);
      HeadOf(a);
      HeadOf(b);
      if IsDigit(a[0]) {
        SameNumber(Run(a, 0), Run(b, 0));
      }
      TokensInjective(a[m..], b[n..]);
      assert a == a[..m] + a[m..] && b == b[..n] + b[n..];
    }
  }

  function HeadLength(s: string): (n: nat)
    requires s != ""
    ensures 0 < n <= |s|
  {
    if IsDigit(s[0]) then
      DigitsRun(s, 0);
      |Run(s, 0)|
    else 1
  }

  lemma HeadOf(s: string)
    requires s != ""
    ensures Tokens(s) != [] && Tokens(s)[0] == Head(s) && Tokens(s)[1..] == Tokens(s[HeadLength(s)..])
    ensures if IsDigit(s[0]) then Run(s, 0) == s[..HeadLength(s)] else s[..HeadLength(s)] == [s[0]]
  {
    if !IsDigit(s[0]) {
      assert s[..1] == [s[0]];
    }
  }

  /** `Less` on strings is a strict total order. */
  lemma LessIsStrictTotal(a: string, b: string, c: string)
    ensures !Less(a, a)
    ensures a != b ==> Less(a, b) || Less(b, a)
    ensures Less(a, b) ==> !Less(b, a)
    ensures Less(a, b) && Less(b, c) ==> Less(a, c)
  {
    hide Less, Tokens, Precedes;
    LessIsTokenOrder(a, a);
    LessIsTokenOrder(a, b);
    LessIsTokenOrder(b, a);
    LessIsTokenOrder(b, c);
    LessIsTokenOrder(a, c);
    var x, y, z := Tokens(a), Tokens(b), Tokens(c);
    Irreflexive(x, false);
    if a != b {
      if x == y {
        TokensInjective(a, b);
      } else {
        Total(x, y, false);
      }
    }
    if Less(a, b) && Less(b, a) {
      Transitive(x, y, x, false);
    }
    if Less(a, b) && Less(b, c) {
      Transitive(x, y, z, false);
    }
  }

  // ----- the order that a reader expects -----

  /** Strings that go on differently behind a common beginning. */
  lemma DifferBehind(p: string, a: string, b: string)
    requires a != "" && b != "" && a[0] != b[0]
    ensures FirstDifference(p + a, p + b, 0) == |p|
    ensures Less(p + a, p + b) == LessAt(p + a, p + b, |p|)
  {
    hide LessAt;
    assert (p + a)[|p|] == a[0] && (p + b)[|p|] == b[0];
    assert forall k :: 0 <= k < |p| ==> (p + a)[k] == p[k] == (p + b)[k];
  }

  predicate EndsInDigit(p: string) { p != "" && IsDigit(p[|p| - 1]) }

  /** A beginning comes before what it begins. */
  lemma BeginningFirst(p: string, a: string)
    requires a != ""
    ensures Less(p, p + a) && !Less(p + a, p)
  {
    assert (p + a)[..|p|] == p;
    LessIsTokenOrder(p, p + a);
    AgreesOnPrefix(p, p + a);
    LessIsStrictTotal(p, p + a, p);
  }

  /** Letters are in the order of the alphabet, all capitals first. */
  lemma LettersByCode(p: string, a: string, b: string)
    requires a != "" && b != "" && IsLetter(a[0]) && IsLetter(b[0]) && a[0] < b[0]
    ensures Less(p + a, p + b) && !Less(p + b, p + a)
  {
    DifferBehind(p, a, b);
    DifferBehind(p, b, a);
  }

  /** A letter comes behind anything else, but before it right behind a number. */
  lemma LetterOrNot(p: string, a: string, b: string)
    requires a != "" && b != "" && IsLetter(a[0]) && !IsLetter(b[0])
    ensures Less(p + a, p + b) == EndsInDigit(p) && Less(p + b, p + a) == !EndsInDigit(p)
  {
    DifferBehind(p, a, b);
    DifferBehind(p, b, a);
  }

  /** Symbols are in the order of their codes, and come before digits. */
  lemma SymbolsFirst(p: string, a: string, b: string)
    requires a != "" && b != "" && !IsLetter(a[0]) && !IsLetter(b[0]) && !IsDigit(a[0])
    requires IsDigit(b[0]) || a[0] < b[0]
    ensures Less(p + a, p + b) && !Less(p + b, p + a)
  {
    hide RunStart, HasNonZero, Spelled, Run;
    var x, y := p + a, p + b;
    DifferBehind(p, a, b);
    DigitOrNot(x, |p|);
    DigitOrNot(y, |p|);
    var c := Start(x, y, |p|);
    AtLeastStart(c, Run(x, |p|));
    AtLeastStart(c, Run(y, |p|));
    LessIsStrictTotal(x, y, x);
  }

  /** Numbers behind a common beginning are in the order of what they are worth, and of two
      that are worth the same the shorter one comes first, whatever follows them. */
  lemma NumbersByValue(p: string, m: string, s: string, n: string, t: string)
    requires !EndsInDigit(p) && AllDigits(m) && AllDigits(n) && m != "" && n != ""
    requires (s == "" || !IsDigit(s[0])) && (t == "" || !IsDigit(t[0]))
    requires Spelled(0, m) < Spelled(0, n) || (Spelled(0, m) == Spelled(0, n) && |m| < |n|)
    ensures Less(p + m + s, p + n + t) && !Less(p + n + t, p + m + s)
  {
    hide Tokens, Precedes, Run, Spelled, Less, AllDigits;
    var a, b := p + m + s, p + n + t;
    assert a[..|p|] == p == b[..|p|] && a[|p|..] == m + s && b[|p|..] == n + t;
    LessIsTokenOrder(a, b);
    SkipCommon(a, b, |p|, false);
    NumberHead(m, s);
    NumberHead(n, t);
    HeadsDecide(m + s, n + t, false);
    LessIsStrictTotal(a, b, a);
  }

  lemma NumberHead(m: string, s: string)
    requires AllDigits(m) && m != "" && (s == "" || !IsDigit(s[0]))
    ensures Head(m + s) == Number(Spelled(0, m), |m|)
  {
    assert (m + s)[0..0 + |m|] == m;
    RunIs(m + s, 0, |m|);
  }

  /** What digits are worth: each is one of ten, and the last counts once. */
  lemma Worth(m: string, c: char)
    requires AllDigits(m) && IsDigit(c)
    ensures AllDigits(m + [c]) && Spelled(0, [c]) == c as int - 48 && Spelled(0, m + [c]) == 10 * Spelled(0, m) + Spelled(0, [c])
  {
    assert (m + [c])[..|m|] == m && [c][..0] == "";
  }

  // ----- keys of every kind -----

  /** A key as far as `Less` looks at it: a number or a boolean with its kind and value, a
      string, or something else with its kind. The kinds of numbers lie next to each other,
      before that of strings; NaN is left out. */
  datatype KeyValue = NumberKey(kind: nat, value: real) | StringKey(text: string) | OtherKey(kind: nat)

  const FIRST_NUMBER_KIND := 1
  const LAST_NUMBER_KIND := 14
  const STRING_KIND := 24

  predicate ValidKey(k: KeyValue) {
    match k
    case NumberKey(kind, _) => FIRST_NUMBER_KIND <= kind <= LAST_NUMBER_KIND
    case StringKey(_) => true
    case OtherKey(kind) => (kind < FIRST_NUMBER_KIND || kind > LAST_NUMBER_KIND) && kind != STRING_KIND
  }

  function KindOf(k: KeyValue): nat {
    match k
    case NumberKey(kind, _) => kind
    case StringKey(_) => STRING_KIND
    case OtherKey(kind) => kind
  }

  /** How `keyFloat` makes a float64 of a number: large integers are rounded, but never past
      each other. */
  ghost predicate Monotone(round: real -> real) {
    forall x, y :: x <= y ==> round(x) <= round(y)
  }

  /** `keyList.Less`. Numbers of one kind that are rounded to the same float64 are left to
      `numLess`, which compares them as they are. */
  predicate KeyLess(round: real -> real, a: KeyValue, b: KeyValue) {
    if a.NumberKey? && b.NumberKey? then
      if round(a.value) != round(b.value) then round(a.value) < round(b.value)
      else if a.kind != b.kind then a.kind < b.kind
      else a.value < b.value
    else if a.StringKey? && b.StringKey? then Less(a.text, b.text)
    else KindOf(a) < KindOf(b)
  }

  /** Keys that are neither before nor behind each other: equal ones, and ones of the same
      kind that is neither a number nor a string. */
  predicate Unordered(round: real -> real, a: KeyValue, b: KeyValue) { !KeyLess(round, a, b) && !KeyLess(round, b, a) }

  /** Keys of any kinds are in a strict weak order, as sorting needs, however numbers are
      rounded; numbers and strings that differ are never left unordered. */
  lemma KeysAreOrdered(round: real -> real, a: KeyValue, b: KeyValue, c: KeyValue)
    requires ValidKey(a) && ValidKey(b) && ValidKey(c)
    ensures !KeyLess(round, a, a)
    ensures KeyLess(round, a, b) && KeyLess(round, b, c) ==> KeyLess(round, a, c)
    ensures Unordered(round, a, b) && Unordered(round, b, c) ==> Unordered(round, a, c)
    ensures Unordered(round, a, b) <==> a == b || (a.OtherKey? && b.OtherKey? && a.kind == b.kind)
  {
    hide Less;
    if a.StringKey? && b.StringKey? {
      LessIsStrictTotal(a.text, b.text, if c.StringKey? then c.text else "");
    }
    if b.StringKey? && c.StringKey? {
      LessIsStrictTotal(b.text, c.text, "");
    }
    if a.StringKey? {
      LessIsStrictTotal(a.text, if c.StringKey? then c.text else "", "");
    }
  }

  /** Strings are in the order of strings; a number comes before a string, and kinds that
      cannot be compared are in the order of the kinds. */
  lemma ByKind(round: real -> real, a: KeyValue, b: KeyValue)
    requires ValidKey(a) && ValidKey(b)
    ensures a.StringKey? && b.StringKey? ==> KeyLess(round, a, b) == Less(a.text, b.text)
    ensures a.NumberKey? && b.StringKey? ==> KeyLess(round, a, b)
    ensures a.OtherKey? || b.OtherKey? ==> (KeyLess(round, a, b) <==> KindOf(a) < KindOf(b))
  {
    hide Less;
  }

  /** Numbers of one kind are in the order of their values, whatever rounding does. */
  lemma OneKindByValue(round: real -> real, a: KeyValue, b: KeyValue)
    requires Monotone(round) && a.NumberKey? && b.NumberKey? && a.kind == b.kind
    ensures KeyLess(round, a, b) <==> a.value < b.value
  {
    if a.value <= b.value {
      assert round(a.value) <= round(b.value);
    } else {
      assert round(b.value) <= round(a.value);
    }
  }

  /** Numbers of different kinds are in the order of their values, unless rounding makes them
      equal; then it is that of their kinds, and may be the other way round. */
  lemma KindsByValueIff(round: real -> real, a: KeyValue, b: KeyValue)
    requires Monotone(round) && a.NumberKey? && b.NumberKey? && a.value < b.value
    ensures KeyLess(round, a, b) <==> round(a.value) != round(b.value) || a.kind <= b.kind
  {
    assert round(a.value) <= round(b.value);
  }

  /** The int 9007199254740993 and the float 9007199254740992, which are one float64: the int
      comes first, for its kind, though it is larger. */
  lemma LargerComesFirst(round: real -> real)
    requires Monotone(round) && round(9007199254740993.0) == round(9007199254740992.0)
    ensures var a, b := NumberKey(2, 9007199254740993.0), NumberKey(14, 9007199254740992.0);
      ValidKey(a) && ValidKey(b) && KeyLess(round, a, b) && a.value > b.value
  {
    KindsByValueIff(round, NumberKey(14, 9007199254740992.0), NumberKey(2, 9007199254740993.0));
  }

  // ----- the loops -----

  /** The string part of `Less`, with its loops. */
  method StringLess(ar: string, br: string) returns (less: bool)
    ensures less == Less(ar, br)
  {
    hide Run, Spelled;
    var digits := false;
    var i := 0;
    ghost var k := FirstDifference(ar, br, 0);
    while i < |ar| && i < |br|
      invariant i <= k && k == FirstDifference(ar, br, i)
      invariant digits == (i > 0 && IsDigit(ar[i - 1]))
    {
      if ar[i] == br[i] {
        digits := IsDigit(ar[i]);
        i := i + 1;
      } else {
        less := DecideAt(ar, br, i, digits);
        return;
      }
    }
    less := |ar| < |br|;
  }

  method DecideAt(ar: string, br: string, i: nat, digits: bool) returns (less: bool)
    requires i < |ar| && i < |br| && digits == (i > 0 && IsDigit(ar[i - 1]))
    ensures less == LessAt(ar, br, i)
  {
    hide Run, Spelled, Start;
    var al, bl := IsLetter(ar[i]), IsLetter(br[i]);
    if al && bl {
      return ar[i] < br[i];
    }
    if al || bl {
      return if digits then al else bl;
    }
    var start := LookBack(ar, br, i);
    var an, ai := ReadNumber(ar, i, start);
    var bn, bi := ReadNumber(br, i, start);
    if an != bn {
      return an < bn;
    }
    if ai != bi {
      return ai < bi;
    }
    return ar[i] < br[i];
  }

  /** Looks back over the digits before i for one that is not zero, if there is a zero at i. */
  method LookBack(ar: string, br: string, i: nat) returns (start: int)
    requires i < |ar| && i < |br|
    ensures start == Start(ar, br, i)
  {
    hide IsDigit, HasNonZero, Run, Spelled;
    start := 0;
    if ar[i] == '0' || br[i] == '0' {
      var j := i - 1;
      ghost var q := RunStart(ar, i);
      assert ar[i..i] == "";
      NoneYet();
      while j >= 0 && IsDigit(ar[j])
        invariant -1 <= j < i && q == RunStart(ar, j + 1)
        invariant !HasNonZero(ar[j + 1..i])
      {
        OneMore(ar, q, j, i);
        if ar[j] != '0' {
          return 1;
        }
        j := j - 1;
      }
      assert q == j + 1;
    }
  }

  lemma NoneYet()
    ensures !HasNonZero("")
  {}

  lemma OneMore(s: string, q: nat, j: nat, i: nat)
    requires q <= j < i <= |s|
    ensures s[j] != '0' ==> HasNonZero(s[q..i])
    ensures s[j] == '0' ==> HasNonZero(s[j..i]) == HasNonZero(s[j + 1..i])
  {
    assert s[q..i][j - q] == s[j];
    var r := s[j + 1..i];
    assert s[j..i] == [s[j]] + r;
    if k :| 0 <= k < |r| && r[k] != '0' {
      assert s[j..i][k + 1] == r[k];
    }
  }

  method ReadNumber(s: string, i: nat, start: int) returns (n: int, end: nat)
    requires i <= |s|
    ensures n == Spelled(start, Run(s, i)) && end == i + |Run(s, i)|
  {
    n, end := start, i;
    while end < |s| && IsDigit(s[end])
      invariant i <= end <= |s| && AllDigits(s[i..end]) && n == Spelled(start, s[i..end])
    {
      assert s[i..end + 1] == s[i..end] + [s[end]];
      n := n * 10 + (s[end] as int - '0' as int);
      end := end + 1;
    }
    RunIs(s, i, end - i);
  }
}
