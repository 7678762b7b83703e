/**
  The decoder's guard against aliases in decode.go: decoding ends on every node graph, also
  on cyclic ones, and the work it does stays linear in the size of the document. Ratios are
  real numbers. Merges and origin records are left out, and every key decodes.
 */
module AliasBudget {
  import opened Basics
  import opened NodeGraph

  // ----- the budget -----

  const RANGE_LOW := 400000
  const RANGE_HIGH := 4000000

  function AllowedAliasRatio(decodeCount: int): real {
    if decodeCount <= RANGE_LOW then 0.99
    else if decodeCount >= RANGE_HIGH then 0.10
    else 0.99 - 0.89 * ((decodeCount - RANGE_LOW) as real / (RANGE_HIGH - RANGE_LOW) as real)
  }

  /** Is the document refused after so many decodes, so many of them inside aliases? */
  predicate Excessive(decodeCount: nat, aliasCount: nat) {
    aliasCount > 100 && decodeCount > 1000 && aliasCount as real / decodeCount as real > AllowedAliasRatio(decodeCount)
  }

  /** The most decodes there can be in all when `outside` of them are not in an alias. */
  function Bound(outside: int): int { Max(1000, Max(outside + 100, 100 * outside)) }

  lemma RatioBounds(d: int)
    ensures 0.10 <= AllowedAliasRatio(d) <= 0.99
  {
    if RANGE_LOW < d < RANGE_HIGH {
      var x := (d - RANGE_LOW) as real / (RANGE_HIGH - RANGE_LOW) as real;
      assert 0.0 <= x <= 1.0;
    }
  }

  /** The allowed ratio never goes up again. */
  lemma RatioFalls(d: int, e: int)
    requires d <= e
    ensures AllowedAliasRatio(e) <= AllowedAliasRatio(d)
  {
    RatioBounds(d);
    RatioBounds(e);
    if RANGE_LOW < d && e < RANGE_HIGH {
      var w := (RANGE_HIGH - RANGE_LOW) as real;
      assert (d - RANGE_LOW) as real / w <= (e - RANGE_LOW) as real / w;
    }
  }

  lemma WithinRatio(d: nat, a: nat, r: real)
    requires d > 0 && a as real / d as real <= r
    ensures a as real <= r * d as real
  {
    assert a as real == (a as real / d as real) * d as real;
  }

  lemma Percent(a: nat, d: nat, k: nat)
    requires a as real <= (k as real / 100.0) * d as real
    ensures 100 * a <= k * d
  {
    var x, y, z := a as real, d as real, k as real;
    assert (z / 100.0) * y == z * y / 100.0;
    assert 100.0 * x <= z * y;
    assert (k * d) as real == z * y;
    assert (100 * a) as real <= (k * d) as real;
  }

  /** What the budget leaves: a bound by the decodes that are outside any alias. */
  lemma WorkIsLinear(d: nat, a: nat)
    requires a <= d && !Excessive(d, a)
    ensures d <= Bound(d - a)
    ensures d >= RANGE_HIGH ==> 9 * d <= 10 * (d - a)
  {
    if a > 100 && d > 1000 {
      var r := AllowedAliasRatio(d);
      RatioBounds(d);
      WithinRatio(d, a, r);
      assert r * d as real <= 0.99 * d as real by {
        assert (0.99 - r) * d as real >= 0.0;
      }
      Percent(a, d, 99);
      if d >= RANGE_HIGH {
        Percent(a, d, 10);
      }
    }
  }

  /** How many of d decodes may be inside aliases. */
  function Allowance(d: nat): real { AllowedAliasRatio(d) * d as real }

  /** Where the allowance is largest. */
  const PEAK := 2202247

  /** In the range the allowance is a parabola. */
  lemma Parabola(d: nat)
    requires RANGE_LOW <= d <= RANGE_HIGH
    ensures var x := d as real; 3600000.0 * Allowance(d) == 3920000.0 * x - 0.89 * x * x
  {
    var x := d as real;
    var w := (RANGE_HIGH - RANGE_LOW) as real;
    assert AllowedAliasRatio(d) == 0.99 - 0.89 * ((x - 400000.0) / w);
    assert w * ((x - 400000.0) / w) == x - 400000.0;
    assert w * AllowedAliasRatio(d) == 0.99 * w - 0.89 * (x - 400000.0);
    assert w * AllowedAliasRatio(d) * x == (0.99 * w - 0.89 * (x - 400000.0)) * x;
    assert w * Allowance(d) == w * AllowedAliasRatio(d) * x;
  }

  lemma Sign(a: real, b: real)
    ensures a * b <= 0.0 <==> a == 0.0 || b == 0.0 || (a < 0.0 <==> b > 0.0)
  {
    if a > 0.0 && b > 0.0 {
      assert a * b > 0.0;
    } else if a < 0.0 && b < 0.0 {
      assert (-a) * (-b) > 0.0;
    } else if a > 0.0 && b < 0.0 {
      assert a * (-b) > 0.0;
    } else if a < 0.0 && b > 0.0 {
      assert (-a) * b > 0.0;
    }
  }

  /** The comment beside the formula takes it to allow 396,000 to 400,000 decodes inside aliases
      over the range. The lower number holds; the upper one holds exactly up to 404,494
      decodes and at the end of the range. In between the allowance rises to 1,199,001. */
  lemma CommentHoldsIff(d: nat)
    requires RANGE_LOW <= d <= RANGE_HIGH
    ensures Allowance(d) <= 400000.0 <==> d <= 404494 || d == RANGE_HIGH
    ensures 396000.0 <= Allowance(d) <= Allowance(PEAK)
    ensures 1199001.0 < Allowance(PEAK) < 1199002.0
  {
    Parabola(d);
    Parabola(PEAK);
    var x, m := d as real, PEAK as real;
    assert 3600000.0 * (Allowance(d) - 400000.0) == (4000000.0 - x) * (0.89 * x - 360000.0);
    Sign(4000000.0 - x, 0.89 * x - 360000.0);
    assert 3600000.0 * (396000.0 - Allowance(d)) == (x - 400000.0) * (0.89 * x - 3564000.0);
    Sign(x - 400000.0, 0.89 * x - 3564000.0);
    assert 3600000.0 * (Allowance(d) - Allowance(PEAK)) == (x - m) * (3920000.0 - 0.89 * (m + x));
    Sign(x - m, 3920000.0 - 0.89 * (m + x));
  }

  /** In the range, exactly the documents within the allowance are not refused. */
  lemma WithinAllowance(d: nat, a: nat)
    requires RANGE_LOW <= d <= RANGE_HIGH
    ensures !Excessive(d, a) <==> a as real <= Allowance(d)
  {
    CommentHoldsIff(d);
    QuotientIff(a, d, AllowedAliasRatio(d));
  }

  lemma QuotientIff(a: nat, d: nat, r: real)
    requires d > 0
    ensures a as real / d as real > r <==> a as real > r * d as real
  {
    var x, y := a as real, d as real;
    assert x / y * y == x;
    if x / y > r {
      assert (x / y - r) * y > 0.0;
    } else {
      assert (r - x / y) * y >= 0.0;
    }
  }

  /** The same in whole numbers. */
  lemma ScaledIff(a: nat, d: nat, r: real, k: nat, m: int)
    requires k > 0 && k as real * (r * d as real) == m as real
    ensures a as real > r * d as real <==> k * a > m
  {
    var x, s := a as real, k as real;
    assert (k * a) as real == s * x;
    if x > r * d as real {
      assert s * (x - r * d as real) > 0.0;
    } else {
      assert s * (r * d as real - x) >= 0.0;
    }
  }

  /** A document is refused with more than a hundred decodes inside aliases among more than a
      thousand, if they are more than 99 percent of up to 400,000 decodes, more than 10 percent
      of 4,000,000 or more, and above the line between these ratios otherwise. */
  lemma RefusedIff(d: nat, a: nat)
    ensures Excessive(d, a) <==>
      && a > 100 && d > 1000
      && (if d <= 400000 then 100 * a > 99 * d
          else if d >= 4000000 then 10 * a > d
          else 360000000 * a > 392000000 * d - 89 * (d * d))
  {
    hide AllowedAliasRatio;
    if d > 1000 {
      var x, r := d as real, AllowedAliasRatio(d);
      QuotientIff(a, d, r);
      if d <= 400000 {
        assert r == 0.99 by { RatioEnds(d); }
        ScaledIff(a, d, r, 100, 99 * d);
      } else if d >= 4000000 {
        assert r == 0.10 by { RatioEnds(d); }
        ScaledIff(a, d, r, 10, d);
      } else {
        Parabola(d);
        assert (d * d) as real == x * x;
        assert 360000000.0 * (r * x) == 100.0 * (3600000.0 * Allowance(d));
        ScaledIff(a, d, r, 360000000, 392000000 * d - 89 * (d * d));
      }
    }
  }

  lemma RatioEnds(d: int)
    ensures d <= 400000 ==> AllowedAliasRatio(d) == 0.99
    ensures d >= 4000000 ==> AllowedAliasRatio(d) == 0.10
  {}

  /** At the peak, 1,199,001 decodes inside aliases are allowed, and one more is not. */
  lemma MidRangeAllowsMore()
    ensures !Excessive(PEAK, 1199001) && Excessive(PEAK, 1199002)
  {
    CommentHoldsIff(PEAK);
    WithinAllowance(PEAK, 1199001);
    WithinAllowance(PEAK, 1199002);
  }

  // ----- spending it -----

  /** The counts after decoding and whether the document was still within the budget. */
  datatype Spent = Spent(decodes: nat, aliases: nat, ok: bool)

  /** Counting decodes one by one, up to the first that exceeds the budget. */
  ghost function Spend(d: nat, a: nat, marks: seq<bool>): Spent
    decreases |marks|
  {
    if marks == [] then Spent(d, a, true)
    else
      var s := Spend(d, a, marks[..|marks| - 1]);
      if !s.ok then s else Count(s, marks[|marks| - 1])
  }

  function Count(s: Spent, inside: bool): Spent {
    var a := s.aliases + (if inside then 1 else 0);
    Spent(s.decodes + 1, a, !Excessive(s.decodes + 1, a))
  }

  lemma {:induction false} SpendSum(d: nat, a: nat, m: seq<bool>, k: seq<bool>)
    ensures var s := Spend(d, a, m);
      Spend(d, a, m + k) == if s.ok then Spend(s.decodes, s.aliases, k) else s
    decreases |k|
  {
    hide Excessive;
    if k == [] {
      assert m + k == m;
    } else {
      assert (m + k)[..|m + k| - 1] == m + k[..|k| - 1];
      SpendSum(d, a, m, k[..|k| - 1]);
    }
  }

  /** The first decode by itself. */
  lemma SpendFirst(d: nat, a: nat, inside: bool, marks: seq<bool>)
    ensures var s := Count(Spent(d, a, true), inside);
      && Spend(d, a, [inside] + marks) == (if s.ok then Spend(s.decodes, s.aliases, marks) else s)
      && Spend(d, a, [inside]) == s && Spend(d, a, []) == Spent(d, a, true)
  {
    hide Excessive;
    SpendSum(d, a, [inside], marks);
    assert [inside][..0] == [];
  }

  /** Within the budget after the first k decodes. */
  ghost predicate Within(d: nat, a: nat, marks: seq<bool>, k: nat)
    requires k <= |marks|
  {
    !Excessive(d + k, a + Insides(marks[..k]))
  }

  /** The counts are those of the decodes made, which are all of them if no beginning of them
      exceeds the budget, and otherwise those up to the first that does. */
  lemma {:induction false} SpendIs(d: nat, a: nat, marks: seq<bool>)
    ensures var s := Spend(d, a, marks);
      && d <= s.decodes <= d + |marks|
      && s.aliases == a + Insides(marks[..s.decodes - d])
      && (s.ok <==> forall k :: 0 < k <= |marks| ==> Within(d, a, marks, k))
      && (s.ok ==> s.decodes == d + |marks|)
      && (!s.ok ==> s.decodes > d && !Within(d, a, marks, s.decodes - d))
      && (forall k :: 0 < k < s.decodes - d ==> Within(d, a, marks, k))
    decreases |marks|
  {
    hide Excessive, Insides;
    if marks == [] {
      assert Insides(marks[..0]) == 0 by { NoInsides(); }
    } else {
      var n := |marks| - 1;
      var m := marks[..n];
      SpendIs(d, a, m);
      assert forall k :: 0 <= k <= n ==> m[..k] == marks[..k];
      assert forall k :: 0 < k <= n ==> Within(d, a, m, k) == Within(d, a, marks, k);
      var s := Spend(d, a, m);
      if s.ok {
        InsidesNext(marks);
        assert Within(d, a, marks, n + 1) == Count(s, marks[n]).ok;
      }
    }
  }

  lemma NoInsides()
    ensures Insides([]) == 0
  {}

  lemma InsidesNext(marks: seq<bool>)
    requires marks != []
    ensures marks[..|marks|] == marks
    ensures Insides(marks) == Insides(marks[..|marks| - 1]) + (if marks[|marks| - 1] then 1 else 0)
  {
    assert marks[..|marks|] == marks;
  }

  /** The decodes of a list: those done and those left. */
  predicate Splits(all: Walk, done: seq<bool>, rest: Walk) { all == Walk(done + rest.marks, rest.ok) }

  /** An item either ends the list or leaves the rest of it. */
  lemma ItemSpent(d: nat, a: nat, all: Walk, done: seq<bool>, w: Walk, rest: Walk)
    requires Splits(all, done, rest) && |w.marks| <= |rest.marks| && rest.marks[..|w.marks|] == w.marks && (!w.ok ==> rest == w)
    ensures var s := Spend(d, a, done);
      && Spend(d, a, done + w.marks) == (if s.ok then Spend(s.decodes, s.aliases, w.marks) else s)
      && (!Spend(d, a, done + w.marks).ok ==> Spend(d, a, all.marks) == Spend(d, a, done + w.marks))
    ensures !w.ok ==> all.marks == done + w.marks && !all.ok
    ensures Splits(all, done + w.marks, Walk(rest.marks[|w.marks|..], rest.ok))
  {
    hide Spend;
    var behind := rest.marks[|w.marks|..];
    assert rest.marks == w.marks + behind;
    Assoc(done, w.marks, behind);
    SpendSum(d, a, done, w.marks);
    SpendSum(d, a, done + w.marks, behind);
  }

  class Decoder {
    const graph: seq<Node>
    var aliases: set<nat>
    var decodeCount: nat
    var aliasCount: nat
    var aliasDepth: nat

    ghost predicate Valid()
      reads this
    {
      && ValidGraph(graph) && aliases <= AliasNodes(graph) && aliasDepth == |aliases|
      && aliasCount <= decodeCount && !Excessive(decodeCount, aliasCount)
    }

    /** The decodes so far that were outside any alias. */
    function Outside(): int
      reads this
    {
      decodeCount - aliasCount
    }

    constructor (graph: seq<Node>)
      requires ValidGraph(graph)
      ensures Valid() && this.graph == graph && aliases == {} && decodeCount == 0 && aliasCount == 0
    {
      this.graph := graph;
      aliases, decodeCount, aliasCount, aliasDepth := {}, 0, 0, 0;
    }

    /** Decoding follows the unfolding of the node, counts each decode, and stops at the first
        that exceeds the budget or at an alias met inside itself. */
    twostate predicate Follows(ok: bool, w: Walk)
      reads this
    {
      var s := Spend(old(decodeCount), old(aliasCount), w.marks);
      && decodeCount == s.decodes && aliasCount == s.aliases && ok == (s.ok && w.ok)
      && (ok ==> Valid() && aliases == old(aliases) && aliasDepth == old(aliasDepth))
    }

    /** `decoder.unmarshal` */
    method Unmarshal(n: nat) returns (ok: bool)
      requires Valid() && n < |graph|
      modifies this
      ensures Follows(ok, Unfold(graph, n, old(aliases)))
      decreases |AliasNodes(graph) - aliases|, graph[n].end - n, 2
    {
      hide ValidGraph, AllowedAliasRatio, AliasNodes, Spend, Unfold, UnfoldFrom;
      NodeEnd(graph, n);
      ghost var behind := UnfoldHead(graph, n, aliases);
      SpendFirst(decodeCount, aliasCount, aliases != {}, behind.marks);
      decodeCount := decodeCount + 1;
      if aliasDepth > 0 {
        aliasCount := aliasCount + 1;
      }
      if aliasCount > 100 && decodeCount > 1000
         && aliasCount as real / decodeCount as real > AllowedAliasRatio(decodeCount) {
        return false;
      }
      if graph[n].Alias? {
        ok := DecodeAlias(n);
      } else if graph[n].Collection? {
        ok := DecodeContent(n);
      } else {
        return true;
      }
    }

    method DecodeAlias(n: nat) returns (ok: bool)
      requires Valid() && n < |graph| && graph[n].Alias?
      modifies this
      ensures n in old(aliases) ==> Follows(ok, Walk([], false))
      ensures n !in old(aliases) ==>
        && graph[n].target < |graph| && old(aliases) + {n} <= AliasNodes(graph)
        && Follows(ok, Unfold(graph, graph[n].target, old(aliases) + {n}))
      decreases |AliasNodes(graph) - aliases|, 0, 1
    {
      hide ValidGraph, AllowedAliasRatio, Excessive, Spend, Unfold;
      SpendFirst(decodeCount, aliasCount, false, []);
      if n in aliases {
        return false;
      }
      NodeEnd(graph, n);
      OneLeft(graph, n, aliases);
      ghost var was := aliases;
      aliases := aliases + {n};
      aliasDepth := aliasDepth + 1;
      ok := Unmarshal(graph[n].target);
      if ok {
        aliasDepth := aliasDepth - 1;
        aliases := aliases - {n};
        assert aliases == was;
      }
    }

    /** The items of a sequence, or the keys and values of a mapping. */
    method DecodeContent(n: nat) returns (ok: bool)
      requires Valid() && n < |graph| && graph[n].Collection?
      modifies this
      ensures Follows(ok, UnfoldFrom(graph, n, 0, old(aliases)))
      decreases |AliasNodes(graph) - aliases|, graph[n].end - n, 1
    {
      hide ValidGraph, AllowedAliasRatio, Excessive, AliasNodes, Spend, Unfold, UnfoldFrom;
      SpendFirst(decodeCount, aliasCount, false, []);
      ghost var all := UnfoldFrom(graph, n, 0, aliases);
      ghost var done: seq<bool> := [];
      var content := graph[n].content;
      for i := 0 to |content|
        invariant Follows(true, Walk(done, true))
        invariant Splits(all, done, UnfoldFrom(graph, n, i, aliases))
      {
        Child(graph, n, i);
        ghost var w, rest := Unfold(graph, content[i], aliases), UnfoldFrom(graph, n, i, aliases);
        ItemUnfolds(graph, n, i, aliases);
        ItemSpent(old(decodeCount), old(aliasCount), all, done, w, rest);
        ok := Unmarshal(content[i]);
        if !ok {
          return;
        }
        done := done + w.marks;
      }
      ItemUnfolds(graph, n, |content|, aliases);
      assert done + [] == done;
      ok := true;
    }
  }

  // ----- whole documents -----

  /** Does no beginning of the decodes exceed the budget? */
  ghost predicate Affordable(marks: seq<bool>) {
    forall k :: 0 < k <= |marks| ==> Within(0, 0, marks, k)
  }

  /** Decoding a document ends. It succeeds exactly if no alias leads back to itself and no
      beginning of the decodes exceeds the budget, after as many decodes as there are paths;
      these are at most a hundred for each of its nodes, or a thousand, and for very large
      documents one ninth more than its nodes. When it fails, it has not gone further than one
      decode beyond that. */
  method DecodeDocument(graph: seq<Node>, root: nat) returns (ok: bool, decodes: nat)
    requires ValidGraph(graph) && root < |graph|
    ensures ok <==> !Cyclic(graph, root) && Affordable(Unfold(graph, root, {}).marks)
    ensures ok ==> decodes == |Unfold(graph, root, {}).marks| >= graph[root].end - root
    ensures ok ==> decodes <= Bound(|graph|) && (decodes >= RANGE_HIGH ==> 9 * decodes <= 10 * |graph|)
    ensures decodes <= Bound(|graph|) + 1
  {
    hide ValidGraph, Excessive, Unfold, Cyclic, Affordable, Spend;
    var d := new Decoder(graph);
    NodeEnd(graph, root);
    ok := d.Unmarshal(root);
    decodes := d.decodeCount;
    DocumentSpent(graph, root);
  }

  /** What is spent on a document. */
  lemma DocumentSpent(g: seq<Node>, n: nat)
    requires ValidGraph(g) && n < |g|
    ensures var w := Unfold(g, n, {});
      var s := Spend(0, 0, w.marks);
      && (s.ok && w.ok <==> !Cyclic(g, n) && Affordable(w.marks))
      && (s.ok ==> s.decodes == |w.marks| <= Bound(|g|) && (s.decodes >= RANGE_HIGH ==> 9 * s.decodes <= 10 * |g|))
      && (w.ok ==> |w.marks| >= g[n].end - n)
      && s.decodes <= Bound(|g|) + 1
  {
    hide ValidGraph, Excessive, Unfold, Cyclic, Spend, Insides;
    var marks := Unfold(g, n, {}).marks;
    var s := Spend(0, 0, marks);
    NodeEnd(g, n);
    AcyclicIff(g, n);
    SpendIs(0, 0, marks);
    OutsideOnce(g, n);
    var k := if s.ok then s.decodes else s.decodes - 1;
    LastWithin(marks, k);
    OutsidesFall(marks, k);
    assert marks[..|marks|] == marks;
  }

  lemma LastWithin(marks: seq<bool>, k: nat)
    requires k <= |marks| && (k > 0 ==> Within(0, 0, marks, k))
    ensures k <= Bound(Outsides(marks[..k])) && (k >= RANGE_HIGH ==> 9 * k <= 10 * Outsides(marks[..k]))
  {
    WorkIsLinear(k, Insides(marks[..k]));
  }

  lemma OutsidesFall(marks: seq<bool>, k: nat)
    requires k <= |marks|
    ensures Outsides(marks[..k]) <= Outsides(marks)
  {
    assert marks == marks[..k] + marks[k..];
    InsidesSum(marks[..k], marks[k..]);
  }

  /** Up to a thousand decodes, or a hundred inside aliases, nothing is refused. */
  lemma SmallDocument(graph: seq<Node>, root: nat)
    requires ValidGraph(graph) && root < |graph|
    ensures var marks := Unfold(graph, root, {}).marks;
      |marks| <= 1000 || Insides(marks) <= 100 ==> Affordable(marks)
  {
    hide ValidGraph, AllowedAliasRatio;
    var marks := Unfold(graph, root, {}).marks;
    forall k | 0 < k <= |marks|
      ensures Insides(marks[..k]) <= Insides(marks)
    {
      assert marks == marks[..k] + marks[k..];
      InsidesSum(marks[..k], marks[k..]);
    }
  }
}
