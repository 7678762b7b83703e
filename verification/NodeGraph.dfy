/**
  The graph of nodes that the decoder walks, and its unfolding: the decodes that following
  content and alias targets leads to. Nothing here counts or refuses anything for its size.
 */
module NodeGraph {

  // ----- the graph -----

  /** Nodes are numbered as the tree builder makes them: a collection comes before its
      content, and `end` is the number after its last descendant. */
  datatype Node =
    | Scalar(end: nat)
    | Alias(target: nat, end: nat)
    | Collection(content: seq<nat>, end: nat)

  predicate ChildAt(g: seq<Node>, n: nat, i: nat)
    requires n < |g| && g[n].Collection? && i < |g[n].content|
  {
    var c := g[n].content;
    && n < c[i] < |g|
    && (i == 0 ==> c[i] == n + 1)
    && (i > 0 ==> c[i - 1] < |g| && c[i] == g[c[i - 1]].end)
    && (i == |c| - 1 ==> g[c[i]].end == g[n].end)
    && c[i] < g[c[i]].end <= g[n].end
  }

  predicate ValidGraph(g: seq<Node>) {
    forall n :: 0 <= n < |g| ==>
      && n < g[n].end <= |g|
      && match g[n]
         case Scalar(end) => end == n + 1
         case Alias(target, end) => end == n + 1 && target < |g|
         case Collection(content, end) =>
           && (content == [] ==> end == n + 1)
           && forall i :: 0 <= i < |content| ==> ChildAt(g, n, i)
  }

  function AliasNodes(g: seq<Node>): set<nat> {
    set n: nat | n < |g| && g[n].Alias?
  }

  lemma NodeEnd(g: seq<Node>, n: nat)
    requires ValidGraph(g) && n < |g|
    ensures n < g[n].end <= |g|
    ensures !g[n].Collection? || g[n].content == [] ==> g[n].end == n + 1
    ensures g[n].Alias? ==> g[n].target < |g|
  {}

  lemma Child(g: seq<Node>, n: nat, i: nat)
    requires ValidGraph(g) && n < |g| && g[n].Collection? && i < |g[n].content|
    ensures var c := g[n].content;
      && c[i] < |g| && n < c[i] < g[c[i]].end <= g[n].end
      && (i == 0 ==> c[i] == n + 1)
      && (i > 0 ==> c[i - 1] < |g| && c[i] == g[c[i - 1]].end)
      && (i == |c| - 1 ==> g[c[i]].end == g[n].end)
  {
    assert ChildAt(g, n, i);
  }

  lemma OneLeft(g: seq<Node>, n: nat, aliases: set<nat>)
    requires n < |g| && g[n].Alias? && n !in aliases && aliases <= AliasNodes(g)
    ensures |AliasNodes(g) - (aliases + {n})| < |AliasNodes(g) - aliases|
    ensures aliases + {n} <= AliasNodes(g) && |aliases + {n}| == |aliases| + 1
  {
    var rest := AliasNodes(g) - aliases;
    assert n in rest;
    assert AliasNodes(g) - (aliases + {n}) == rest - {n};
  }

  // ----- the unfolding -----

  /** The decodes in order: is each of them inside an alias? `ok` says that no alias was met
      inside itself; otherwise the last decode is of that alias. */
  datatype Walk = Walk(marks: seq<bool>, ok: bool)

  ghost function Unfold(g: seq<Node>, n: nat, used: set<nat>): Walk
    requires ValidGraph(g) && n < |g| && used <= AliasNodes(g)
    decreases |AliasNodes(g) - used|, g[n].end - n, 1
  {
    NodeEnd(g, n);
    var here := [used != {}];
    match g[n]
    case Scalar(_) => Walk(here, true)
    case Alias(target, _) =>
      if n in used then Walk(here, false)
      else
        OneLeft(g, n, used);
        var w := Unfold(g, target, used + {n});
        Walk(here + w.marks, w.ok)
    case Collection(_, _) =>
      var w := UnfoldFrom(g, n, 0, used);
      Walk(here + w.marks, w.ok)
  }

  /** The content of a collection from item i on. */
  ghost function UnfoldFrom(g: seq<Node>, n: nat, i: nat, used: set<nat>): Walk
    requires ValidGraph(g) && n < |g| && used <= AliasNodes(g) && g[n].Collection? && i <= |g[n].content|
    decreases |AliasNodes(g) - used|, g[n].end - n, 0, |g[n].content| - i
  {
    var content := g[n].content;
    if i == |content| then Walk([], true)
    else
      Child(g, n, i);
      var w := Unfold(g, content[i], used);
      if !w.ok then w
      else
        var v := UnfoldFrom(g, n, i + 1, used);
        Walk(w.marks + v.marks, v.ok)
  }

  /** What is behind the decode of the node itself. */
  lemma UnfoldHead(g: seq<Node>, n: nat, used: set<nat>) returns (behind: Walk)
    requires ValidGraph(g) && n < |g| && used <= AliasNodes(g)
    ensures Unfold(g, n, used) == Walk([used != {}] + behind.marks, behind.ok)
    ensures g[n].Scalar? ==> behind == Walk([], true) && Unfold(g, n, used).marks == [used != {}]
    ensures g[n].Alias? && n in used ==> behind == Walk([], false)
    ensures g[n].Alias? && n !in used ==>
      g[n].target < |g| && used + {n} <= AliasNodes(g) && behind == Unfold(g, g[n].target, used + {n})
    ensures g[n].Collection? ==> behind == UnfoldFrom(g, n, 0, used)
  {
    NodeEnd(g, n);
    match g[n] {
      case Scalar(_) => behind := Walk([], true);
      case Alias(target, _) =>
        if n in used {
          behind := Walk([], false);
        } else {
          OneLeft(g, n, used);
          behind := Unfold(g, target, used + {n});
        }
      case Collection(_, _) => behind := UnfoldFrom(g, n, 0, used);
    }
  }

  lemma ItemUnfolds(g: seq<Node>, n: nat, i: nat, used: set<nat>)
    requires ValidGraph(g) && n < |g| && used <= AliasNodes(g) && g[n].Collection? && i <= |g[n].content|
    ensures i == |g[n].content| ==> UnfoldFrom(g, n, i, used) == Walk([], true)
    ensures i < |g[n].content| ==> g[n].content[i] < |g|
    ensures i < |g[n].content| ==>
      var w, v := Unfold(g, g[n].content[i], used), UnfoldFrom(g, n, i, used);
      && |w.marks| <= |v.marks| && v.marks[..|w.marks|] == w.marks && (!w.ok ==> v == w)
      && (w.ok ==> UnfoldFrom(g, n, i + 1, used) == Walk(v.marks[|w.marks|..], v.ok))
  {
    if i < |g[n].content| {
      Child(g, n, i);
    }
  }

  /** How many of the decodes are inside aliases. */
  function Insides(marks: seq<bool>): (n: nat)
    ensures n <= |marks|
  {
    if marks == [] then 0 else Insides(marks[..|marks| - 1]) + (if marks[|marks| - 1] then 1 else 0)
  }

  lemma {:induction false} InsidesSum(m: seq<bool>, k: seq<bool>)
    ensures Insides(m + k) == Insides(m) + Insides(k)
    decreases |k|
  {
    if k == [] {
      assert m + k == m;
    } else {
      var j := k[..|k| - 1];
      InsidesSum(m, j);
      assert (m + k)[..|m + k| - 1] == m + j;
    }
  }

  /** Behind an alias, everything is inside one. */
  lemma {:induction false} AllInside(g: seq<Node>, n: nat, used: set<nat>)
    requires ValidGraph(g) && n < |g| && used <= AliasNodes(g) && used != {}
    ensures Insides(Unfold(g, n, used).marks) == |Unfold(g, n, used).marks|
    decreases |AliasNodes(g) - used|, g[n].end - n, 1
  {
    hide ValidGraph;
    NodeEnd(g, n);
    match g[n] {
      case Scalar(_) =>
      case Alias(target, _) =>
        if n !in used {
          OneLeft(g, n, used);
          AllInside(g, target, used + {n});
          InsidesSum([true], Unfold(g, target, used + {n}).marks);
        }
      case Collection(_, _) =>
        ItemsInside(g, n, 0, used);
        InsidesSum([true], UnfoldFrom(g, n, 0, used).marks);
    }
  }

  lemma {:induction false} ItemsInside(g: seq<Node>, n: nat, i: nat, used: set<nat>)
    requires ValidGraph(g) && n < |g| && used <= AliasNodes(g) && g[n].Collection? && i <= |g[n].content| && used != {}
    ensures Insides(UnfoldFrom(g, n, i, used).marks) == |UnfoldFrom(g, n, i, used).marks|
    decreases |AliasNodes(g) - used|, g[n].end - n, 0, |g[n].content| - i
  {
    hide ValidGraph;
    if i < |g[n].content| {
      Child(g, n, i);
      AllInside(g, g[n].content[i], used);
      ItemsInside(g, n, i + 1, used);
      InsidesSum(Unfold(g, g[n].content[i], used).marks, UnfoldFrom(g, n, i + 1, used).marks);
    }
  }

  function Outsides(marks: seq<bool>): nat { |marks| - Insides(marks) }

  /** Outside aliases, each node of the tree is decoded once. */
  lemma {:induction false} OutsideOnce(g: seq<Node>, n: nat)
    requires ValidGraph(g) && n < |g|
    ensures var w := Unfold(g, n, {});
      Outsides(w.marks) <= g[n].end - n && (w.ok ==> Outsides(w.marks) == g[n].end - n)
    decreases g[n].end - n, 1
  {
    hide ValidGraph;
    NodeEnd(g, n);
    match g[n] {
      case Scalar(_) =>
      case Alias(target, _) =>
        OneLeft(g, n, {});
        AllInside(g, target, {} + {n});
        InsidesSum([false], Unfold(g, target, {} + {n}).marks);
      case Collection(content, _) =>
        ItemsOnce(g, n, 0);
        InsidesSum([false], UnfoldFrom(g, n, 0, {}).marks);
    }
  }

  /** Where item i of a collection begins, or where the content ends. */
  function ItemStart(g: seq<Node>, n: nat, i: nat): nat
    requires n < |g| && g[n].Collection? && i <= |g[n].content|
  {
    if i < |g[n].content| then g[n].content[i] else g[n].end
  }

  lemma {:induction false} ItemsOnce(g: seq<Node>, n: nat, i: nat)
    requires ValidGraph(g) && n < |g| && g[n].Collection? && i <= |g[n].content|
    ensures i == 0 ==> ItemStart(g, n, 0) == n + 1
    ensures n < ItemStart(g, n, i) <= g[n].end
    ensures var w := UnfoldFrom(g, n, i, {});
      && Outsides(w.marks) <= g[n].end - ItemStart(g, n, i)
      && (w.ok ==> Outsides(w.marks) == g[n].end - ItemStart(g, n, i))
    decreases g[n].end - n, 0, |g[n].content| - i
  {
    hide ValidGraph;
    NodeEnd(g, n);
    var content := g[n].content;
    if i < |content| {
      Child(g, n, i);
      if i + 1 < |content| {
        Child(g, n, i + 1);
      }
      OutsideOnce(g, content[i]);
      ItemsOnce(g, n, i + 1);
      InsidesSum(Unfold(g, content[i], {}).marks, UnfoldFrom(g, n, i + 1, {}).marks);
    }
  }

  // ----- paths -----

  /** From a collection to its content and from an alias to its target. */
  predicate Step(g: seq<Node>, a: nat, b: nat)
    requires a < |g|
  {
    match g[a]
    case Scalar(_) => false
    case Alias(target, _) => b == target
    case Collection(content, _) => b in content
  }

  predicate IsPath(g: seq<Node>, p: seq<nat>) {
    && p != [] && (forall i :: 0 <= i < |p| ==> p[i] < |g|)
    && forall i :: 0 <= i < |p| - 1 ==> Step(g, p[i], p[i + 1])
  }

  predicate PathFrom(g: seq<Node>, p: seq<nat>, n: nat) { IsPath(g, p) && p[0] == n }

  /** Does the path lead from the node back to itself? */
  predicate Loop(g: seq<Node>, p: seq<nat>, n: nat) { PathFrom(g, p, n) && |p| > 1 && p[|p| - 1] == n }

  ghost predicate Loops(g: seq<Node>, n: nat) { exists p :: Loop(g, p, n) }

  /** The path ends at an alias that is in use or leads back to itself. */
  ghost predicate Blocks(g: seq<Node>, p: seq<nat>, n: nat, used: set<nat>) {
    && PathFrom(g, p, n) && g[p[|p| - 1]].Alias?
    && (p[|p| - 1] in used || Loops(g, p[|p| - 1]))
  }

  ghost predicate Blocked(g: seq<Node>, n: nat, used: set<nat>) { exists p :: Blocks(g, p, n, used) }

  /** Is there an alias in reach that leads back to itself? */
  ghost predicate Cyclic(g: seq<Node>, n: nat) {
    exists p :: PathFrom(g, p, n) && g[p[|p| - 1]].Alias? && Loops(g, p[|p| - 1])
  }

  lemma Longer(g: seq<Node>, n: nat, q: seq<nat>)
    requires n < |g| && IsPath(g, q) && Step(g, n, q[0])
    ensures PathFrom(g, [n] + q, n)
  {
    var p := [n] + q;
    assert forall i :: 0 < i < |p| ==> p[i] == q[i - 1];
  }

  lemma Shorter(g: seq<Node>, p: seq<nat>)
    requires IsPath(g, p) && |p| > 1
    ensures PathFrom(g, p[1..], p[1]) && Step(g, p[0], p[1])
  {
    var q := p[1..];
    assert forall i :: 0 <= i < |q| ==> q[i] == p[i + 1];
  }

  /** A failure shows an alias that blocks. */
  lemma {:induction false} FailureIsBlocked(g: seq<Node>, n: nat, used: set<nat>)
    requires ValidGraph(g) && n < |g| && used <= AliasNodes(g) && !Unfold(g, n, used).ok
    ensures Blocked(g, n, used)
    decreases |AliasNodes(g) - used|, g[n].end - n, 1
  {
    hide ValidGraph, Blocked, Loops;
    NodeEnd(g, n);
    if g[n].Alias? {
      if n in used {
        BlockedAt(g, [n], n, used);
      } else {
        OneLeft(g, n, used);
        FailureIsBlocked(g, g[n].target, used + {n});
        BlockedBehind(g, n, g[n].target, used, used + {n});
      }
    } else {
      var i := FailureInContent(g, n, 0, used);
      BlockedBehind(g, n, g[n].content[i], used, used);
    }
  }

  lemma {:induction false} FailureInContent(g: seq<Node>, n: nat, i: nat, used: set<nat>) returns (k: nat)
    requires ValidGraph(g) && n < |g| && used <= AliasNodes(g) && g[n].Collection? && i <= |g[n].content|
    requires !UnfoldFrom(g, n, i, used).ok
    ensures k < |g[n].content| && Blocked(g, g[n].content[k], used)
    decreases |AliasNodes(g) - used|, g[n].end - n, 0, |g[n].content| - i
  {
    hide ValidGraph, Blocked;
    Child(g, n, i);
    if !Unfold(g, g[n].content[i], used).ok {
      FailureIsBlocked(g, g[n].content[i], used);
      k := i;
    } else {
      k := FailureInContent(g, n, i + 1, used);
    }
  }

  lemma BlockedAt(g: seq<Node>, p: seq<nat>, n: nat, used: set<nat>)
    requires Blocks(g, p, n, used)
    ensures Blocked(g, n, used)
  {}

  /** Blocked behind a step: either further on, or by the node itself, which then loops. */
  lemma BlockedBehind(g: seq<Node>, n: nat, m: nat, used: set<nat>, used': set<nat>)
    requires n < |g| && Step(g, n, m) && Blocked(g, m, used')
    requires used' == used || (g[n].Alias? && used' == used + {n})
    ensures Blocked(g, n, used)
  {
    var q :| Blocks(g, q, m, used');
    var p := [n] + q;
    Longer(g, n, q);
    var a := q[|q| - 1];
    assert p[|p| - 1] == a;
    if a == n {
      assert Loop(g, p, n);
    }
    assert Blocks(g, p, n, used);
  }

  /** Where nothing fails, the node at the end of any path is unfolded without failure too. */
  lemma {:induction false} OkAlong(g: seq<Node>, n: nat, used: set<nat>, p: seq<nat>) returns (used': set<nat>)
    requires ValidGraph(g) && n < |g| && used <= AliasNodes(g) && Unfold(g, n, used).ok && PathFrom(g, p, n)
    ensures used <= used' <= AliasNodes(g) && Unfold(g, p[|p| - 1], used').ok
    decreases |p|
  {
    hide ValidGraph;
    used' := used;
    if |p| > 1 {
      Shorter(g, p);
      var next := OkStep(g, n, used, p[1]);
      used' := OkAlong(g, p[1], next, p[1..]);
    }
  }

  lemma OkStep(g: seq<Node>, n: nat, used: set<nat>, m: nat) returns (used': set<nat>)
    requires ValidGraph(g) && n < |g| && m < |g| && used <= AliasNodes(g) && Unfold(g, n, used).ok && Step(g, n, m)
    ensures used <= used' <= AliasNodes(g) && Unfold(g, m, used').ok
    ensures g[n].Alias? ==> n in used'
  {
    hide ValidGraph;
    NodeEnd(g, n);
    if g[n].Alias? {
      OneLeft(g, n, used);
      used' := used + {n};
    } else {
      var i :| 0 <= i < |g[n].content| && g[n].content[i] == m;
      OkItem(g, n, 0, i, used);
      used' := used;
    }
  }

  lemma {:induction false} OkItem(g: seq<Node>, n: nat, j: nat, i: nat, used: set<nat>)
    requires ValidGraph(g) && n < |g| && used <= AliasNodes(g) && g[n].Collection? && j <= i < |g[n].content|
    requires UnfoldFrom(g, n, j, used).ok
    ensures g[n].content[i] < |g| && Unfold(g, g[n].content[i], used).ok
    decreases i - j
  {
    hide ValidGraph;
    Child(g, n, j);
    if j < i {
      OkItem(g, n, j + 1, i, used);
    }
  }

  /** Nothing fails exactly if no path leads to an alias that is in use or leads back to itself. */
  lemma OkIff(g: seq<Node>, n: nat, used: set<nat>)
    requires ValidGraph(g) && n < |g| && used <= AliasNodes(g)
    ensures Unfold(g, n, used).ok <==> !Blocked(g, n, used)
  {
    hide ValidGraph;
    if !Unfold(g, n, used).ok {
      FailureIsBlocked(g, n, used);
    } else if Blocked(g, n, used) {
      var p :| Blocks(g, p, n, used);
      var a := p[|p| - 1];
      var used1 := OkAlong(g, n, used, p);
      if Loops(g, a) {
        var q :| Loop(g, q, a);
        Shorter(g, q);
        var used2 := OkStep(g, a, used1, q[1]);
        var used3 := OkAlong(g, q[1], used2, q[1..]);
      }
      assert false;
    }
  }

  lemma AcyclicIff(g: seq<Node>, n: nat)
    requires ValidGraph(g) && n < |g|
    ensures Unfold(g, n, {}).ok <==> !Cyclic(g, n)
  {
    OkIff(g, n, {});
    hide ValidGraph;
    if Blocked(g, n, {}) {
      var p :| Blocks(g, p, n, {});
      assert Cyclic(g, n);
    }
    if Cyclic(g, n) {
      var p :| PathFrom(g, p, n) && g[p[|p| - 1]].Alias? && Loops(g, p[|p| - 1]);
      assert Blocks(g, p, n, {});
    }
  }

  // ----- one decode for each path -----

  function Behind(n: nat, ps: seq<seq<nat>>): seq<seq<nat>> { seq(|ps|, i requires 0 <= i < |ps| => [n] + ps[i]) }

  /** The paths of the decodes, in the same order. */
  ghost function Paths(g: seq<Node>, n: nat, used: set<nat>): seq<seq<nat>>
    requires ValidGraph(g) && n < |g| && used <= AliasNodes(g)
    decreases |AliasNodes(g) - used|, g[n].end - n, 1
  {
    NodeEnd(g, n);
    match g[n]
    case Scalar(_) => [[n]]
    case Alias(target, _) =>
      if n in used then [[n]]
      else
        OneLeft(g, n, used);
        [[n]] + Behind(n, Paths(g, target, used + {n}))
    case Collection(_, _) => [[n]] + Behind(n, PathsFrom(g, n, 0, used))
  }

  ghost function PathsFrom(g: seq<Node>, n: nat, i: nat, used: set<nat>): seq<seq<nat>>
    requires ValidGraph(g) && n < |g| && used <= AliasNodes(g) && g[n].Collection? && i <= |g[n].content|
    decreases |AliasNodes(g) - used|, g[n].end - n, 0, |g[n].content| - i
  {
    var content := g[n].content;
    if i == |content| then []
    else
      Child(g, n, i);
      Paths(g, content[i], used) + PathsFrom(g, n, i + 1, used)
  }

  /** Does the path go through an alias before its end? */
  predicate ThroughAlias(g: seq<Node>, p: seq<nat>)
    requires IsPath(g, p)
  {
    exists i :: 0 <= i < |p| - 1 && g[p[i]].Alias?
  }

  /** Distinct paths from n, and for each the mark whether it goes through an alias. */
  predicate Lists(g: seq<Node>, n: nat, used: set<nat>, marks: seq<bool>, ps: seq<seq<nat>>) {
    && |marks| == |ps|
    && (forall k :: 0 <= k < |ps| ==> PathFrom(g, ps[k], n) && marks[k] == (used != {} || ThroughAlias(g, ps[k])))
    && forall j, k :: 0 <= j < k < |ps| ==> ps[j] != ps[k]
  }

  /** The same for the paths that begin with an item of a collection from i on. */
  predicate ListsFrom(g: seq<Node>, n: nat, i: nat, used: set<nat>, marks: seq<bool>, ps: seq<seq<nat>>)
    requires n < |g| && g[n].Collection?
  {
    && |marks| == |ps|
    && (forall k :: 0 <= k < |ps| ==>
          && IsPath(g, ps[k]) && marks[k] == (used != {} || ThroughAlias(g, ps[k]))
          && exists j :: i <= j < |g[n].content| && g[n].content[j] == ps[k][0])
    && forall j, k :: 0 <= j < k < |ps| ==> ps[j] != ps[k]
  }

  lemma Through(g: seq<Node>, n: nat, q: seq<nat>)
    requires n < |g| && IsPath(g, q) && Step(g, n, q[0])
    ensures PathFrom(g, [n] + q, n)
    ensures ThroughAlias(g, [n] + q) <==> g[n].Alias? || ThroughAlias(g, q)
  {
    Longer(g, n, q);
    var p := [n] + q;
    if ThroughAlias(g, q) {
      var i :| 0 <= i < |q| - 1 && g[q[i]].Alias?;
      assert g[p[i + 1]].Alias?;
    }
    if ThroughAlias(g, p) {
      var i :| 0 <= i < |p| - 1 && g[p[i]].Alias?;
      assert i > 0 ==> g[q[i - 1]].Alias?;
    }
    assert p[0] == n;
  }

  /** A node in front of the paths behind it. */
  lemma ListsBehind(g: seq<Node>, n: nat, used: set<nat>, marks: seq<bool>, ps: seq<seq<nat>>)
    requires n < |g| && |marks| == |ps| && forall j, k :: 0 <= j < k < |ps| ==> ps[j] != ps[k]
    requires forall k :: 0 <= k < |ps| ==>
      IsPath(g, ps[k]) && Step(g, n, ps[k][0]) && marks[k] == (used != {} || g[n].Alias? || ThroughAlias(g, ps[k]))
    ensures Lists(g, n, used, [used != {}] + marks, [[n]] + Behind(n, ps))
  {
    hide ThroughAlias, Step;
    var all, paths := [used != {}] + marks, [[n]] + Behind(n, ps);
    assert PathFrom(g, [n], n) && !ThroughAlias(g, [n]) by { NotThrough(g, n); }
    forall k | 0 < k < |paths|
      ensures PathFrom(g, paths[k], n) && all[k] == (used != {} || ThroughAlias(g, paths[k]))
    {
      assert paths[k] == [n] + ps[k - 1];
      Through(g, n, ps[k - 1]);
    }
    forall j, k | 0 <= j < k < |paths|
      ensures paths[j] != paths[k]
    {
      assert paths[k] == [n] + ps[k - 1] && paths[k][1..] == ps[k - 1];
      if j > 0 {
        assert paths[j] == [n] + ps[j - 1] && paths[j][1..] == ps[j - 1];
      }
    }
  }

  lemma NotThrough(g: seq<Node>, n: nat)
    requires n < |g|
    ensures PathFrom(g, [n], n) && !ThroughAlias(g, [n])
  {}

  /** Each decode has a path of its own, and is inside an alias exactly if the path goes through one. */
  lemma {:induction false} DecodesHavePaths(g: seq<Node>, n: nat, used: set<nat>)
    requires ValidGraph(g) && n < |g| && used <= AliasNodes(g) && Unfold(g, n, used).ok
    ensures Lists(g, n, used, Unfold(g, n, used).marks, Paths(g, n, used))
    decreases |AliasNodes(g) - used|, g[n].end - n, 1
  {
    hide ValidGraph, ThroughAlias;
    NodeEnd(g, n);
    match g[n] {
      case Scalar(_) =>
        NotThrough(g, n);
      case Alias(target, _) =>
        OneLeft(g, n, used);
        DecodesHavePaths(g, target, used + {n});
        ListsBehind(g, n, used, Unfold(g, target, used + {n}).marks, Paths(g, target, used + {n}));
      case Collection(content, _) =>
        ItemsHavePaths(g, n, 0, used);
        ListsBehind(g, n, used, UnfoldFrom(g, n, 0, used).marks, PathsFrom(g, n, 0, used));
    }
  }

  lemma {:induction false} ItemsHavePaths(g: seq<Node>, n: nat, i: nat, used: set<nat>)
    requires ValidGraph(g) && n < |g| && used <= AliasNodes(g) && g[n].Collection? && i <= |g[n].content|
    requires UnfoldFrom(g, n, i, used).ok
    ensures ListsFrom(g, n, i, used, UnfoldFrom(g, n, i, used).marks, PathsFrom(g, n, i, used))
    decreases |AliasNodes(g) - used|, g[n].end - n, 0, |g[n].content| - i
  {
    hide ValidGraph, ThroughAlias;
    var content := g[n].content;
    if i < |content| {
      Child(g, n, i);
      DecodesHavePaths(g, content[i], used);
      ItemsHavePaths(g, n, i + 1, used);
      ListsJoined(g, n, i, used, Unfold(g, content[i], used).marks, Paths(g, content[i], used),
                  UnfoldFrom(g, n, i + 1, used).marks, PathsFrom(g, n, i + 1, used));
    }
  }

  lemma Increases(g: seq<Node>, n: nat, i: nat, j: nat)
    requires ValidGraph(g) && n < |g| && g[n].Collection? && i < j < |g[n].content|
    ensures g[n].content[i] < g[n].content[j]
    decreases j
  {
    Child(g, n, i);
    Child(g, n, j);
    Child(g, n, j - 1);
    if i < j - 1 {
      Increases(g, n, i, j - 1);
    }
  }

  lemma ListsJoined(g: seq<Node>, n: nat, i: nat, used: set<nat>,
                    marks: seq<bool>, ps: seq<seq<nat>>, marks': seq<bool>, ps': seq<seq<nat>>)
    requires ValidGraph(g) && n < |g| && g[n].Collection? && i < |g[n].content|
    requires Lists(g, g[n].content[i], used, marks, ps) && ListsFrom(g, n, i + 1, used, marks', ps')
    ensures ListsFrom(g, n, i, used, marks + marks', ps + ps')
  {
    hide ThroughAlias, ValidGraph;
    var content, all, paths := g[n].content, marks + marks', ps + ps';
    forall k | 0 <= k < |paths|
      ensures IsPath(g, paths[k]) && all[k] == (used != {} || ThroughAlias(g, paths[k]))
      ensures exists j :: i <= j < |content| && content[j] == paths[k][0]
    {
      if k < |ps| {
        assert paths[k] == ps[k] && content[i] == paths[k][0];
      } else {
        assert paths[k] == ps'[k - |ps|] && all[k] == marks'[k - |ps|];
      }
    }
    forall j, k | 0 <= j < k < |paths|
      ensures paths[j] != paths[k]
    {
      if j < |ps| <= k {
        var q := ps'[k - |ps|];
        var l :| i + 1 <= l < |content| && content[l] == q[0];
        Increases(g, n, i, l);
        assert ps[j][0] == content[i] < q[0];
      } else if |ps| <= j {
        assert paths[j] == ps'[j - |ps|] && paths[k] == ps'[k - |ps|];
      }
    }
  }

  /** And every path is the path of a decode. */
  lemma {:induction false} PathsAreDecodes(g: seq<Node>, n: nat, used: set<nat>, p: seq<nat>)
    requires ValidGraph(g) && n < |g| && used <= AliasNodes(g) && Unfold(g, n, used).ok && PathFrom(g, p, n)
    ensures p in Paths(g, n, used)
    decreases |p|
  {
    hide ValidGraph, Behind, PathsFrom, UnfoldFrom;
    NodeEnd(g, n);
    if |p| == 1 {
      assert p == [n] && Paths(g, n, used)[0] == [n];
    } else {
      Shorter(g, p);
      var q := p[1..];
      assert p == [n] + q;
      if g[n].Alias? {
        OneLeft(g, n, used);
        PathsAreDecodes(g, p[1], used + {n}, q);
        InBehind(n, Paths(g, p[1], used + {n}), q);
      } else {
        var i :| 0 <= i < |g[n].content| && g[n].content[i] == p[1];
        OkItem(g, n, 0, i, used);
        PathsAreDecodes(g, p[1], used, q);
        ItemPaths(g, n, 0, i, used, q);
        InBehind(n, PathsFrom(g, n, 0, used), q);
      }
    }
  }

  lemma InBehind(n: nat, ps: seq<seq<nat>>, q: seq<nat>)
    requires q in ps
    ensures [n] + q in [[n]] + Behind(n, ps)
  {
    var k :| 0 <= k < |ps| && ps[k] == q;
    assert Behind(n, ps)[k] == [n] + q;
    assert ([[n]] + Behind(n, ps))[k + 1] == [n] + q;
  }

  lemma {:induction false} ItemPaths(g: seq<Node>, n: nat, j: nat, i: nat, used: set<nat>, q: seq<nat>)
    requires ValidGraph(g) && n < |g| && used <= AliasNodes(g) && g[n].Collection? && j <= i < |g[n].content|
    requires g[n].content[i] < |g| && q in Paths(g, g[n].content[i], used)
    ensures q in PathsFrom(g, n, j, used)
    decreases i - j
  {
    hide ValidGraph, Paths;
    Child(g, n, j);
    if j < i {
      ItemPaths(g, n, j + 1, i, used, q);
    }
  }

  /** Without a cycle, the decodes are the paths of the node, each once, and a decode is inside an
      alias exactly if its path goes through one. */
  lemma DecodesArePaths(g: seq<Node>, n: nat)
    requires ValidGraph(g) && n < |g| && !Cyclic(g, n)
    ensures var marks, ps := Unfold(g, n, {}).marks, Paths(g, n, {});
      && |marks| == |ps|
      && (forall p :: p in ps <==> PathFrom(g, p, n))
      && (forall k :: 0 <= k < |ps| ==> PathFrom(g, ps[k], n) && marks[k] == ThroughAlias(g, ps[k]))
      && (forall j, k :: 0 <= j < k < |ps| ==> ps[j] != ps[k])
  {
    hide ValidGraph, ThroughAlias, Cyclic;
    AcyclicIff(g, n);
    DecodesHavePaths(g, n, {});
    forall p | PathFrom(g, p, n)
      ensures p in Paths(g, n, {})
    {
      PathsAreDecodes(g, n, {}, p);
    }
  }
}
