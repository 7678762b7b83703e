/**
  From tokens to trees and back to events. The events of a tree spell no other tree, so what
  the builder makes of a canonical token list are the trees whose tokens they were.
 */
module StreamLoading {
  import opened Basics
  import opened Events
  import opened NodeTree
  import ParserSafety
  import opened ParserCompleteness
  import opened TreeBuilder
  import Parser

  // ----- events spell one tree -----

  /** The derivation as far as its events show it. */
  function Shown(d: Derivation): (e: Derivation)
    ensures Derives(d) ==> Derives(e)
  {
    match d
    case Leaf(e) => Leaf(e)
    case Sequence(e, items, _) => Sequence(e, seq(|items|, i requires 0 <= i < |items| => Shown(items[i])), false)
    case Mapping(e, entries) => Mapping(e, seq(|entries|, i requires 0 <= i < |entries| => Shown(entries[i])))
  }

  lemma {:induction false} FlattenFront(ds: seq<Derivation>)
    requires ds != []
    ensures FlattenAll(ds) == Flatten(ds[0]) + FlattenAll(ds[1..])
    decreases |ds|
  {
    hide Flatten;
    var n := |ds| - 1;
    if n == 0 {
      assert ds[..0] == [] && ds[1..] == [];
    } else {
      var rest := ds[1..];
      FlattenFront(ds[..n]);
      assert ds[..n][1..] == rest[..n - 1] && rest[n - 1] == ds[n] && |rest| == n;
      assert FlattenAll(rest) == FlattenAll(rest[..n - 1]) + Flatten(ds[n]);
      Assoc(Flatten(ds[0]), FlattenAll(rest[..n - 1]), Flatten(ds[n]));
    }
  }

  lemma FirstEventOf(d: Derivation)
    requires Derives(d)
    ensures BeginsNode(Flatten(d)[0])
    ensures match d
      case Leaf(e) => Flatten(d) == [e] && !e.SequenceStartEvent? && !e.MappingStartEvent?
      case Sequence(e, items, _) => Flatten(d) == [e] + (FlattenAll(items) + [SequenceEndEvent]) && e.SequenceStartEvent?
      case Mapping(e, entries) => Flatten(d) == [e] + (FlattenAll(entries) + [MappingEndEvent]) && e.MappingStartEvent?
  {
    hide FlattenAll;
  }

  lemma Behind<T>(e: T, f: T, a: seq<T>, b: seq<T>, x: seq<T>, y: seq<T>)
    requires ([e] + a) + x == ([f] + b) + y
    ensures e == f && a + x == b + y
  {
    assert ([e] + a) + x == [e] + (a + x);
    assert ([f] + b) + y == [f] + (b + y);
    assert ([e] + (a + x))[0] == e && ([f] + (b + y))[0] == f;
    assert ([e] + (a + x))[1..] == a + x && ([f] + (b + y))[1..] == b + y;
  }

  /** Two trees whose events begin alike are the same, as far as events show them. */
  lemma {:induction false} Unambiguous(d: Derivation, e: Derivation, x: seq<Event>, y: seq<Event>)
    requires Derives(d) && Derives(e) && Flatten(d) + x == Flatten(e) + y
    ensures Shown(d) == Shown(e) && x == y
    decreases d, 1
  {
    hide Flatten, FlattenAll;
    FirstEventOf(d);
    FirstEventOf(e);
    assert (Flatten(d) + x)[0] == Flatten(d)[0] && (Flatten(e) + y)[0] == Flatten(e)[0];
    match d {
      case Leaf(f) =>
        assert [f] + [] == [f];
        assert e == Leaf(f);
        Behind(f, f, [], [], x, y);
        assert [] + x == x && [] + y == y;
      case Sequence(f, items, _) =>
        var close := [SequenceEndEvent];
        Behind(f, f, FlattenAll(items) + close, FlattenAll(e.items) + close, x, y);
        Assoc(FlattenAll(items), close, x);
        Assoc(FlattenAll(e.items), close, y);
        ListsUnambiguous(d, items, e.items, SequenceEndEvent, x, y);
      case Mapping(f, entries) =>
        var close := [MappingEndEvent];
        Behind(f, f, FlattenAll(entries) + close, FlattenAll(e.entries) + close, x, y);
        Assoc(FlattenAll(entries), close, x);
        Assoc(FlattenAll(e.entries), close, y);
        ListsUnambiguous(d, entries, e.entries, MappingEndEvent, x, y);
    }
  }

  lemma {:induction false} ListsUnambiguous(parent: Derivation, ds: seq<Derivation>, es: seq<Derivation>, close: Event,
                                            x: seq<Event>, y: seq<Event>)
    requires forall i :: 0 <= i < |ds| ==> Derives(ds[i]) && ds[i] < parent
    requires forall i :: 0 <= i < |es| ==> Derives(es[i])
    requires !BeginsNode(close) && FlattenAll(ds) + ([close] + x) == FlattenAll(es) + ([close] + y)
    ensures |ds| == |es| && x == y
    ensures forall i :: 0 <= i < |ds| ==> Shown(ds[i]) == Shown(es[i])
    decreases parent, 0, |ds|
  {
    hide Flatten, FlattenAll, Shown, Derives;
    if ds == [] || es == [] {
      OneEmpty(ds, es, close, x, y);
    } else {
      FlattenFront(ds);
      FlattenFront(es);
      var a, b := FlattenAll(ds[1..]), FlattenAll(es[1..]);
      Assoc(Flatten(ds[0]), a, [close] + x);
      Assoc(Flatten(es[0]), b, [close] + y);
      Unambiguous(ds[0], es[0], a + ([close] + x), b + ([close] + y));
      ListsUnambiguous(parent, ds[1..], es[1..], close, x, y);
      forall i | 0 <= i < |ds|
        ensures Shown(ds[i]) == Shown(es[i])
      {
        if i > 0 {
          assert ds[i] == ds[1..][i - 1] && es[i] == es[1..][i - 1];
        }
      }
    }
  }

  lemma OneEmpty(ds: seq<Derivation>, es: seq<Derivation>, close: Event, x: seq<Event>, y: seq<Event>)
    requires ds == [] || es == []
    requires forall i :: 0 <= i < |ds| ==> Derives(ds[i])
    requires forall i :: 0 <= i < |es| ==> Derives(es[i])
    requires !BeginsNode(close) && FlattenAll(ds) + ([close] + x) == FlattenAll(es) + ([close] + y)
    ensures ds == [] && es == [] && x == y
  {
    FirstOfList(ds, close, x);
    FirstOfList(es, close, y);
    assert FlattenAll([]) == [];
    assert [] + ([close] + x) == [close] + x && [] + ([close] + y) == [close] + y;
    assert ([close] + x)[1..] == x && ([close] + y)[1..] == y;
  }

  lemma FirstOfList(ds: seq<Derivation>, close: Event, x: seq<Event>)
    requires forall i :: 0 <= i < |ds| ==> Derives(ds[i])
    ensures var t := FlattenAll(ds) + ([close] + x);
      t != [] && (if ds == [] then t[0] == close else BeginsNode(t[0]))
  {
    hide Flatten, Derives;
    if ds != [] {
      FlattenFront(ds);
      FirstEventOf(ds[0]);
    }
  }

  // ----- events build one tree -----

  function AllShown(ds: seq<Derivation>): (es: seq<Derivation>) {
    seq(|ds|, i requires 0 <= i < |ds| => Shown(ds[i]))
  }

  lemma {:induction false} ShownFlatten(d: Derivation)
    requires Derives(d)
    ensures Flatten(Shown(d)) == Flatten(d)
    decreases d, 1
  {
    hide FlattenAll;
    match d {
      case Leaf(_) =>
      case Sequence(_, items, _) => AllShownFlatten(d, items);
      case Mapping(_, entries) => AllShownFlatten(d, entries);
    }
  }

  lemma {:induction false} AllShownFlatten(parent: Derivation, ds: seq<Derivation>)
    requires forall i :: 0 <= i < |ds| ==> Derives(ds[i]) && ds[i] < parent
    ensures FlattenAll(AllShown(ds)) == FlattenAll(ds)
    decreases parent, 0, |ds|
  {
    hide Flatten, Derives, Shown;
    if ds != [] {
      var n := |ds| - 1;
      AllShownFlatten(parent, ds[..n]);
      ShownFlatten(ds[n]);
      assert AllShown(ds)[..n] == AllShown(ds[..n]);
    }
  }

  /** The tree does not depend on how a sequence is laid out. */
  lemma {:induction false} ShownNode(r: Resolver, events: seq<Event>, d: Derivation, k: nat)
    requires Derives(d) && k <= |events|
    ensures NodeOf(r, events, Shown(d), k) == NodeOf(r, events, d, k)
    decreases d, 1
  {
    hide Flatten, FlattenAll, Derives, NodesOf;
    match d {
      case Leaf(_) =>
      case Sequence(e, items, _) =>
        ShownParts(d);
        ShownNodes(r, events, d, items, k + 1, Shown(d));
      case Mapping(e, entries) =>
        ShownParts(d);
        ShownNodes(r, events, d, entries, k + 1, Shown(d));
    }
  }

  lemma ShownParts(d: Derivation)
    requires Derives(d) && !d.Leaf?
    ensures match d
      case Leaf(_) => true
      case Sequence(e, items, _) =>
        && (forall i :: 0 <= i < |items| ==> Derives(items[i]) && items[i] < d)
        && Shown(d) == Sequence(e, AllShown(items), false)
        && (forall i :: 0 <= i < |items| ==> Derives(AllShown(items)[i]) && AllShown(items)[i] < Shown(d))
      case Mapping(e, entries) =>
        && (forall i :: 0 <= i < |entries| ==> Derives(entries[i]) && entries[i] < d)
        && Shown(d) == Mapping(e, AllShown(entries))
        && (forall i :: 0 <= i < |entries| ==> Derives(AllShown(entries)[i]) && AllShown(entries)[i] < Shown(d))
  {}

  lemma {:induction false} ShownNodes(r: Resolver, events: seq<Event>, parent: Derivation, ds: seq<Derivation>, k: nat, shown: Derivation)
    requires forall i :: 0 <= i < |ds| ==> Derives(ds[i]) && ds[i] < parent
    requires forall i :: 0 <= i < |ds| ==> Derives(AllShown(ds)[i]) && AllShown(ds)[i] < shown
    ensures NodesOf(r, events, shown, AllShown(ds), k) == NodesOf(r, events, parent, ds, k)
    decreases parent, 0, |ds|
  {
    hide Flatten, FlattenAll, Derives, Shown, NodeOf;
    if ds != [] {
      var n := |ds| - 1;
      assert AllShown(ds)[..n] == AllShown(ds[..n]);
      ShownNodes(r, events, parent, ds[..n], k, shown);
      AllShownFlatten(parent, ds[..n]);
      var start := k + |FlattenAll(ds[..n])|;
      ShownNode(r, events, ds[n], if start <= |events| then start else |events|);
    }
  }

  /** What the builder makes of the events of a tree is that tree. */
  lemma SameTree(r: Resolver, events: seq<Event>, k: nat, d: Derivation, e: Derivation, x: seq<Event>, y: seq<Event>)
    requires Derives(d) && Derives(e) && k <= |events| && events[k..] == Flatten(d) + x == Flatten(e) + y
    ensures NodeOf(r, events, d, k) == NodeOf(r, events, e, k) && x == y && |Flatten(d)| == |Flatten(e)|
  {
    hide Flatten, Derives, NodeOf;
    Unambiguous(d, e, x, y);
    ShownNode(r, events, d, k);
    ShownNode(r, events, e, k);
  }

  // ----- a whole stream -----

  predicate AllPlain(ds: seq<Document>) {
    forall i :: 0 <= i < |ds| ==> PlainDocument(ds[i])
  }

  function StreamEvents(ds: seq<Document>): seq<Event> {
    [StreamStartEvent] + FlattenDocuments(ds) + [StreamEndEvent]
  }

  /** The number of events before the ith document, or before the end of the stream. */
  function Offset(ds: seq<Document>, i: nat): nat
    requires i <= |ds|
  {
    1 + |FlattenDocuments(ds[..i])|
  }

  /** The tree of the ith document. */
  function RootOf(r: Resolver, ds: seq<Document>, i: nat): Node
    requires AllPlain(ds) && i < |ds|
  {
    PlainDerives(ds[i]);
    var es, k := StreamEvents(ds), Offset(ds, i) + 1;
    NodeOf(r, es, ds[i].root, if k <= |es| then k else |es|)
  }

  lemma {:induction false} SplitDocuments(ds: seq<Document>, i: nat) returns (tail: seq<Event>)
    requires i < |ds|
    ensures FlattenDocuments(ds)
         == FlattenDocuments(ds[..i]) + ([ds[i].start] + (Flatten(ds[i].root) + ([ds[i].end] + tail)))
    decreases |ds|
  {
    hide Flatten, FlattenDocuments;
    var n := |ds| - 1;
    FlattenLast(ds);
    var last := [ds[n].start] + Flatten(ds[n].root) + [ds[n].end];
    if i == n {
      tail := [];
      assert last == [ds[i].start] + (Flatten(ds[i].root) + ([ds[i].end] + tail));
    } else {
      var t := SplitDocuments(ds[..n], i);
      assert ds[..n][..i] == ds[..i];
      tail := t + last;
      var a, b := FlattenDocuments(ds[..i]), Flatten(ds[i].root);
      assert a + ([ds[i].start] + (b + ([ds[i].end] + t))) + last == a + ([ds[i].start] + (b + ([ds[i].end] + tail)));
    }
  }

  lemma DocumentAt(ds: seq<Document>, i: nat) returns (tail: seq<Event>)
    requires i < |ds|
    ensures var es, k := StreamEvents(ds), Offset(ds, i);
      k + 1 < |es| && es[k] == ds[i].start && es[k + 1..] == Flatten(ds[i].root) + ([ds[i].end] + tail)
  {
    hide Flatten, FlattenDocuments;
    var t := SplitDocuments(ds, i);
    var a, b := FlattenDocuments(ds[..i]), Flatten(ds[i].root);
    tail := t + [StreamEndEvent];
    var x := b + ([ds[i].end] + tail);
    assert StreamEvents(ds) == [StreamStartEvent] + a + [ds[i].start] + x;
    assert |[StreamStartEvent] + a| == Offset(ds, i);
  }

  lemma EndAt(ds: seq<Document>)
    ensures Offset(ds, |ds|) + 1 == |StreamEvents(ds)| && StreamEvents(ds)[Offset(ds, |ds|)] == StreamEndEvent
  {
    hide FlattenDocuments;
    assert ds[..|ds|] == ds;
  }

  lemma OffsetStep(ds: seq<Document>, i: nat)
    requires i < |ds|
    ensures Offset(ds, i + 1) == Offset(ds, i) + 2 + |Flatten(ds[i].root)|
  {
    hide Flatten, FlattenDocuments;
    FlattenLast(ds[..i + 1]);
    assert ds[..i + 1][..i] == ds[..i];
  }

  /** A document that was built where the ith one begins is the ith one. */
  lemma NextDocument(r: Resolver, ds: seq<Document>, i: nat, pos: nat, d: Derivation)
    requires AllPlain(ds) && i <= |ds|
    requires var es, k := StreamEvents(ds), Offset(ds, i);
      && k + 1 < pos <= |es| && es[k].DocumentStartEvent?
      && Derives(d) && es[..pos - 1] == es[..k + 1] + Flatten(d)
    ensures i < |ds| && pos == Offset(ds, i + 1)
    ensures NodeOf(r, StreamEvents(ds), d, Offset(ds, i) + 1) == RootOf(r, ds, i)
  {
    hide Flatten, FlattenDocuments, StreamEvents, Derives, NodeOf, Offset;
    var es, k := StreamEvents(ds), Offset(ds, i);
    EndAt(ds);
    assert i < |ds|;
    PlainDerives(ds[i]);
    var tail := DocumentAt(ds, i);
    assert es[k + 1..] == es[..pos - 1][k + 1..] + es[pos - 1..];
    assert es[..pos - 1][k + 1..] == Flatten(d);
    SameTree(r, es, k + 1, d, ds[i].root, es[pos - 1..], [ds[i].end] + tail);
    OffsetStep(ds, i);
    assert |es[..pos - 1]| == pos - 1;
  }

  lemma AcceptedStream(ds: seq<Document>)
    requires AllPlain(ds)
    ensures var es := StreamEvents(ds);
      && AcceptAll(StreamStart, es) == Accepted(Nothing) && OwedAt(es, |es|).Nothing?
      && OwedAt(es, 0).StreamStart? && es != [] && Offset(ds, 0) == 1
  {
    hide FlattenDocuments, AcceptAll;
    var es := StreamEvents(ds);
    assert forall i :: 0 <= i < |ds| ==> DerivesDocument(ds[i]) by { hide DerivesDocument; PlainDocumentsDerive(ds); }
    assert IsStream(es);
    StreamIsAccepted(es);
    assert es[..|es|] == es && es[..0] == [];
    NoEvents(StreamStart);
    NoDocuments(false);
    assert ds[..0] == [];
  }

  lemma PlainDocumentsDerive(ds: seq<Document>)
    requires AllPlain(ds)
    ensures forall i :: 0 <= i < |ds| ==> DerivesDocument(ds[i])
  {
    hide PlainDocument, DerivesDocument;
    forall i | 0 <= i < |ds|
      ensures DerivesDocument(ds[i])
    {
      PlainDerives(ds[i]);
    }
  }

  /** At the end of the stream all documents have been seen, and no alias is left. */
  lemma EndsAt(ds: seq<Document>, i: nat)
    requires AllPlain(ds) && i <= |ds|
    requires var es, k := StreamEvents(ds), Offset(ds, i);
      k < |es| && es[k].StreamEndEvent? && forall j :: 0 <= j < k ==> Known(es, j)
    ensures i == |ds| && forall j :: 0 <= j < |StreamEvents(ds)| ==> Known(StreamEvents(ds), j)
  {
    hide Flatten, FlattenDocuments, StreamEvents, Offset;
    EndAt(ds);
    if i < |ds| {
      PlainDerives(ds[i]);
      var tail := DocumentAt(ds, i);
      assert false;
    }
  }

  /** Building a canonical stream's events to their end, one document a call. */
  method Build(ghost ds: seq<Document>, es: seq<Event>, r: Resolver) returns (ok: bool, trees: seq<Node>)
    requires AllPlain(ds) && es == StreamEvents(ds)
    ensures ok <==> forall k :: 0 <= k < |es| ==> Known(es, k)
    ensures ok ==> |trees| == |ds| && forall i :: 0 <= i < |ds| ==> trees[i] == RootOf(r, ds, i)
  {
    hide Flatten, Derives, NodeOf, RootOf, AllPlain, AcceptAll, StreamEvents, Offset, Known;
    AcceptedStream(ds);
    var builder := new Builder(es, r);
    trees := [];
    while true
      invariant builder.Valid() && builder.events == es && builder.resolver == r
      invariant |trees| <= |ds| && forall i :: 0 <= i < |trees| ==> trees[i] == RootOf(r, ds, i)
      invariant if builder.pos == 0 then trees == [] else builder.pos == Offset(ds, |trees|)
      invariant if builder.pos == 0 then OwedAt(es, builder.pos).StreamStart? else OwedAt(es, builder.pos).Documents?
      decreases |es| - builder.pos
    {
      var result, d, k := builder.ParseTop();
      if result.ParseError? {
        return false, [];
      } else if result.NoDocument? {
        EndsAt(ds, |trees|);
        return true, trees;
      }
      NextDocument(r, ds, |trees|, builder.pos, d);
      trees := trees + [result.root];
    }
  }

  /** Parsing and building a canonical stream: it gives the trees whose tokens they were,
      unless an alias names no anchor before it. */
  method Load(ghost ds: seq<Document>, ghost roots: seq<seq<Token>>, ghost bare: bool, ts: seq<Token>, r: Resolver)
    returns (ok: bool, trees: seq<Node>)
    requires |roots| == |ds| && AllSpelled(ds, roots) && (bare ==> ds == [] || MayBeBare(ds[0], roots[0]))
    requires ts == StreamTokens(ds, roots, bare)
    ensures ok <==> var es := StreamEvents(ds); forall k :: 0 <= k < |es| ==> Known(es, k)
    ensures ok ==> |trees| == |ds| && forall i :: 0 <= i < |ds| ==> trees[i] == RootOf(r, ds, i)
  {
    hide RootOf, StreamTokens, FlattenDocuments, ParserSafety.Inv, ParserSafety.RunFrom, Known;
    var parser := new Parser.Parser(ts);
    var es := parser.ParseAll();
    StreamIsRead(ds, roots, bare);
    ok, trees := Build(ds, es, r);
  }

  /** The tree of each document comes back as its events if and only if these survive. */
  ghost predicate ComesBack(r: Resolver, out: seq<Event>, d: Document) {
    Same(out, Flatten(d.root)) <==> AllSurvive(r, Flatten(d.root))
  }

  /** Encoding the trees of documents, each by itself. */
  method EncodeTrees(ghost ds: seq<Document>, trees: seq<Node>, r: Resolver) returns (out: seq<seq<Event>>)
    requires AllPlain(ds) && ShortTags(r)
    requires |trees| == |ds| && forall i :: 0 <= i < |ds| ==> trees[i] == RootOf(r, ds, i)
    ensures |out| == |ds| && forall i :: 0 <= i < |ds| ==> ComesBack(r, out[i], ds[i])
  {
    hide RootOf, Encoded, ComesBack, AllPlain, ShortTags;
    out := [];
    for j := 0 to |trees|
      invariant |out| == j && forall i :: 0 <= i < j ==> ComesBack(r, out[i], ds[i])
    {
      var encoder := new NodeEncoder(r);
      encoder.EncodeNode(trees[j]);
      assert [] + Encoded(r, trees[j]) == Encoded(r, trees[j]);
      RootComesBack(r, ds, j);
      out := out + [encoder.emitted];
    }
  }

  lemma SpelledArePlain(ds: seq<Document>, roots: seq<seq<Token>>)
    requires |roots| == |ds| && AllSpelled(ds, roots)
    ensures AllPlain(ds)
  {
    hide PlainDocument, Respells, RootTokens;
    assert forall i :: 0 <= i < |ds| ==> SpellsRoot(ds[i], roots[i]);
  }

  /** Loading a stream and encoding its trees: document by document, the events are the same
      again, the implicit flags aside, if and only if each of them survives. */
  method LoadAndEncode(ghost ds: seq<Document>, ghost roots: seq<seq<Token>>, ghost bare: bool, ts: seq<Token>, r: Resolver)
    returns (ok: bool, out: seq<seq<Event>>)
    requires |roots| == |ds| && AllSpelled(ds, roots) && (bare ==> ds == [] || MayBeBare(ds[0], roots[0]))
    requires ts == StreamTokens(ds, roots, bare) && ShortTags(r)
    ensures ok <==> var es := StreamEvents(ds); forall k :: 0 <= k < |es| ==> Known(es, k)
    ensures ok ==> |out| == |ds| && forall i :: 0 <= i < |ds| ==> ComesBack(r, out[i], ds[i])
  {
    SpelledArePlain(ds, roots);
    hide RootOf, StreamTokens, StreamEvents, Known, ComesBack, AllPlain, AllSpelled, ShortTags, MayBeBare;
    var trees;
    ok, trees := Load(ds, roots, bare, ts, r);
    out := [];
    if ok {
      out := EncodeTrees(ds, trees, r);
    }
  }

  lemma RootComesBack(r: Resolver, ds: seq<Document>, i: nat)
    requires AllPlain(ds) && i < |ds| && ShortTags(r)
    ensures ComesBack(r, Encoded(r, RootOf(r, ds, i)), ds[i])
  {
    hide Flatten, StreamEvents, Derives, NodeOf, Encoded, Same, AllSurvive, ShortTags;
    PlainDerives(ds[i]);
    var es, k := StreamEvents(ds), Offset(ds, i) + 1;
    NodeRoundTrip(r, es, ds[i].root, if k <= |es| then k else |es|);
  }
}
