/**
  The objects of decode.go and encode.go that turn events into nodes and nodes into events.
  The builder is run on any events that the parser may produce: none of its panics can be
  reached, and what it builds is the tree of the derivation that the events spell.
 */
module TreeBuilder {
  import opened Events
  import opened NodeTree

  /** What is owed before the event at k. */
  function OwedAt(events: seq<Event>, k: nat): Owed
    requires k <= |events| && AcceptAll(StreamStart, events).Accepted?
    ensures AcceptAll(StreamStart, events[..k]) == Accepted(OwedAt(events, k))
  {
    PrefixIsAccepted(events, k);
    AcceptAll(StreamStart, events[..k]).owed
  }

  lemma PrefixIsAccepted(events: seq<Event>, k: nat)
    requires k <= |events| && AcceptAll(StreamStart, events).Accepted?
    ensures AcceptAll(StreamStart, events[..k]).Accepted?
  {
    assert events == events[..k] + events[k..];
    AcceptConcat(StreamStart, events[..k], events[k..]);
  }

  /** What the event at k does to what is owed. */
  lemma NextEvent(events: seq<Event>, k: nat)
    requires k < |events| && AcceptAll(StreamStart, events).Accepted?
    ensures Accept(OwedAt(events, k), events[k]) == Accepted(OwedAt(events, k + 1))
    ensures Anchors(events[..k + 1]) ==
      var m := Anchors(events[..k]); if AnchorOf(events[k]) == "" then m else m[AnchorOf(events[k]) := k]
  {
    hide AcceptAll, Accept, Anchors;
    assert events[..k + 1] == events[..k] + [events[k]];
    AcceptStep(StreamStart, events[..k], events[k]);
    AnchorsStep(events[..k], events[k]);
  }

  lemma AnchorsStep(es: seq<Event>, e: Event)
    ensures Anchors(es + [e]) == if AnchorOf(e) == "" then Anchors(es) else Anchors(es)[AnchorOf(e) := |es|]
  {
    assert (es + [e])[..|es|] == es;
  }

  /** What `parser.parse` gives at the top: a document, nothing at the end of the stream, or
      an error that the caller sees. */
  datatype Parsed = DocumentNode(root: Node) | NoDocument | ParseError

  /** If the event at k is an alias, it names an anchor before it. */
  predicate Known(events: seq<Event>, k: nat)
    requires k < |events|
  {
    events[k].AliasEvent? ==> events[k].name in Anchors(events[..k])
  }

  class Builder {
    const events: seq<Event>
    const resolver: Resolver
    var pos: nat
    var anchors: map<string, nat>

    ghost predicate Valid()
      reads this
    {
      && AcceptAll(StreamStart, events).Accepted?
      && pos <= |events|
      && anchors == Anchors(events[..pos])
      && forall k :: 0 <= k < pos ==> Known(events, k)
    }

    /** Why a node cannot be built: the parser failed before the end of the stream, or an
        alias names no anchor before it. */
    ghost predicate CannotGoOn()
      reads this
    {
      && pos <= |events| && AcceptAll(StreamStart, events).Accepted?
      && if pos < |events| then !Known(events, pos) else !OwedAt(events, pos).Nothing?
    }

    method Peek() returns (ok: bool, e: Event)
      ensures ok == (pos < |events|)
      ensures ok ==> e == events[pos]
    {
      if pos < |events| {
        return true, events[pos];
      }
      return false, StreamEndEvent;
    }

    /** Takes the event that is known to come next, and notes its anchor. */
    method Take()
      requires Valid() && pos < |events| && Known(events, pos)
      modifies this`pos, this`anchors
      ensures Valid() && pos == old(pos) + 1
      ensures Accept(OwedAt(events, old(pos)), events[old(pos)]) == Accepted(OwedAt(events, pos))
    {
      NextEvent(events, pos);
      var anchor := AnchorOf(events[pos]);
      if anchor != "" {
        anchors := anchors[anchor := pos];
      }
      pos := pos + 1;
    }

    constructor (events: seq<Event>, resolver: Resolver)
      requires AcceptAll(StreamStart, events).Accepted?
      ensures this.events == events && this.resolver == resolver && Valid() && pos == 0
    {
      this.events, this.resolver := events, resolver;
      pos, anchors := 0, map[];
    }

    /** `parser.parse` where a document is wanted; the first call opens the stream. */
    method ParseTop() returns (r: Parsed, ghost d: Derivation, ghost k: nat)
      requires Valid() && (OwedAt(events, pos).StreamStart? || OwedAt(events, pos).Documents?)
      modifies this`pos, this`anchors
      ensures Valid() && old(pos) <= pos
      ensures !r.ParseError? ==> OwedAt(events, pos).Documents?
      ensures k == if OwedAt(events, old(pos)).StreamStart? && old(pos) < |events| then old(pos) + 1 else old(pos)
      ensures r.ParseError? ==> CannotGoOn()
      ensures r.NoDocument? ==> k == pos < |events| && events[pos].StreamEndEvent?
      ensures r.DocumentNode? ==>
        && old(pos) <= k < pos && events[k].DocumentStartEvent? && events[pos - 1].DocumentEndEvent?
        && Derives(d) && r.root == NodeOf(resolver, events, d, k + 1)
        && events[..pos - 1] == events[..k + 1] + Flatten(d)
    {
      hide AcceptAll, Derives, Flatten, NodeOf, Anchors;
      d, k := Leaf(AliasEvent("")), pos;
      if pos < |events| {
        NextEvent(events, pos);
        if events[pos].StreamStartEvent? {
          Take();
          k := pos;
        }
      }
      var ok, e := Peek();
      if !ok {
        return ParseError, d, k;
      }
      NextEvent(events, pos);
      if e.DocumentStartEvent? {
        r, d := ParseDocument();
      } else if e.StreamEndEvent? {
        r := NoDocument;
      } else {
        // The source panics here.
        r := ParseError;
        assert false;
      }
    }

    method ParseDocument() returns (r: Parsed, ghost d: Derivation)
      requires Valid() && pos < |events| && events[pos].DocumentStartEvent? && OwedAt(events, pos).Documents?
      modifies this`pos, this`anchors
      ensures Valid() && old(pos) <= pos && !r.NoDocument?
      ensures r.ParseError? ==> CannotGoOn()
      ensures r.DocumentNode? ==>
        && old(pos) + 1 < pos && events[pos - 1].DocumentEndEvent? && OwedAt(events, pos).Documents?
        && Derives(d) && r.root == NodeOf(resolver, events, d, old(pos) + 1)
        && events[..pos - 1] == events[..old(pos) + 1] + Flatten(d)
    {
      hide AcceptAll, Derives, Flatten, NodeOf, Anchors;
      Take();
      if pos < |events| {
        NextEvent(events, pos);
      }
      var ok, n;
      ok, n, d := ParseNode();
      if !ok {
        return ParseError, d;
      }
      var e;
      ok, e := Peek();
      if !ok {
        return ParseError, d;
      }
      NextEvent(events, pos);
      Take();
      r := DocumentNode(n);
    }

    /** `parser.parse` where a node is wanted. */
    method ParseNode() returns (ok: bool, n: Node, ghost d: Derivation)
      requires Valid() && WantsNode(OwedAt(events, pos))
      requires pos < |events| ==> BeginsNode(events[pos])
      modifies this`pos, this`anchors
      ensures Valid() && old(pos) <= pos
      ensures ok ==>
        && old(pos) < pos && Derives(d) && n == NodeOf(resolver, events, d, old(pos))
        && events[..pos] == events[..old(pos)] + Flatten(d)
        && OwedAt(events, pos) == AfterNode(OwedAt(events, old(pos)))
      ensures !ok ==> CannotGoOn()
      decreases |events| - pos, 1
    {
      var e;
      n, d := AliasNode(AliasEvent(""), 0), Leaf(AliasEvent(""));
      ok, e := Peek();
      if !ok {
        return;
      }
      BeginIsAfterNode(OwedAt(events, pos), e);
      if e.ScalarEvent? {
        ok, n, d := ParseScalar();
      } else if e.AliasEvent? {
        ok, n, d := ParseAlias();
      } else if e.MappingStartEvent? {
        ok, n, d := ParseMapping();
      } else if e.SequenceStartEvent? {
        ok, n, d := ParseSequence();
      } else {
        // The source panics here.
        assert false;
      }
    }

    method ParseScalar() returns (ok: bool, n: Node, ghost d: Derivation)
      requires Valid() && pos < |events| && events[pos].ScalarEvent? && WantsNode(OwedAt(events, pos))
      modifies this`pos, this`anchors
      ensures Valid() && pos == old(pos) + 1 && ok
      ensures Derives(d) && n == NodeOf(resolver, events, d, old(pos)) && events[..pos] == events[..old(pos)] + Flatten(d)
      ensures OwedAt(events, pos) == AfterNode(OwedAt(events, old(pos)))
    {
      var e := events[pos];
      n := ScalarNode(resolver, e);
      d := Leaf(e);
      BeginIsAfterNode(OwedAt(events, pos), e);
      Take();
      ok := true;
    }

    method ParseAlias() returns (ok: bool, n: Node, ghost d: Derivation)
      requires Valid() && pos < |events| && events[pos].AliasEvent? && WantsNode(OwedAt(events, pos))
      modifies this`pos, this`anchors
      ensures Valid() && old(pos) <= pos
      ensures ok ==>
        && pos == old(pos) + 1
        && Derives(d) && n == NodeOf(resolver, events, d, old(pos)) && events[..pos] == events[..old(pos)] + Flatten(d)
        && OwedAt(events, pos) == AfterNode(OwedAt(events, old(pos)))
        && events[old(pos)].name in Anchors(events[..old(pos)])
      ensures !ok ==> CannotGoOn()
    {
      var e := events[pos];
      d := Leaf(e);
      if e.name !in anchors {
        ok, n := false, AliasNode(e, 0);
        return;
      }
      n := AliasNode(e, anchors[e.name]);
      BeginIsAfterNode(OwedAt(events, pos), e);
      Take();
      ok := true;
    }

    method ParseSequence() returns (ok: bool, n: Node, ghost d: Derivation)
      requires Valid() && pos < |events| && events[pos].SequenceStartEvent? && WantsNode(OwedAt(events, pos))
      modifies this`pos, this`anchors
      ensures Valid() && old(pos) <= pos
      ensures ok ==>
        && old(pos) < pos && Derives(d) && n == NodeOf(resolver, events, d, old(pos))
        && events[..pos] == events[..old(pos)] + Flatten(d)
        && OwedAt(events, pos) == AfterNode(OwedAt(events, old(pos)))
      ensures !ok ==> CannotGoOn()
      decreases |events| - pos, 0
    {
      hide Accept, AcceptAll, Derives, Flatten, FlattenAll, NodeOf, NodesOf, Anchors;
      var start := events[pos];
      ghost var k, below := pos, AfterNode(OwedAt(events, pos));
      ghost var items: seq<Derivation> := [];
      var content: seq<Node> := [];
      n, d := CollectionNode(start, []), Leaf(start);
      TakesSequence(events, pos);
      Take();
      while true
        invariant Valid() && k < pos && OwedAt(events, pos) == Items(below)
        invariant Spells(events, k, pos, items) && AreNodes(resolver, events, k + 1, items, content)
        decreases |events| - pos
      {
        var e;
        ok, e := Peek();
        if !ok {
          return;
        }
        AtItem(events, pos, below);
        if e.SequenceEndEvent? {
          break;
        }
        ghost var at := pos;
        var child;
        ghost var item;
        ok, child, item := ParseNode();
        if !ok {
          return;
        }
        OneMore(resolver, events, k, at, pos, items, item, content, child);
        items := items + [item];
        content := content + [child];
      }
      d := Sequence(start, items, false);
      n := CollectionNode(start, content);
      SequenceIsBuilt(resolver, events, k, pos, start, items, content);
      Take();
      ok := true;
    }

    method ParseMapping() returns (ok: bool, n: Node, ghost d: Derivation)
      requires Valid() && pos < |events| && events[pos].MappingStartEvent? && WantsNode(OwedAt(events, pos))
      modifies this`pos, this`anchors
      ensures Valid() && old(pos) <= pos
      ensures ok ==>
        && old(pos) < pos && Derives(d) && n == NodeOf(resolver, events, d, old(pos))
        && events[..pos] == events[..old(pos)] + Flatten(d)
        && OwedAt(events, pos) == AfterNode(OwedAt(events, old(pos)))
      ensures !ok ==> CannotGoOn()
      decreases |events| - pos, 0
    {
      hide Accept, AcceptAll, Derives, Flatten, FlattenAll, NodeOf, NodesOf, Anchors;
      var start := events[pos];
      ghost var k, below := pos, AfterNode(OwedAt(events, pos));
      ghost var entries: seq<Derivation> := [];
      var content: seq<Node> := [];
      n, d := CollectionNode(start, []), Leaf(start);
      TakesMapping(events, pos);
      Take();
      while true
        invariant Valid() && k < pos && OwedAt(events, pos) == Key(below) && |entries| % 2 == 0
        invariant Spells(events, k, pos, entries) && AreNodes(resolver, events, k + 1, entries, content)
        decreases |events| - pos
      {
        var e;
        ok, e := Peek();
        if !ok {
          return;
        }
        AtKey(events, pos, below);
        if e.MappingEndEvent? {
          break;
        }
        ghost var at := pos;
        var key, value;
        ghost var x, y;
        ok, key, x := ParseNode();
        if !ok {
          return;
        }
        OneMore(resolver, events, k, at, pos, entries, x, content, key);
        if pos < |events| {
          AtValue(events, pos, below);
        }
        at := pos;
        ok, value, y := ParseNode();
        if !ok {
          return;
        }
        OneMore(resolver, events, k, at, pos, entries + [x], y, content + [key], value);
        entries := entries + [x] + [y];
        content := content + [key] + [value];
      }
      d := Mapping(start, entries);
      n := CollectionNode(start, content);
      MappingIsBuilt(resolver, events, k, pos, start, entries, content);
      Take();
      ok := true;
    }
  }

  // ----- what the loops keep -----

  /** Behind the event at k, the events up to p spell the derivations. */
  predicate Spells(events: seq<Event>, k: nat, p: nat, ds: seq<Derivation>) {
    && k < p <= |events| && AllDerive(ds)
    && events[..p] == events[..k] + [events[k]] + FlattenAll(ds)
  }

  /** The nodes of the derivations, whose first event is at k. */
  predicate AreNodes(r: Resolver, events: seq<Event>, k: nat, ds: seq<Derivation>, ns: seq<Node>) {
    && |ns| == |ds| && AllDerive(ds) && k + |FlattenAll(ds)| <= |events|
    && forall i :: 0 <= i < |ds| ==>
         k + |FlattenAll(ds[..i])| <= |events| && ns[i] == NodeOf(r, events, ds[i], k + |FlattenAll(ds[..i])|)
  }

  lemma TakesSequence(events: seq<Event>, k: nat)
    requires k < |events| && AcceptAll(StreamStart, events).Accepted? && events[k].SequenceStartEvent? && WantsNode(OwedAt(events, k))
    ensures Accept(OwedAt(events, k), events[k]) == Accepted(Items(AfterNode(OwedAt(events, k))))
    ensures FlattenAll([]) == []
    ensures events[..k + 1] == events[..k] + [events[k]] + []
  {}

  lemma TakesMapping(events: seq<Event>, k: nat)
    requires k < |events| && AcceptAll(StreamStart, events).Accepted? && events[k].MappingStartEvent? && WantsNode(OwedAt(events, k))
    ensures Accept(OwedAt(events, k), events[k]) == Accepted(Key(AfterNode(OwedAt(events, k))))
    ensures FlattenAll([]) == []
    ensures events[..k + 1] == events[..k] + [events[k]] + []
  {}

  lemma AtItem(events: seq<Event>, p: nat, below: Owed)
    requires p < |events| && AcceptAll(StreamStart, events).Accepted? && OwedAt(events, p) == Items(below)
    ensures events[p].SequenceEndEvent? || BeginsNode(events[p])
    ensures events[p].SequenceEndEvent? ==> Accept(OwedAt(events, p), events[p]) == Accepted(below)
  {
    NextEvent(events, p);
  }

  lemma AtKey(events: seq<Event>, p: nat, below: Owed)
    requires p < |events| && AcceptAll(StreamStart, events).Accepted? && OwedAt(events, p) == Key(below)
    ensures events[p].MappingEndEvent? || BeginsNode(events[p])
    ensures events[p].MappingEndEvent? ==> Accept(OwedAt(events, p), events[p]) == Accepted(below)
  {
    NextEvent(events, p);
  }

  lemma AtValue(events: seq<Event>, p: nat, below: Owed)
    requires p < |events| && AcceptAll(StreamStart, events).Accepted? && OwedAt(events, p) == Value(below)
    ensures BeginsNode(events[p])
  {
    NextEvent(events, p);
  }

  lemma OneMore(r: Resolver, events: seq<Event>, k: nat, p: nat, q: nat, ds: seq<Derivation>, d: Derivation, ns: seq<Node>, n: Node)
    requires Spells(events, k, p, ds) && AreNodes(r, events, k + 1, ds, ns)
    requires p <= q <= |events| && Derives(d) && events[..q] == events[..p] + Flatten(d) && n == NodeOf(r, events, d, p)
    ensures Spells(events, k, q, ds + [d]) && AreNodes(r, events, k + 1, ds + [d], ns + [n])
  {
    hide Flatten, FlattenAll, NodeOf, Derives;
    FlattenAllStep(ds, d);
    AllDeriveStep(ds, d);
    assert |events[..p]| == p && p == k + 1 + |FlattenAll(ds)|;
    assert |events[..q]| == q;
    var es := ds + [d];
    forall i | 0 <= i < |es|
      ensures k + 1 + |FlattenAll(es[..i])| <= |events| && (ns + [n])[i] == NodeOf(r, events, es[i], k + 1 + |FlattenAll(es[..i])|)
    {
      if i < |ds| {
        assert es[..i] == ds[..i];
      } else {
        assert es[..i] == ds;
      }
    }
  }

  lemma AllButLast(r: Resolver, events: seq<Event>, k: nat, ds: seq<Derivation>, ns: seq<Node>)
    requires AreNodes(r, events, k, ds, ns) && ds != []
    ensures var n := |ds| - 1;
      && AreNodes(r, events, k, ds[..n], ns[..n])
      && k + |FlattenAll(ds[..n])| <= |events| && ns[n] == NodeOf(r, events, ds[n], k + |FlattenAll(ds[..n])|)
  {
    hide NodeOf, Derives, Flatten, FlattenAll;
    var n := |ds| - 1;
    assert k + |FlattenAll(ds[..n])| <= |events|;
    forall i | 0 <= i < n
      ensures ds[..n][..i] == ds[..i]
    {}
  }

  lemma {:induction false} NodesAreNodes(r: Resolver, events: seq<Event>, k: nat, parent: Derivation, ds: seq<Derivation>, ns: seq<Node>)
    requires AreNodes(r, events, k, ds, ns) && forall i :: 0 <= i < |ds| ==> ds[i] < parent
    ensures ns == NodesOf(r, events, parent, ds, k)
    decreases |ds|
  {
    hide NodeOf, Derives, Flatten, FlattenAll;
    if ds != [] {
      var n := |ds| - 1;
      AllButLast(r, events, k, ds, ns);
      NodesAreNodes(r, events, k, parent, ds[..n], ns[..n]);
      hide AreNodes;
      assert ns == ns[..n] + [ns[n]];
    }
  }

  lemma SequenceNode(r: Resolver, events: seq<Event>, start: Event, items: seq<Derivation>, k: nat)
    requires start.SequenceStartEvent? && AllDerive(items) && k < |events|
    ensures var d := Sequence(start, items, false);
      && Derives(d) && NodeOf(r, events, d, k) == CollectionNode(start, NodesOf(r, events, d, items, k + 1))
      && Flatten(d) == [start] + FlattenAll(items) + [SequenceEndEvent]
  {
    hide FlattenAll, NodesOf;
  }

  lemma MappingNode(r: Resolver, events: seq<Event>, start: Event, entries: seq<Derivation>, k: nat)
    requires start.MappingStartEvent? && AllDerive(entries) && |entries| % 2 == 0 && k < |events|
    ensures var d := Mapping(start, entries);
      && Derives(d) && NodeOf(r, events, d, k) == CollectionNode(start, NodesOf(r, events, d, entries, k + 1))
      && Flatten(d) == [start] + FlattenAll(entries) + [MappingEndEvent]
  {
    hide FlattenAll, NodesOf;
  }

  /** The last event of a collection completes what its events spell. */
  lemma SpellsWhole(events: seq<Event>, k: nat, p: nat, ds: seq<Derivation>)
    requires Spells(events, k, p, ds) && p < |events|
    ensures events[..p + 1] == events[..k] + ([events[k]] + FlattenAll(ds) + [events[p]])
  {
    hide FlattenAll, AllDerive;
    assert events[..p + 1] == events[..p] + [events[p]];
  }

  lemma SequenceIsBuilt(r: Resolver, events: seq<Event>, k: nat, p: nat, start: Event, items: seq<Derivation>, ns: seq<Node>)
    requires Spells(events, k, p, items) && AreNodes(r, events, k + 1, items, ns) && p < |events|
    requires start == events[k] && start.SequenceStartEvent? && events[p] == SequenceEndEvent
    ensures var d := Sequence(start, items, false);
      Derives(d) && CollectionNode(start, ns) == NodeOf(r, events, d, k) && events[..p + 1] == events[..k] + Flatten(d)
  {
    SequenceNode(r, events, start, items, k);
    hide FlattenAll, NodesOf, Derives, NodeOf, Flatten;
    NodesAreNodes(r, events, k + 1, Sequence(start, items, false), items, ns);
    SpellsWhole(events, k, p, items);
  }

  lemma MappingIsBuilt(r: Resolver, events: seq<Event>, k: nat, p: nat, start: Event, entries: seq<Derivation>, ns: seq<Node>)
    requires Spells(events, k, p, entries) && AreNodes(r, events, k + 1, entries, ns) && p < |events| && |entries| % 2 == 0
    requires start == events[k] && start.MappingStartEvent? && events[p] == MappingEndEvent
    ensures var d := Mapping(start, entries);
      Derives(d) && CollectionNode(start, ns) == NodeOf(r, events, d, k) && events[..p + 1] == events[..k] + Flatten(d)
  {
    MappingNode(r, events, start, entries, k);
    hide FlattenAll, NodesOf, Derives, NodeOf, Flatten;
    NodesAreNodes(r, events, k + 1, Mapping(start, entries), entries, ns);
    SpellsWhole(events, k, p, entries);
  }

  // ----- encoding -----

  /** The encoder that emits the events of a node one after the other. */
  class NodeEncoder {
    const resolver: Resolver
    var emitted: seq<Event>

    constructor (resolver: Resolver)
      ensures this.resolver == resolver && emitted == []
    {
      this.resolver, emitted := resolver, [];
    }

    method Emit(e: Event)
      modifies this`emitted
      ensures emitted == old(emitted) + [e]
    {
      emitted := emitted + [e];
    }

    /** `encoder.node`. */
    method EncodeNode(n: Node)
      modifies this`emitted
      ensures emitted == old(emitted) + Encoded(resolver, n)
      decreases n, 1
    {
      hide FirstEvent, EncodedAll;
      var tag := EncodedTag(resolver, n);
      match n.kind {
        case ScalarKind =>
          EmitsFirst(resolver, n);
          Emit(ScalarEvent(n.anchor, tag, n.value, tag == "", tag == "", EncodedStyle(resolver, n)));
        case AliasKind =>
          EmitsFirst(resolver, n);
          Emit(AliasEvent(n.value));
        case SequenceKind =>
          EmitsFirst(resolver, n);
          Emit(SequenceStartEvent(n.anchor, tag, tag == "", n.flow));
          EncodeContent(n, n.content);
          Emit(SequenceEndEvent);
        case MappingKind =>
          EmitsFirst(resolver, n);
          Emit(MappingStartEvent(n.anchor, tag, tag == "", n.flow));
          EncodeContent(n, n.content[..|n.content| / 2 * 2]);
          Emit(MappingEndEvent);
      }
    }

    method EncodeContent(parent: Node, content: seq<Node>)
      requires forall i :: 0 <= i < |content| ==> content[i] < parent
      modifies this`emitted
      ensures emitted == old(emitted) + EncodedAll(resolver, parent, content)
      decreases parent, 0
    {
      hide Encoded;
      for i := 0 to |content|
        invariant emitted == old(emitted) + EncodedAll(resolver, parent, content[..i])
      {
        assert content[..i + 1][..i] == content[..i];
        EncodeNode(content[i]);
      }
      assert content[..|content|] == content;
    }
  }

  lemma EmitsFirst(r: Resolver, n: Node)
    ensures var tag := EncodedTag(r, n);
      FirstEvent(r, n) ==
        match n.kind
        case ScalarKind => ScalarEvent(n.anchor, tag, n.value, tag == "", tag == "", EncodedStyle(r, n))
        case AliasKind => AliasEvent(n.value)
        case SequenceKind => SequenceStartEvent(n.anchor, tag, tag == "", n.flow)
        case MappingKind => MappingStartEvent(n.anchor, tag, tag == "", n.flow)
  {}
}
