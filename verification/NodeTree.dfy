/**
  The tree builder of decode.go and the node encoder of encode.go: from events to a tree of
  nodes and from the tree back to events. Comments and positions are left out.
 */
module NodeTree {
  import opened Events

  datatype Kind = SequenceKind | MappingKind | ScalarKind | AliasKind

  /** `style` is Plain where the source sets no quoting style. An alias points to the event
      that begins the node it stands for. */
  datatype Node = Node(kind: Kind, tagged: bool, style: ScalarStyle, flow: bool,
                       tag: string, value: string, anchor: string, target: nat, content: seq<Node>)

  // ----- tags -----

  const LONG_PREFIX := "tag:yaml.org,2002:"

  predicate StartsWith(s: string, prefix: string) {
    |prefix| <= |s| && s[..|prefix|] == prefix
  }

  function ShortTag(tag: string): string {
    if StartsWith(tag, LONG_PREFIX) then "!!" + tag[|LONG_PREFIX|..] else tag
  }

  function LongTag(tag: string): string {
    if StartsWith(tag, "!!") then LONG_PREFIX + tag[2..] else tag
  }

  const STR_TAG := "!!str"
  const SEQ_TAG := "!!seq"
  const MAP_TAG := "!!map"
  const MERGE_TAG := "!!merge"

  /** What a plain scalar's text resolves to, when the tree is built and when it is encoded.
      The two differ if timestamps are disabled for the builder. */
  datatype Resolver = Resolver(built: string -> string, encoded: string -> string)

  ghost predicate ShortTags(r: Resolver) {
    && r.encoded("<<") == MERGE_TAG
    && forall v: string :: StartsWith(r.built(v), "!!") && StartsWith(r.encoded(v), "!!")
  }

  // ----- the nodes of a derivation -----

  function AnchorOf(e: Event): string {
    if e.ScalarEvent? || e.SequenceStartEvent? || e.MappingStartEvent? then e.anchor else ""
  }

  /** The latest event that carries each anchor. Nothing is forgotten between documents. */
  function Anchors(es: seq<Event>): map<string, nat> {
    if es == [] then map[]
    else
      var n := |es| - 1;
      var m := Anchors(es[..n]);
      if AnchorOf(es[n]) == "" then m else m[AnchorOf(es[n]) := n]
  }

  predicate Requested(tag: string) { tag != "" && tag != "!" }

  function DefaultTag(r: Resolver, e: Event): string
    requires e.ScalarEvent?
  {
    if !e.style.Plain? then STR_TAG else if e.value == "<<" then MERGE_TAG else r.built(e.value)
  }

  function ScalarNode(r: Resolver, e: Event): Node
    requires e.ScalarEvent?
  {
    Node.Node(ScalarKind, Requested(e.tag), e.style, false,
         if Requested(e.tag) then ShortTag(e.tag) else DefaultTag(r, e), e.value, e.anchor, 0, [])
  }

  function AliasNode(e: Event, target: nat): Node
    requires e.AliasEvent?
  {
    Node.Node(AliasKind, false, Plain, false, "", e.name, "", target, [])
  }

  function CollectionNode(e: Event, content: seq<Node>): Node
    requires e.SequenceStartEvent? || e.MappingStartEvent?
  {
    var kind := if e.SequenceStartEvent? then SequenceKind else MappingKind;
    var default := if e.SequenceStartEvent? then SEQ_TAG else MAP_TAG;
    Node.Node(kind, Requested(e.tag), Plain, e.flow, if Requested(e.tag) then ShortTag(e.tag) else default, "", e.anchor, 0, content)
  }

  /** The node of a derivation whose first event is events[k]. */
  function NodeOf(r: Resolver, events: seq<Event>, d: Derivation, k: nat): Node
    requires Derives(d) && k <= |events|
    decreases d, 1
  {
    match d
    case Leaf(e) =>
      if e.ScalarEvent? then ScalarNode(r, e)
      else
        var m := Anchors(events[..k]);
        AliasNode(e, if e.name in m then m[e.name] else 0)
    case Sequence(e, items, _) => CollectionNode(e, NodesOf(r, events, d, items, k + 1))
    case Mapping(e, entries) => CollectionNode(e, NodesOf(r, events, d, entries, k + 1))
  }

  function NodesOf(r: Resolver, events: seq<Event>, parent: Derivation, ds: seq<Derivation>, k: nat): (ns: seq<Node>)
    requires forall i :: 0 <= i < |ds| ==> Derives(ds[i]) && ds[i] < parent
    ensures |ns| == |ds|
    decreases parent, 0, |ds|
  {
    if ds == [] then []
    else
      var n := |ds| - 1;
      var start := k + |FlattenAll(ds[..n])|;
      NodesOf(r, events, parent, ds[..n], k) + [NodeOf(r, events, ds[n], if start <= |events| then start else |events|)]
  }

  // ----- the events of a node -----

  /** Is the tag left out of the presentation? */
  function EncodedTag(r: Resolver, n: Node): string {
    var stag := ShortTag(n.tag);
    if n.tag == "" || n.tagged then LongTag(n.tag)
    else
      match n.kind
      case ScalarKind =>
        if (stag == STR_TAG && !n.style.Plain?) || r.encoded(n.value) == stag || stag == STR_TAG then "" else LongTag(n.tag)
      case SequenceKind => if stag == SEQ_TAG then "" else LongTag(n.tag)
      case MappingKind => if stag == MAP_TAG then "" else LongTag(n.tag)
      case AliasKind => if stag == "" then "" else LongTag(n.tag)
  }

  /** A plain string that would read as something else is quoted. */
  predicate ForcesQuoting(r: Resolver, n: Node) {
    && n.tag != "" && !n.tagged && n.kind.ScalarKind? && n.style.Plain?
    && ShortTag(n.tag) == STR_TAG && r.encoded(n.value) != STR_TAG
  }

  function EncodedStyle(r: Resolver, n: Node): ScalarStyle {
    if !n.style.Plain? then n.style
    else if '\n' in n.value then Literal
    else if ForcesQuoting(r, n) then DoubleQuoted
    else Plain
  }

  /** The event that begins the node. */
  function FirstEvent(r: Resolver, n: Node): Event {
    var tag := EncodedTag(r, n);
    match n.kind
    case ScalarKind => ScalarEvent(n.anchor, tag, n.value, tag == "", tag == "", EncodedStyle(r, n))
    case AliasKind => AliasEvent(n.value)
    case SequenceKind => SequenceStartEvent(n.anchor, tag, tag == "", n.flow)
    case MappingKind => MappingStartEvent(n.anchor, tag, tag == "", n.flow)
  }

  function Encoded(r: Resolver, n: Node): (es: seq<Event>)
    ensures es != [] && es[0] == FirstEvent(r, n)
    decreases n, 1
  {
    match n.kind
    case SequenceKind => [FirstEvent(r, n)] + EncodedAll(r, n, n.content) + [SequenceEndEvent]
    case MappingKind =>
      [FirstEvent(r, n)] + EncodedAll(r, n, n.content[..|n.content| / 2 * 2]) + [MappingEndEvent]
    case _ => [FirstEvent(r, n)]
  }

  function EncodedAll(r: Resolver, parent: Node, ns: seq<Node>): seq<Event>
    requires forall i :: 0 <= i < |ns| ==> ns[i] < parent
    decreases parent, 0, |ns|
  {
    if ns == [] then [] else EncodedAll(r, parent, ns[..|ns| - 1]) + Encoded(r, ns[|ns| - 1])
  }

  // ----- round trip -----

  /** The events that survive being built and encoded again, the implicit flags aside: not
      the tag `!`, no tag in short form, and for a plain scalar no line feed and no text that
      the builder and the encoder resolve differently. */
  predicate Survives(r: Resolver, e: Event) {
    match e
    case ScalarEvent(_, tag, value, _, _, style) =>
      && tag != "!" && !StartsWith(tag, "!!")
      && (style.Plain? ==> '\n' !in value && (tag == "" ==> DefaultTag(r, e) == r.encoded(value)))
    case SequenceStartEvent(_, tag, _, _) => tag != "!" && !StartsWith(tag, "!!")
    case MappingStartEvent(_, tag, _, _) => tag != "!" && !StartsWith(tag, "!!")
    case _ => true
  }

  /** The event without the flags that say which tags may be left out. */
  function Core(e: Event): Event {
    match e
    case ScalarEvent(anchor, tag, value, _, _, style) => ScalarEvent(anchor, tag, value, true, true, style)
    case SequenceStartEvent(anchor, tag, _, flow) => SequenceStartEvent(anchor, tag, true, flow)
    case MappingStartEvent(anchor, tag, _, flow) => MappingStartEvent(anchor, tag, true, flow)
    case _ => e
  }

  /** The same events, the flags aside. */
  predicate Same(a: seq<Event>, b: seq<Event>) {
    |a| == |b| && forall i :: 0 <= i < |a| ==> Core(a[i]) == Core(b[i])
  }

  lemma FirstOf(s: string, prefix: string)
    requires StartsWith(s, prefix) && prefix != ""
    ensures s != "" && s[0] == prefix[0]
  {
    assert s[..|prefix|][0] == s[0];
  }

  lemma NotBoth(tag: string)
    ensures !StartsWith(tag, LONG_PREFIX) || !StartsWith(tag, "!!")
  {
    if StartsWith(tag, LONG_PREFIX) {
      FirstOf(tag, LONG_PREFIX);
    }
    if StartsWith(tag, "!!") {
      FirstOf(tag, "!!");
    }
  }

  lemma TagsRoundTrip(tag: string)
    ensures LongTag(ShortTag(tag)) == tag <==> !StartsWith(tag, "!!")
    ensures ShortTag(tag) == "" <==> tag == ""
    ensures StartsWith(tag, "!!") ==> ShortTag(tag) == tag && LongTag(tag) != "" && LongTag(tag) != "!"
  {
    NotBoth(tag);
    if StartsWith(tag, LONG_PREFIX) {
      var rest := tag[|LONG_PREFIX|..];
      assert tag == LONG_PREFIX + rest;
      assert ("!!" + rest)[..2] == "!!" && ("!!" + rest)[2..] == rest;
    } else if StartsWith(tag, "!!") {
      FirstOf(tag, "!!");
      assert LongTag(tag)[0] == LONG_PREFIX[0] == 't';
    }
  }

  lemma NotShort(tag: string)
    requires tag == "" || tag == "!"
    ensures !StartsWith(tag, "!!") && LongTag(tag) == tag
  {}

  lemma RequestedScalar(r: Resolver, e: Event)
    requires e.ScalarEvent? && Requested(e.tag)
    ensures Core(FirstEvent(r, ScalarNode(r, e))) == Core(e) <==> Survives(r, e)
  {
    TagsRoundTrip(e.tag);
  }

  lemma DefaultScalar(r: Resolver, e: Event)
    requires ShortTags(r) && e.ScalarEvent? && !Requested(e.tag)
    ensures Core(FirstEvent(r, ScalarNode(r, e))) == Core(e) <==> Survives(r, e)
  {
    var n := ScalarNode(r, e);
    assert StartsWith(n.tag, "!!") by {
      assert STR_TAG[..2] == "!!" && MERGE_TAG[..2] == "!!";
    }
    assert StartsWith(r.encoded(n.value), "!!");
    TagsRoundTrip(n.tag);
    NotShort(e.tag);
    hide ShortTag, LongTag, StartsWith, ShortTags;
  }

  lemma CollectionSurvives(r: Resolver, e: Event, content: seq<Node>)
    requires e.SequenceStartEvent? || e.MappingStartEvent?
    ensures Core(FirstEvent(r, CollectionNode(e, content))) == Core(e) <==> Survives(r, e)
  {
    TagsRoundTrip(e.tag);
    if !Requested(e.tag) {
      NotShort(e.tag);
      assert SEQ_TAG[..2] == "!!" && MAP_TAG[..2] == "!!";
      TagsRoundTrip(SEQ_TAG);
      TagsRoundTrip(MAP_TAG);
    }
    hide ShortTag, LongTag, StartsWith;
  }

  predicate AllSurvive(r: Resolver, es: seq<Event>) {
    forall i :: 0 <= i < |es| ==> Survives(r, es[i])
  }

  lemma SameConcat(a: seq<Event>, b: seq<Event>, c: seq<Event>, d: seq<Event>)
    requires |a| == |c|
    ensures Same(a + b, c + d) <==> Same(a, c) && Same(b, d)
  {
    if Same(a + b, c + d) {
      forall i | 0 <= i < |a|
        ensures Core(a[i]) == Core(c[i])
      {
        assert (a + b)[i] == a[i] && (c + d)[i] == c[i];
      }
      forall i | 0 <= i < |b|
        ensures Core(b[i]) == Core(d[i])
      {
        assert (a + b)[|a| + i] == b[i] && (c + d)[|c| + i] == d[i];
      }
    }
  }

  lemma SurviveConcat(r: Resolver, a: seq<Event>, b: seq<Event>)
    ensures AllSurvive(r, a + b) <==> AllSurvive(r, a) && AllSurvive(r, b)
  {
    if AllSurvive(r, a + b) {
      forall i | 0 <= i < |a|
        ensures Survives(r, a[i])
      {
        assert (a + b)[i] == a[i];
      }
      forall i | 0 <= i < |b|
        ensures Survives(r, b[i])
      {
        assert (a + b)[|a| + i] == b[i];
      }
    }
  }

  /** Encoding what was built from a node's events gives those events again, the implicit
      flags aside, if and only if each of them survives. */
  lemma {:induction false} NodeRoundTrip(r: Resolver, events: seq<Event>, d: Derivation, k: nat)
    requires ShortTags(r) && Derives(d) && k <= |events|
    ensures |Encoded(r, NodeOf(r, events, d, k))| == |Flatten(d)|
    ensures Same(Encoded(r, NodeOf(r, events, d, k)), Flatten(d)) <==> AllSurvive(r, Flatten(d))
    decreases d, 1
  {
    hide Survives, FirstEvent, Core, ShortTags;
    match d {
      case Leaf(e) =>
        if e.ScalarEvent? {
          if Requested(e.tag) {
            RequestedScalar(r, e);
          } else {
            DefaultScalar(r, e);
          }
        } else {
          AliasSurvives(r, e, NodeOf(r, events, d, k).target);
        }
      case Sequence(e, items, _) =>
        var content := NodesOf(r, events, d, items, k + 1);
        var n := CollectionNode(e, content);
        CollectionSurvives(r, e, content);
        NodesRoundTrip(r, events, d, items, k + 1, n, content);
        Bracketed(r, FirstEvent(r, n), EncodedAll(r, n, content), e, FlattenAll(items), SequenceEndEvent);
      case Mapping(e, entries) =>
        var content := NodesOf(r, events, d, entries, k + 1);
        var n := CollectionNode(e, content);
        CollectionSurvives(r, e, content);
        assert content[..|content| / 2 * 2] == content;
        NodesRoundTrip(r, events, d, entries, k + 1, n, content);
        Bracketed(r, FirstEvent(r, n), EncodedAll(r, n, content), e, FlattenAll(entries), MappingEndEvent);
    }
  }

  /** `! x` comes back without its tag, and a plain `a`, line feed, `b` as a literal scalar. */
  lemma LostEvents(r: Resolver)
    requires ShortTags(r)
    ensures var e := ScalarEvent("", "!", "x", true, false, Plain);
      !Same(Encoded(r, NodeOf(r, [e], Leaf(e), 0)), [e])
    ensures var e := ScalarEvent("", "", "a\nb", true, false, Plain);
      !Same(Encoded(r, NodeOf(r, [e], Leaf(e), 0)), [e])
  {
    hide ShortTags, Encoded, NodeOf;
    var e := ScalarEvent("", "!", "x", true, false, Plain);
    NodeRoundTrip(r, [e], Leaf(e), 0);
    assert !Survives(r, [e][0]);
    var f := ScalarEvent("", "", "a\nb", true, false, Plain);
    NodeRoundTrip(r, [f], Leaf(f), 0);
    assert "a\nb"[1] == '\n';
    assert !Survives(r, [f][0]);
  }

  lemma AliasSurvives(r: Resolver, e: Event, target: nat)
    requires e.AliasEvent?
    ensures FirstEvent(r, AliasNode(e, target)) == e && Survives(r, e)
  {}

  lemma Bracketed(r: Resolver, a: Event, inside: seq<Event>, b: Event, inside': seq<Event>, end: Event)
    requires |inside| == |inside'| && (end.SequenceEndEvent? || end.MappingEndEvent?)
    requires Core(a) == Core(b) <==> Survives(r, b)
    requires Same(inside, inside') <==> AllSurvive(r, inside')
    ensures Same([a] + inside + [end], [b] + inside' + [end]) <==> AllSurvive(r, [b] + inside' + [end])
  {
    SameConcat([a] + inside, [end], [b] + inside', [end]);
    SameConcat([a], inside, [b], inside');
    SurviveConcat(r, [b] + inside', [end]);
    SurviveConcat(r, [b], inside');
    assert Survives(r, end);
    hide Survives, Core;
  }

  lemma {:induction false} NodesRoundTrip(r: Resolver, events: seq<Event>, parent: Derivation, ds: seq<Derivation>, k: nat,
                                          n: Node, content: seq<Node>)
    requires ShortTags(r) && forall i :: 0 <= i < |ds| ==> Derives(ds[i]) && ds[i] < parent
    requires content == NodesOf(r, events, parent, ds, k) && forall i :: 0 <= i < |content| ==> content[i] < n
    ensures |EncodedAll(r, n, content)| == |FlattenAll(ds)|
    ensures Same(EncodedAll(r, n, content), FlattenAll(ds)) <==> AllSurvive(r, FlattenAll(ds))
    decreases parent, 0, |ds|
  {
    hide Flatten, Encoded, NodeOf, Derives, Survives, ShortTags, Core;
    if ds != [] {
      var last := |ds| - 1;
      var init, d := ds[..last], ds[last];
      var start := k + |FlattenAll(init)|;
      var at := if start <= |events| then start else |events|;
      var nodes := NodesOf(r, events, parent, init, k);
      assert content == nodes + [NodeOf(r, events, d, at)];
      assert content[..last] == nodes;
      NodesRoundTrip(r, events, parent, init, k, n, nodes);
      NodeRoundTrip(r, events, d, at);
      var x := Encoded(r, NodeOf(r, events, d, at));
      SameConcat(EncodedAll(r, n, nodes), x, FlattenAll(init), Flatten(d));
      SurviveConcat(r, FlattenAll(init), Flatten(d));
    }
  }

  // ----- which anchor, which tag -----

  /** An alias stands for the last node before it that carries its anchor. */
  lemma {:induction false} AnchorsAreLast(es: seq<Event>, name: string)
    requires name != ""
    ensures name in Anchors(es) <==> exists i :: 0 <= i < |es| && AnchorOf(es[i]) == name
    ensures name in Anchors(es) ==>
      var k := Anchors(es)[name];
      k < |es| && AnchorOf(es[k]) == name && forall i :: k < i < |es| ==> AnchorOf(es[i]) != name
    decreases |es|
  {
    if es != [] {
      var n := |es| - 1;
      var init := es[..n];
      AnchorsAreLast(init, name);
      assert forall i :: 0 <= i < n ==> AnchorOf(init[i]) == AnchorOf(es[i]);
      if name in Anchors(init) && AnchorOf(es[n]) != name {
        assert AnchorOf(es[Anchors(init)[name]]) == name;
      }
    }
  }

  /** The tags of nodes: a requested tag in its short form, and otherwise the text's for a plain
      scalar, a string's for a quoted one, and the collection's own. */
  lemma TagsOfNodes(r: Resolver, e: Event, content: seq<Node>)
    ensures e.ScalarEvent? && e.tag != "" && e.tag != "!" ==> ScalarNode(r, e).tag == ShortTag(e.tag)
    ensures e.ScalarEvent? && (e.tag == "" || e.tag == "!") ==>
      ScalarNode(r, e).tag == if !e.style.Plain? then "!!str" else if e.value == "<<" then "!!merge" else r.built(e.value)
    ensures e.SequenceStartEvent? && e.tag == "" ==> CollectionNode(e, content).tag == "!!seq"
    ensures e.MappingStartEvent? && e.tag == "" ==> CollectionNode(e, content).tag == "!!map"
    ensures ShortTag("tag:yaml.org,2002:int") == "!!int" && ShortTag("!local") == "!local"
  {
    assert "tag:yaml.org,2002:int"[..18] == "tag:yaml.org,2002:" && "tag:yaml.org,2002:int"[18..] == "int";
    assert "!local"[0] != "tag:yaml.org,2002:"[0];
  }

  /** The style of a scalar is kept; a plain one with a line feed is asked for as a literal, and
      a plain string that reads as something else in double quotes. */
  lemma StylesOfNodes(r: Resolver, n: Node)
    requires n.kind.ScalarKind?
    ensures var e := FirstEvent(r, n);
      && e.ScalarEvent? && e.value == n.value && e.anchor == n.anchor
      && (!n.style.Plain? ==> e.style == n.style)
      && (n.style.Plain? && '\n' in n.value ==> e.style.Literal?)
      && (n.style.Plain? && '\n' !in n.value ==>
            e.style == if !n.tagged && ShortTag(n.tag) == "!!str" && r.encoded(n.value) != "!!str" then DoubleQuoted else Plain)
  {
    assert ShortTag("") == "";
  }

  /** A string stays a string, however it is styled and whatever its text looks like. */
  lemma StringsStayStrings(r: Resolver, n: Node)
    requires n.kind.ScalarKind? && !n.tagged && ShortTag(n.tag) == "!!str"
    requires r.encoded("<<") != "!!str" && r.built(n.value) == r.encoded(n.value)
    ensures FirstEvent(r, n).tag == "" && ScalarNode(r, FirstEvent(r, n)).tag == "!!str"
  {
    StylesOfNodes(r, n);
    assert ShortTag("") == "";
    TagsOfNodes(r, FirstEvent(r, n), []);
  }
}
