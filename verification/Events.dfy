/**
  The tokens that go into the parser, the events that come out of it, and the language of
  the events: STREAM-START (DOC-START node DOC-END)* STREAM-END, once as derivation trees
  and once as an acceptor with a stack.
 */
module Events {
  import opened Basics

  datatype ScalarStyle = Plain | SingleQuoted | DoubleQuoted | Literal | Folded

  datatype Directive = Directive(handle: string, prefix: string)

  datatype Token =
    | StreamStartToken | StreamEndToken
    | VersionDirectiveToken(major: int, minor: int)
    | TagDirectiveToken(directive: Directive)
    | DocumentStartToken | DocumentEndToken
    | BlockSequenceStartToken | BlockMappingStartToken | BlockEndToken
    | FlowSequenceStartToken | FlowSequenceEndToken
    | FlowMappingStartToken | FlowMappingEndToken
    | BlockEntryToken | FlowEntryToken | KeyToken | ValueToken
    | AliasToken(name: string)
    | AnchorToken(name: string)
    | TagToken(handle: string, suffix: string)
    | ScalarToken(value: string, style: ScalarStyle)

  datatype Version = Unversioned | Version(major: int, minor: int)

  datatype Event =
    | StreamStartEvent | StreamEndEvent
    | DocumentStartEvent(version: Version, directives: seq<Directive>)
    | DocumentEndEvent(endImplicit: bool)
    | AliasEvent(name: string)
    | ScalarEvent(anchor: string, tag: string, value: string, implicit: bool, quotedImplicit: bool, style: ScalarStyle)
    | SequenceStartEvent(anchor: string, tag: string, implicit: bool, flow: bool)
    | SequenceEndEvent
    | MappingStartEvent(anchor: string, tag: string, implicit: bool, flow: bool)
    | MappingEndEvent

  predicate BeginsNode(e: Event) {
    e.AliasEvent? || e.ScalarEvent? || e.SequenceStartEvent? || e.MappingStartEvent?
  }

  // ----- the language as derivations -----

  /** node ::= ALIAS | SCALAR | SEQ-START node* SEQ-END | MAP-START (node node)* MAP-END.
      `indentless` tells how a block sequence is laid out in tokens; events do not show it. */
  datatype Derivation =
    | Leaf(event: Event)
    | Sequence(start: Event, items: seq<Derivation>, indentless: bool)
    | Mapping(start: Event, entries: seq<Derivation>)

  predicate Derives(d: Derivation) {
    match d
    case Leaf(e) => e.AliasEvent? || e.ScalarEvent?
    case Sequence(e, items, _) => e.SequenceStartEvent? && forall i :: 0 <= i < |items| ==> Derives(items[i])
    case Mapping(e, entries) =>
      e.MappingStartEvent? && |entries| % 2 == 0 && forall i :: 0 <= i < |entries| ==> Derives(entries[i])
  }

  function Flatten(d: Derivation): (es: seq<Event>)
    ensures es != []
  {
    match d
    case Leaf(e) => [e]
    case Sequence(e, items, _) => [e] + FlattenAll(items) + [SequenceEndEvent]
    case Mapping(e, entries) => [e] + FlattenAll(entries) + [MappingEndEvent]
  }

  function FlattenAll(ds: seq<Derivation>): seq<Event> {
    if ds == [] then [] else FlattenAll(ds[..|ds| - 1]) + Flatten(ds[|ds| - 1])
  }

  datatype Document = Document(start: Event, root: Derivation, end: Event)

  predicate DerivesDocument(d: Document) {
    d.start.DocumentStartEvent? && Derives(d.root) && d.end.DocumentEndEvent?
  }

  function FlattenDocuments(ds: seq<Document>): seq<Event> {
    if ds == [] then []
    else
      var d := ds[|ds| - 1];
      FlattenDocuments(ds[..|ds| - 1]) + [d.start] + Flatten(d.root) + [d.end]
  }

  ghost predicate IsStream(es: seq<Event>) {
    exists ds: seq<Document> ::
      && (forall i :: 0 <= i < |ds| ==> DerivesDocument(ds[i]))
      && es == [StreamStartEvent] + FlattenDocuments(ds) + [StreamEndEvent]
  }

  // ----- the language as a machine -----

  /** What the events still owe: the brackets that are open and the parity of keys and values. */
  datatype Owed =
    | Nothing
    | StreamStart
    | Documents
    | DocumentEnd(below: Owed)
    | Node(below: Owed)
    | Items(below: Owed)
    | Key(below: Owed)
    | Value(below: Owed)

  datatype Verdict = Accepted(owed: Owed) | Rejected

  function Begin(owed: Owed, e: Event): Verdict {
    if e.AliasEvent? || e.ScalarEvent? then Accepted(owed)
    else if e.SequenceStartEvent? then Accepted(Items(owed))
    else if e.MappingStartEvent? then Accepted(Key(owed))
    else Rejected
  }

  function Accept(owed: Owed, e: Event): Verdict {
    match owed
    case Nothing => Rejected
    case StreamStart => if e.StreamStartEvent? then Accepted(Documents) else Rejected
    case Documents =>
      if e.DocumentStartEvent? then Accepted(Node(DocumentEnd(Documents)))
      else if e.StreamEndEvent? then Accepted(Nothing)
      else Rejected
    case DocumentEnd(below) => if e.DocumentEndEvent? then Accepted(below) else Rejected
    case Node(below) => Begin(below, e)
    case Items(below) => if e.SequenceEndEvent? then Accepted(below) else Begin(owed, e)
    case Key(below) => if e.MappingEndEvent? then Accepted(below) else Begin(Value(below), e)
    case Value(below) => Begin(Key(below), e)
  }

  function AcceptAll(owed: Owed, es: seq<Event>): Verdict {
    if es == [] then Accepted(owed)
    else
      var v := AcceptAll(owed, es[..|es| - 1]);
      if v.Rejected? then Rejected else Accept(v.owed, es[|es| - 1])
  }

  lemma {:induction false} AcceptConcat(owed: Owed, a: seq<Event>, b: seq<Event>)
    ensures AcceptAll(owed, a + b) ==
      var v := AcceptAll(owed, a);
      if v.Rejected? then Rejected else AcceptAll(v.owed, b)
    decreases |b|
  {
    if b == [] {
      assert a + b == a;
    } else {
      var init := b[..|b| - 1];
      assert (a + b)[..|a + b| - 1] == a + init;
      AcceptConcat(owed, a, init);
    }
  }

  lemma AcceptStep(owed: Owed, a: seq<Event>, e: Event)
    ensures AcceptAll(owed, a + [e]) ==
      var v := AcceptAll(owed, a);
      if v.Rejected? then Rejected else Accept(v.owed, e)
  {
    assert (a + [e])[..|a|] == a;
  }

  // ----- the machine accepts what is derived -----

  /** What is owed once a whole node has gone by. */
  function AfterNode(owed: Owed): Owed {
    match owed
    case Node(below) => below
    case Key(below) => Value(below)
    case Value(below) => Key(below)
    case _ => owed
  }

  predicate WantsNode(owed: Owed) {
    owed.Node? || owed.Items? || owed.Key? || owed.Value?
  }

  /** Beginning a node settles what was owed at its level. */
  lemma BeginIsAfterNode(owed: Owed, e: Event)
    requires WantsNode(owed) && BeginsNode(e)
    ensures Accept(owed, e) == Begin(AfterNode(owed), e)
  {}

  lemma AcceptOne(owed: Owed, e: Event)
    ensures AcceptAll(owed, [e]) == Accept(owed, e)
  {
    assert [] + [e] == [e];
    AcceptStep(owed, [], e);
  }

  /** An event, events that are accepted after it, and an event that closes them. */
  lemma Bracketed(owed: Owed, open: Event, inside: seq<Event>, close: Event, inner: Owed, filled: Owed)
    requires Accept(owed, open) == Accepted(inner) && AcceptAll(inner, inside) == Accepted(filled)
    ensures AcceptAll(owed, [open] + inside + [close]) == Accept(filled, close)
  {
    hide Accept, AcceptAll;
    AcceptOne(owed, open);
    AcceptConcat(owed, [open], inside);
    AcceptStep(owed, [open] + inside, close);
  }

  lemma {:induction false} DerivedIsAccepted(d: Derivation, owed: Owed)
    requires Derives(d) && WantsNode(owed)
    ensures AcceptAll(owed, Flatten(d)) == Accepted(AfterNode(owed))
    decreases d, 1
  {
    hide AcceptAll;
    match d {
      case Leaf(e) =>
        AcceptOne(owed, e);
      case Sequence(e, items, _) =>
        ItemsAreAccepted(d, items, AfterNode(owed));
        Bracketed(owed, e, FlattenAll(items), SequenceEndEvent, Items(AfterNode(owed)), Items(AfterNode(owed)));
      case Mapping(e, entries) =>
        EntriesAreAccepted(d, entries, AfterNode(owed));
        Bracketed(owed, e, FlattenAll(entries), MappingEndEvent, Key(AfterNode(owed)), Key(AfterNode(owed)));
    }
  }

  lemma {:induction false} ItemsAreAccepted(parent: Derivation, ds: seq<Derivation>, below: Owed)
    requires forall i :: 0 <= i < |ds| ==> Derives(ds[i]) && ds[i] < parent
    ensures AcceptAll(Items(below), FlattenAll(ds)) == Accepted(Items(below))
    decreases parent, 0, |ds|
  {
    hide Accept, Derives, Flatten;
    if ds != [] {
      var init := ds[..|ds| - 1];
      ItemsAreAccepted(parent, init, below);
      DerivedIsAccepted(ds[|ds| - 1], Items(below));
      AcceptConcat(Items(below), FlattenAll(init), Flatten(ds[|ds| - 1]));
    }
  }

  /** The key or the value that comes next in a mapping with n nodes so far. */
  function Half(n: nat, below: Owed): Owed {
    if n % 2 == 0 then Key(below) else Value(below)
  }

  lemma {:induction false} EntriesAreAccepted(parent: Derivation, ds: seq<Derivation>, below: Owed)
    requires forall i :: 0 <= i < |ds| ==> Derives(ds[i]) && ds[i] < parent
    ensures AcceptAll(Key(below), FlattenAll(ds)) == Accepted(Half(|ds|, below))
    decreases parent, 0, |ds|
  {
    hide Accept, Derives, Flatten;
    if ds != [] {
      var init := ds[..|ds| - 1];
      EntriesAreAccepted(parent, init, below);
      DerivedIsAccepted(ds[|ds| - 1], Half(|init|, below));
      AcceptConcat(Key(below), FlattenAll(init), Flatten(ds[|ds| - 1]));
    }
  }

  lemma {:induction false} DocumentsAreAccepted(ds: seq<Document>)
    requires forall i :: 0 <= i < |ds| ==> DerivesDocument(ds[i])
    ensures AcceptAll(Documents, FlattenDocuments(ds)) == Accepted(Documents)
  {
    hide AcceptAll, Derives, Flatten;
    if ds != [] {
      var d, init := ds[|ds| - 1], ds[..|ds| - 1];
      DocumentsAreAccepted(init);
      DerivedIsAccepted(d.root, Node(DocumentEnd(Documents)));
      Bracketed(Documents, d.start, Flatten(d.root), d.end, Node(DocumentEnd(Documents)), DocumentEnd(Documents));
      var a := FlattenDocuments(init);
      AcceptConcat(Documents, a, [d.start] + Flatten(d.root) + [d.end]);
      assert FlattenDocuments(ds) == a + ([d.start] + Flatten(d.root) + [d.end]);
    } else {
      assert AcceptAll(Documents, []) == Accepted(Documents) by { NoEvents(Documents); }
    }
  }

  lemma NoEvents(owed: Owed)
    ensures AcceptAll(owed, []) == Accepted(owed)
  {}

  /** Every stream is accepted to its end. */
  lemma StreamIsAccepted(es: seq<Event>)
    requires IsStream(es)
    ensures AcceptAll(StreamStart, es) == Accepted(Nothing)
  {
    var ds: seq<Document> :|
      && (forall i :: 0 <= i < |ds| ==> DerivesDocument(ds[i]))
      && es == [StreamStartEvent] + FlattenDocuments(ds) + [StreamEndEvent];
    hide AcceptAll;
    DocumentsAreAccepted(ds);
    Bracketed(StreamStart, StreamStartEvent, FlattenDocuments(ds), StreamEndEvent, Documents, Documents);
  }

  // ----- what the machine accepts is derived -----

  /** The derivations that a run of the machine has built so far. */
  datatype Built =
    | NoStream
    | Between(docs: seq<Document>)
    | Ended(docs: seq<Document>)
    | InDocument(docs: seq<Document>, start: Event)
    | AfterRoot(docs: seq<Document>, start: Event, root: Derivation)
    | InSequence(start: Event, items: seq<Derivation>, above: Built)
    | InMapping(start: Event, entries: seq<Derivation>, above: Built)

  predicate AwaitsNode(z: Built) { z.InDocument? || z.InSequence? || z.InMapping? }

  predicate AllDerive(ds: seq<Derivation>) { forall i :: 0 <= i < |ds| ==> Derives(ds[i]) }

  predicate AllDocuments(ds: seq<Document>) { forall i :: 0 <= i < |ds| ==> DerivesDocument(ds[i]) }

  predicate WellBuilt(z: Built) {
    match z
    case NoStream => true
    case Between(docs) => AllDocuments(docs)
    case Ended(docs) => AllDocuments(docs)
    case InDocument(docs, start) => AllDocuments(docs) && start.DocumentStartEvent?
    case AfterRoot(docs, start, root) => AllDocuments(docs) && start.DocumentStartEvent? && Derives(root)
    case InSequence(start, items, above) =>
      start.SequenceStartEvent? && AllDerive(items) && AwaitsNode(above) && WellBuilt(above)
    case InMapping(start, entries, above) =>
      start.MappingStartEvent? && AllDerive(entries) && AwaitsNode(above) && WellBuilt(above)
  }

  function OwedBy(z: Built): Owed {
    match z
    case NoStream => StreamStart
    case Between(_) => Documents
    case Ended(_) => Nothing
    case InDocument(_, _) => Node(DocumentEnd(Documents))
    case AfterRoot(_, _, _) => DocumentEnd(Documents)
    case InSequence(_, _, above) => Items(AfterNode(OwedBy(above)))
    case InMapping(_, entries, above) => Half(|entries|, AfterNode(OwedBy(above)))
  }

  function Spelled(z: Built): seq<Event> {
    match z
    case NoStream => []
    case Between(docs) => [StreamStartEvent] + FlattenDocuments(docs)
    case Ended(docs) => [StreamStartEvent] + FlattenDocuments(docs) + [StreamEndEvent]
    case InDocument(docs, start) => [StreamStartEvent] + FlattenDocuments(docs) + [start]
    case AfterRoot(docs, start, root) => [StreamStartEvent] + FlattenDocuments(docs) + [start] + Flatten(root)
    case InSequence(start, items, above) => Spelled(above) + [start] + FlattenAll(items)
    case InMapping(start, entries, above) => Spelled(above) + [start] + FlattenAll(entries)
  }

  function AddNode(z: Built, d: Derivation): Built
    requires AwaitsNode(z)
  {
    match z
    case InSequence(start, items, above) => InSequence(start, items + [d], above)
    case InMapping(start, entries, above) => InMapping(start, entries + [d], above)
    case InDocument(docs, start) => AfterRoot(docs, start, d)
  }

  lemma FlattenAllStep(ds: seq<Derivation>, d: Derivation)
    ensures FlattenAll(ds + [d]) == FlattenAll(ds) + Flatten(d)
  {
    assert (ds + [d])[..|ds|] == ds;
  }

  lemma AllDeriveStep(ds: seq<Derivation>, d: Derivation)
    requires AllDerive(ds) && Derives(d)
    ensures AllDerive(ds + [d])
  {}

  lemma AddedNode(z: Built, d: Derivation)
    requires WellBuilt(z) && AwaitsNode(z) && Derives(d)
    ensures WellBuilt(AddNode(z, d)) && OwedBy(AddNode(z, d)) == AfterNode(OwedBy(z))
    ensures Spelled(AddNode(z, d)) == Spelled(z) + Flatten(d)
  {
    hide Flatten, FlattenAll, FlattenDocuments, Derives, AllDerive, AllDocuments;
    if z.InSequence? {
      AllDeriveStep(z.items, d);
      FlattenAllStep(z.items, d);
      Assoc(Spelled(z.above) + [z.start], FlattenAll(z.items), Flatten(d));
    } else if z.InMapping? {
      AllDeriveStep(z.entries, d);
      FlattenAllStep(z.entries, d);
      Assoc(Spelled(z.above) + [z.start], FlattenAll(z.entries), Flatten(d));
    }
  }

  /** An accepted event continues what was built. */
  lemma Continue(z: Built, e: Event) returns (y: Built)
    requires WellBuilt(z) && Accept(OwedBy(z), e).Accepted?
    ensures WellBuilt(y) && Accept(OwedBy(z), e) == Accepted(OwedBy(y)) && Spelled(y) == Spelled(z) + [e]
  {
    hide FlattenAll, FlattenDocuments;
    if AwaitsNode(z) && BeginsNode(e) {
      y := ContinueNode(z, e);
    } else if z.InSequence? {
      var d := Sequence(z.start, z.items, false);
      AddedNode(z.above, d);
      y := AddNode(z.above, d);
    } else if z.InMapping? {
      var d := Mapping(z.start, z.entries);
      AddedNode(z.above, d);
      y := AddNode(z.above, d);
    } else {
      y := ContinueStream(z, e);
    }
  }

  lemma ContinueNode(z: Built, e: Event) returns (y: Built)
    requires WellBuilt(z) && AwaitsNode(z) && BeginsNode(e)
    ensures WellBuilt(y) && Accept(OwedBy(z), e) == Accepted(OwedBy(y)) && Spelled(y) == Spelled(z) + [e]
  {
    hide FlattenDocuments, AllDocuments;
    BeginIsAfterNode(OwedBy(z), e);
    if e.SequenceStartEvent? {
      y := InSequence(e, [], z);
    } else if e.MappingStartEvent? {
      y := InMapping(e, [], z);
    } else {
      AddedNode(z, Leaf(e));
      y := AddNode(z, Leaf(e));
    }
  }

  lemma ContinueStream(z: Built, e: Event) returns (y: Built)
    requires WellBuilt(z) && !AwaitsNode(z) && Accept(OwedBy(z), e).Accepted?
    ensures WellBuilt(y) && Accept(OwedBy(z), e) == Accepted(OwedBy(y)) && Spelled(y) == Spelled(z) + [e]
  {
    if z.NoStream? {
      y := Between([]);
    } else if z.Between? && e.StreamEndEvent? {
      y := Ended(z.docs);
    } else if z.Between? {
      y := InDocument(z.docs, e);
    } else if z.AfterRoot? {
      var d := Document(z.start, z.root, e);
      y := Between(z.docs + [d]);
      assert (z.docs + [d])[..|z.docs|] == z.docs;
      assert Spelled(y) == [StreamStartEvent] + (FlattenDocuments(z.docs) + [d.start] + Flatten(d.root) + [e]);
    } else {
      y := z;
      assert false;
    }
  }

  lemma {:induction false} AcceptedIsBuilt(es: seq<Event>) returns (z: Built)
    requires AcceptAll(StreamStart, es).Accepted?
    ensures WellBuilt(z) && AcceptAll(StreamStart, es) == Accepted(OwedBy(z)) && Spelled(z) == es
    decreases |es|
  {
    if es == [] {
      z := NoStream;
    } else {
      var init := es[..|es| - 1];
      var y := AcceptedIsBuilt(init);
      z := Continue(y, es[|es| - 1]);
    }
  }

  lemma {:induction false} EndedIsNothing(z: Built)
    requires OwedBy(z) == Nothing && WellBuilt(z)
    ensures z.Ended?
  {}

  /** The acceptor accepts to the end exactly the streams. */
  lemma StreamIffAccepted(es: seq<Event>)
    ensures IsStream(es) <==> AcceptAll(StreamStart, es) == Accepted(Nothing)
  {
    if IsStream(es) {
      StreamIsAccepted(es);
    }
    if AcceptAll(StreamStart, es) == Accepted(Nothing) {
      var z := AcceptedIsBuilt(es);
      EndedIsNothing(z);
      assert es == [StreamStartEvent] + FlattenDocuments(z.docs) + [StreamEndEvent];
    }
  }

  /** Events that settle what is owed. */
  function Settle(owed: Owed): seq<Event> {
    var empty := ScalarEvent("", "", "", true, false, Plain);
    match owed
    case Nothing => []
    case StreamStart => [StreamStartEvent, StreamEndEvent]
    case Documents => [StreamEndEvent]
    case DocumentEnd(below) => [DocumentEndEvent(true)] + Settle(below)
    case Node(below) => [empty] + Settle(below)
    case Items(below) => [SequenceEndEvent] + Settle(below)
    case Key(below) => [MappingEndEvent] + Settle(below)
    case Value(below) => [empty, MappingEndEvent] + Settle(below)
  }

  lemma {:induction false} Settled(owed: Owed)
    ensures AcceptAll(owed, Settle(owed)) == Accepted(Nothing)
    decreases owed, 0
  {
    hide AcceptAll;
    var empty := ScalarEvent("", "", "", true, false, Plain);
    match owed {
      case Nothing => NoEvents(owed);
      case StreamStart =>
        AcceptOne(StreamStart, StreamStartEvent);
        AcceptStep(StreamStart, [StreamStartEvent], StreamEndEvent);
        assert [StreamStartEvent] + [StreamEndEvent] == Settle(owed);
      case Documents => AcceptOne(owed, StreamEndEvent);
      case DocumentEnd(below) => SettledAfter(owed, DocumentEndEvent(true), below);
      case Node(below) => SettledAfter(owed, empty, below);
      case Items(below) => SettledAfter(owed, SequenceEndEvent, below);
      case Key(below) => SettledAfter(owed, MappingEndEvent, below);
      case Value(below) =>
        Settled(below);
        AcceptOne(owed, empty);
        AcceptStep(owed, [empty], MappingEndEvent);
        assert [empty] + [MappingEndEvent] == [empty, MappingEndEvent];
        AcceptConcat(owed, [empty, MappingEndEvent], Settle(below));
    }
  }

  lemma {:induction false} SettledAfter(owed: Owed, e: Event, below: Owed)
    requires Accept(owed, e) == Accepted(below) && below < owed
    ensures AcceptAll(owed, [e] + Settle(below)) == Accepted(Nothing)
    decreases below, 1
  {
    hide AcceptAll, Accept;
    Settled(below);
    AcceptOne(owed, e);
    AcceptConcat(owed, [e], Settle(below));
  }

  /** The acceptor accepts exactly the beginnings of streams. */
  lemma PrefixIffAccepted(es: seq<Event>)
    ensures AcceptAll(StreamStart, es).Accepted? <==> exists rest: seq<Event> :: IsStream(es + rest)
  {
    hide AcceptAll, Accept;
    var v := AcceptAll(StreamStart, es);
    if v.Accepted? {
      Settled(v.owed);
      AcceptConcat(StreamStart, es, Settle(v.owed));
      StreamIffAccepted(es + Settle(v.owed));
    }
    if rest: seq<Event> :| IsStream(es + rest) {
      StreamIffAccepted(es + rest);
      AcceptConcat(StreamStart, es, rest);
    }
  }
}
