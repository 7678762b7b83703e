/**
  Merge keys in decode.go: the decoder walks the mapping and its merge sources with a set of
  fields that are taken, which it shares, hides and restores. The result is a first-wins
  merge. Aliases stand for the nodes they name, keys are scalars, and origins are off.
 */
module MergeKeys {

  datatype Key = StringKey(text: string) | OtherKey(id: nat)

  /** What the merge key itself decodes to. */
  const MERGE := StringKey("<<")

  datatype Node = Scalar(id: nat) | Mapping(entries: seq<Entry>) | Sequence(items: seq<Node>)

  datatype Entry = Field(key: Key, value: Node) | Merge(source: Node)

  datatype Value = ScalarValue(id: nat) | MapValue(fields: map<Key, Value>) | SequenceValue(items: seq<Value>)

  function KeyOf(e: Entry): Key { if e.Field? then e.key else MERGE }

  /** No key twice; the merge key counts as one. */
  predicate UniqueKeys(entries: seq<Entry>) {
    forall i, j :: 0 <= i < j < |entries| ==> KeyOf(entries[i]) != KeyOf(entries[j])
  }

  predicate NoDuplicates(n: Node) {
    match n
    case Scalar(_) => true
    case Mapping(entries) =>
      && UniqueKeys(entries)
      && forall i :: 0 <= i < |entries| ==>
           NoDuplicates(if entries[i].Field? then entries[i].value else entries[i].source)
    case Sequence(items) => forall i :: 0 <= i < |items| ==> NoDuplicates(items[i])
  }

  /** Every merge is from a mapping or from a sequence of mappings. */
  predicate MergesMaps(n: Node) {
    match n
    case Scalar(_) => true
    case Mapping(entries) =>
      forall i :: 0 <= i < |entries| ==>
        if entries[i].Field? then MergesMaps(entries[i].value)
        else IsSource(entries[i].source) && MergesMaps(entries[i].source)
    case Sequence(items) => forall i :: 0 <= i < |items| ==> MergesMaps(items[i])
  }

  predicate IsSource(n: Node) {
    n.Mapping? || (n.Sequence? && forall i :: 0 <= i < |n.items| ==> n.items[i].Mapping?)
  }

  // ----- the merge as it should be -----

  /** The first map wins. */
  function FirstWins(a: map<Key, Value>, b: map<Key, Value>): map<Key, Value> { b + a }

  lemma KeysOfFirstWins(a: map<Key, Value>, b: map<Key, Value>)
    ensures FirstWins(a, b).Keys == a.Keys + b.Keys
  {}

  lemma KeysOfMinus(m: map<Key, Value>, s: set<Key>)
    ensures (m - s).Keys == m.Keys - s
  {}

  lemma KeysOfFields(n: Node, hidden: set<Key>)
    requires n.Mapping?
    ensures FieldsOf(n, hidden).Keys == Explicit(n, n.entries, hidden).Keys + (Merged(n, n.entries, hidden).Keys - hidden)
  {
    KeysOfFirstWins(Explicit(n, n.entries, hidden), Merged(n, n.entries, hidden) - hidden);
    KeysOfMinus(Merged(n, n.entries, hidden), hidden);
  }

  /** The value of a node. `hidden` are the fields that merge sources cannot bring in. */
  function ValueOf(n: Node, hidden: set<Key>): Value
    decreases n, 2
  {
    match n
    case Scalar(id) => ScalarValue(id)
    case Mapping(entries) => MapValue(FieldsOf(n, hidden))
    case Sequence(items) => SequenceValue(ValuesOf(n, items, hidden))
  }

  function ValuesOf(parent: Node, items: seq<Node>, hidden: set<Key>): (vs: seq<Value>)
    requires forall i :: 0 <= i < |items| ==> items[i] < parent
    ensures |vs| == |items|
    decreases parent, 0, |items|
  {
    if items == [] then []
    else ValuesOf(parent, items[..|items| - 1], hidden) + [ValueOf(items[|items| - 1], hidden)]
  }

  /** Explicit entries win over merge sources, and earlier sources over later ones. */
  function FieldsOf(n: Node, hidden: set<Key>): map<Key, Value>
    requires n.Mapping?
    decreases n, 1
  {
    FirstWins(Explicit(n, n.entries, hidden), Merged(n, n.entries, hidden) - hidden)
  }

  function Explicit(parent: Node, entries: seq<Entry>, hidden: set<Key>): map<Key, Value>
    requires forall i :: 0 <= i < |entries| ==> entries[i] < parent
    decreases parent, 0, |entries|
  {
    if entries == [] then map[]
    else
      var last := |entries| - 1;
      var m := Explicit(parent, entries[..last], hidden);
      match entries[last]
      case Field(key, value) => m[key := ValueOf(value, hidden)]
      case Merge(_) => m
  }

  /** The fields of the last merge. */
  function Merged(parent: Node, entries: seq<Entry>, hidden: set<Key>): map<Key, Value>
    requires forall i :: 0 <= i < |entries| ==> entries[i] < parent
    decreases parent, 0, |entries|
  {
    if entries == [] then map[]
    else
      var last := |entries| - 1;
      match entries[last]
      case Field(_, _) => Merged(parent, entries[..last], hidden)
      case Merge(source) => FromSource(source, hidden)
  }

  function FromSource(source: Node, hidden: set<Key>): map<Key, Value>
    decreases source, 2
  {
    match source
    case Mapping(_) => FieldsOf(source, hidden)
    case Sequence(items) => FromSources(source, items, hidden)
    case Scalar(_) => map[]
  }

  function FromSources(parent: Node, items: seq<Node>, hidden: set<Key>): map<Key, Value>
    requires forall i :: 0 <= i < |items| ==> items[i] < parent
    decreases parent, 0, |items|
  {
    if items == [] then map[]
    else
      var last := |items| - 1;
      var m := FromSources(parent, items[..last], hidden);
      if items[last].Mapping? then FirstWins(m, FieldsOf(items[last], hidden)) else m
  }

  /** The plain first-wins merge, and what the decoder makes of it: the text of the merge key
      is among the fields that are taken, so no source brings a field of that name. */
  function PureFields(n: Node): map<Key, Value>
    requires n.Mapping?
  {
    FieldsOf(n, {})
  }

  function DecodedFields(n: Node): map<Key, Value>
    requires n.Mapping?
  {
    FieldsOf(n, {MERGE})
  }

  /** The decoder keeps every field of the plain merge that is not called like the merge key. */
  lemma HidesOnlyMergeKey(n: Node)
    requires n.Mapping?
    ensures FieldsOf(n, {}).Keys - {MERGE} == FieldsOf(n, {MERGE}).Keys - {MERGE}
  {
    KeysOf(n, {}, {MERGE});
  }

  lemma SetsBut(a: set<Key>, a': set<Key>, b: set<Key>, b': set<Key>, h: set<Key>, k: set<Key>)
    requires a - {MERGE} == a' - {MERGE} && b - {MERGE} == b' - {MERGE} && h <= {MERGE} && k <= {MERGE}
    ensures (a + (b - h)) - {MERGE} == (a' + (b' - k)) - {MERGE}
    ensures (a + b) - {MERGE} == (a' + b') - {MERGE}
  {
    forall x
      ensures x != MERGE ==> (x in a <==> x in a') && (x in b <==> x in b')
    {
      assert x != MERGE ==> (x in a <==> x in a - {MERGE}) && (x in a' <==> x in a' - {MERGE});
      assert x != MERGE ==> (x in b <==> x in b - {MERGE}) && (x in b' <==> x in b' - {MERGE});
    }
  }

  lemma {:induction false} KeysOf(n: Node, h: set<Key>, k: set<Key>)
    requires n.Mapping? && h <= {MERGE} && k <= {MERGE}
    ensures FieldsOf(n, h).Keys - {MERGE} == FieldsOf(n, k).Keys - {MERGE}
    decreases n, 1
  {
    hide Explicit, Merged, FieldsOf;
    ExplicitKeys(n, n.entries, h, k);
    MergedKeys(n, n.entries, h, k);
    KeysOfFields(n, h);
    KeysOfFields(n, k);
    SetsBut(Explicit(n, n.entries, h).Keys, Explicit(n, n.entries, k).Keys,
            Merged(n, n.entries, h).Keys, Merged(n, n.entries, k).Keys, h, k);
  }

  lemma {:induction false} ExplicitKeys(parent: Node, entries: seq<Entry>, h: set<Key>, k: set<Key>)
    requires forall i :: 0 <= i < |entries| ==> entries[i] < parent
    ensures Explicit(parent, entries, h).Keys == Explicit(parent, entries, k).Keys
    ensures forall x :: x in Explicit(parent, entries, h).Keys <==> exists i :: 0 <= i < |entries| && entries[i].Field? && entries[i].key == x
    decreases |entries|
  {
    if entries != [] {
      var init := entries[..|entries| - 1];
      ExplicitKeys(parent, init, h, k);
      forall x
        ensures x in Explicit(parent, entries, h).Keys <==> exists i :: 0 <= i < |entries| && entries[i].Field? && entries[i].key == x
      {
        if i :| 0 <= i < |entries| && entries[i].Field? && entries[i].key == x {
          if i < |init| {
            assert init[i] == entries[i];
          }
        }
        if i :| 0 <= i < |init| && init[i].Field? && init[i].key == x {
          assert entries[i] == init[i];
        }
      }
    }
  }

  lemma {:induction false} MergedKeys(parent: Node, entries: seq<Entry>, h: set<Key>, k: set<Key>)
    requires (forall i :: 0 <= i < |entries| ==> entries[i] < parent) && h <= {MERGE} && k <= {MERGE}
    ensures Merged(parent, entries, h).Keys - {MERGE} == Merged(parent, entries, k).Keys - {MERGE}
    decreases parent, 0, |entries|
  {
    if entries != [] {
      var e := entries[|entries| - 1];
      if e.Field? {
        MergedKeys(parent, entries[..|entries| - 1], h, k);
      } else {
        SourceKeys(e.source, h, k);
      }
    }
  }

  lemma {:induction false} SourceKeys(source: Node, h: set<Key>, k: set<Key>)
    requires h <= {MERGE} && k <= {MERGE}
    ensures FromSource(source, h).Keys - {MERGE} == FromSource(source, k).Keys - {MERGE}
    decreases source, 2
  {
    if source.Mapping? {
      KeysOf(source, h, k);
    } else if source.Sequence? {
      SourcesKeys(source, source.items, h, k);
    }
  }

  lemma {:induction false} SourcesKeys(parent: Node, items: seq<Node>, h: set<Key>, k: set<Key>)
    requires (forall i :: 0 <= i < |items| ==> items[i] < parent) && h <= {MERGE} && k <= {MERGE}
    ensures FromSources(parent, items, h).Keys - {MERGE} == FromSources(parent, items, k).Keys - {MERGE}
    decreases parent, 0, |items|
  {
    if items != [] {
      var last := |items| - 1;
      SourcesKeys(parent, items[..last], h, k);
      if items[last].Mapping? {
        KeysOf(items[last], h, k);
        KeysOfFirstWins(FromSources(parent, items[..last], h), FieldsOf(items[last], h));
        KeysOfFirstWins(FromSources(parent, items[..last], k), FieldsOf(items[last], k));
        SetsBut(FromSources(parent, items[..last], h).Keys, FromSources(parent, items[..last], k).Keys,
                FieldsOf(items[last], h).Keys, FieldsOf(items[last], k).Keys, {}, {});
      }
    }
  }

  /** `{<<: {"<<": 1}}` with the inner key quoted: the plain merge has a field, the decoder none. */
  lemma QuotedMergeKeyIsLost()
    ensures var n := Mapping([Merge(Mapping([Field(MERGE, Scalar(1))]))]);
      && NoDuplicates(n) && MergesMaps(n)
      && PureFields(n) == map[MERGE := ScalarValue(1)] && DecodedFields(n) == map[]
  {
    var inner := Mapping([Field(MERGE, Scalar(1))]);
    var n := Mapping([Merge(inner)]);
    assert inner.entries[..0] == [] && n.entries[..0] == [];
    assert Merged(inner, inner.entries, {}) == map[];
    assert Explicit(inner, inner.entries, {}) == map[MERGE := ScalarValue(1)];
    NoneExplicit(n, {});
    NoneExplicit(n, {MERGE});
    assert Merged(n, n.entries, {}) == FromSource(inner, {}) == FieldsOf(inner, {});
    assert FieldsOf(inner, {}) == map[MERGE := ScalarValue(1)];
    KeysOfFields(n, {MERGE});
    ExplicitKeys(inner, inner.entries, {}, {MERGE});
    KeysOfFields(inner, {MERGE});
    assert Merged(inner, inner.entries, {MERGE}) == map[];
    assert Merged(n, n.entries, {MERGE}) == FieldsOf(inner, {MERGE});
    assert DecodedFields(n).Keys == {};
  }

  lemma NoneExplicit(n: Node, hidden: set<Key>)
    requires n.Mapping? && |n.entries| == 1 && n.entries[0].Merge?
    ensures Explicit(n, n.entries, hidden) == map[]
  {
    assert n.entries[..0] == [];
  }

  // ----- the merge, key by key -----

  predicate Holds(entries: seq<Entry>, i: nat, k: Key) { i < |entries| && entries[i].Field? && entries[i].key == k }

  /** No entry from i on holds the key. */
  predicate NoneFrom(entries: seq<Entry>, i: nat, k: Key) { forall j :: i <= j < |entries| ==> !Holds(entries, j, k) }

  lemma NoneInPrefix(entries: seq<Entry>, i: nat, k: Key)
    requires entries != [] && NoneFrom(entries, i, k)
    ensures NoneFrom(entries[..|entries| - 1], i, k)
  {
    var init := entries[..|entries| - 1];
    forall j | i <= j < |init|
      ensures !Holds(init, j, k)
    {
      assert !Holds(entries, j, k);
    }
  }

  /** An explicit field has the value of its entry, of the last one if there are several. */
  lemma {:induction false} ExplicitHas(parent: Node, entries: seq<Entry>, hidden: set<Key>, k: Key, i: nat)
    requires (forall i :: 0 <= i < |entries| ==> entries[i] < parent) && Holds(entries, i, k) && NoneFrom(entries, i + 1, k)
    ensures k in Explicit(parent, entries, hidden) && Explicit(parent, entries, hidden)[k] == ValueOf(entries[i].value, hidden)
    decreases |entries|
  {
    hide ValueOf;
    var last := |entries| - 1;
    if i < last {
      var init := entries[..last];
      assert !Holds(entries, last, k);
      NoneInPrefix(entries, i + 1, k);
      ExplicitHas(parent, init, hidden, k, i);
    }
  }

  lemma {:induction false} ExplicitHasNot(parent: Node, entries: seq<Entry>, hidden: set<Key>, k: Key)
    requires (forall i :: 0 <= i < |entries| ==> entries[i] < parent) && NoneFrom(entries, 0, k)
    ensures k !in Explicit(parent, entries, hidden)
    decreases |entries|
  {
    hide ValueOf;
    if entries != [] {
      var last := |entries| - 1;
      assert !Holds(entries, last, k);
      NoneInPrefix(entries, 0, k);
      ExplicitHasNot(parent, entries[..last], hidden, k);
    }
  }

  predicate Brings(items: seq<Node>, i: nat, hidden: set<Key>, k: Key) {
    i < |items| && items[i].Mapping? && k in FieldsOf(items[i], hidden)
  }

  /** No source before the ith brings the key. */
  predicate NoneBefore(items: seq<Node>, i: nat, hidden: set<Key>, k: Key) {
    forall j: nat :: j < i ==> !Brings(items, j, hidden, k)
  }

  /** The items of a sequence have their values in order. */
  lemma {:induction false} ItemsInOrder(parent: Node, items: seq<Node>, hidden: set<Key>, i: nat)
    requires (forall i :: 0 <= i < |items| ==> items[i] < parent) && i < |items|
    ensures ValuesOf(parent, items, hidden)[i] == ValueOf(items[i], hidden)
    decreases |items|
  {
    if i < |items| - 1 {
      ItemsInOrder(parent, items[..|items| - 1], hidden, i);
    }
  }

  /** A list of sources brings in a key with the value that it has in the first source that has it. */
  lemma {:induction false} SourcesBring(parent: Node, items: seq<Node>, hidden: set<Key>, k: Key, i: nat)
    requires (forall i :: 0 <= i < |items| ==> items[i] < parent) && Brings(items, i, hidden, k) && NoneBefore(items, i, hidden, k)
    ensures k in FromSources(parent, items, hidden) && FromSources(parent, items, hidden)[k] == FieldsOf(items[i], hidden)[k]
    decreases |items|
  {
    hide FieldsOf;
    var last := |items| - 1;
    var init := items[..last];
    assert forall j: nat :: j < last ==> init[j] == items[j];
    if i < last {
      assert forall j: nat :: j < i ==> (Brings(init, j, hidden, k) <==> Brings(items, j, hidden, k));
      SourcesBring(parent, init, hidden, k, i);
    } else {
      assert forall j: nat :: j < last ==> (Brings(init, j, hidden, k) <==> Brings(items, j, hidden, k));
      SourcesDoNot(parent, init, hidden, k);
    }
  }

  lemma {:induction false} SourcesDoNot(parent: Node, items: seq<Node>, hidden: set<Key>, k: Key)
    requires (forall i :: 0 <= i < |items| ==> items[i] < parent) && NoneBefore(items, |items|, hidden, k)
    ensures k !in FromSources(parent, items, hidden)
    decreases |items|
  {
    hide FieldsOf;
    if items != [] {
      var last := |items| - 1;
      var init := items[..last];
      assert !Brings(items, last, hidden, k);
      assert forall j: nat :: j < last ==> (Brings(init, j, hidden, k) <==> Brings(items, j, hidden, k));
      SourcesDoNot(parent, init, hidden, k);
    }
  }

  /** The merge of a mapping. An explicit field wins; otherwise, unless it is hidden, a key has the
      value of the first source that has it, if the mapping merges anything. */
  lemma FieldsByKey(n: Node, hidden: set<Key>, k: Key, m: nat)
    requires n.Mapping? && UniqueKeys(n.entries) && (m < |n.entries| ==> n.entries[m].Merge?)
    requires m >= |n.entries| ==> forall i :: 0 <= i < |n.entries| ==> n.entries[i].Field?
    ensures forall i: nat :: Holds(n.entries, i, k) ==>
      k in FieldsOf(n, hidden) && FieldsOf(n, hidden)[k] == ValueOf(n.entries[i].value, hidden)
    ensures (forall i: nat :: !Holds(n.entries, i, k)) ==>
      if m >= |n.entries| || k in hidden then k !in FieldsOf(n, hidden)
      else
        var s := FromSource(n.entries[m].source, hidden);
        (k in FieldsOf(n, hidden) <==> k in s) && (k in s ==> FieldsOf(n, hidden)[k] == s[k])
  {
    hide Explicit, Merged, ValueOf, FromSource;
    OnlyMerge(n, n.entries, hidden, m);
    if i: nat :| Holds(n.entries, i, k) {
      OnlyHolder(n.entries, k, i);
      ExplicitHas(n, n.entries, hidden, k, i);
    } else {
      ExplicitHasNot(n, n.entries, hidden, k);
    }
  }

  lemma OnlyHolder(entries: seq<Entry>, k: Key, i: nat)
    requires UniqueKeys(entries) && Holds(entries, i, k)
    ensures NoneFrom(entries, i + 1, k) && forall j: nat :: Holds(entries, j, k) ==> j == i
  {
    forall j: nat | j < |entries| && j != i
      ensures !Holds(entries, j, k)
    {
      var a, b := if i < j then i else j, if i < j then j else i;
      assert KeyOf(entries[a]) != KeyOf(entries[b]);
    }
  }

  /** There is at most one merge, and it is the one that counts. */
  lemma {:induction false} OnlyMerge(parent: Node, entries: seq<Entry>, hidden: set<Key>, m: nat)
    requires (forall i :: 0 <= i < |entries| ==> entries[i] < parent) && UniqueKeys(entries)
    requires m < |entries| ==> entries[m].Merge?
    requires m >= |entries| ==> forall i :: 0 <= i < |entries| ==> entries[i].Field?
    ensures Merged(parent, entries, hidden) == if m < |entries| then FromSource(entries[m].source, hidden) else map[]
    decreases |entries|
  {
    if entries != [] {
      var last := |entries| - 1;
      var init := entries[..last];
      if m < last {
        assert KeyOf(entries[m]) != KeyOf(entries[last]);
      }
      if entries[last].Field? {
        forall i, j | 0 <= i < j < |init|
          ensures KeyOf(init[i]) != KeyOf(init[j])
        {
          assert KeyOf(entries[i]) != KeyOf(entries[j]);
        }
        OnlyMerge(parent, init, hidden, m);
      }
    }
  }
}
