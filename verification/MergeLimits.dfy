/**
  When the decoder's merge is the plain first-wins merge. A field whose key is a quoted `<<`
  is lost if it would come from a merge source, and only then. So the condition is on the
  sources: that none of the fields they bring in, and none of the fields inside these, is
  called like the merge key. Fields that are not brought in do not matter.
 */
module MergeLimits {
  import opened MergeKeys

  // ----- the condition -----

  /** The merge of a mapping; a later one replaces an earlier one. */
  predicate LastMergeAt(entries: seq<Entry>, i: nat) {
    && i < |entries| && entries[i].Merge?
    && forall j :: i < j < |entries| ==> entries[j].Field?
  }

  /** A field that no later one of the same key replaces. */
  predicate LastFieldAt(entries: seq<Entry>, i: nat) {
    && i < |entries| && entries[i].Field?
    && forall j :: i < j < |entries| ==> !(entries[j].Field? && entries[j].key == entries[i].key)
  }

  function OwnKeys(entries: seq<Entry>): set<Key> {
    set i | 0 <= i < |entries| && entries[i].Field? :: entries[i].key
  }

  /** Does the source, or a source it merges, have a field called like the merge key? */
  predicate HasQuoted(source: Node)
    decreases source
  {
    match source
    case Scalar(_) => false
    case Mapping(entries) =>
      || MERGE in OwnKeys(entries)
      || exists i :: 0 <= i < |entries| && LastMergeAt(entries, i) && HasQuoted(entries[i].source)
    case Sequence(items) => exists i :: 0 <= i < |items| && items[i].Mapping? && HasQuoted(items[i])
  }

  /** The keys that a source offers. */
  function KeysOffered(source: Node): set<Key>
    decreases source, 1
  {
    match source
    case Scalar(_) => {}
    case Mapping(entries) => OwnKeys(entries) + KeysMerged(source, entries)
    case Sequence(items) => KeysBefore(source, items)
  }

  function KeysMerged(parent: Node, entries: seq<Entry>): set<Key>
    requires forall i :: 0 <= i < |entries| ==> entries[i] < parent
    decreases parent, 0, |entries|
  {
    if entries == [] then {}
    else
      var last := |entries| - 1;
      if entries[last].Merge? then KeysOffered(entries[last].source) else KeysMerged(parent, entries[..last])
  }

  /** The keys that a list of sources offers. */
  function KeysBefore(parent: Node, items: seq<Node>): set<Key>
    requires forall i :: 0 <= i < |items| ==> items[i] < parent
    decreases parent, 0, |items|
  {
    if items == [] then {}
    else
      var last := |items| - 1;
      KeysBefore(parent, items[..last]) + if items[last].Mapping? then KeysOffered(items[last]) else {}
  }

  /** Every merge in the node keeps what it brings in. */
  predicate Keeps(n: Node)
    decreases n, 2
  {
    match n
    case Scalar(_) => true
    case Mapping(_) => KeepsFields(n, {})
    case Sequence(items) => forall i :: 0 <= i < |items| ==> Keeps(items[i])
  }

  /** The same, as far as the fields outside `taken` go. */
  predicate KeepsFields(n: Node, taken: set<Key>)
    requires n.Mapping?
    decreases n, 1
  {
    && FieldsKeep(n, n.entries, taken)
    && (forall i :: 0 <= i < |n.entries| ==> LastMergeAt(n.entries, i) ==>
          KeepsSource(n.entries[i].source, taken + OwnKeys(n.entries)))
  }

  /** The values of the fields outside `taken` keep what is merged inside them. */
  predicate FieldsKeep(parent: Node, entries: seq<Entry>, taken: set<Key>)
    requires forall i :: 0 <= i < |entries| ==> entries[i] < parent
    decreases parent, 0
  {
    forall i :: 0 <= i < |entries| ==> LastFieldAt(entries, i) && entries[i].key !in taken ==> Keeps(entries[i].value)
  }

  predicate KeepsSource(source: Node, taken: set<Key>)
    decreases source, 2
  {
    && (MERGE in taken || !HasQuoted(source))
    && match source
       case Scalar(_) => true
       case Mapping(_) => KeepsFields(source, taken + {MERGE})
       case Sequence(items) => KeepsItems(source, items, taken + {MERGE})
  }

  predicate KeepsItems(parent: Node, items: seq<Node>, taken: set<Key>)
    requires forall i :: 0 <= i < |items| ==> items[i] < parent
    decreases parent, 0
  {
    forall i :: 0 <= i < |items| ==> items[i].Mapping? ==> KeepsFields(items[i], taken + KeysBefore(parent, items[..i]))
  }

  // ----- the keys -----

  lemma {:induction false} FieldKeys(n: Node)
    requires n.Mapping?
    ensures FieldsOf(n, {}).Keys == KeysOffered(n)
    decreases n, 1
  {
    hide Explicit, Merged, FieldsOf;
    OwnKeysAre(n, n.entries);
    MergeKeysAre(n, n.entries);
    KeysOfFields(n, {});
  }

  lemma OwnKeysAre(parent: Node, entries: seq<Entry>)
    requires forall i :: 0 <= i < |entries| ==> entries[i] < parent
    ensures Explicit(parent, entries, {}).Keys == Explicit(parent, entries, {MERGE}).Keys == OwnKeys(entries)
  {
    hide Explicit;
    ExplicitKeys(parent, entries, {}, {MERGE});
  }

  lemma {:induction false} MergeKeysAre(parent: Node, entries: seq<Entry>)
    requires forall i :: 0 <= i < |entries| ==> entries[i] < parent
    ensures Merged(parent, entries, {}).Keys == KeysMerged(parent, entries)
    decreases parent, 0, |entries|
  {
    if entries != [] {
      var e := entries[|entries| - 1];
      if e.Merge? {
        OfferedAre(e.source);
      } else {
        MergeKeysAre(parent, entries[..|entries| - 1]);
      }
    }
  }

  lemma {:induction false} OfferedAre(source: Node)
    ensures FromSource(source, {}).Keys == KeysOffered(source)
    decreases source, 2
  {
    if source.Mapping? {
      FieldKeys(source);
    } else if source.Sequence? {
      ItemKeysAre(source, source.items);
    }
  }

  lemma {:induction false} ItemKeysAre(parent: Node, items: seq<Node>)
    requires forall i :: 0 <= i < |items| ==> items[i] < parent
    ensures FromSources(parent, items, {}).Keys == KeysBefore(parent, items)
    decreases parent, 0, |items|
  {
    if items != [] {
      var last := |items| - 1;
      ItemKeysAre(parent, items[..last]);
      if items[last].Mapping? {
        FieldKeys(items[last]);
        KeysOfFirstWins(FromSources(parent, items[..last], {}), FieldsOf(items[last], {}));
      }
    }
  }

  lemma {:induction false} QuotedIff(source: Node)
    ensures MERGE in KeysOffered(source) <==> HasQuoted(source)
    decreases source, 1
  {
    match source {
      case Scalar(_) =>
      case Mapping(entries) => QuotedMergedIff(source, entries);
      case Sequence(items) => QuotedItemsIff(source, items);
    }
  }

  lemma {:induction false} QuotedMergedIff(parent: Node, entries: seq<Entry>)
    requires forall i :: 0 <= i < |entries| ==> entries[i] < parent
    ensures MERGE in KeysMerged(parent, entries) <==>
      exists i :: 0 <= i < |entries| && LastMergeAt(entries, i) && HasQuoted(entries[i].source)
    decreases parent, 0, |entries|
  {
    hide KeysOffered, HasQuoted;
    if entries != [] {
      var last := |entries| - 1;
      LastMerge(entries);
      if entries[last].Merge? {
        QuotedIff(entries[last].source);
        assert LastMergeAt(entries, last);
      } else {
        QuotedMergedIff(parent, entries[..last]);
      }
    }
  }

  /** The last merge of some entries, seen from those before the last. */
  lemma LastMerge(entries: seq<Entry>)
    requires entries != []
    ensures var last := |entries| - 1;
      if entries[last].Merge? then forall i :: 0 <= i < |entries| ==> (LastMergeAt(entries, i) <==> i == last)
      else !LastMergeAt(entries, last) && forall i :: 0 <= i < last ==>
        (LastMergeAt(entries, i) <==> LastMergeAt(entries[..last], i)) && entries[..last][i] == entries[i]
  {
    var last := |entries| - 1;
    forall i | 0 <= i < last
      ensures entries[last].Merge? ==> !LastMergeAt(entries, i)
      ensures entries[last].Field? ==> (LastMergeAt(entries, i) <==> LastMergeAt(entries[..last], i))
    {
      if entries[last].Field? && LastMergeAt(entries[..last], i) {
        forall j | i < j < |entries|
          ensures entries[j].Field?
        {
          if j < last {
            assert entries[..last][j] == entries[j];
          }
        }
      }
    }
  }

  lemma {:induction false} QuotedItemsIff(parent: Node, items: seq<Node>)
    requires forall i :: 0 <= i < |items| ==> items[i] < parent
    ensures MERGE in KeysBefore(parent, items) <==> exists i :: 0 <= i < |items| && items[i].Mapping? && HasQuoted(items[i])
    decreases parent, 0, |items|
  {
    hide KeysOffered, HasQuoted;
    if items != [] {
      var last := |items| - 1;
      var init := items[..last];
      QuotedItemsIff(parent, init);
      if items[last].Mapping? {
        QuotedIff(items[last]);
      }
      if i :| 0 <= i < last && items[i].Mapping? && HasQuoted(items[i]) {
        assert init[i] == items[i];
      }
      if i :| 0 <= i < |init| && init[i].Mapping? && HasQuoted(init[i]) {
        assert items[i] == init[i];
      }
    }
  }

  /** The decoder finds the keys of the plain merge if and only if the mapping has a field
      called like the merge key itself, or none comes from its merge. */
  lemma SameKeysIff(n: Node)
    requires n.Mapping?
    ensures PureFields(n).Keys == DecodedFields(n).Keys <==>
      || MERGE in OwnKeys(n.entries)
      || forall i :: 0 <= i < |n.entries| ==> LastMergeAt(n.entries, i) ==> !HasQuoted(n.entries[i].source)
  {
    hide Explicit, Merged, FieldsOf, HasQuoted, KeysMerged;
    HidesOnlyMergeKey(n);
    OwnKeysAre(n, n.entries);
    MergeKeysAre(n, n.entries);
    QuotedMergedIff(n, n.entries);
    KeysOfFields(n, {});
    KeysOfFields(n, {MERGE});
    var a, b := FieldsOf(n, {}).Keys, FieldsOf(n, {MERGE}).Keys;
    if MERGE in a <==> MERGE in b {
      assert forall x :: x in a <==> x in b by {
        forall x
          ensures x in a <==> x in b
        {
          assert x != MERGE ==> (x in a <==> x in a - {MERGE}) && (x in b <==> x in b - {MERGE});
        }
      }
    }
  }

  // ----- maps that agree -----

  /** A map without some of its keys. */
  function Without(m: map<Key, Value>, taken: set<Key>): map<Key, Value> { m - taken }

  lemma WithoutKey(m: map<Key, Value>, taken: set<Key>, x: Key)
    ensures x in Without(m, taken) <==> x in m && x !in taken
    ensures x in m && x !in taken ==> Without(m, taken)[x] == m[x]
  {}

  /** Maps agree outside some keys if and only if they do so key by key. */
  predicate AgreeAt(a: map<Key, Value>, b: map<Key, Value>, x: Key) {
    (x in a <==> x in b) && (x in a && x in b ==> a[x] == b[x])
  }

  lemma AgreeIff(a: map<Key, Value>, b: map<Key, Value>, taken: set<Key>)
    ensures Without(a, taken) == Without(b, taken) <==> forall x :: x !in taken ==> AgreeAt(a, b, x)
  {
    var a', b' := Without(a, taken), Without(b, taken);
    forall x
      ensures x in taken || (AgreeAt(a, b, x) <==> AgreeAt(a', b', x))
      ensures x in taken ==> AgreeAt(a', b', x)
    {
      WithoutKey(a, taken, x);
      WithoutKey(b, taken, x);
    }
    if forall x :: x !in taken ==> AgreeAt(a, b, x) {
      assert forall x :: AgreeAt(a', b', x);
      assert a'.Keys == b'.Keys;
    }
  }

  /** First-wins merges agree if and only if the first maps do, and the others where the
      first have nothing. */
  lemma FirstWinsAgree(a: map<Key, Value>, b: map<Key, Value>, c: map<Key, Value>, d: map<Key, Value>, taken: set<Key>, own: set<Key>)
    requires a.Keys - taken == own - taken && b.Keys - taken == own - taken
    ensures Without(FirstWins(a, c), taken) == Without(FirstWins(b, d), taken) <==>
      Without(a, taken) == Without(b, taken) && Without(c, taken + own) == Without(d, taken + own)
  {
    AgreeIff(FirstWins(a, c), FirstWins(b, d), taken);
    AgreeIff(a, b, taken);
    AgreeIff(c, d, taken + own);
    forall x | x !in taken
      ensures x in a <==> x in own
      ensures x in b <==> x in own
      ensures x in own ==> (AgreeAt(FirstWins(a, c), FirstWins(b, d), x) <==> AgreeAt(a, b, x))
      ensures x !in own ==> AgreeAt(a, b, x) && (AgreeAt(FirstWins(a, c), FirstWins(b, d), x) <==> AgreeAt(c, d, x))
    {
      assert x in a <==> x in a.Keys - taken;
      assert x in b <==> x in b.Keys - taken;
      assert x in own <==> x in own - taken;
    }
    if forall x :: x !in taken ==> AgreeAt(FirstWins(a, c), FirstWins(b, d), x) {
      assert forall x :: x !in taken + own ==> AgreeAt(c, d, x);
      assert forall x :: x !in taken ==> AgreeAt(a, b, x);
    }
    if (forall x :: x !in taken ==> AgreeAt(a, b, x)) && forall x :: x !in taken + own ==> AgreeAt(c, d, x) {
      forall x | x !in taken
        ensures AgreeAt(FirstWins(a, c), FirstWins(b, d), x)
      {
        if x !in own {
          assert x !in taken + own;
        }
      }
    }
  }

  /** Hiding the merge key on one side. */
  lemma HideAgree(a: map<Key, Value>, b: map<Key, Value>, taken: set<Key>)
    ensures Without(a, taken) == Without(b - {MERGE}, taken) <==>
      (MERGE in taken || MERGE !in a) && Without(a, taken + {MERGE}) == Without(b, taken + {MERGE})
  {
    AgreeIff(a, b - {MERGE}, taken);
    AgreeIff(a, b, taken + {MERGE});
    forall x
      ensures x != MERGE ==> (AgreeAt(a, b - {MERGE}, x) <==> AgreeAt(a, b, x))
    {}
    if Without(a, taken) == Without(b - {MERGE}, taken) {
      assert MERGE !in taken ==> AgreeAt(a, b - {MERGE}, MERGE);
    }
  }

  // ----- the values -----

  /** The value comes out as in the plain merge if and only if every merge keeps what it
      brings in. */
  lemma {:induction false} SameValueIff(n: Node)
    ensures ValueOf(n, {}) == ValueOf(n, {MERGE}) <==> Keeps(n)
    decreases n, 2
  {
    hide FieldsOf, KeepsFields;
    match n {
      case Scalar(_) =>
      case Mapping(_) =>
        SameFieldsIff(n, {});
        assert Without(FieldsOf(n, {}), {}) == FieldsOf(n, {});
        assert Without(FieldsOf(n, {MERGE}), {}) == FieldsOf(n, {MERGE});
      case Sequence(items) => SameValuesIff(n, items);
    }
  }

  lemma {:induction false} SameValuesIff(parent: Node, items: seq<Node>)
    requires forall i :: 0 <= i < |items| ==> items[i] < parent
    ensures ValuesOf(parent, items, {}) == ValuesOf(parent, items, {MERGE}) <==> forall i :: 0 <= i < |items| ==> Keeps(items[i])
    decreases parent, 0, |items|
  {
    hide ValueOf, Keeps;
    if items != [] {
      var last := |items| - 1;
      var init := items[..last];
      SameValuesIff(parent, init);
      SameValueIff(items[last]);
      var a, b := ValuesOf(parent, init, {}), ValuesOf(parent, init, {MERGE});
      assert (a + [ValueOf(items[last], {})])[..last] == a && (b + [ValueOf(items[last], {MERGE})])[..last] == b;
      assert (a + [ValueOf(items[last], {})])[last] == ValueOf(items[last], {});
      assert (b + [ValueOf(items[last], {MERGE})])[last] == ValueOf(items[last], {MERGE});
      if forall i :: 0 <= i < |init| ==> Keeps(init[i]) {
        assert forall i :: 0 <= i < last ==> items[i] == init[i];
      }
      if forall i :: 0 <= i < |items| ==> Keeps(items[i]) {
        assert forall i :: 0 <= i < last ==> init[i] == items[i];
      }
    }
  }

  lemma {:induction false} SameFieldsIff(n: Node, taken: set<Key>)
    requires n.Mapping?
    ensures Without(FieldsOf(n, {}), taken) == Without(FieldsOf(n, {MERGE}), taken) <==> KeepsFields(n, taken)
    decreases n, 1
  {
    hide Explicit, Merged, Without, Keeps, KeepsSource, OwnKeys;
    var own := OwnKeys(n.entries);
    OwnKeysAre(n, n.entries);
    var a, b := Explicit(n, n.entries, {}), Explicit(n, n.entries, {MERGE});
    var c, d := Merged(n, n.entries, {}), Merged(n, n.entries, {MERGE});
    SameExplicitIff(n, n.entries, taken);
    SameMergedIff(n, n.entries, taken + own);
    FirstWinsAgree(a, b, c - {}, d - {MERGE}, taken, own);
    assert c - {} == c;
  }

  lemma {:induction false} SameExplicitIff(parent: Node, entries: seq<Entry>, taken: set<Key>)
    requires forall i :: 0 <= i < |entries| ==> entries[i] < parent
    ensures Without(Explicit(parent, entries, {}), taken) == Without(Explicit(parent, entries, {MERGE}), taken) <==> FieldsKeep(parent, entries, taken)
    decreases parent, 0, |entries|
  {
    hide ValueOf, Keeps, Without, FieldsKeep, LastFieldAt;
    KeptFields(parent, entries, taken);
    if entries != [] {
      var last := |entries| - 1;
      var init := entries[..last];
      match entries[last] {
        case Field(k, v) =>
          SameExplicitIff(parent, init, taken + {k});
          SameValueIff(v);
          var a, b := Explicit(parent, init, {}), Explicit(parent, init, {MERGE});
          OneMoreField(a, b, k, ValueOf(v, {}), ValueOf(v, {MERGE}), taken);
        case Merge(_) =>
          SameExplicitIff(parent, init, taken);
      }
    }
  }

  lemma OneMoreField(a: map<Key, Value>, b: map<Key, Value>, k: Key, v: Value, w: Value, taken: set<Key>)
    ensures Without(a[k := v], taken) == Without(b[k := w], taken) <==>
      Without(a, taken + {k}) == Without(b, taken + {k}) && (k in taken || v == w)
  {
    AgreeIff(a[k := v], b[k := w], taken);
    AgreeIff(a, b, taken + {k});
    forall x
      ensures x != k ==> (AgreeAt(a[k := v], b[k := w], x) <==> AgreeAt(a, b, x))
      ensures AgreeAt(a[k := v], b[k := w], k) <==> v == w
    {}
    if forall x :: x !in taken ==> AgreeAt(a[k := v], b[k := w], x) {
      assert forall x :: x !in taken + {k} ==> AgreeAt(a, b, x);
      assert k in taken || v == w;
    }
    if (forall x :: x !in taken + {k} ==> AgreeAt(a, b, x)) && (k in taken || v == w) {
      forall x | x !in taken
        ensures AgreeAt(a[k := v], b[k := w], x)
      {
        if x != k {
          assert x !in taken + {k};
        }
      }
    }
  }

  /** The last fields of some entries, seen from those before the last. */
  lemma LastField(entries: seq<Entry>)
    requires entries != []
    ensures var last := |entries| - 1;
      && (LastFieldAt(entries, last) <==> entries[last].Field?)
      && forall i :: 0 <= i < last ==>
        (LastFieldAt(entries, i) <==>
          LastFieldAt(entries[..last], i) && !(entries[last].Field? && entries[last].key == entries[i].key))
        && entries[..last][i] == entries[i]
  {
    var last := |entries| - 1;
    forall i | 0 <= i < last
      ensures LastFieldAt(entries, i) <==>
        LastFieldAt(entries[..last], i) && !(entries[last].Field? && entries[last].key == entries[i].key)
    {
      if LastFieldAt(entries[..last], i) {
        forall j | i < j < last
          ensures !(entries[j].Field? && entries[j].key == entries[i].key)
        {
          assert entries[..last][j] == entries[j];
        }
      }
    }
  }

  lemma KeptFields(parent: Node, entries: seq<Entry>, taken: set<Key>)
    requires forall i :: 0 <= i < |entries| ==> entries[i] < parent
    ensures entries == [] ==> FieldsKeep(parent, entries, taken)
    ensures entries != [] ==>
      var e, init := entries[|entries| - 1], entries[..|entries| - 1];
      FieldsKeep(parent, entries, taken) <==>
        && (e.Field? && e.key !in taken ==> Keeps(e.value))
        && FieldsKeep(parent, init, if e.Field? then taken + {e.key} else taken)
  {
    hide Keeps;
    if entries != [] {
      LastField(entries);
      hide LastFieldAt;
      var last := |entries| - 1;
      var e, init := entries[last], entries[..last];
      assert forall i :: 0 <= i < last ==> init[i] == entries[i];
    }
  }

  lemma {:induction false} SameMergedIff(parent: Node, entries: seq<Entry>, taken: set<Key>)
    requires forall i :: 0 <= i < |entries| ==> entries[i] < parent
    ensures Without(Merged(parent, entries, {}), taken) == Without(Merged(parent, entries, {MERGE}) - {MERGE}, taken) <==>
      forall i :: 0 <= i < |entries| ==> LastMergeAt(entries, i) ==> KeepsSource(entries[i].source, taken)
    decreases parent, 0, |entries|
  {
    hide KeepsSource, FromSource;
    if entries != [] {
      var last := |entries| - 1;
      LastMerge(entries);
      if entries[last].Merge? {
        SameSourceIff(entries[last].source, taken);
      } else {
        SameMergedIff(parent, entries[..last], taken);
      }
    } else {
      var none: map<Key, Value> := map[];
      assert none - {MERGE} == none;
    }
  }

  lemma {:induction false} SameSourceIff(source: Node, taken: set<Key>)
    ensures Without(FromSource(source, {}), taken) == Without(FromSource(source, {MERGE}) - {MERGE}, taken) <==> KeepsSource(source, taken)
    decreases source, 2
  {
    hide FieldsOf, FromSources, KeepsFields, KeepsItems, HasQuoted, Without;
    var a, b := FromSource(source, {}), FromSource(source, {MERGE});
    HideAgree(a, b, taken);
    OfferedAre(source);
    QuotedIff(source);
    match source {
      case Scalar(_) =>
      case Mapping(_) => SameFieldsIff(source, taken + {MERGE});
      case Sequence(items) => SameItemsIff(source, items, taken + {MERGE});
    }
  }

  lemma {:induction false} SameItemsIff(parent: Node, items: seq<Node>, taken: set<Key>)
    requires (forall i :: 0 <= i < |items| ==> items[i] < parent) && MERGE in taken
    ensures Without(FromSources(parent, items, {}), taken) == Without(FromSources(parent, items, {MERGE}), taken)
      <==> KeepsItems(parent, items, taken)
    decreases parent, 0, |items|
  {
    hide FieldsOf, KeepsFields, Without;
    if items != [] {
      var last := |items| - 1;
      var init := items[..last];
      SameItemsIff(parent, init, taken);
      KeptItems(parent, items, taken);
      if items[last].Mapping? {
        var own := KeysBefore(parent, init);
        var a, b := FromSources(parent, init, {}), FromSources(parent, init, {MERGE});
        ItemKeysAre(parent, init);
        SourcesKeys(parent, init, {}, {MERGE});
        OutsideMerge(a.Keys, b.Keys, taken);
        FirstWinsAgree(a, b, FieldsOf(items[last], {}), FieldsOf(items[last], {MERGE}), taken, own);
        SameFieldsIff(items[last], taken + own);
      }
    }
  }

  lemma OutsideMerge(a: set<Key>, b: set<Key>, taken: set<Key>)
    requires a - {MERGE} == b - {MERGE} && MERGE in taken
    ensures a - taken == b - taken
  {
    forall x | x !in taken
      ensures x in a <==> x in b
    {
      assert (x in a <==> x in a - {MERGE}) && (x in b <==> x in b - {MERGE});
    }
  }

  lemma KeptItems(parent: Node, items: seq<Node>, taken: set<Key>)
    requires items != [] && forall i :: 0 <= i < |items| ==> items[i] < parent
    ensures var last := |items| - 1;
      KeepsItems(parent, items, taken) <==>
      && KeepsItems(parent, items[..last], taken)
      && (items[last].Mapping? ==> KeepsFields(items[last], taken + KeysBefore(parent, items[..last])))
  {
    hide KeepsFields, KeysBefore;
    var last := |items| - 1;
    var init := items[..last];
    assert forall i :: 0 <= i < last ==> init[i] == items[i] && init[..i] == items[..i];
  }

  /** The decoder gives exactly the plain merge, values included, if and only if every merge
      whose fields can be seen keeps what it brings in. */
  lemma DecodesPlainMergeIff(n: Node)
    requires n.Mapping?
    ensures PureFields(n) == DecodedFields(n) <==> KeepsFields(n, {})
  {
    hide FieldsOf, KeepsFields;
    SameFieldsIff(n, {});
    assert Without(FieldsOf(n, {}), {}) == FieldsOf(n, {});
    assert Without(FieldsOf(n, {MERGE}), {}) == FieldsOf(n, {MERGE});
  }
}
