/**
  The decoder object of decode.go as far as mappings and merges go. The set of fields that
  are taken is shared between a mapping and its merge sources, hidden while values are
  decoded, and put back in the end.
 */
module MergeDecoder {
  import opened MergeKeys

  const HIDDEN: set<Key> := {MERGE}

  class FieldSet {
    var keys: set<Key>

    constructor ()
      ensures keys == {}
    {
      keys := {};
    }
  }

  /** The Go map that a mapping is decoded into. */
  class Target {
    var fields: map<Key, Value>

    constructor ()
      ensures fields == map[]
    {
      fields := map[];
    }
  }

  /** The fields that are added to what is there already, except for those that are taken. */
  function Added(was: map<Key, Value>, more: map<Key, Value>, taken: set<Key>): map<Key, Value> {
    FirstWins(was, more - taken)
  }

  lemma AddedOne(was: map<Key, Value>, more: map<Key, Value>, taken: set<Key>, k: Key, v: Value)
    requires was.Keys <= taken
    ensures Added(was, more[k := v], taken) == if k in taken then Added(was, more, taken) else Added(was, more, taken)[k := v]
  {}

  /** First the entries of a mapping, then its merge sources, behind what is there. */
  lemma AddedInTurn(was: map<Key, Value>, own: map<Key, Value>, merged: map<Key, Value>, taken: set<Key>)
    requires MERGE in taken
    ensures Added(Added(was, own, taken), merged, taken + own.Keys) == Added(was, FirstWins(own, merged - HIDDEN), taken)
    ensures taken + own.Keys + merged.Keys == taken + FirstWins(own, merged - HIDDEN).Keys
  {
    var a := Added(Added(was, own, taken), merged, taken + own.Keys);
    var b := Added(was, FirstWins(own, merged - HIDDEN), taken);
    assert a.Keys == b.Keys;
  }

  /** At the top only what is there and the merge key are taken. */
  lemma AddedAtTop(own: map<Key, Value>, merged: map<Key, Value>)
    ensures Added(own, merged, own.Keys + HIDDEN) == FirstWins(own, merged - HIDDEN)
  {
    assert Added(own, merged, own.Keys + HIDDEN).Keys == FirstWins(own, merged - HIDDEN).Keys;
  }

  lemma AddedSources(was: map<Key, Value>, a: map<Key, Value>, b: map<Key, Value>, taken: set<Key>)
    ensures Added(Added(was, a, taken), b, taken + a.Keys) == Added(was, FirstWins(a, b), taken)
    ensures taken + a.Keys + b.Keys == taken + FirstWins(a, b).Keys
  {
    assert Added(Added(was, a, taken), b, taken + a.Keys).Keys == Added(was, FirstWins(a, b), taken).Keys;
  }

  class Decoder {
    var mergedFields: FieldSet?

    constructor ()
      ensures mergedFields == null
    {
      mergedFields := null;
    }

    /** A value, into a map of its own if it is a mapping. */
    method DecodeValue(n: Node) returns (ok: bool, v: Value)
      requires mergedFields == null && NoDuplicates(n)
      modifies this
      ensures ok ==> mergedFields == null && v == ValueOf(n, HIDDEN)
      ensures !ok ==> !MergesMaps(n)
      decreases n, 3
    {
      v := ScalarValue(0);
      match n {
        case Scalar(id) => return true, ScalarValue(id);
        case Mapping(_) =>
          var out := new Target();
          ok := DecodeMapping(n, out);
          if ok {
            v := MapValue(out.fields);
          }
        case Sequence(items) =>
          var vs: seq<Value> := [];
          for i := 0 to |items|
            invariant mergedFields == null && vs == ValuesOf(n, items[..i], HIDDEN)
          {
            var x;
            ok, x := DecodeValue(items[i]);
            if !ok {
              return;
            }
            assert items[..i + 1][..i] == items[..i];
            vs := vs + [x];
          }
          assert items[..|items|] == items;
          return true, SequenceValue(vs);
      }
    }

    /** `decoder.mapping`, for a map. */
    method DecodeMapping(n: Node, out: Target) returns (ok: bool)
      requires n.Mapping? && NoDuplicates(n)
      requires if mergedFields == null then out.fields == map[] else MERGE in mergedFields.keys && out.fields.Keys <= mergedFields.keys
      modifies this, out, mergedFields
      ensures ok ==> mergedFields == old(mergedFields)
      ensures ok && old(mergedFields) == null ==> out.fields == DecodedFields(n)
      ensures ok && old(mergedFields) != null ==>
        && out.fields == Added(old(out.fields), DecodedFields(n), old(mergedFields.keys))
        && mergedFields.keys == old(mergedFields.keys) + DecodedFields(n).Keys
      ensures !ok ==> !MergesMaps(n)
      decreases n, 2
    {
      var saved := mergedFields;
      ghost var was, taken := out.fields, if saved == null then {} else saved.keys;
      mergedFields := null;
      var hasMerge, mergeNode;
      ok, hasMerge, mergeNode := DecodeEntries(n, out, saved);
      if !ok {
        return;
      }
      mergedFields := saved;
      ghost var own := Explicit(n, n.entries, HIDDEN);
      if hasMerge {
        ok := MergeInto(n, mergeNode, out);
        if saved == null {
          AddedAtTop(own, FromSource(mergeNode, HIDDEN));
        } else {
          AddedInTurn(was, own, FromSource(mergeNode, HIDDEN), taken);
        }
      } else if saved == null {
        AddedAtTop(own, map[]);
      } else {
        AddedInTurn(was, own, map[], taken);
      }
    }

    /** The explicit entries; the merge key is noted and passed over. */
    method DecodeEntries(n: Node, out: Target, saved: FieldSet?) returns (ok: bool, hasMerge: bool, mergeNode: Node)
      requires n.Mapping? && NoDuplicates(n) && mergedFields == null
      requires if saved == null then out.fields == map[] else MERGE in saved.keys && out.fields.Keys <= saved.keys
      modifies this, out, saved
      ensures var own := Explicit(n, n.entries, HIDDEN);
        ok ==>
          && mergedFields == null
          && out.fields == Added(old(out.fields), own, if saved == null then {} else old(saved.keys))
          && (saved != null ==> saved.keys == old(saved.keys) + own.Keys)
          && (if hasMerge then mergeNode < n && NoDuplicates(mergeNode) && Merged(n, n.entries, HIDDEN) == FromSource(mergeNode, HIDDEN)
              else Merged(n, n.entries, HIDDEN) == map[])
          && (hasMerge ==> exists i :: 0 <= i < |n.entries| && n.entries[i].Merge?)
          && (hasMerge && MergesMaps(n) ==> IsSource(mergeNode) && MergesMaps(mergeNode))
      ensures !ok ==> !MergesMaps(n)
      decreases n, 1
    {
      hide FromSource;
      ghost var was, taken := out.fields, if saved == null then {} else saved.keys;
      var entries := n.entries;
      ok, hasMerge, mergeNode := true, false, n;
      assert Added(was, map[], taken) == was;
      for i := 0 to |entries|
        invariant mergedFields == null && ok
        invariant out.fields == Added(was, Explicit(n, entries[..i], HIDDEN), taken)
        invariant saved != null ==> saved.keys == taken + Explicit(n, entries[..i], HIDDEN).Keys
        invariant if hasMerge then mergeNode < n && NoDuplicates(mergeNode) && Merged(n, entries[..i], HIDDEN) == FromSource(mergeNode, HIDDEN)
                  else Merged(n, entries[..i], HIDDEN) == map[]
        invariant hasMerge ==> exists j :: 0 <= j < |n.entries| && n.entries[j].Merge?
        invariant hasMerge && MergesMaps(n) ==> IsSource(mergeNode) && MergesMaps(mergeNode)
      {
        assert entries[..i + 1][..i] == entries[..i];
        var e := entries[i];
        NewKey(n, entries, i);
        assert NoDuplicates(if e.Field? then e.value else e.source);
        if e.Merge? {
          hasMerge, mergeNode := true, e.source;
        } else {
          var taken' := saved != null && e.key in saved.keys;
          if !taken' {
            if saved != null {
              saved.keys := saved.keys + {e.key};
            }
            var v;
            ok, v := DecodeValue(e.value);
            if !ok {
              return;
            }
            out.fields := out.fields[e.key := v];
          }
          AddedOne(was, Explicit(n, entries[..i], HIDDEN), taken, e.key, ValueOf(e.value, HIDDEN));
        }
      }
      assert entries[..|entries|] == entries;
    }

    /** `decoder.merge`. At the top it begins with the keys of the mapping itself, the merge
        key among them; inside another merge it goes on with what is taken already. */
    method MergeInto(parent: Node, source: Node, out: Target) returns (ok: bool)
      requires parent.Mapping? && source < parent && NoDuplicates(source)
      requires mergedFields == null ==> out.fields == Explicit(parent, parent.entries, HIDDEN)
      requires mergedFields == null ==> exists i :: 0 <= i < |parent.entries| && parent.entries[i].Merge?
      requires mergedFields != null ==> MERGE in mergedFields.keys && out.fields.Keys <= mergedFields.keys
      modifies this, out, mergedFields
      ensures ok ==> mergedFields == old(mergedFields)
      ensures ok ==>
        var more := FromSource(source, HIDDEN);
        if old(mergedFields) == null then out.fields == Added(old(out.fields), more, old(out.fields).Keys + HIDDEN)
        else
          && out.fields == Added(old(out.fields), more, old(mergedFields.keys))
          && mergedFields.keys == old(mergedFields.keys) + more.Keys
      ensures !ok ==> !(IsSource(source) && MergesMaps(source))
      decreases parent, 1
    {
      var saved := mergedFields;
      if saved == null {
        mergedFields := new FieldSet();
        for i := 0 to |parent.entries|
          invariant mergedFields != null && fresh(mergedFields)
          invariant mergedFields.keys == set j | 0 <= j < i :: KeyOf(parent.entries[j])
          invariant out.fields == old(out.fields)
        {
          mergedFields.keys := mergedFields.keys + {KeyOf(parent.entries[i])};
        }
        TopKeys(parent, mergedFields.keys);
      }
      ghost var was, taken := out.fields, mergedFields.keys;
      match source {
        case Mapping(_) => ok := DecodeMapping(source, out);
        case Sequence(items) => ok := MergeAll(source, out);
        case Scalar(_) => ok := false;
      }
      if ok {
        mergedFields := saved;
      }
    }

    /** The sources of a sequence, one after the other. */
    method MergeAll(source: Node, out: Target) returns (ok: bool)
      requires source.Sequence? && NoDuplicates(source)
      requires mergedFields != null && MERGE in mergedFields.keys && out.fields.Keys <= mergedFields.keys
      modifies this, out, mergedFields
      ensures ok ==>
        var more := FromSources(source, source.items, HIDDEN);
        && mergedFields == old(mergedFields)
        && out.fields == Added(old(out.fields), more, old(mergedFields.keys))
        && mergedFields.keys == old(mergedFields.keys) + more.Keys
      ensures !ok ==> !(IsSource(source) && MergesMaps(source))
      decreases source, 3
    {
      hide FieldsOf;
      ghost var was, taken := out.fields, mergedFields.keys;
      var items := source.items;
      ok := true;
      assert Added(was, map[], taken) == was;
      for i := 0 to |items|
        invariant ok && mergedFields == old(mergedFields) && mergedFields != null
        invariant out.fields == Added(was, FromSources(source, items[..i], HIDDEN), taken)
        invariant mergedFields.keys == taken + FromSources(source, items[..i], HIDDEN).Keys
      {
        assert items[..i + 1][..i] == items[..i];
        if !items[i].Mapping? {
          return false;
        }
        ok := DecodeMapping(items[i], out);
        if !ok {
          return;
        }
        AddedSources(was, FromSources(source, items[..i], HIDDEN), DecodedFields(items[i]), taken);
      }
      assert items[..|items|] == items;
    }
  }

  /** No key comes twice, so the next one is not among the explicit entries before it. */
  lemma NewKey(n: Node, entries: seq<Entry>, i: nat)
    requires n.Mapping? && entries == n.entries && i < |entries| && NoDuplicates(n)
    ensures KeyOf(entries[i]) !in Explicit(n, entries[..i], HIDDEN).Keys
  {
    ExplicitKeys(n, entries[..i], HIDDEN, HIDDEN);
  }

  /** The keys of a mapping with a merge: its explicit fields and the merge key. */
  lemma TopKeys(n: Node, keys: set<Key>)
    requires n.Mapping? && keys == set j | 0 <= j < |n.entries| :: KeyOf(n.entries[j])
    requires exists i :: 0 <= i < |n.entries| && n.entries[i].Merge?
    ensures keys == Explicit(n, n.entries, HIDDEN).Keys + HIDDEN
  {
    ExplicitKeys(n, n.entries, HIDDEN, HIDDEN);
    var own := Explicit(n, n.entries, HIDDEN).Keys;
    forall k
      ensures k in keys <==> k in own + HIDDEN
    {
      if k in own {
        var i :| 0 <= i < |n.entries| && n.entries[i].Field? && n.entries[i].key == k;
        assert KeyOf(n.entries[i]) == k;
      }
      if k == MERGE {
        var i :| 0 <= i < |n.entries| && n.entries[i].Merge?;
        assert KeyOf(n.entries[i]) == k;
      }
    }
  }
}
