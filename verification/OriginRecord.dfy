/**
  The origin record of origin.go, this fork's addition: a flat list of strings and integers
  that tells where a mapping, its fields and the scalar items of its sequences are. The
  layout is the one that the code writes, with a value in front of each item's position.
 */
module OriginRecord {

  datatype Cell = Text(text: string) | Number(value: int)

  /** A node of the tree, as far as the record looks at it. Synthetic nodes have line 0. The
      value of an alias is the name of its anchor; that of a mapping is empty. */
  datatype Node =
    | Scalar(value: string, line: int, column: int)
    | Sequence(items: seq<Node>, line: int, column: int)
    | Other(value: string, line: int, column: int)

  datatype Pair = Pair(key: Node, value: Node)

  datatype Mapping = Mapping(pairs: seq<Pair>, endLine: int, endColumn: int)

  predicate IsOrigin(key: Node) { key.line == 0 }

  /** The value of a key; sequences have none. */
  function TextOf(n: Node): string { if n.Sequence? then "" else n.value }

  // ----- what the record says -----

  datatype Place = Place(name: string, line: int, column: int)

  datatype Group = Group(name: string, items: seq<Place>)

  datatype Record = Record(file: string, key: Place, fields: seq<Place>, groups: seq<Group>, endLine: int, endColumn: int)

  function PlaceOf(n: Node): Place { Place(TextOf(n), n.line, n.column) }

  function Fields(pairs: seq<Pair>): seq<Place> {
    if pairs == [] then []
    else
      var p := pairs[|pairs| - 1];
      Fields(pairs[..|pairs| - 1]) + if IsOrigin(p.key) then [] else [PlaceOf(p.key)]
  }

  function ScalarItems(items: seq<Node>): seq<Place> {
    if items == [] then []
    else
      var x := items[|items| - 1];
      ScalarItems(items[..|items| - 1]) + if x.Scalar? then [PlaceOf(x)] else []
  }

  function Groups(pairs: seq<Pair>): seq<Group> {
    if pairs == [] then []
    else
      var p := pairs[|pairs| - 1];
      Groups(pairs[..|pairs| - 1]) +
        if !IsOrigin(p.key) && p.value.Sequence? && ScalarItems(p.value.items) != []
        then [Group(TextOf(p.key), ScalarItems(p.value.items))] else []
  }

  /** Without an end the record gives the line of the key and column 0. */
  function RecordOf(file: string, key: Node, m: Mapping): Record {
    Record(file, PlaceOf(key), Fields(m.pairs), Groups(m.pairs),
           if m.endLine > 0 then m.endLine else key.line, if m.endLine > 0 then m.endColumn else 0)
  }

  // ----- the layout -----

  function PlaceCells(p: Place, base: int): seq<Cell> { [Text(p.name), Number(p.line - base), Number(p.column)] }

  function PlacesCells(ps: seq<Place>, base: int): (cs: seq<Cell>)
    ensures |cs| == 3 * |ps|
  {
    if ps == [] then [] else PlacesCells(ps[..|ps| - 1], base) + PlaceCells(ps[|ps| - 1], base)
  }

  function GroupsCells(gs: seq<Group>, base: int): seq<Cell> {
    if gs == [] then []
    else
      var g := gs[|gs| - 1];
      GroupsCells(gs[..|gs| - 1], base) + [Text(g.name), Number(|g.items|)] + PlacesCells(g.items, base)
  }

  function Layout(r: Record): seq<Cell> {
    var base := r.key.line;
    [Text(r.file), Text(r.key.name), Number(base), Number(r.key.column)]
    + [Number(|r.fields|)] + PlacesCells(r.fields, base)
    + [Number(|r.groups|)] + GroupsCells(r.groups, base)
    + [Number(r.endLine - base), Number(r.endColumn)]
  }

  // ----- building it -----

  /** `buildOriginSeq`. */
  method BuildOriginSeq(key: Node, m: Mapping, file: string) returns (nodes: seq<Cell>)
    ensures nodes == Layout(RecordOf(file, key, m))
  {
    hide PlacesCells, GroupsCells, Fields, Groups, ScalarItems;
    NothingYet(key.line);
    nodes := [Text(file), Text(TextOf(key)), Number(key.line), Number(key.column)];
    var fieldNodes, seqNodes: seq<Cell> := [], [];
    var nf, ns := 0, 0;
    for i := 0 to |m.pairs|
      invariant fieldNodes == PlacesCells(Fields(m.pairs[..i]), key.line) && nf == |Fields(m.pairs[..i])|
      invariant seqNodes == GroupsCells(Groups(m.pairs[..i]), key.line) && ns == |Groups(m.pairs[..i])|
    {
      NextPair(m.pairs, i);
      var k, v := m.pairs[i].key, m.pairs[i].value;
      if IsOrigin(k) {
        continue;
      }
      nf := nf + 1;
      OnePlaceMore(Fields(m.pairs[..i]), PlaceOf(k), key.line);
      fieldNodes := fieldNodes + [Text(TextOf(k)), Number(k.line - key.line), Number(k.column)];
      if v.Sequence? {
        var itemNodes := ItemCells(v.items, key.line);
        if |itemNodes| > 0 {
          ns := ns + 1;
          OneGroupMore(Groups(m.pairs[..i]), Group(TextOf(k), ScalarItems(v.items)), key.line);
          seqNodes := seqNodes + [Text(TextOf(k)), Number(|itemNodes| / 3)];
          seqNodes := seqNodes + itemNodes;
        }
      }
    }
    assert m.pairs[..|m.pairs|] == m.pairs;
    hide IsOrigin;
    nodes := nodes + [Number(nf)];
    nodes := nodes + fieldNodes;
    nodes := nodes + [Number(ns)];
    nodes := nodes + seqNodes;
    var endDelta, endCol := 0, 0;
    if m.endLine > 0 {
      endDelta := m.endLine - key.line;
      endCol := m.endColumn;
    }
    nodes := nodes + [Number(endDelta), Number(endCol)];
  }

  method ItemCells(items: seq<Node>, base: int) returns (cells: seq<Cell>)
    ensures cells == PlacesCells(ScalarItems(items), base)
  {
    hide PlacesCells, ScalarItems;
    NothingYet(base);
    cells := [];
    for i := 0 to |items|
      invariant cells == PlacesCells(ScalarItems(items[..i]), base)
    {
      NextItem(items, i);
      var x := items[i];
      if x.Scalar? {
        OnePlaceMore(ScalarItems(items[..i]), PlaceOf(x), base);
        cells := cells + [Text(x.value), Number(x.line - base), Number(x.column)];
      }
    }
    assert items[..|items|] == items;
  }

  lemma NothingYet(base: int)
    ensures Fields([]) == [] && Groups([]) == [] && ScalarItems([]) == []
    ensures PlacesCells([], base) == [] && GroupsCells([], base) == []
  {}

  lemma NextPair(pairs: seq<Pair>, i: nat)
    requires i < |pairs|
    ensures var p, before, now := pairs[i], pairs[..i], pairs[..i + 1];
      && Fields(now) == (if IsOrigin(p.key) then Fields(before) else Fields(before) + [PlaceOf(p.key)])
      && Groups(now) ==
           if !IsOrigin(p.key) && p.value.Sequence? && ScalarItems(p.value.items) != []
           then Groups(before) + [Group(TextOf(p.key), ScalarItems(p.value.items))] else Groups(before)
  {
    assert pairs[..i + 1][..i] == pairs[..i];
  }

  lemma NextItem(items: seq<Node>, i: nat)
    requires i < |items|
    ensures ScalarItems(items[..i + 1]) ==
      if items[i].Scalar? then ScalarItems(items[..i]) + [PlaceOf(items[i])] else ScalarItems(items[..i])
  {
    assert items[..i + 1][..i] == items[..i];
  }

  lemma OnePlaceMore(ps: seq<Place>, p: Place, base: int)
    ensures PlacesCells(ps + [p], base) == PlacesCells(ps, base) + PlaceCells(p, base)
  {
    assert (ps + [p])[..|ps|] == ps;
  }

  lemma OneGroupMore(gs: seq<Group>, g: Group, base: int)
    ensures GroupsCells(gs + [g], base)
         == GroupsCells(gs, base) + [Text(g.name), Number(|g.items|)] + PlacesCells(g.items, base)
  {
    assert (gs + [g])[..|gs|] == gs;
  }

  // ----- reading it -----

  datatype Parsed<T> = Parsed(value: T, rest: seq<Cell>) | Malformed

  function ReadText(cs: seq<Cell>): Parsed<string> {
    if cs != [] && cs[0].Text? then Parsed(cs[0].text, cs[1..]) else Malformed
  }

  function ReadNumber(cs: seq<Cell>): Parsed<int> {
    if cs != [] && cs[0].Number? then Parsed(cs[0].value, cs[1..]) else Malformed
  }

  function ReadPlace(cs: seq<Cell>, base: int): Parsed<Place> {
    var name := ReadText(cs);
    if name.Malformed? then Malformed
    else
      var line := ReadNumber(name.rest);
      if line.Malformed? then Malformed
      else
        var column := ReadNumber(line.rest);
        if column.Malformed? then Malformed else Parsed(Place(name.value, base + line.value, column.value), column.rest)
  }

  function ReadPlaces(cs: seq<Cell>, n: nat, base: int): Parsed<seq<Place>> {
    if n == 0 then Parsed([], cs)
    else
      var first := ReadPlace(cs, base);
      if first.Malformed? then Malformed
      else
        var more := ReadPlaces(first.rest, n - 1, base);
        if more.Malformed? then Malformed else Parsed([first.value] + more.value, more.rest)
  }

  function ReadGroups(cs: seq<Cell>, n: nat, base: int): Parsed<seq<Group>>
    decreases n
  {
    if n == 0 then Parsed([], cs)
    else
      var name := ReadText(cs);
      if name.Malformed? then Malformed
      else
        var count := ReadNumber(name.rest);
        if count.Malformed? || count.value < 0 then Malformed
        else
          var items := ReadPlaces(count.rest, count.value, base);
          if items.Malformed? then Malformed
          else
            var more := ReadGroups(items.rest, n - 1, base);
            if more.Malformed? then Malformed else Parsed([Group(name.value, items.value)] + more.value, more.rest)
  }

  /** Reads a record to its end. */
  function ReadRecord(cs: seq<Cell>): Parsed<Record> {
    var file := ReadText(cs);
    if file.Malformed? then Malformed
    else
      var key := ReadPlace(file.rest, 0);
      if key.Malformed? then Malformed
      else
        var nf := ReadNumber(key.rest);
        if nf.Malformed? || nf.value < 0 then Malformed
        else
          var fields := ReadPlaces(nf.rest, nf.value, key.value.line);
          if fields.Malformed? then Malformed else ReadBody(file.value, key.value, fields.value, fields.rest)
  }

  function ReadBody(file: string, key: Place, fields: seq<Place>, cs: seq<Cell>): Parsed<Record> {
    var ns := ReadNumber(cs);
    if ns.Malformed? || ns.value < 0 then Malformed
    else
      var groups := ReadGroups(ns.rest, ns.value, key.line);
      if groups.Malformed? then Malformed
      else
        var line := ReadNumber(groups.rest);
        if line.Malformed? then Malformed
        else
          var column := ReadNumber(line.rest);
          if column.Malformed? then Malformed
          else Parsed(Record(file, key, fields, groups.value, key.line + line.value, column.value), column.rest)
  }

  lemma PlaceIsRead(p: Place, base: int, rest: seq<Cell>)
    ensures ReadPlace(PlaceCells(p, base) + rest, base) == Parsed(p, rest)
  {
    var cs := PlaceCells(p, base) + rest;
    assert cs[1..][1..][1..] == rest;
  }

  /** The cells of places from the first on. */
  lemma {:induction false} PlacesFromFirst(ps: seq<Place>, base: int)
    requires ps != []
    ensures PlacesCells(ps, base) == PlaceCells(ps[0], base) + PlacesCells(ps[1..], base)
    decreases |ps|
  {
    if |ps| > 1 {
      var init := ps[..|ps| - 1];
      PlacesFromFirst(init, base);
      assert init[1..] == ps[1..][..|ps| - 2];
    }
  }

  lemma {:induction false} PlacesAreRead(ps: seq<Place>, base: int, rest: seq<Cell>)
    ensures ReadPlaces(PlacesCells(ps, base) + rest, |ps|, base) == Parsed(ps, rest)
    decreases |ps|
  {
    hide ReadPlace, PlaceCells;
    if ps == [] {
      assert [] + rest == rest;
    } else {
      PlacesFromFirst(ps, base);
      var more := PlacesCells(ps[1..], base);
      assert PlacesCells(ps, base) + rest == PlaceCells(ps[0], base) + (more + rest);
      PlaceIsRead(ps[0], base, more + rest);
      PlacesAreRead(ps[1..], base, rest);
      assert [ps[0]] + ps[1..] == ps;
    }
  }

  function GroupCells(g: Group, base: int): seq<Cell> {
    [Text(g.name), Number(|g.items|)] + PlacesCells(g.items, base)
  }

  lemma {:induction false} GroupsFromFirst(gs: seq<Group>, base: int)
    requires gs != []
    ensures GroupsCells(gs, base) == GroupCells(gs[0], base) + GroupsCells(gs[1..], base)
    decreases |gs|
  {
    hide PlacesCells;
    if |gs| > 1 {
      var init := gs[..|gs| - 1];
      GroupsFromFirst(init, base);
      assert init[1..] == gs[1..][..|gs| - 2];
    }
  }

  lemma {:induction false} GroupsAreRead(gs: seq<Group>, base: int, rest: seq<Cell>)
    ensures ReadGroups(GroupsCells(gs, base) + rest, |gs|, base) == Parsed(gs, rest)
    decreases |gs|
  {
    hide ReadPlaces, PlacesCells, GroupsCells;
    if gs == [] {
      assert GroupsCells([], base) == [] by { NothingYet(base); }
      assert [] + rest == rest;
    } else {
      GroupsFromFirst(gs, base);
      var g, more := gs[0], GroupsCells(gs[1..], base) + rest;
      var cs := GroupsCells(gs, base) + rest;
      var items := PlacesCells(g.items, base);
      assert cs == [Text(g.name), Number(|g.items|)] + (items + more);
      assert cs[1..][1..] == items + more;
      PlacesAreRead(g.items, base, more);
      GroupsAreRead(gs[1..], base, rest);
      assert [g] + gs[1..] == gs;
    }
  }

  /** Every record is read back from its layout, whatever follows it. */
  lemma RecordIsRead(r: Record, rest: seq<Cell>)
    ensures ReadRecord(Layout(r) + rest) == Parsed(r, rest)
  {
    hide ReadPlaces, PlacesCells, ReadGroups, GroupsCells, ReadPlace;
    var base := r.key.line;
    var fields, groups := PlacesCells(r.fields, base), GroupsCells(r.groups, base);
    var end := [Number(r.endLine - base), Number(r.endColumn)];
    var tail := [Number(|r.groups|)] + (groups + (end + rest));
    var cs := Layout(r) + rest;
    assert cs == [Text(r.file)] + (PlaceCells(r.key, 0) + ([Number(|r.fields|)] + (fields + tail)));
    PlaceIsRead(r.key, 0, [Number(|r.fields|)] + (fields + tail));
    PlacesAreRead(r.fields, base, tail);
    BodyIsRead(r, rest);
  }

  lemma BodyIsRead(r: Record, rest: seq<Cell>)
    ensures var base := r.key.line;
      ReadBody(r.file, r.key, r.fields,
               [Number(|r.groups|)] + (GroupsCells(r.groups, base) + ([Number(r.endLine - base), Number(r.endColumn)] + rest)))
      == Parsed(r, rest)
  {
    hide ReadGroups, GroupsCells;
    var base := r.key.line;
    var end := [Number(r.endLine - base), Number(r.endColumn)] + rest;
    GroupsAreRead(r.groups, base, end);
    assert end[1..][1..] == rest;
  }

  /** A record says exactly what its mapping has: equal layouts come from equal records. */
  lemma LayoutInjective(r: Record, s: Record)
    requires Layout(r) == Layout(s)
    ensures r == s
  {
    hide ReadRecord, Layout;
    RecordIsRead(r, []);
    RecordIsRead(s, []);
  }

  // ----- the nodes of the record -----

  /** The record's cells are scalar nodes, told apart by their tags. */
  datatype ScalarNode = ScalarNode(tag: string, value: string)

  function Digit(d: nat): char
    requires d < 10
  {
    (d + '0' as int) as char
  }

  function Digits(n: nat): (s: string)
    ensures s != "" && s[0] != '-'
  {
    if n < 10 then [Digit(n)] else Digits(n / 10) + [Digit(n % 10)]
  }

  function Decimal(v: int): string { if v < 0 then "-" + Digits(-v) else Digits(v) }

  /** `strNode` and `intNode`. */
  function NodeOf(c: Cell): ScalarNode {
    match c
    case Text(text) => ScalarNode("!!str", text)
    case Number(value) => ScalarNode("!!int", Decimal(value))
  }

  function NodesOf(cs: seq<Cell>): seq<ScalarNode> { seq(|cs|, i requires 0 <= i < |cs| => NodeOf(cs[i])) }

  lemma {:induction false} SameDigits(m: nat, n: nat)
    requires Digits(m) == Digits(n)
    ensures m == n
    decreases m
  {
    var s, t := Digits(m), Digits(n);
    assert |Digits(m / 10)| > 0 && |Digits(n / 10)| > 0;
    assert s[|s| - 1] == Digit(m % 10) && t[|t| - 1] == Digit(n % 10);
    if m >= 10 && n >= 10 {
      assert s[..|s| - 1] == Digits(m / 10) && t[..|t| - 1] == Digits(n / 10);
      SameDigits(m / 10, n / 10);
    }
  }

  /** A number is known by its decimal text. */
  lemma SameDecimal(v: int, w: int)
    requires Decimal(v) == Decimal(w)
    ensures v == w
  {
    assert ("-" + Digits(if v < 0 then -v else v))[1..] == Digits(if v < 0 then -v else v);
    assert ("-" + Digits(if w < 0 then -w else w))[1..] == Digits(if w < 0 then -w else w);
    SameDigits(if v < 0 then -v else v, if w < 0 then -w else w);
  }

  /** Records are told apart by the tags and texts of their nodes. */
  lemma NodesInjective(r: Record, s: Record)
    requires NodesOf(Layout(r)) == NodesOf(Layout(s))
    ensures r == s
  {
    hide Layout, Decimal;
    var a, b := Layout(r), Layout(s);
    assert |a| == |NodesOf(a)| && |b| == |NodesOf(b)|;
    forall i | 0 <= i < |a|
      ensures a[i] == b[i]
    {
      assert NodeOf(a[i]) == NodesOf(a)[i] == NodesOf(b)[i] == NodeOf(b[i]);
      if a[i].Number? && b[i].Number? {
        SameDecimal(a[i].value, b[i].value);
      }
    }
    LayoutInjective(r, s);
  }

  // ----- what the record takes from the nodes -----

  /** How many of the first n keys are not synthetic. */
  function KeysBefore(pairs: seq<Pair>, n: nat): nat
    requires n <= |pairs|
  {
    if n == 0 then 0 else KeysBefore(pairs, n - 1) + if pairs[n - 1].key.line != 0 then 1 else 0
  }

  lemma {:induction false} FieldsAreCounted(pairs: seq<Pair>)
    ensures |Fields(pairs)| == KeysBefore(pairs, |pairs|)
    decreases |pairs|
  {
    if pairs != [] {
      FieldsAreCounted(pairs[..|pairs| - 1]);
      SameBefore(pairs, |pairs| - 1, |pairs| - 1);
    }
  }

  /** The fields are the keys that are not synthetic, in order, each with its text and place. */
  lemma {:induction false} FieldsAreKeys(pairs: seq<Pair>, i: nat)
    requires i < |pairs| && pairs[i].key.line != 0
    ensures |Fields(pairs)| == KeysBefore(pairs, |pairs|)
    ensures var k, x := KeysBefore(pairs, i), pairs[i].key;
      k < |Fields(pairs)| && Fields(pairs)[k] == Place(if x.Sequence? then "" else x.value, x.line, x.column)
    decreases |pairs|
  {
    var n := |pairs| - 1;
    FieldsAreCounted(pairs);
    FieldsAreCounted(pairs[..n]);
    SameBefore(pairs, n, n);
    if i < n {
      SameBefore(pairs, n, i);
      FieldsAreKeys(pairs[..n], i);
    }
  }

  lemma {:induction false} SameBefore(pairs: seq<Pair>, n: nat, i: nat)
    requires i <= n <= |pairs|
    ensures KeysBefore(pairs[..n], i) == KeysBefore(pairs, i)
  {
    if i > 0 {
      SameBefore(pairs, n, i - 1);
    }
  }

  function ScalarsBefore(items: seq<Node>, n: nat): nat
    requires n <= |items|
  {
    if n == 0 then 0 else ScalarsBefore(items, n - 1) + if items[n - 1].Scalar? then 1 else 0
  }

  lemma {:induction false} SameScalarsBefore(items: seq<Node>, n: nat, i: nat)
    requires i <= n <= |items|
    ensures ScalarsBefore(items[..n], i) == ScalarsBefore(items, i)
  {
    if i > 0 {
      SameScalarsBefore(items, n, i - 1);
    }
  }

  lemma {:induction false} ItemsAreCounted(items: seq<Node>)
    ensures |ScalarItems(items)| == ScalarsBefore(items, |items|)
    decreases |items|
  {
    if items != [] {
      ItemsAreCounted(items[..|items| - 1]);
      SameScalarsBefore(items, |items| - 1, |items| - 1);
    }
  }

  /** The items of a group are the scalars of the sequence, in order. */
  lemma {:induction false} ItemsAreScalars(items: seq<Node>, i: nat)
    requires i < |items| && items[i].Scalar?
    ensures |ScalarItems(items)| == ScalarsBefore(items, |items|)
    ensures var k := ScalarsBefore(items, i);
      k < |ScalarItems(items)| && ScalarItems(items)[k] == Place(items[i].value, items[i].line, items[i].column)
    decreases |items|
  {
    var n := |items| - 1;
    ItemsAreCounted(items);
    ItemsAreCounted(items[..n]);
    SameScalarsBefore(items, n, n);
    if i < n {
      SameScalarsBefore(items, n, i);
      ItemsAreScalars(items[..n], i);
    }
  }

  /** A field whose value is a sequence with a scalar in it has a group. */
  predicate HasGroup(p: Pair) {
    p.key.line != 0 && p.value.Sequence? && exists i :: 0 <= i < |p.value.items| && p.value.items[i].Scalar?
  }

  function GroupsBefore(pairs: seq<Pair>, n: nat): nat
    requires n <= |pairs|
  {
    if n == 0 then 0 else GroupsBefore(pairs, n - 1) + if HasGroup(pairs[n - 1]) then 1 else 0
  }

  lemma {:induction false} SameGroupsBefore(pairs: seq<Pair>, n: nat, i: nat)
    requires i <= n <= |pairs|
    ensures GroupsBefore(pairs[..n], i) == GroupsBefore(pairs, i)
  {
    hide HasGroup;
    if i > 0 {
      SameGroupsBefore(pairs, n, i - 1);
    }
  }

  lemma {:induction false} SomeScalar(items: seq<Node>)
    ensures ScalarItems(items) != [] <==> exists i :: 0 <= i < |items| && items[i].Scalar?
    decreases |items|
  {
    if items != [] {
      var n := |items| - 1;
      SomeScalar(items[..n]);
      if i :| 0 <= i < |items| && items[i].Scalar? {
        assert i < n ==> items[..n][i].Scalar?;
      }
    }
  }

  lemma {:induction false} GroupsAreCounted(pairs: seq<Pair>)
    ensures |Groups(pairs)| == GroupsBefore(pairs, |pairs|)
    decreases |pairs|
  {
    hide ScalarItems, HasGroup;
    if pairs != [] {
      var n := |pairs| - 1;
      GroupsAreCounted(pairs[..n]);
      GroupOf(pairs[n]);
      SameGroupsBefore(pairs, n, n);
    }
  }

  /** The groups are those of the fields that have one, in order, each with the field's text and
      the scalars of its sequence. */
  lemma {:induction false} GroupsAreSequences(pairs: seq<Pair>, i: nat)
    requires i < |pairs| && HasGroup(pairs[i])
    ensures |Groups(pairs)| == GroupsBefore(pairs, |pairs|)
    ensures var k, x := GroupsBefore(pairs, i), pairs[i].key;
      && k < |Groups(pairs)|
      && Groups(pairs)[k] == Group(if x.Sequence? then "" else x.value, ScalarItems(pairs[i].value.items))
    decreases |pairs|
  {
    hide ScalarItems;
    var n := |pairs| - 1;
    GroupsAreCounted(pairs);
    GroupsAreCounted(pairs[..n]);
    SameGroupsBefore(pairs, n, n);
    GroupOf(pairs[n]);
    hide HasGroup;
    if i < n {
      SameGroupsBefore(pairs, n, i);
      GroupsAreSequences(pairs[..n], i);
    }
  }

  lemma GroupOf(p: Pair)
    ensures HasGroup(p) <==> !IsOrigin(p.key) && p.value.Sequence? && ScalarItems(p.value.items) != []
    ensures HasGroup(p) ==> p.value.Sequence?
  {
    if p.value.Sequence? {
      SomeScalar(p.value.items);
    }
  }

  /** The record's head and end. */
  lemma RecordEnds(file: string, key: Node, m: Mapping)
    ensures var r := RecordOf(file, key, m);
      && r.file == file && r.key == Place(if key.Sequence? then "" else key.value, key.line, key.column)
      && (m.endLine > 0 ==> r.endLine == m.endLine && r.endColumn == m.endColumn)
      && (m.endLine <= 0 ==> r.endLine == key.line && r.endColumn == 0)
  {}
}
