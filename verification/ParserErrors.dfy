/**
  What the machine refuses, in terms of the tokens alone: the directives that it does not
  take, the handles that stand for nothing, and the tokens that cannot come where they are.
 */
module ParserErrors {
  import opened Events
  import opened ParserMachine
  import ParserSafety

  // ----- directives -----

  predicate DirectiveAt(ts: seq<Token>, i: nat) {
    i < |ts| && (ts[i].VersionDirectiveToken? || ts[i].TagDirectiveToken?)
  }

  predicate SameHandle(x: Token, y: Token) {
    x.TagDirectiveToken? && y.TagDirectiveToken? && x.directive.handle == y.directive.handle
  }

  /** Is the directive at i one that is refused behind those from p on? There is one version,
      which is 1.1, and one prefix for a handle. */
  predicate Refused(ts: seq<Token>, p: nat, i: nat)
    requires i < |ts|
  {
    || (ts[i].VersionDirectiveToken? && (ts[i].major, ts[i].minor) != (1, 1))
    || exists j :: p <= j < i && ((ts[j].VersionDirectiveToken? && ts[i].VersionDirectiveToken?) || SameHandle(ts[j], ts[i]))
  }

  predicate NoneRefused(ts: seq<Token>, p: nat, q: nat)
    requires q <= |ts|
  {
    forall i :: p <= i < q ==> !Refused(ts, p, i)
  }

  /** What has been collected from the directives from p to k. */
  predicate Collected(ts: seq<Token>, p: nat, k: nat, version: Version, own: seq<Directive>)
    requires p <= k <= |ts|
  {
    && (version.Version? <==> exists j :: p <= j < k && ts[j].VersionDirectiveToken?)
    && (forall j :: p <= j < k && ts[j].TagDirectiveToken? ==> HasHandle(own, ts[j].directive.handle))
    && (forall i :: 0 <= i < |own| ==> exists j :: p <= j < k && ts[j] == TagDirectiveToken(own[i]))
  }

  lemma CollectsVersion(ts: seq<Token>, p: nat, k: nat, version: Version, own: seq<Directive>)
    requires p <= k < |ts| && Collected(ts, p, k, version, own) && ts[k].VersionDirectiveToken?
    ensures Collected(ts, p, k + 1, Version(ts[k].major, ts[k].minor), own)
    ensures Refused(ts, p, k) <==> version.Version? || ts[k].major != 1 || ts[k].minor != 1
  {
    hide HasHandle;
  }

  lemma CollectsTag(ts: seq<Token>, p: nat, k: nat, version: Version, own: seq<Directive>)
    requires p <= k < |ts| && Collected(ts, p, k, version, own) && ts[k].TagDirectiveToken?
    ensures Collected(ts, p, k + 1, version, own + [ts[k].directive])
    ensures Refused(ts, p, k) <==> HasHandle(own, ts[k].directive.handle)
  {
    var all := own + [ts[k].directive];
    assert all[|own|] == ts[k].directive;
    forall h | HasHandle(own, h)
      ensures HasHandle(all, h)
    {
      var i :| 0 <= i < |own| && own[i].handle == h;
      assert all[i].handle == h;
    }
  }

  /** Of the directives up to the first other token, the parser takes those behind k exactly if
      none of them is refused. */
  lemma {:induction false} RestTakenIff(ts: seq<Token>, p: nat, k: nat, q: nat, version: Version, own: seq<Directive>)
    requires p <= k <= q < |ts| && Collected(ts, p, k, version, own) && NoneRefused(ts, p, k)
    requires !DirectiveAt(ts, q) && forall i :: k <= i < q ==> DirectiveAt(ts, i)
    ensures var d := ProcessDirectives(ts, k, version, own, own);
      && (d.Directives? <==> NoneRefused(ts, p, q))
      && (d.Directives? ==> d.pos == q)
    decreases q - k
  {
    hide Refused, Collected, WithDefaults, HasHandle;
    if k < q {
      assert DirectiveAt(ts, k);
      if ts[k].VersionDirectiveToken? {
        CollectsVersion(ts, p, k, version, own);
        if !Refused(ts, p, k) {
          RestTakenIff(ts, p, k + 1, q, Version(ts[k].major, ts[k].minor), own);
        }
      } else {
        CollectsTag(ts, p, k, version, own);
        if !Refused(ts, p, k) {
          RestTakenIff(ts, p, k + 1, q, version, own + [ts[k].directive]);
        }
      }
    }
  }

  /** The directives of a document are taken exactly if there is at most one version among them,
      which is 1.1, and no handle twice. */
  lemma DirectivesTakenIff(ts: seq<Token>, p: nat, q: nat)
    requires p <= q < |ts| && !DirectiveAt(ts, q) && forall i :: p <= i < q ==> DirectiveAt(ts, i)
    ensures ProcessDirectives(ts, p, Unversioned, [], []).Directives? <==> NoneRefused(ts, p, q)
  {
    hide ProcessDirectives;
    RestTakenIff(ts, p, p, q, Unversioned, []);
  }

  /** Any number of DOCUMENT-END tokens may be in front of a document that is not the first. */
  lemma {:induction false} DocumentEndsAreSkipped(ts: seq<Token>, m: Machine, n: nat)
    requires m.state.DocumentStartState? && m.pos + n <= |ts|
    requires forall i :: m.pos <= i < m.pos + n ==> ts[i].DocumentEndToken?
    ensures Step(ts, m) == Step(ts, m.(pos := m.pos + n))
    decreases n
  {
    hide ParseExplicitDocument;
    if n > 0 {
      DocumentEndsAreSkipped(ts, m.(pos := m.pos + 1), n - 1);
    }
  }

  // ----- handles -----

  lemma {:induction false} ResolvesTo(ds: seq<Directive>, i: nat, suffix: string)
    requires i < |ds| && forall j :: 0 <= j < i ==> ds[j].handle != ds[i].handle
    ensures Resolve(ds, ds[i].handle, suffix) == ds[i].prefix + suffix
  {
    if i > 0 {
      assert ds[0].handle != ds[i].handle;
      assert forall j :: 0 <= j < i - 1 ==> ds[1..][j] == ds[j + 1];
      ResolvesTo(ds[1..], i - 1, suffix);
    }
  }

  lemma {:induction false} ResolvesToNothing(ds: seq<Directive>, handle: string, suffix: string)
    requires !HasHandle(ds, handle)
    ensures Resolve(ds, handle, suffix) == ""
  {
    if ds != [] {
      assert ds[0].handle != handle;
      assert forall j :: 0 <= j < |ds| - 1 ==> ds[1..][j] == ds[j + 1];
      ResolvesToNothing(ds[1..], handle, suffix);
    }
  }

  /** The directives in force are the document's own ones, with the two default handles behind
      them as far as the document does not define these. */
  lemma InForceAre(own: seq<Directive>)
    ensures WithDefaults(own) == own
      + (if HasHandle(own, "!") then [] else [Directive("!", "!")])
      + (if HasHandle(own, "!!") then [] else [Directive("!!", "tag:yaml.org,2002:")])
  {
    var one := WithDefault(own, Directive("!", "!"));
    assert HasHandle(one, "!!") == HasHandle(own, "!!") by {
      if i :| 0 <= i < |own| && own[i].handle == "!!" {
        assert one[i].handle == "!!";
      }
    }
  }

  /** What a handle with a suffix stands for in a document: what the document's own directive
      says, or else what is usual for "!" and "!!"; no other handle stands for anything. */
  lemma TagsResolve(own: seq<Directive>, handle: string, suffix: string)
    requires ParserSafety.NoHandleTwice(own)
    ensures forall i :: 0 <= i < |own| && own[i].handle == handle ==>
      Resolve(WithDefaults(own), handle, suffix) == own[i].prefix + suffix
    ensures !HasHandle(own, handle) ==>
      Resolve(WithDefaults(own), handle, suffix)
      == if handle == "!" then "!" + suffix else if handle == "!!" then "tag:yaml.org,2002:" + suffix else ""
  {
    hide WithDefaults, Resolve;
    var ds := WithDefaults(own);
    InForceAre(own);
    forall i | 0 <= i < |own| && own[i].handle == handle
      ensures Resolve(ds, handle, suffix) == own[i].prefix + suffix
    {
      assert ds[i] == own[i] && forall j :: 0 <= j < i ==> ds[j] == own[j];
      ResolvesTo(ds, i, suffix);
    }
    if !HasHandle(own, handle) {
      assert forall j :: 0 <= j < |own| ==> ds[j] == own[j] && own[j].handle != handle;
      if handle == "!" {
        assert ds[|own|] == Directive("!", "!");
        ResolvesTo(ds, |own|, suffix);
      } else if handle == "!!" {
        assert ds[|ds| - 1] == Directive("!!", "tag:yaml.org,2002:");
        ResolvesTo(ds, |ds| - 1, suffix);
      } else {
        assert !HasHandle(ds, handle);
        ResolvesToNothing(ds, handle, suffix);
      }
    }
  }

  // ----- tokens out of place -----

  /** Can the content of a node begin with the token? */
  predicate BeginsContent(t: Token, block: bool, indentless: bool) {
    || t.ScalarToken? || t.FlowSequenceStartToken? || t.FlowMappingStartToken?
    || (block && (t.BlockSequenceStartToken? || t.BlockMappingStartToken?))
    || (indentless && t.BlockEntryToken?)
  }

  predicate PropertyToken(t: Token) { t.AnchorToken? || t.TagToken? }

  /** A node is refused for want of content exactly if it begins with neither content, nor an
      anchor or a tag, nor an alias. */
  lemma NoContentIff(ts: seq<Token>, m: Machine, block: bool, indentless: bool)
    requires m.pos < |ts| && (ts[m.pos].AnchorToken? ==> ts[m.pos].name != "")
    requires ts[m.pos].TagToken? ==> ts[m.pos].suffix != "" || ts[m.pos].handle != ""
    ensures ParseNode(ts, m, block, indentless) == Failed(ExpectedNodeContent)
      <==> !BeginsContent(ts[m.pos], block, indentless) && !PropertyToken(ts[m.pos]) && !ts[m.pos].AliasToken?
  {
    hide Resolve;
  }

  /** A tag is refused exactly if its handle stands for nothing. */
  lemma UndefinedIff(ts: seq<Token>, m: Machine, block: bool, indentless: bool)
    requires m.pos < |ts| && ParseProperties(ts, m.pos).pos < |ts|
    ensures ParseNode(ts, m, block, indentless) == Failed(UndefinedTagHandle)
      <==> exists i :: m.pos <= i < ParseProperties(ts, m.pos).pos && ts[i].TagToken?
             && ts[i].handle != "" && Resolve(m.directives, ts[i].handle, ts[i].suffix) == ""
  {
    hide Resolve, ParseContent;
    var p := ParseProperties(ts, m.pos);
    if ts[m.pos].AliasToken? {
      assert p.pos == m.pos;
    } else if p.pos == m.pos + 2 {
      assert ts[m.pos].TagToken? || ts[m.pos + 1].TagToken?;
    }
    Contents(ts, m, block, indentless);
  }

  lemma Contents(ts: seq<Token>, m: Machine, block: bool, indentless: bool)
    requires m.pos < |ts| && ParseProperties(ts, m.pos).pos < |ts|
    ensures var p := ParseProperties(ts, m.pos);
      forall tag :: ParseContent(ts[p.pos], m.(pos := p.pos), block, indentless, p.anchor, tag) != Failed(UndefinedTagHandle)
  {}

  /** Inside a collection: what must not be at the place that the state looks at. */
  predicate OutOfPlace(s: State, t: Token) {
    match s
    case BlockSequenceFirstEntryState => !t.BlockEntryToken? && !t.BlockEndToken?
    case BlockSequenceEntryState => !t.BlockEntryToken? && !t.BlockEndToken?
    case BlockMappingFirstKeyState => !t.KeyToken? && !t.BlockEndToken?
    case BlockMappingKeyState => !t.KeyToken? && !t.BlockEndToken?
    case FlowSequenceEntryState => !t.FlowEntryToken? && !t.FlowSequenceEndToken?
    case FlowMappingKeyState => !t.FlowEntryToken? && !t.FlowMappingEndToken?
    case _ => false
  }

  function Complaint(s: State): Problem {
    match s
    case BlockSequenceFirstEntryState => ExpectedBlockEntry
    case BlockSequenceEntryState => ExpectedBlockEntry
    case BlockMappingFirstKeyState => ExpectedKey
    case BlockMappingKeyState => ExpectedKey
    case FlowSequenceEntryState => ExpectedCommaOrBracket
    case _ => ExpectedCommaOrBrace
  }

  /** Does a collection begin with the token that the state is at? */
  predicate AtOpening(s: State) {
    s.BlockSequenceFirstEntryState? || s.BlockMappingFirstKeyState?
  }

  predicate IsComplaint(p: Problem) {
    p.ExpectedBlockEntry? || p.ExpectedKey? || p.ExpectedCommaOrBracket? || p.ExpectedCommaOrBrace?
  }

  /** A collection is refused exactly where a token is out of place, with the complaint that
      goes with the state. */
  lemma OutOfPlaceIff(ts: seq<Token>, m: Machine)
    requires !Step(ts, m).Fault?
    ensures var q := if AtOpening(m.state) then m.pos + 1 else m.pos;
      Step(ts, m).Failed? && IsComplaint(Step(ts, m).problem)
      <==> q < |ts| && OutOfPlace(m.state, ts[q])
    ensures Step(ts, m).Failed? && IsComplaint(Step(ts, m).problem) ==> Step(ts, m).problem == Complaint(m.state)
  {
    hide ParseNode, ProcessDirectives, WithDefaults, SkipDocumentEnds;
    NodesDoNotComplain(ts);
    DirectivesDoNotComplain(ts);
  }

  lemma NodeDoesNotComplain(ts: seq<Token>, m: Machine, block: bool, indentless: bool)
    ensures var o := ParseNode(ts, m, block, indentless); o.Failed? ==> !IsComplaint(o.problem)
  {
    hide Resolve;
  }

  lemma NodesDoNotComplain(ts: seq<Token>)
    ensures forall m, block, indentless :: var o := ParseNode(ts, m, block, indentless); o.Failed? ==> !IsComplaint(o.problem)
  {
    forall m, block, indentless
      ensures var o := ParseNode(ts, m, block, indentless); o.Failed? ==> !IsComplaint(o.problem)
    {
      NodeDoesNotComplain(ts, m, block, indentless);
    }
  }

  lemma {:induction false} DirectivesDoNot(ts: seq<Token>, pos: nat, version: Version, own: seq<Directive>, all: seq<Directive>)
    ensures var d := ProcessDirectives(ts, pos, version, own, all); d.BadDirective? ==> !IsComplaint(d.problem)
    decreases |ts| - pos
  {
    hide WithDefaults, HasHandle;
    if pos < |ts| && ts[pos].VersionDirectiveToken? {
      DirectivesDoNot(ts, pos + 1, Version(ts[pos].major, ts[pos].minor), own, all);
    } else if pos < |ts| && ts[pos].TagDirectiveToken? {
      DirectivesDoNot(ts, pos + 1, version, own + [ts[pos].directive], all + [ts[pos].directive]);
    }
  }

  lemma DirectivesDoNotComplain(ts: seq<Token>)
    ensures forall pos, all :: var d := ProcessDirectives(ts, pos, Unversioned, [], all); d.BadDirective? ==> !IsComplaint(d.problem)
  {
    forall pos: nat, all
      ensures var d := ProcessDirectives(ts, pos, Unversioned, [], all); d.BadDirective? ==> !IsComplaint(d.problem)
    {
      DirectivesDoNot(ts, pos, Unversioned, [], all);
    }
  }
}
