/**
  How far the folded style can be trusted. A line is folded at its spaces whether or not it
  begins with white space, and a line feed is doubled for what the value begins with, not for
  the line behind it. So a value comes back exactly if its folds and its line feeds stand
  where neither matters.
 */
module FoldedRoundTrip {
  import opened Basics
  import opened Chars
  import opened ScalarText
  import opened ScalarAnalysis
  import opened BlockScalar
  import opened LineFolding
  import opened BlockReading
  import opened LiteralRoundTrip
  import LiteralLimits

  // ----- where lines are folded -----

  /** Is the space at i, on a written line that begins with the character at s, written as a
      line break? */
  predicate FoldsFrom(cfg: Settings, value: string, s: nat, i: nat)
    requires i < |value|
  {
    s < i && IsSpace(value[i]) && !IsSpace(At(value, i + 1)) && cfg.indent + (i - s) > cfg.bestWidth
  }

  /** Where the written line begins that the character at i is on. */
  function RowStart(cfg: Settings, value: string, i: nat): (s: nat)
    requires i <= |value|
    ensures s <= i
  {
    if i == 0 then 0
    else
      var s := RowStart(cfg, value, i - 1);
      if IsBreak(value[i - 1]) || FoldsFrom(cfg, value, s, i - 1) then i else s
  }

  predicate FoldedAt(cfg: Settings, value: string, i: nat)
    requires i < |value|
  {
    FoldsFrom(cfg, value, RowStart(cfg, value, i), i)
  }

  /** A fold is read back as a space only between lines that begin with no white space. */
  predicate FoldKept(cfg: Settings, value: string, i: nat)
    requires i < |value|
  {
    FoldedAt(cfg, value, i) ==> !IsBlank(value[RowStart(cfg, value, i)]) && !IsBlank(At(value, i + 1))
  }

  /** Does a run of breaks begin at i, behind a line without white space in front? */
  predicate FeedAt(cfg: Settings, value: string, i: nat)
    requires i < |value|
  {
    0 < i && value[i] == '\n' && !IsBreak(value[i - 1]) && !IsBlank(value[RowStart(cfg, value, i)])
  }

  /** Such a line feed is kept if the next line begins as the value does, with white space or
      without. At the end of the value it may also be the only one. */
  predicate FeedKept(cfg: Settings, value: string, i: nat)
    requires i < |value|
  {
    FeedAt(cfg, value, i) ==>
      var n := LeadingBreaks(value, i);
      if n < |value| then IsBlank(value[n]) == IsBlank(value[0]) else IsBlank(value[0]) || n == i + 1
  }

  predicate KeptFrom(cfg: Settings, value: string, i: nat) {
    forall j :: i <= j < |value| ==> FoldKept(cfg, value, j) && FeedKept(cfg, value, j)
  }

  // ----- what is read back -----

  /** What the scanner makes of the breaks from i to n, behind a written line that begins with
      the character at s; `leading`: its line begins with white space. */
  function HeardRun(value: string, s: nat, i: nat, n: nat, leading: bool): string
    requires s < i < n <= |value|
  {
    var all := (if DoublesBreak(value, i, false, leading) then "\n" else "") + value[i..n];
    if n == |value| then if n == i + 1 then [value[i]] else all
    else if value[i] != '\n' || IsBlank(value[s]) || IsBlank(value[n]) then all
    else if |all| == 1 then " "
    else all[1..]
  }

  /** What it makes of the value from i on. */
  function Heard(cfg: Settings, value: string, s: nat, i: nat, leading: bool): string
    requires s <= i <= |value|
    decreases |value| - i
  {
    if i == |value| then ""
    else if IsBreak(value[i]) && s < i then
      var n := LeadingBreaks(value, i);
      HeardRun(value, s, i, n, leading) + (if n == |value| then "" else Heard(cfg, value, n, n, IsBlank(value[n])))
    else if FoldsFrom(cfg, value, s, i) then
      (if IsBlank(value[s]) || IsBlank(At(value, i + 1)) then "\n" else " ") + Heard(cfg, value, i + 1, i + 1, leading)
    else [value[i]] + Heard(cfg, value, s, i + 1, leading)
  }

  /** The breaks come back exactly if the line feed is one that is kept. */
  lemma RunHeardIff(value: string, s: nat, i: nat, n: nat, leading: bool, after: string)
    requires s < i < |value| && n == LeadingBreaks(value, i) && IsBreak(value[i])
    requires !IsBreak(value[0]) && !IsZ(value[0]) && leading == IsBlank(value[s])
    requires if n < |value| then after != "" && after[0] == value[n] else after == ""
    ensures i < n <= |value|
    ensures var kept := value[i] == '\n' && !IsBlank(value[s]) ==>
              if n < |value| then IsBlank(value[n]) == IsBlank(value[0]) else IsBlank(value[0]) || n == i + 1;
      && (kept ==> HeardRun(value, s, i, n, leading) == value[i..n])
      && (!kept ==> HeardRun(value, s, i, n, leading) + after != value[i..])
  {
    var run := value[i..n];
    assert LeadingBreaks(value, 0) == 0;
    assert value[i..] == run + value[n..];
    assert forall k :: 0 <= k < |run| ==> IsBreak(run[k]);
    assert run[0] == value[i] && |run| == n - i;
    var heard := HeardRun(value, s, i, n, leading);
    if value[i] == '\n' && !IsBlank(value[s]) {
      if IsBlank(value[0]) {
        if n < |value| && !IsBlank(value[n]) {
          LostFeed(value, i, n, heard, after);
        } else {
          assert "" + run == run;
        }
      } else if n == |value| {
        if n > i + 1 {
          assert heard + "" == heard && |heard| == |run| + 1;
        }
      } else if IsBlank(value[n]) {
        assert (heard + after)[|run|] == heard[|run|] == run[|run| - 1];
        assert value[i..][|run|] == value[n];
      } else {
        assert ("\n" + run)[1..] == run;
      }
    } else {
      assert "" + run == run;
    }
  }

  /** A single line feed has become a space, or the first of several is gone. */
  lemma LostFeed(value: string, i: nat, n: nat, heard: string, after: string)
    requires i < n < |value| && (forall k :: i <= k < n ==> IsBreak(value[k])) && !IsBreak(value[n])
    requires after != "" && after[0] == value[n]
    requires heard == if n == i + 1 then " " else value[i + 1..n]
    ensures heard + after != value[i..]
  {
    if n == i + 1 {
      assert (heard + after)[0] == ' ' && value[i..][0] == value[i];
    } else {
      var k := n - 1 - i;
      assert (heard + after)[k] == after[0] && value[i..][k] == value[n - 1];
    }
  }

  // ----- exactly the values that come back -----

  /** The character at i, on a written line that begins with the one at s. */
  predicate OnRow(cfg: Settings, value: string, s: nat, i: nat)
  {
    && s <= i <= |value| && s < |value| && s == RowStart(cfg, value, i)
    && (if s == i then !IsBreak(value[i]) else !IsBreak(value[i - 1]))
  }

  lemma KeptStep(cfg: Settings, value: string, i: nat, n: nat)
    requires i < n <= |value| && forall j :: i < j < n ==> FoldKept(cfg, value, j) && FeedKept(cfg, value, j)
    ensures KeptFrom(cfg, value, i) <==> FoldKept(cfg, value, i) && FeedKept(cfg, value, i) && KeptFrom(cfg, value, n)
  {
    hide FoldKept, FeedKept;
  }

  lemma RunIsOne(cfg: Settings, value: string, i: nat, n: nat)
    requires i < n <= |value| && forall k :: i <= k < n ==> IsBreak(value[k])
    ensures forall j :: i < j < n ==> FoldKept(cfg, value, j) && FeedKept(cfg, value, j)
    ensures RowStart(cfg, value, n) == n
  {}

  lemma Text(unicode: bool, value: string)
    requires BlockAllowed(unicode, value)
    ensures value != "" && !IsZ(value[0])
  {
    LitNeighbours(unicode, value, 0);
  }

  lemma FoldInside(unicode: bool, cfg: Settings, value: string, s: nat, i: nat)
    requires BlockAllowed(unicode, value) && i < |value| && FoldsFrom(cfg, value, s, i)
    ensures i + 1 < |value| && !IsBreak(value[i + 1]) && !IsSpace(value[i + 1])
  {
    assert !SpaceBreakAt(value, i + 1);
  }

  /** From the line on that begins at n, what is heard is what is there exactly if it is kept. */
  predicate HeardWell(cfg: Settings, value: string, n: nat)
    requires n < |value|
  {
    var heard := Heard(cfg, value, n, n, IsBlank(value[n]));
    && (heard == value[n..] <==> KeptFrom(cfg, value, n))
    && heard != "" && heard[0] == value[n]
  }

  lemma HeardAtRun(cfg: Settings, value: string, s: nat, i: nat, n: nat, leading: bool)
    requires OnRow(cfg, value, s, i) && leading == IsBlank(value[s]) && i < |value| && IsBreak(value[i]) && n == LeadingBreaks(value, i)
    requires !IsBreak(value[0]) && !IsZ(value[0]) && (n < |value| ==> HeardWell(cfg, value, n))
    ensures Heard(cfg, value, s, i, leading) == value[i..] <==> KeptFrom(cfg, value, i)
  {
    hide KeptFrom, HeardRun, FoldKept, FeedKept, RowStart;
    RunIsOne(cfg, value, i, n);
    KeptStep(cfg, value, i, n);
    NothingToKeep(cfg, value);
    AtFeed(cfg, value, s, i, n);
    var after := if n == |value| then "" else Heard(cfg, value, n, n, IsBlank(value[n]));
    RunHeardIff(value, s, i, n, leading, after);
    assert Heard(cfg, value, s, i, leading) == HeardRun(value, s, i, n, leading) + after;
    hide *;
    assert value[i..] == value[i..n] + value[n..];
    SameFront(HeardRun(value, s, i, n, leading), value[i..n], after, value[n..]);
  }

  /** What is read from i on is what the value has there exactly if nothing is lost from i on. */
  lemma {:induction false} HeardIff(cfg: Settings, value: string, s: nat, i: nat, leading: bool)
    requires BlockAllowed(cfg.unicode, value) && !IsBreak(value[0])
    requires OnRow(cfg, value, s, i) && leading == IsBlank(value[s])
    ensures Heard(cfg, value, s, i, leading) == value[i..] <==> KeptFrom(cfg, value, i)
    ensures s == i ==> Heard(cfg, value, s, i, leading) != "" && Heard(cfg, value, s, i, leading)[0] == value[i]
    decreases |value| - i
  {
    hide BlockAllowed, KeptFrom, HeardRun, FoldKept, FeedKept, RowStart, FoldsFrom;
    Text(cfg.unicode, value);
    if i == |value| {
      NothingToKeep(cfg, value);
    } else if IsBreak(value[i]) {
      var n := LeadingBreaks(value, i);
      RunIsOne(cfg, value, i, n);
      AtFeed(cfg, value, s, i, n);
      if n < |value| {
        HeardIff(cfg, value, n, n, IsBlank(value[n]));
      }
      HeardAtRun(cfg, value, s, i, n, leading);
    } else if FoldsFrom(cfg, value, s, i) {
      FoldInside(cfg.unicode, cfg, value, s, i);
      AtFold(cfg, value, s, i);
      KeptStep(cfg, value, i, i + 1);
      assert value[i..] == " " + value[i + 1..];
      if !IsBlank(value[s]) && !IsBlank(value[i + 1]) {
        HeardIff(cfg, value, i + 1, i + 1, leading);
      }
    } else {
      AtCharacter(cfg, value, s, i);
      KeptStep(cfg, value, i, i + 1);
      HeardIff(cfg, value, s, i + 1, leading);
      assert value[i..] == [value[i]] + value[i + 1..];
    }
  }

  lemma SameFront(a: string, b: string, x: string, y: string)
    ensures a == b ==> (a + x == b + y <==> x == y)
  {
    assert |a| == |b| ==> (a + x)[|a|..] == x && (b + y)[|b|..] == y;
  }

  lemma NothingToKeep(cfg: Settings, value: string)
    ensures KeptFrom(cfg, value, |value|)
  {}

  lemma AtFeed(cfg: Settings, value: string, s: nat, i: nat, n: nat)
    requires OnRow(cfg, value, s, i) && i < |value| && IsBreak(value[i]) && n == LeadingBreaks(value, i)
    ensures s < i && FoldKept(cfg, value, i)
    ensures FeedKept(cfg, value, i) <==> (value[i] == '\n' && !IsBlank(value[s]) ==>
              if n < |value| then IsBlank(value[n]) == IsBlank(value[0]) else IsBlank(value[0]) || n == i + 1)
    ensures n < |value| && RowStart(cfg, value, n) == n ==> OnRow(cfg, value, n, n)
  {}

  lemma AtFold(cfg: Settings, value: string, s: nat, i: nat)
    requires OnRow(cfg, value, s, i) && i + 1 < |value| && FoldsFrom(cfg, value, s, i) && !IsBreak(value[i + 1])
    ensures FeedKept(cfg, value, i) && (FoldKept(cfg, value, i) <==> !IsBlank(value[s]) && !IsBlank(value[i + 1]))
    ensures OnRow(cfg, value, i + 1, i + 1) && s < i && value[i] == ' '
  {}

  lemma AtCharacter(cfg: Settings, value: string, s: nat, i: nat)
    requires OnRow(cfg, value, s, i) && i < |value| && !IsBreak(value[i]) && !FoldsFrom(cfg, value, s, i)
    ensures FoldKept(cfg, value, i) && FeedKept(cfg, value, i) && OnRow(cfg, value, s, i + 1)
  {}

  // ----- the lines that are written -----

  function EndOf(cfg: Settings, c: char): LineEnd {
    if c == LS then LineSeparator
    else if c == PS then ParagraphSeparator
    else match cfg.lineBreak case Cr => CarriageReturn case Ln => LineFeed case CrLn => ReturnFeed
  }

  predicate Feeds(run: string) { forall k :: 0 <= k < |run| ==> run[k] == '\n' || run[k] == LS || run[k] == PS }

  function EmptiesOf(cfg: Settings, run: string): seq<Empty> {
    if run == "" then [] else [Empty(0, EndOf(cfg, run[0]))] + EmptiesOf(cfg, run[1..])
  }

  /** A line and the breaks behind it. */
  function RowOf(cfg: Settings, content: string, run: string): Row
    requires run != ""
  {
    Row(content, EndOf(cfg, run[0]), EmptiesOf(cfg, run[1..]))
  }

  function Add(row: Row, more: Rows): Rows { Rows([row] + more.rows, more.last) }

  /** The breaks that are written for those from i on. */
  function WrittenRun(value: string, i: nat, leading: bool): (run: string)
    requires i < |value| && IsBreak(value[i])
    ensures run != ""
  {
    (if DoublesBreak(value, i, false, leading) then "\n" else "") + value[i..LeadingBreaks(value, i)]
  }

  /** The written lines from the one on that begins at s; `ended`: a break follows the value. */
  function RowsFrom(cfg: Settings, value: string, s: nat, i: nat, leading: bool, ended: bool): Rows
    requires s <= i <= |value|
    decreases |value| - i
  {
    if i == |value| then if ended then Rows([RowOf(cfg, value[s..], "\n")], "") else Rows([], value[s..])
    else if IsBreak(value[i]) && s < i then
      var n := LeadingBreaks(value, i);
      Add(RowOf(cfg, value[s..i], WrittenRun(value, i, leading)),
          if n == |value| then Rows([], "") else RowsFrom(cfg, value, n, n, IsBlank(value[n]), ended))
    else if FoldsFrom(cfg, value, s, i) then
      Add(RowOf(cfg, value[s..i], "\n"), RowsFrom(cfg, value, i + 1, i + 1, leading, ended))
    else RowsFrom(cfg, value, s, i + 1, leading, ended)
  }

  lemma EndIs(cfg: Settings, c: char)
    requires c == '\n' || c == LS || c == PS
    ensures EndText(EndOf(cfg, c)) == BreakRun(cfg, c, true) && EndValue(EndOf(cfg, c)) == [c]
  {}

  lemma {:induction false} EmptiesAre(cfg: Settings, run: string)
    requires Feeds(run)
    ensures EmptiesValue(EmptiesOf(cfg, run)) == run && |EmptiesOf(cfg, run)| == |run|
  {
    hide EndOf, EndValue;
    if run != "" {
      EndIs(cfg, run[0]);
      assert run == [run[0]] + run[1..];
      EmptiesAre(cfg, run[1..]);
    }
  }

  /** What the lines are worth from their first content on. */
  function WorthOf(c: Chomping, r: Rows): string {
    NextContent(r) + if r.rows == [] then "" else ValueBehind(false, c, r.rows[0], r.(rows := r.rows[1..]))
  }

  function ChompOf(value: string): Chomping
    requires value != ""
  {
    var n := |value|;
    if !IsBreak(value[n - 1]) then Strip else if n == 1 || IsBreak(value[n - 2]) then Keep else Clip
  }

  lemma {:induction false} FirstOfRows(cfg: Settings, value: string, s: nat, i: nat, leading: bool, ended: bool)
    requires s <= i <= |value| && s < |value| && (s == i ==> !IsBreak(value[i]))
    ensures var x := NextContent(RowsFrom(cfg, value, s, i, leading, ended)); x != "" && x[0] == value[s]
    decreases |value| - i
  {
    if i < |value| && !(IsBreak(value[i]) && s < i) && !FoldsFrom(cfg, value, s, i) {
      FirstOfRows(cfg, value, s, i + 1, leading, ended);
    }
  }

  lemma WorthOfAdd(c: Chomping, row: Row, more: Rows)
    ensures var r := Add(row, more);
      && (more == Rows([], "") ==> WorthOf(c, r) == row.content + BlockReading.Chomped(c, row))
      && (NextContent(more) != "" ==> WorthOf(c, r) == row.content + (Between(false, row, NextContent(more)) + WorthOf(c, more)))
  {
    hide Between, BlockReading.Chomped;
    var r := Add(row, more);
    assert r.(rows := r.rows[1..]) == more;
    if more.rows == [] {
      assert more.last + "" == more.last;
    } else {
      Assoc(Between(false, row, NextContent(more)), NextContent(more), ValueBehind(false, c, more.rows[0], more.(rows := more.rows[1..])));
    }
  }

  /** Between two lines the reader hears the run as said. */
  lemma RunIsBetween(cfg: Settings, value: string, s: nat, i: nat, leading: bool, next: string)
    requires s < i < |value| && IsBreak(value[i]) && Feeds(WrittenRun(value, i, leading)) && !IsBreak(value[i - 1])
    ensures var n, row := LeadingBreaks(value, i), RowOf(cfg, value[s..i], WrittenRun(value, i, leading));
      && (n < |value| && next != "" && next[0] == value[n] ==> Between(false, row, next) == HeardRun(value, s, i, n, leading))
      && (n == |value| ==> BlockReading.Chomped(ChompOf(value), row) == HeardRun(value, s, i, n, leading))
  {
    hide EmptiesValue, EmptiesOf, EndOf, EndValue, DoublesBreak;
    var n, all := LeadingBreaks(value, i), WrittenRun(value, i, leading);
    EndIs(cfg, all[0]);
    EmptiesAre(cfg, all[1..]);
    assert all == [all[0]] + all[1..];
    assert all[0] == value[i] by { DoubledIsFeed(value, i, leading); }
    if n == |value| && n > i + 1 {
      assert IsBreak(value[n - 1]) && IsBreak(value[n - 2]);
    }
  }

  lemma DoubledIsFeed(value: string, i: nat, leading: bool)
    requires i < |value|
    ensures DoublesBreak(value, i, false, leading) ==> value[i] == '\n'
  {}

  lemma FoldIsBetween(cfg: Settings, content: string, next: string)
    requires content != "" && next != ""
    ensures Between(false, RowOf(cfg, content, "\n"), next) == if IsBlank(content[0]) || IsBlank(next[0]) then "\n" else " "
    ensures BlockReading.Chomped(Strip, RowOf(cfg, content, "\n")) == ""
  {
    EndIs(cfg, '\n');
    assert "\n"[1..] == "";
    assert EmptiesOf(cfg, "") == [];
    assert "\n" + "" == "\n";
  }

  lemma RunFeeds(unicode: bool, value: string, i: nat, leading: bool)
    requires BlockAllowed(unicode, value) && i < |value| && IsBreak(value[i])
    ensures Feeds(WrittenRun(value, i, leading))
  {
    hide BlockAllowed;
    var run := value[i..LeadingBreaks(value, i)];
    forall k | 0 <= k < |run|
      ensures run[k] == '\n' || run[k] == LS || run[k] == PS
    {
      assert IsBreak(value[i + k]);
      LitNeighbours(unicode, value, i + k);
    }
    assert "" + run == run;
  }

  /** The written lines are worth what is heard. */
  lemma {:induction false} RowsAreHeard(cfg: Settings, value: string, s: nat, i: nat, leading: bool, ended: bool)
    requires BlockAllowed(cfg.unicode, value) && s <= i <= |value| && s < |value|
    requires if s == i then !IsBreak(value[i]) else !IsBreak(value[i - 1])
    ensures WorthOf(ChompOf(value), RowsFrom(cfg, value, s, i, leading, ended)) == value[s..i] + Heard(cfg, value, s, i, leading)
    decreases |value| - i
  {
    hide *;
    if i == |value| {
      LastIsHeard(cfg, value, s, leading, ended);
    } else if IsBreak(value[i]) && s < i {
      var n := LeadingBreaks(value, i);
      RunLength(value, i);
      RunFeeds(cfg.unicode, value, i, leading);
      if n < |value| {
        RowsAreHeard(cfg, value, n, n, IsBlank(value[n]), ended);
      }
      RunRowIsHeard(cfg, value, s, i, leading, ended);
    } else if FoldsFrom(cfg, value, s, i) {
      FoldInside(cfg.unicode, cfg, value, s, i);
      RowsAreHeard(cfg, value, i + 1, i + 1, leading, ended);
      FoldRowIsHeard(cfg, value, s, i, leading, ended);
    } else {
      RowsAreHeard(cfg, value, s, i + 1, leading, ended);
      CharacterIsHeard(cfg, value, s, i, leading, ended);
    }
  }

  lemma RunRowIsHeard(cfg: Settings, value: string, s: nat, i: nat, leading: bool, ended: bool)
    requires s < i < |value| && IsBreak(value[i]) && !IsBreak(value[i - 1]) && Feeds(WrittenRun(value, i, leading))
    requires var n := LeadingBreaks(value, i); n < |value| ==>
      WorthOf(ChompOf(value), RowsFrom(cfg, value, n, n, IsBlank(value[n]), ended)) == value[n..n] + Heard(cfg, value, n, n, IsBlank(value[n]))
    ensures WorthOf(ChompOf(value), RowsFrom(cfg, value, s, i, leading, ended)) == value[s..i] + Heard(cfg, value, s, i, leading)
  {
    hide WorthOf, HeardRun, WrittenRun, ChompOf, RowOf, DoublesBreak, FoldsFrom, Add, Feeds;
    var n := LeadingBreaks(value, i);
    var row := RowOf(cfg, value[s..i], WrittenRun(value, i, leading));
    ContentOf(cfg, value[s..i], WrittenRun(value, i, leading));
    if n == |value| {
      RunIsBetween(cfg, value, s, i, leading, "");
      WorthOfAdd(ChompOf(value), row, Rows([], ""));
      assert HeardRun(value, s, i, n, leading) + "" == HeardRun(value, s, i, n, leading);
    } else {
      var more := RowsFrom(cfg, value, n, n, IsBlank(value[n]), ended);
      FirstOfRows(cfg, value, n, n, IsBlank(value[n]), ended);
      RunIsBetween(cfg, value, s, i, leading, NextContent(more));
      WorthOfAdd(ChompOf(value), row, more);
      assert value[n..n] + Heard(cfg, value, n, n, IsBlank(value[n])) == Heard(cfg, value, n, n, IsBlank(value[n]));
    }
  }

  lemma FoldRowIsHeard(cfg: Settings, value: string, s: nat, i: nat, leading: bool, ended: bool)
    requires s <= i && i + 1 < |value| && FoldsFrom(cfg, value, s, i) && !IsBreak(value[i + 1])
    requires WorthOf(ChompOf(value), RowsFrom(cfg, value, i + 1, i + 1, leading, ended)) == value[i + 1..i + 1] + Heard(cfg, value, i + 1, i + 1, leading)
    ensures WorthOf(ChompOf(value), RowsFrom(cfg, value, s, i, leading, ended)) == value[s..i] + Heard(cfg, value, s, i, leading)
  {
    hide WorthOf, ChompOf, RowOf, FoldsFrom, Add;
    FoldIsInside(cfg, value, s, i);
    var row := RowOf(cfg, value[s..i], "\n");
    var more := RowsFrom(cfg, value, i + 1, i + 1, leading, ended);
    FirstOfRows(cfg, value, i + 1, i + 1, leading, ended);
    FoldIsBetween(cfg, value[s..i], NextContent(more));
    WorthOfAdd(ChompOf(value), row, more);
    ContentOf(cfg, value[s..i], "\n");
    assert value[i + 1..i + 1] + Heard(cfg, value, i + 1, i + 1, leading) == Heard(cfg, value, i + 1, i + 1, leading);
  }

  lemma CharacterIsHeard(cfg: Settings, value: string, s: nat, i: nat, leading: bool, ended: bool)
    requires s <= i < |value| && !(IsBreak(value[i]) && s < i) && !FoldsFrom(cfg, value, s, i)
    ensures RowsFrom(cfg, value, s, i, leading, ended) == RowsFrom(cfg, value, s, i + 1, leading, ended)
    ensures value[s..i + 1] + Heard(cfg, value, s, i + 1, leading) == value[s..i] + Heard(cfg, value, s, i, leading)
  {
    hide FoldsFrom;
    assert value[s..i + 1] == value[s..i] + [value[i]];
    Assoc(value[s..i], [value[i]], Heard(cfg, value, s, i + 1, leading));
  }

  lemma ContentOf(cfg: Settings, content: string, run: string)
    requires run != ""
    ensures RowOf(cfg, content, run).content == content
  {}

  lemma FoldIsInside(cfg: Settings, value: string, s: nat, i: nat)
    requires i < |value| && FoldsFrom(cfg, value, s, i)
    ensures s < i && !IsBreak(value[i])
  {}

  lemma LastIsHeard(cfg: Settings, value: string, s: nat, leading: bool, ended: bool)
    requires s < |value| && !IsBreak(value[|value| - 1])
    ensures WorthOf(ChompOf(value), RowsFrom(cfg, value, s, |value|, leading, ended))
         == value[s..|value|] + Heard(cfg, value, s, |value|, leading)
  {
    assert value[s..|value|] == value[s..] == value[s..] + "";
    if ended {
      var row := RowOf(cfg, value[s..], "\n");
      FoldIsBetween(cfg, value[s..], "x");
      WorthOfAdd(Strip, row, Rows([], ""));
      assert Add(row, Rows([], "")) == Rows([row], "");
    }
  }

  // ----- the text that is written -----

  function RunText(cfg: Settings, run: string): string { EmptiesText(EmptiesOf(cfg, run)) }

  lemma RunTextStep(cfg: Settings, run: string)
    requires run != "" && Feeds(run)
    ensures RunText(cfg, run) == BreakRun(cfg, run[0], true) + RunText(cfg, run[1..])
    ensures RunText(cfg, run) == EndText(EndOf(cfg, run[0])) + EmptiesText(EmptiesOf(cfg, run[1..]))
    ensures RunText(cfg, "") == ""
  {
    hide EndOf, EndText;
    EndIs(cfg, run[0]);
    var rest := EndText(EndOf(cfg, run[0])) + EmptiesText(EmptiesOf(cfg, run[1..]));
    assert EmptiesOf(cfg, run)[1..] == EmptiesOf(cfg, run[1..]);
    assert Spaces(0) + rest == rest;
  }

  lemma AddText(cfg: Settings, content: string, run: string, more: Rows, indent: nat, rest: string)
    requires run != "" && Feeds(run)
    ensures RowsText(Add(RowOf(cfg, content, run), more), indent) + rest
         == Spaces(indent) + (content + (RunText(cfg, run) + (RowsText(more, indent) + rest)))
  {
    hide EndOf, EndText, EmptiesText, EmptiesOf, Spaces;
    var r := Add(RowOf(cfg, content, run), more);
    RunTextStep(cfg, run);
    assert r.(rows := r.rows[1..]) == more;
    var a, b, c := EndText(EndOf(cfg, run[0])), EmptiesText(EmptiesOf(cfg, run[1..])), RowsText(more, indent);
    Assoc(a, b, c);
    Assoc(a + b, c, rest);
    Assoc(content, a + b + c, rest);
    Assoc(Spaces(indent), content + (a + b + c), rest);
  }

  /** The pen on a written line. */
  predicate PenAt(cfg: Settings, pen: Pen, width: nat) {
    cfg.indent >= 1 && pen.column == cfg.indent + width && !pen.indention && pen.footIndent == -1
  }

  /** The pen behind breaks. */
  predicate PenBroken(pen: Pen) { pen.column == 0 && pen.indention && pen.footIndent == -1 }

  lemma FoCharacter(cfg: Settings, value: string, s: nat, i: nat, pen: Pen, leading: bool) returns (next: Pen)
    requires s <= i < |value| && !IsBreak(value[i]) && !FoldsFrom(cfg, value, s, i) && PenAt(cfg, pen, i - s)
    requires s == i ==> !IsSpace(value[i])
    ensures PenAt(cfg, next, i + 1 - s)
    ensures Fo(cfg, value, i, pen, false, leading).text == [value[i]] + Fo(cfg, value, i + 1, next, false, leading).text
  {
    next := PutPen(pen, 1).(indention := false);
    assert "" + [value[i]] == [value[i]];
  }

  lemma FoFold(cfg: Settings, value: string, s: nat, i: nat, pen: Pen, leading: bool) returns (next: Pen)
    requires s < i < |value| && FoldsFrom(cfg, value, s, i) && PenAt(cfg, pen, i - s)
    ensures PenAt(cfg, next, 0)
    ensures Fo(cfg, value, i, pen, false, leading).text
         == BreakOf(cfg.lineBreak) + (Spaces(cfg.indent) + Fo(cfg, value, i + 1, next, false, leading).text)
  {
    hide Indent;
    FoldText(cfg, pen);
    next := Indent(cfg, pen).pen.(indention := false);
    Assoc(BreakOf(cfg.lineBreak), Spaces(cfg.indent), Fo(cfg, value, i + 1, next, false, leading).text);
  }

  /** The first character behind breaks. */
  lemma FoLine(cfg: Settings, value: string, i: nat, pen: Pen, leading: bool) returns (next: Pen)
    requires i < |value| && !IsBreak(value[i]) && PenBroken(pen) && cfg.indent >= 1
    ensures PenAt(cfg, next, 1)
    ensures Fo(cfg, value, i, pen, true, leading).text
         == Spaces(cfg.indent) + ([value[i]] + Fo(cfg, value, i + 1, next, false, IsBlank(value[i])).text)
  {
    hide Indent, Spaces;
    MarginOnly(cfg, pen);
    next := PutPen(Indent(cfg, pen).pen, 1).(indention := false);
    Assoc(Spaces(cfg.indent), [value[i]], Fo(cfg, value, i + 1, next, false, IsBlank(value[i])).text);
  }

  lemma {:induction false} FoBreaks(cfg: Settings, value: string, i: nat, n: nat, pen: Pen, leading: bool) returns (next: Pen)
    requires i <= n <= |value| && (forall k :: i <= k < n ==> IsBreak(value[k])) && Feeds(value[i..n]) && PenBroken(pen)
    ensures PenBroken(next)
    ensures Fo(cfg, value, i, pen, true, leading).text == RunText(cfg, value[i..n]) + Fo(cfg, value, n, next, true, leading).text
    decreases n - i
  {
    hide RunText, Fo, BreakRun;
    if i == n {
      next := pen;
      NoRun(cfg);
      assert value[i..n] == "";
      assert "" + Fo(cfg, value, n, pen, true, leading).text == Fo(cfg, value, n, pen, true, leading).text;
    } else {
      FoBreak(cfg, value, i, pen, true, leading);
      assert value[i..n][1..] == value[i + 1..n];
      next := FoBreaks(cfg, value, i + 1, n, BreakPen(pen), leading);
      RunTextStep(cfg, value[i..n]);
      Assoc(BreakRun(cfg, value[i], true), RunText(cfg, value[i + 1..n]), Fo(cfg, value, n, next, true, leading).text);
    }
  }

  lemma NoRun(cfg: Settings)
    ensures RunText(cfg, "") == ""
  {}

  lemma FoBreak(cfg: Settings, value: string, i: nat, pen: Pen, breaks: bool, leading: bool)
    requires i < |value| && IsBreak(value[i])
    ensures Fo(cfg, value, i, pen, breaks, leading).text
         == (if DoublesBreak(value, i, breaks, leading) then BreakOf(cfg.lineBreak) else "")
            + (BreakRun(cfg, value[i], true) + Fo(cfg, value, i + 1, BreakPen(pen), true, leading).text)
    ensures breaks ==>
      Fo(cfg, value, i, pen, breaks, leading).text == BreakRun(cfg, value[i], true) + Fo(cfg, value, i + 1, BreakPen(pen), true, leading).text
  {
    hide BreakRun;
    var extra := if DoublesBreak(value, i, breaks, leading) then BreakOf(cfg.lineBreak) else "";
    Assoc(extra, BreakRun(cfg, value[i], true), Fo(cfg, value, i + 1, BreakPen(pen), true, leading).text);
    assert breaks ==> extra == "" && "" + BreakRun(cfg, value[i], true) == BreakRun(cfg, value[i], true);
  }

  /** A whole run behind a line. */
  lemma FoRun(cfg: Settings, value: string, i: nat, pen: Pen, leading: bool) returns (next: Pen)
    requires BlockAllowed(cfg.unicode, value) && i < |value| && IsBreak(value[i]) && pen.footIndent == -1
    ensures PenBroken(next)
    ensures Fo(cfg, value, i, pen, false, leading).text
         == RunText(cfg, WrittenRun(value, i, leading)) + Fo(cfg, value, LeadingBreaks(value, i), next, true, leading).text
  {
    hide BlockAllowed, Fo, RunText, BreakRun, DoublesBreak;
    var n := LeadingBreaks(value, i);
    var run, all := value[i..n], WrittenRun(value, i, leading);
    RunFeeds(cfg.unicode, value, i, leading);
    FoBreak(cfg, value, i, pen, false, leading);
    forall k | 0 <= k < |run|
      ensures run[k] == '\n' || run[k] == LS || run[k] == PS
    {
      assert run[k] == all[|all| - |run| + k];
    }
    assert run[1..] == value[i + 1..n];
    assert Feeds(run[1..]);
    next := FoBreaks(cfg, value, i + 1, n, BreakPen(pen), leading);
    var after := Fo(cfg, value, n, next, true, leading).text;
    RunTextStep(cfg, run);
    Assoc(BreakRun(cfg, value[i], true), RunText(cfg, run[1..]), after);
    if DoublesBreak(value, i, false, leading) {
      assert all == "\n" + run && all[1..] == run;
      RunTextStep(cfg, all);
      FeedText(cfg);
      Assoc(BreakOf(cfg.lineBreak), RunText(cfg, run), after);
    } else {
      assert all == run;
      assert "" + (RunText(cfg, run) + after) == RunText(cfg, run) + after;
    }
  }

  lemma FeedText(cfg: Settings)
    ensures BreakRun(cfg, '\n', true) == BreakOf(cfg.lineBreak) && RunText(cfg, "\n") == BreakOf(cfg.lineBreak) && Feeds("\n")
  {
    RunTextStep(cfg, "\n");
    assert "\n"[1..] == "";
    assert BreakOf(cfg.lineBreak) + "" == BreakOf(cfg.lineBreak);
  }

  function Tail(cfg: Settings, value: string, ended: bool): string
    requires value != ""
  {
    if ended && !IsBreak(value[|value| - 1]) then BreakOf(cfg.lineBreak) else ""
  }

  /** What is written from a line on is the text of its rows. */
  lemma {:induction false} TextIsRows(cfg: Settings, value: string, s: nat, i: nat, pen: Pen, leading: bool, ended: bool, rest: string)
    requires BlockAllowed(cfg.unicode, value) && s < i <= |value| && !IsBreak(value[i - 1]) && PenAt(cfg, pen, i - s)
    ensures RowsText(RowsFrom(cfg, value, s, i, leading, ended), cfg.indent) + rest
         == Spaces(cfg.indent) + (value[s..i] + (Fo(cfg, value, i, pen, false, leading).text + (Tail(cfg, value, ended) + rest)))
    decreases |value| - i
  {
    hide *;
    var y := Tail(cfg, value, ended) + rest;
    var m := Margin(cfg, pen, i - s);
    if i == |value| {
      LastText(cfg, value, s, pen, leading, ended, rest);
    } else if IsBreak(value[i]) {
      var n := LeadingBreaks(value, i);
      RunFeeds(cfg.unicode, value, i, leading);
      RunLength(value, i);
      var p1 := FoRun(cfg, value, i, pen, leading);
      if n == |value| {
        NothingBehind(cfg, value, p1, leading, ended, rest);
        RowsBehindRun(cfg, value, s, i, n, leading, ended, Fo(cfg, value, n, p1, true, leading).text, y, rest);
      } else {
        var p2 := FoLine(cfg, value, n, p1, leading);
        TextIsRows(cfg, value, n, n + 1, p2, IsBlank(value[n]), ended, rest);
        NextRows(cfg, value, n, IsBlank(value[n]), ended);
        FirstFirst(m, value, n, Fo(cfg, value, n + 1, p2, false, IsBlank(value[n])).text, y);
        RowsBehindRun(cfg, value, s, i, n, leading, ended, Fo(cfg, value, n, p1, true, leading).text, y, rest);
      }
    } else if FoldsFrom(cfg, value, s, i) {
      FoldInside(cfg.unicode, cfg, value, s, i);
      var p1 := FoFold(cfg, value, s, i, pen, leading);
      assert !FoldsFrom(cfg, value, i + 1, i + 1) by { NoFoldAtStart(cfg, value, i + 1); }
      var p2 := FoCharacter(cfg, value, i + 1, i + 1, p1, leading);
      TextIsRows(cfg, value, i + 1, i + 2, p2, leading, ended, rest);
      NextRows(cfg, value, i + 1, leading, ended);
      FoldIsInside(cfg, value, s, i);
      FirstFirst(m, value, i + 1, Fo(cfg, value, i + 2, p2, false, leading).text, y);
      RowsBehindFold(cfg, value, s, i, leading, ended, Spaces(m) + Fo(cfg, value, i + 1, p1, false, leading).text, y, rest);
    } else {
      var next := FoCharacter(cfg, value, s, i, pen, leading);
      TextIsRows(cfg, value, s, i + 1, next, leading, ended, rest);
      NextRow(cfg, value, s, i, leading, ended, Fo(cfg, value, i + 1, next, false, leading).text, y);
    }
  }

  lemma Margin(cfg: Settings, pen: Pen, width: nat) returns (m: nat)
    requires PenAt(cfg, pen, width)
    ensures m == cfg.indent >= 1 && pen.footIndent == -1
  {
    m := cfg.indent;
  }

  lemma RunLength(value: string, i: nat)
    requires i < |value| && IsBreak(value[i])
    ensures var n := LeadingBreaks(value, i); i < n <= |value| && IsBreak(value[n - 1]) && (n < |value| ==> !IsBreak(value[n]))
  {}

  lemma NextRow(cfg: Settings, value: string, s: nat, i: nat, leading: bool, ended: bool, body: string, y: string)
    requires s < i < |value| && !IsBreak(value[i]) && !FoldsFrom(cfg, value, s, i)
    ensures RowsFrom(cfg, value, s, i, leading, ended) == RowsFrom(cfg, value, s, i + 1, leading, ended)
    ensures value[s..i + 1] + (body + y) == value[s..i] + ([value[i]] + body + y)
  {
    assert value[s..i + 1] == value[s..i] + [value[i]];
    Assoc([value[i]], body, y);
    Assoc(value[s..i], [value[i]], body + y);
  }

  lemma RowsBehindRun(cfg: Settings, value: string, s: nat, i: nat, n: nat, leading: bool, ended: bool, body: string, y: string, rest: string)
    requires s < i < |value| && IsBreak(value[i]) && n == LeadingBreaks(value, i) && Feeds(WrittenRun(value, i, leading)) && cfg.indent >= 0
    requires RowsText(if n == |value| then Rows([], "") else RowsFrom(cfg, value, n, n, IsBlank(value[n]), ended), cfg.indent) + rest == body + y
    ensures RowsText(RowsFrom(cfg, value, s, i, leading, ended), cfg.indent) + rest
         == Spaces(cfg.indent) + (value[s..i] + (RunText(cfg, WrittenRun(value, i, leading)) + body + y))
  {
    hide RowsText, RunText, RowOf, WrittenRun, Spaces, Feeds, Add;
    var more := if n == |value| then Rows([], "") else RowsFrom(cfg, value, n, n, IsBlank(value[n]), ended);
    AddText(cfg, value[s..i], WrittenRun(value, i, leading), more, cfg.indent, rest);
    Assoc(RunText(cfg, WrittenRun(value, i, leading)), body, y);
  }

  lemma RowsBehindFold(cfg: Settings, value: string, s: nat, i: nat, leading: bool, ended: bool, body: string, y: string, rest: string)
    requires s < i && i + 1 < |value| && !IsBreak(value[i]) && FoldsFrom(cfg, value, s, i) && cfg.indent >= 0
    requires RowsText(RowsFrom(cfg, value, i + 1, i + 1, leading, ended), cfg.indent) + rest == body + y
    ensures RowsText(RowsFrom(cfg, value, s, i, leading, ended), cfg.indent) + rest
         == Spaces(cfg.indent) + (value[s..i] + (BreakOf(cfg.lineBreak) + body + y))
  {
    hide RowsText, RunText, RowOf, Spaces, Feeds, Add, FoldsFrom;
    FeedText(cfg);
    AddText(cfg, value[s..i], "\n", RowsFrom(cfg, value, i + 1, i + 1, leading, ended), cfg.indent, rest);
    Assoc(BreakOf(cfg.lineBreak), body, y);
  }

  lemma NoFoldAtStart(cfg: Settings, value: string, i: nat)
    requires i < |value|
    ensures !FoldsFrom(cfg, value, i, i)
  {}

  lemma FirstFirst(m: nat, value: string, n: nat, body: string, y: string)
    requires n < |value|
    ensures Spaces(m) + ([value[n]] + body) + y == Spaces(m) + (value[n..n + 1] + (body + y))
  {
    assert value[n..n + 1] == [value[n]];
    Assoc([value[n]], body, y);
    Assoc(Spaces(m), [value[n]] + body, y);
  }

  lemma NextRows(cfg: Settings, value: string, n: nat, leading: bool, ended: bool)
    requires n < |value| && !IsBreak(value[n])
    ensures RowsFrom(cfg, value, n, n, leading, ended) == RowsFrom(cfg, value, n, n + 1, leading, ended)
  {}

  lemma NothingBehind(cfg: Settings, value: string, pen: Pen, leading: bool, ended: bool, rest: string)
    requires value != "" && IsBreak(value[|value| - 1])
    ensures Fo(cfg, value, |value|, pen, true, leading).text + (Tail(cfg, value, ended) + rest) == rest
    ensures forall m :: RowsText(Rows([], ""), m) + rest == rest
  {
    assert "" + ("" + rest) == rest && "" + rest == rest;
  }

  lemma LastText(cfg: Settings, value: string, s: nat, pen: Pen, leading: bool, ended: bool, rest: string)
    requires s < |value| && !IsBreak(value[|value| - 1]) && cfg.indent >= 1
    ensures RowsText(RowsFrom(cfg, value, s, |value|, leading, ended), cfg.indent) + rest
         == Spaces(cfg.indent) + (value[s..|value|] + (Fo(cfg, value, |value|, pen, false, leading).text + (Tail(cfg, value, ended) + rest)))
  {
    hide RunText, RowOf, Spaces;
    assert value[s..|value|] == value[s..];
    assert "" + (Tail(cfg, value, ended) + rest) == Tail(cfg, value, ended) + rest;
    if ended {
      FeedText(cfg);
      AddText(cfg, value[s..], "\n", Rows([], ""), cfg.indent, rest);
      assert Add(RowOf(cfg, value[s..], "\n"), Rows([], "")) == Rows([RowOf(cfg, value[s..], "\n")], "");
      assert RowsText(Rows([], ""), cfg.indent) + rest == rest by { assert "" + rest == rest; }
    } else {
      assert "" + rest == rest;
      Assoc(Spaces(cfg.indent), value[s..], rest);
    }
  }

  // ----- the rows are those of a block text -----

  /** Nothing that is written makes a CR LF pair of two breaks. */
  lemma RunHead(cfg: Settings, run: string, behind: string)
    requires Feeds(run) && At(behind, 0) != '\n' && cfg.lineBreak == Cr
    ensures At(RunText(cfg, run) + behind, 0) != '\n'
  {
    if run == "" {
      NoRun(cfg);
      assert "" + behind == behind;
    } else {
      RunTextStep(cfg, run);
      EndIs(cfg, run[0]);
    }
  }

  lemma EndFitsThere(cfg: Settings, c: char, run: string, behind: string)
    requires Feeds(run) && At(behind, 0) != '\n'
    ensures EndFits(EndOf(cfg, c), RunText(cfg, run) + behind)
  {
    hide RunText;
    if cfg.lineBreak == Cr {
      RunHead(cfg, run, behind);
    }
  }

  lemma {:induction false} EmptiesFitThere(cfg: Settings, run: string, indent: nat, behind: string)
    requires Feeds(run) && At(behind, 0) != '\n'
    ensures EmptiesFit(EmptiesOf(cfg, run), indent, behind)
    decreases |run|
  {
    hide EndOf, EndFits;
    if run != "" {
      EndFitsThere(cfg, run[0], run[1..], behind);
      EmptiesFitThere(cfg, run[1..], indent, behind);
      assert EmptiesOf(cfg, run)[1..] == EmptiesOf(cfg, run[1..]);
    }
  }

  lemma RowsHead(r: Rows, indent: nat, rest: string)
    requires indent >= 1 && At(rest, 0) != '\n'
    ensures At(RowsText(r, indent) + rest, 0) != '\n'
  {
    if r.rows == [] && r.last == "" {
      assert "" + rest == rest;
    } else {
      assert (RowsText(r, indent) + rest)[0] == Spaces(indent)[0];
    }
  }

  lemma AddFits(cfg: Settings, content: string, run: string, more: Rows, rest: string)
    requires run != "" && Feeds(run) && IsContent(content) && cfg.indent >= 1 && At(rest, 0) != '\n' && RowsFit(more, cfg.indent, rest)
    ensures RowsFit(Add(RowOf(cfg, content, run), more), cfg.indent, rest)
  {
    hide EndOf, EndFits, EmptiesFit, RowsText, EmptiesText, EmptiesOf, IsContent;
    var m: nat := cfg.indent;
    RowsHead(more, m, rest);
    EmptiesFitThere(cfg, run[1..], m, RowsText(more, m) + rest);
    EndFitsThere(cfg, run[0], run[1..], RowsText(more, m) + rest);
    var r := Add(RowOf(cfg, content, run), more);
    assert r.(rows := r.rows[1..]) == more;
  }

  lemma ContentThere(unicode: bool, value: string, s: nat, i: nat)
    requires BlockAllowed(unicode, value) && s < i <= |value| && forall k :: s <= k < i ==> !IsBreak(value[k])
    ensures IsContent(value[s..i])
  {
    hide BlockAllowed;
    forall k | 0 <= k < i - s
      ensures !IsBreakz(value[s..i][k])
    {
      LitNeighbours(unicode, value, s + k);
    }
  }

  lemma {:induction false} RowsFitThere(cfg: Settings, value: string, s: nat, i: nat, leading: bool, ended: bool, rest: string)
    requires BlockAllowed(cfg.unicode, value) && s < i <= |value| && cfg.indent >= 1 && forall k :: s <= k < i ==> !IsBreak(value[k])
    requires !IsBreak(At(rest, 0)) && (!ended && !IsBreak(value[|value| - 1]) ==> rest == "")
    ensures RowsFit(RowsFrom(cfg, value, s, i, leading, ended), cfg.indent, rest)
    decreases |value| - i
  {
    hide BlockAllowed, RowsFit, RowOf, WrittenRun, FoldsFrom, IsContent, Add, DoublesBreak;
    ContentThere(cfg.unicode, value, s, i);
    NoRowsFit(cfg.indent, rest);
    if i == |value| {
      assert value[s..i] == value[s..];
      if ended {
        AddFits(cfg, value[s..], "\n", Rows([], ""), rest);
        OneRow(RowOf(cfg, value[s..], "\n"));
      } else {
        LastFits(value[s..], cfg.indent);
      }
    } else if IsBreak(value[i]) {
      var n := LeadingBreaks(value, i);
      RunFeeds(cfg.unicode, value, i, leading);
      if n < |value| {
        RowsFitThere(cfg, value, n, n + 1, IsBlank(value[n]), ended, rest);
        NextRows(cfg, value, n, IsBlank(value[n]), ended);
        AddFits(cfg, value[s..i], WrittenRun(value, i, leading), RowsFrom(cfg, value, n, n, IsBlank(value[n]), ended), rest);
      } else {
        AddFits(cfg, value[s..i], WrittenRun(value, i, leading), Rows([], ""), rest);
      }
    } else if FoldsFrom(cfg, value, s, i) {
      FoldInside(cfg.unicode, cfg, value, s, i);
      RowsFitThere(cfg, value, i + 1, i + 2, leading, ended, rest);
      NextRows(cfg, value, i + 1, leading, ended);
      AddFits(cfg, value[s..i], "\n", RowsFrom(cfg, value, i + 1, i + 1, leading, ended), rest);
    } else {
      RowsFitThere(cfg, value, s, i + 1, leading, ended, rest);
    }
  }

  lemma NoRowsFit(indent: nat, rest: string)
    ensures RowsFit(Rows([], ""), indent, rest)
  {}

  lemma OneRow(row: Row)
    ensures Add(row, Rows([], "")) == Rows([row], "")
  {}

  lemma LastFits(last: string, indent: nat)
    requires IsContent(last)
    ensures RowsFit(Rows([], last), indent, "")
  {}

  // ----- the whole scalar -----

  /** The header that is written, with the break behind it. */
  function IntroOf(cfg: Settings, value: string, end: char): Intro
    requires value != "" && 2 <= cfg.bestIndent <= 9
  {
    Intro(ChompOf(value), Increment(cfg, value), true, "", "", EndOf(cfg, end))
  }

  lemma IntroIsHints(cfg: Settings, value: string, end: char)
    requires value != "" && 2 <= cfg.bestIndent <= 9 && (end == '\n' || end == LS || end == PS)
    ensures IntroText(IntroOf(cfg, value, end)) == Hints(cfg, value) + BreakRun(cfg, end, true)
    ensures IntroFits(IntroOf(cfg, value, end))
  {
    EndIs(cfg, end);
    var d := cfg.bestIndent;
    assert "0123456789"[d] == HexDigit(d);
    assert "" + ("" + EndText(EndOf(cfg, end))) == EndText(EndOf(cfg, end));
  }

  /** The text with its header taken apart. */
  lemma FoldedText(cfg: Settings, value: string, pen: Pen, before: string, rest: string) returns (open: Pen)
    requires 2 <= cfg.bestIndent <= 9 && pen.footIndent == -1
    ensures var lead := if pen.whitespace then "" else " ";
      before + Folded(cfg, value, pen).text + rest
        == before + lead + [">"[0]] + (Hints(cfg, value) + (Fo(cfg, value, 0, open, true, true).text + rest))
    ensures !open.indention && open.footIndent == -1
  {
    hide Hints, Fo;
    var hints := Hints(cfg, value);
    open := Indicator(">" + hints, pen, true, false, false).pen.(whitespace := true);
    var lead := if pen.whitespace then "" else " ";
    var body := Fo(cfg, value, 0, open, true, true).text;
    Assoc(lead, ">", hints);
    Assoc(before, lead + ">" + hints + body, rest);
    Assoc4(lead + ">", hints, body, rest);
    Assoc(before, lead + ">", hints + (body + rest));
    Assoc(before, lead, ">");
  }

  /** The first line behind the header. */
  lemma FoFirst(cfg: Settings, value: string, open: Pen) returns (next: Pen)
    requires value != "" && !IsBreak(value[0]) && !open.indention && open.footIndent == -1 && cfg.indent >= 1
    ensures PenAt(cfg, next, 1)
    ensures Fo(cfg, value, 0, open, true, true).text
         == BreakOf(cfg.lineBreak) + (Spaces(cfg.indent) + ([value[0]] + Fo(cfg, value, 1, next, false, IsBlank(value[0])).text))
  {
    hide Indent, Spaces;
    FoldText(cfg, open);
    next := PutPen(Indent(cfg, open).pen, 1).(indention := false);
    var body := Fo(cfg, value, 1, next, false, IsBlank(value[0])).text;
    Assoc(Spaces(cfg.indent), [value[0]], body);
    Assoc(BreakOf(cfg.lineBreak), Spaces(cfg.indent), [value[0]] + body);
    Assoc(BreakOf(cfg.lineBreak) + Spaces(cfg.indent), [value[0]], body);
  }

  /** What follows the lines, and whether a break comes before it. */
  lemma WhatFollows(cfg: Settings, value: string, rest: string) returns (ended: bool, tail: string)
    requires value != "" && LiteralFollows(cfg, value, rest)
    ensures Tail(cfg, value, ended) + tail == rest && (tail == "" || Dedent(cfg.indent, tail)) && !IsBreak(At(tail, 0))
    ensures !ended && !IsBreak(value[|value| - 1]) ==> tail == ""
  {
    hide Dedent;
    ended := rest != "";
    tail := rest;
    if ended && !IsBreak(value[|value| - 1]) {
      tail :| rest == BreakOf(cfg.lineBreak) + tail && Dedent(cfg.indent, tail);
    }
    if tail != "" {
      DedentHead(cfg.indent, tail);
    }
    assert "" + tail == tail;
  }

  lemma RowsFollow(cfg: Settings, value: string, ended: bool, tail: string)
    requires value != "" && (tail == "" || Dedent(cfg.indent, tail)) && cfg.indent >= 1
    requires !ended && !IsBreak(value[|value| - 1]) ==> tail == ""
    ensures forall r: Rows {:trigger BlockReading.Follows(r, cfg.indent, tail)} :: BlockReading.Follows(r, cfg.indent, tail)
  {}

  lemma NoLead(c: Chomping, r: Rows)
    requires NextContent(r) != ""
    ensures BlockValue(false, c, [], r) == WorthOf(c, r)
    ensures EmptiesText([]) + RowsText(r, 1) == RowsText(r, 1)
  {
    assert "" + RowsText(r, 1) == RowsText(r, 1);
    if r.rows == [] {
      assert "" + r.last == r.last && r.last + "" == r.last;
    } else {
      var x := r.rows[0].content + ValueBehind(false, c, r.rows[0], r.(rows := r.rows[1..]));
      assert "" + x == x;
    }
  }

  /** With a true hint, what is read back is what is heard. */
  lemma FoldedIsHeard(level: int, cfg: Settings, value: string, pen: Pen, before: string, column: nat, rest: string)
    requires BlockAllowed(cfg.unicode, value) && LiteralFollows(cfg, value, rest) && !IsBreak(value[0])
    requires 2 <= cfg.bestIndent <= 9 && HintFits(level, cfg, value) && pen.footIndent == -1
    requires level < cfg.indent && 1 <= cfg.indent
    ensures var p := |before| + if pen.whitespace then 0 else 1;
      var buf := before + Folded(cfg, value, pen).text + rest;
      && p < |buf| && value != ""
      && BlockReads(ScanBlockScalar(false, level, buf, p, column), Heard(cfg, value, 0, 0, IsBlank(value[0])))
  {
    hide BlockAllowed, LiteralFollows, Dedent, Hints, Fo, Folded, ScanBlockScalar, RowsFrom, RowsText, RowsFit, IntroOf, IntroText, WorthOf, IntroFits;
    hide EmptiesText, EmptiesFit, BlockValue, Tail, Spaces;
    Text(cfg.unicode, value);
    var leading := IsBlank(value[0]);
    var ended, tail := WhatFollows(cfg, value, rest);
    var open := FoldedText(cfg, value, pen, before, rest);
    var next := FoFirst(cfg, value, open);
    var r := RowsFrom(cfg, value, 0, 1, leading, ended);
    var m: nat := cfg.indent;
    var h := IntroOf(cfg, value, '\n');
    NextRows(cfg, value, 0, leading, ended);
    FirstOfRows(cfg, value, 0, 1, leading, ended);
    TextIsRows(cfg, value, 0, 1, next, leading, ended, tail);
    RowsFitThere(cfg, value, 0, 1, leading, ended, tail);
    IntroIsHints(cfg, value, '\n');
    FeedText(cfg);
    var lead := before + if pen.whitespace then "" else " ";
    HeaderParts(cfg, value, open, next, rest, RowsText(r, m) + tail);
    NoEmpties(m, RowsText(r, m) + tail);
    RowsHead(r, m, tail);
    NotFeed(h.end, RowsText(r, m) + tail);
    RowsFollow(cfg, value, ended, tail);
    HintIs(level, cfg, value, r);
    BlockTextReads(false, level, lead, '>', column, h, [], m, r, tail);
    NoLead(ChompOf(value), r);
    RowsAreHeard(cfg, value, 0, 0, leading, ended);
    assert value[0..0] + Heard(cfg, value, 0, 0, leading) == Heard(cfg, value, 0, 0, leading);
    assert h.chomping == ChompOf(value) by { ChompingOfIntro(cfg, value); }
  }

  lemma ChompingOfIntro(cfg: Settings, value: string)
    requires value != "" && 2 <= cfg.bestIndent <= 9
    ensures IntroOf(cfg, value, '\n').chomping == ChompOf(value)
  {}

  lemma HeaderParts(cfg: Settings, value: string, open: Pen, next: Pen, rest: string, lines: string)
    requires value != "" && 2 <= cfg.bestIndent <= 9 && cfg.indent >= 1
    requires Fo(cfg, value, 0, open, true, true).text
          == BreakOf(cfg.lineBreak) + (Spaces(cfg.indent) + ([value[0]] + Fo(cfg, value, 1, next, false, IsBlank(value[0])).text))
    requires lines == Spaces(cfg.indent) + (value[0..1] + (Fo(cfg, value, 1, next, false, IsBlank(value[0])).text + rest))
    ensures Hints(cfg, value) + (Fo(cfg, value, 0, open, true, true).text + rest)
         == IntroText(IntroOf(cfg, value, '\n')) + lines
  {
    hide *;
    IntroIsHints(cfg, value, '\n');
    FeedText(cfg);
    var body := Fo(cfg, value, 1, next, false, IsBlank(value[0])).text;
    FirstFirst(cfg.indent, value, 0, body, rest);
    Assoc(BreakOf(cfg.lineBreak), Spaces(cfg.indent) + ([value[0]] + body), rest);
    Assoc(Hints(cfg, value), BreakOf(cfg.lineBreak), lines);
  }

  lemma NoEmpties(indent: nat, behind: string)
    ensures EmptiesText([]) + behind == behind && EmptiesFit([], indent, behind)
  {
    assert "" + behind == behind;
  }

  lemma NotFeed(e: LineEnd, behind: string)
    requires At(behind, 0) != '\n'
    ensures EndFits(e, behind)
  {}

  lemma HintIs(level: int, cfg: Settings, value: string, r: Rows)
    requires value != "" && !IsBreak(value[0]) && 2 <= cfg.bestIndent <= 9 && HintFits(level, cfg, value) && level < cfg.indent && 1 <= cfg.indent
    requires NextContent(r) != "" && NextContent(r)[0] == value[0]
    ensures IndentFits(level, IntroOf(cfg, value, '\n'), cfg.indent, r) && (r.rows != [] || r.last != "")
  {}

  // ----- a space or a break at the beginning -----

  lemma {:induction false} FoCopies(cfg: Settings, value: string, s: nat, i: nat, j: nat, pen: Pen, leading: bool) returns (last: Pen)
    requires s < i <= j <= |value| && PenAt(cfg, pen, i - s)
    requires forall l :: i <= l < j ==> !IsBreak(value[l]) && !FoldsFrom(cfg, value, s, l)
    ensures PenAt(cfg, last, j - s)
    ensures Fo(cfg, value, i, pen, false, leading).text == value[i..j] + Fo(cfg, value, j, last, false, leading).text
    decreases j - i
  {
    hide Fo, PenAt, FoldsFrom;
    if i == j {
      last := pen;
      assert value[i..j] == "" && "" + Fo(cfg, value, j, last, false, leading).text == Fo(cfg, value, j, last, false, leading).text;
    } else {
      var next := FoCharacter(cfg, value, s, i, pen, leading);
      last := FoCopies(cfg, value, s, i + 1, j, next, leading);
      assert value[i..j] == [value[i]] + value[i + 1..j];
      Assoc([value[i]], value[i + 1..j], Fo(cfg, value, j, last, false, leading).text);
    }
  }

  /** Where a word begins that comes first or behind spaces, on the line that begins at s. */
  lemma WordBehind(unicode: bool, value: string, s: nat) returns (w: nat)
    requires BlockAllowed(unicode, value) && s < |value| && !IsBreak(value[s])
    ensures s <= w < |value| && !IsSpace(value[w]) && !IsBreakz(value[w]) && value[s..w] == Spaces(w - s)
    ensures forall l :: s <= l < w ==> IsSpace(value[l])
  {
    hide HasSpecial;
    w := s;
    while IsSpace(value[w])
      invariant s <= w < |value| && !IsBreak(value[w]) && forall l :: s <= l < w ==> IsSpace(value[l])
      decreases |value| - w
    {
      assert w + 1 < |value| && !SpaceBreakAt(value, w + 1);
      w := w + 1;
    }
    LitNeighbours(unicode, value, w);
  }

  /** A line that is written begins with spaces and a word, or, folded in front of it, with
      spaces and a break. */
  datatype Beginning = Beginning(spaces: nat, folded: bool, c: char, after: string)

  function BeginningText(cfg: Settings, b: Beginning): string
    requires cfg.indent >= 0
  {
    Spaces(b.spaces) + if b.folded then BreakOf(cfg.lineBreak) + (Spaces(cfg.indent) + ([b.c] + b.after)) else [b.c] + b.after
  }

  lemma LineBeginning(cfg: Settings, value: string, s: nat, w: nat, pen: Pen, leading: bool, rest: string) returns (b: Beginning)
    requires s <= w < |value| && !IsSpace(value[w]) && !IsBreakz(value[w]) && value[s..w] == Spaces(w - s)
    requires (forall l :: s <= l < w ==> IsSpace(value[l])) && PenAt(cfg, pen, 1)
    ensures cfg.indent >= 1 && b.c == value[w] && b.spaces == cfg.indent + w - s - if b.folded then 1 else 0
    ensures b.folded ==> b.spaces > cfg.indent
    ensures Spaces(cfg.indent) + ([value[s]] + (Fo(cfg, value, s + 1, pen, false, leading).text + rest)) == BeginningText(cfg, b)
  {
    hide Fo;
    var m: nat := cfg.indent;
    if w > s + 1 && FoldsFrom(cfg, value, s, w - 1) {
      var p1 := FoCopies(cfg, value, s, s + 1, w - 1, pen, leading);
      var p2 := FoFold(cfg, value, s, w - 1, p1, leading);
      var p3 := FoCharacter(cfg, value, w, w, p2, leading);
      var z := Fo(cfg, value, w + 1, p3, false, leading).text;
      b := Beginning(m + w - s - 1, true, value[w], z + rest);
      assert [value[s]] + value[s + 1..w - 1] == Spaces(w - 1 - s);
      FoldedBeginning(m, w - 1 - s, value[s], value[s + 1..w - 1], BreakOf(cfg.lineBreak), value[w], z, rest);
    } else {
      var p1 := FoCopies(cfg, value, s, s + 1, w + 1, pen, leading) by { hide PenAt; NoFoldBefore(cfg, value, s, w); }
      var z := Fo(cfg, value, w + 1, p1, false, leading).text;
      b := Beginning(m + w - s, false, value[w], z + rest);
      assert [value[s]] + value[s + 1..w + 1] == Spaces(w - s) + [value[w]];
      PlainBeginning(m, w - s, value[s], value[s + 1..w + 1], value[w], z, rest);
    }
  }

  lemma NoFoldBefore(cfg: Settings, value: string, s: nat, w: nat)
    requires s <= w < |value| && !IsSpace(value[w]) && !IsBreakz(value[w]) && (forall l :: s <= l < w ==> IsSpace(value[l]))
    requires !(w > s + 1 && FoldsFrom(cfg, value, s, w - 1))
    ensures forall l :: s + 1 <= l < w + 1 ==> !IsBreak(value[l]) && !FoldsFrom(cfg, value, s, l)
  {}

  lemma FoldedBeginning(m: nat, n: nat, c: char, x: string, br: string, d: char, z: string, rest: string)
    requires [c] + x == Spaces(n)
    ensures Spaces(m) + ([c] + ((x + (br + (Spaces(m) + ([d] + z)))) + rest)) == Spaces(m + n) + (br + (Spaces(m) + ([d] + (z + rest))))
  {
    var y := br + (Spaces(m) + ([d] + z));
    Assoc(x, y, rest);
    Assoc([c], x, y + rest);
    Assoc(Spaces(m), Spaces(n), y + rest);
    LiteralLimits.JoinSpaces(m, n);
    Assoc([d], z, rest);
    Assoc(Spaces(m), [d] + z, rest);
    Assoc(br, Spaces(m) + ([d] + z), rest);
  }

  lemma PlainBeginning(m: nat, n: nat, c: char, x: string, d: char, z: string, rest: string)
    requires [c] + x == Spaces(n) + [d]
    ensures Spaces(m) + ([c] + ((x + z) + rest)) == Spaces(m + n) + ([d] + (z + rest))
  {
    Assoc(x, z, rest);
    Assoc([c], x, z + rest);
    Assoc(Spaces(n), [d], z + rest);
    Assoc(Spaces(m), Spaces(n), [d] + (z + rest));
    LiteralLimits.JoinSpaces(m, n);
  }

  predicate AllBreaks(s: string) { forall k :: 0 <= k < |s| ==> IsBreak(s[k]) }

  /** Behind a line that begins with white space, its break stays, unless the scalar ends there. */
  lemma {:induction false} FirstStays(k: Block, p: nat, column: nat, indent: int, s: string, first: string, trail: string, deepest: nat, end: nat)
    requires end <= p <= |k.buf|
    ensures var r := Breaks(k, p, column, indent, s, first, trail, deepest, true, end);
      r.BlockDone? ==> r.value == s || s + first <= r.value
    decreases |k.buf| - p
  {
    hide Line;
    var c := At(k.buf, p);
    var m: nat := if column > deepest then column else deepest;
    if (indent == 0 || column < indent) && IsSpace(c) {
      FirstStays(k, p + 1, column + 1, indent, s, first, trail, deepest, end);
    } else if IsBreak(c) {
      FirstStays(k, p + BreakLen(k.buf, p), 0, indent, s, first, trail + BreakText(c), m, if s == "" then p + BreakLen(k.buf, p) else end);
    } else {
      var deep := if indent == 0 then Max(Max(m, k.level + 1), 1) else indent;
      if column == deep && !IsZ(c) {
        LiteralLimits.LineKeeps(k, p, column, deep, s + first + trail, IsBlank(c), end);
      } else {
        assert s + "" + "" == s;
      }
    }
  }

  /** A folded beginning, read at an indentation that its first line reaches. */
  lemma DeepBeginningReads(cfg: Settings, k: Block, p: nat, indent: nat, trail: string, d: nat, end: nat, n: nat, line: string)
    requires end <= p <= |k.buf| && indent > 0 && n > 0 && At(line, 0) == ' '
    requires k.buf[p..] == Spaces(indent + n) + (BreakOf(cfg.lineBreak) + line)
    ensures var r := Breaks(k, p, 0, indent, "", "", trail, d, false, end);
      r.BlockDone? ==> r.value == trail + Spaces(n) || trail + Spaces(n) + "\n" <= r.value
  {
    hide *;
    var text := BreakOf(cfg.lineBreak) + line;
    LiteralLimits.JoinSpaces(indent, n);
    Assoc(Spaces(indent), Spaces(n), text);
    SkipIndent(k, p, 0, indent, "", "", trail, d, false, end, indent, Spaces(n) + text);
    var q := p + indent;
    SpaceAtMargin(k, q, indent, trail, d, end, n, text);
    SpacesAreContent(n);
    ContentReads(k, q, indent, indent, trail, true, end, Spaces(n), text);
    LineBreaks(cfg, k, q + n, indent + n, indent, trail + Spaces(n), end, line);
    FirstStays(k, q + n + |BreakOf(cfg.lineBreak)|, 0, indent, trail + Spaces(n), "\n", "", 0, q + n);
  }

  /** Read at a deeper one, the first line is empty and the second ends the scalar. */
  lemma ShallowBeginningReads(cfg: Settings, k: Block, p: nat, indent: nat, trail: string, d: nat, end: nat, b: Beginning)
    requires end <= p <= |k.buf| && 1 <= cfg.indent < b.spaces <= indent && !IsSpace(b.c) && !IsBreakz(b.c)
    requires k.buf[p..] == Spaces(b.spaces) + (BreakOf(cfg.lineBreak) + (Spaces(cfg.indent) + ([b.c] + b.after)))
    ensures var r := Breaks(k, p, 0, indent, "", "", trail, d, false, end); r.BlockDone? ==> r.value == "" || r.value == trail + "\n"
  {
    hide *;
    var m: nat := cfg.indent;
    var line := Spaces(m) + ([b.c] + b.after);
    LineIsCalm(m, [b.c] + b.after);
    SkipIndent(k, p, 0, indent, "", "", trail, d, false, end, b.spaces, BreakOf(cfg.lineBreak) + line);
    var e := EmptyLineBreaks(cfg, k, p + b.spaces, b.spaces, indent, trail, d, end, line);
    var q := p + b.spaces + |BreakOf(cfg.lineBreak)|;
    SkipIndent(k, q, 0, indent, "", "", trail + "\n", Deeper(b.spaces, d), false, e, m, [b.c] + b.after);
    ShallowWord(k, q + m, m, indent, trail + "\n", Deeper(b.spaces, d), e, b.c, b.after);
  }

  /** A folded beginning, read at whatever indentation. */
  lemma FoldedBeginningReads(cfg: Settings, k: Block, p: nat, indent: nat, trail: string, d: nat, end: nat, b: Beginning)
    requires end <= p <= |k.buf| && cfg.indent >= 1 && k.buf[p..] == BeginningText(cfg, b) && b.folded && b.spaces > cfg.indent
    requires indent > 0 && !IsSpace(b.c) && !IsBreakz(b.c) && AllBreaks(trail)
    ensures var r := Breaks(k, p, 0, indent, "", "", trail, d, false, end);
      r.BlockDone? ==>
        || AllBreaks(r.value)
        || (b.spaces > indent && (r.value == trail + Spaces(b.spaces - indent) || trail + Spaces(b.spaces - indent) + "\n" <= r.value))
  {
    hide *;
    FoldedTextOf(cfg, b);
    if b.spaces > indent {
      LineIsCalm(cfg.indent, [b.c] + b.after);
      DeepBeginningReads(cfg, k, p, indent, trail, d, end, b.spaces - indent, Spaces(cfg.indent) + ([b.c] + b.after));
    } else {
      ShallowBeginningReads(cfg, k, p, indent, trail, d, end, b);
      OneMore(trail);
    }
  }

  function Deeper(a: nat, b: nat): nat { if a > b then a else b }

  lemma OneMore(trail: string)
    requires AllBreaks(trail)
    ensures AllBreaks(trail + "\n") && AllBreaks("")
  {}

  lemma FoldedTextOf(cfg: Settings, b: Beginning)
    requires cfg.indent >= 1 && b.folded
    ensures BeginningText(cfg, b) == Spaces(b.spaces) + (BreakOf(cfg.lineBreak) + (Spaces(cfg.indent) + ([b.c] + b.after)))
  {}

  lemma SpacesAreContent(n: nat)
    ensures forall i :: 0 <= i < |Spaces(n)| ==> !IsBreakz(Spaces(n)[i])
  {}

  lemma LineIsCalm(m: nat, x: string)
    requires m >= 1
    ensures At(Spaces(m) + x, 0) == ' '
  {
    assert (Spaces(m) + x)[0] == Spaces(m)[0];
  }

  lemma SpaceAtMargin(k: Block, q: nat, indent: nat, trail: string, d: nat, end: nat, n: nat, text: string)
    requires end <= q <= |k.buf| && indent > 0 && n > 0 && k.buf[q..] == Spaces(n) + text
    ensures Breaks(k, q, indent, indent, "", "", trail, d, false, end) == Line(k, q, indent, indent, trail, true, end)
  {
    hide Line;
    assert k.buf[q] == k.buf[q..][0] == Spaces(n)[0];
    assert "" + "" + trail == trail;
    assert Breaks(k, q, indent, indent, "", "", trail, d, false, end) == Head(k, q, indent, indent, "", "", trail, false, end);
  }

  lemma LineBreaks(cfg: Settings, k: Block, q: nat, column: nat, indent: int, s: string, end: nat, line: string)
    requires end <= q <= |k.buf| && k.buf[q..] == BreakOf(cfg.lineBreak) + line && At(line, 0) != '\n'
    ensures q + |BreakOf(cfg.lineBreak)| <= |k.buf|
    ensures Line(k, q, column, indent, s, true, end) == Breaks(k, q + |BreakOf(cfg.lineBreak)|, 0, indent, s, "\n", "", 0, true, q)
  {
    hide Breaks;
    AfterBreak(k.buf, q, cfg.lineBreak, line);
  }

  lemma EmptyLineBreaks(cfg: Settings, k: Block, q: nat, column: nat, indent: nat, trail: string, d: nat, end: nat, line: string)
    returns (end': nat)
    requires end <= q <= |k.buf| && k.buf[q..] == BreakOf(cfg.lineBreak) + line && At(line, 0) != '\n' && indent > 0
    ensures var p := q + |BreakOf(cfg.lineBreak)|;
      && p <= |k.buf| && k.buf[p..] == line && end' <= p
      && Breaks(k, q, column, indent, "", "", trail, d, false, end)
         == Breaks(k, p, 0, indent, "", "", trail + "\n", Deeper(column, d), false, end')
  {
    hide Head;
    AfterBreak(k.buf, q, cfg.lineBreak, line);
    assert !IsSpace(At(k.buf, q)) && !IsTab(At(k.buf, q));
    end' := q + BreakLen(k.buf, q);
  }

  lemma ShallowWord(k: Block, q: nat, column: nat, indent: nat, trail: string, d: nat, end: nat, c: char, after: string)
    requires end <= q <= |k.buf| && k.buf[q..] == [c] + after && !IsSpace(c) && !IsBreakz(c) && column < indent
    ensures var r := Breaks(k, q, column, indent, "", "", trail, d, false, end); r.BlockDone? ==> r.value == "" || r.value == trail
  {
    hide Line;
    assert At(k.buf, q) == k.buf[q..][0] == c;
    assert "" + "" + trail == trail && "" + "" + "" == "";
  }

  /** A value that begins with breaks comes back without one of them, or not at all. */
  lemma BreakFirstDiffers(cfg: Settings, value: string, k: Block, q: nat, indent: nat, n: nat, d: nat, end: nat, pen: Pen, rest: string)
    requires BlockAllowed(cfg.unicode, value) && LiteralFollows(cfg, value, rest) && cfg.indent >= 1 && indent > 0
    requires IsBreak(value[0]) && n == LeadingBreaks(value, 0) && PenBroken(pen) && end <= q <= |k.buf|
    requires k.buf[q..] == Fo(cfg, value, n, pen, true, true).text + rest
    ensures n >= 1 && !BlockReads(Breaks(k, q, 0, indent, "", "", value[1..n], d, false, end), value)
  {
    hide BlockAllowed, LiteralFollows, Breaks, Fo, PenBroken, BeginningText, LiteralLimits.BeginsLine, Spaces;
    Text(cfg.unicode, value);
    var trail := value[1..n];
    assert n >= 1 && AllBreaks(trail) && IsBreak(value[|trail|]);
    if n == |value| {
      NoLines(cfg, value, pen, rest);
      LiteralLimits.BreaksThenLine(k, q, 0, indent, trail, d, end);
    } else {
      var next := FoLine(cfg, value, n, pen, true);
      var w := WordBehind(cfg.unicode, value, n);
      var b := LineBeginning(cfg, value, n, w, next, IsBlank(value[n]), rest);
      var body := Fo(cfg, value, n + 1, next, false, IsBlank(value[n])).text;
      assert value[n..n + 1] == [value[n]];
      FirstFirst(cfg.indent, value, n, body, rest);
      if b.folded {
        FoldedBeginningReads(cfg, k, q, indent, trail, d, end, b);
        var r := Breaks(k, q, 0, indent, "", "", trail, d, false, end);
        if BlockReads(r, value) {
          SpaceBehindTrail(value, trail, b.spaces, indent, n);
        }
      } else {
        WordBegins(cfg, b);
        LiteralLimits.BreaksThenLine(k, q, 0, indent, trail, d, end);
      }
    }
  }

  lemma SpaceBehindTrail(value: string, trail: string, spaces: nat, indent: nat, n: nat)
    requires |trail| < n < |value| && !IsBreak(value[n]) && IsBreak(value[|trail|])
    ensures !AllBreaks(value)
    ensures spaces > indent ==> value != trail + Spaces(spaces - indent) && !(trail + Spaces(spaces - indent) + "\n" <= value)
  {
    if spaces > indent {
      assert (trail + Spaces(spaces - indent))[|trail|] == ' ';
      assert (trail + Spaces(spaces - indent) + "\n")[|trail|] == ' ';
    }
  }

  lemma WordBegins(cfg: Settings, b: Beginning)
    requires cfg.indent >= 1 && !b.folded && !IsSpace(b.c) && !IsBreak(b.c)
    ensures LiteralLimits.BeginsLine(BeginningText(cfg, b))
  {
    assert LiteralLimits.BeginsLine([b.c] + b.after);
    LiteralLimits.IndentedBegins(b.spaces, [b.c] + b.after);
  }

  lemma NoLines(cfg: Settings, value: string, pen: Pen, rest: string)
    requires value != "" && IsBreak(value[|value| - 1]) && LiteralFollows(cfg, value, rest)
    ensures LiteralLimits.BeginsLine(Fo(cfg, value, |value|, pen, true, true).text + rest)
  {
    hide Dedent, LiteralLimits.BeginsLine;
    assert "" + rest == rest;
    LiteralLimits.DedentBegins(cfg.indent, rest);
  }

  /** A value that begins with spaces comes back with more or fewer of them, or not at all. */
  lemma SpaceFirstDiffers(cfg: Settings, value: string, k: Block, q: nat, indent: nat, w: nat, b: Beginning)
    requires cfg.indent >= 1 && 0 < indent != cfg.indent && q <= |k.buf| && k.buf[q..] == BeginningText(cfg, b)
    requires 0 < w < |value| && value[..w] == Spaces(w) && value[w] == b.c && !IsSpace(b.c) && !IsBreakz(b.c)
    requires b.spaces == cfg.indent + w - (if b.folded then 1 else 0) && (b.folded ==> b.spaces > cfg.indent)
    ensures !BlockReads(Breaks(k, q, 0, indent, "", "", "", 0, false, q), value)
  {
    hide Breaks, Spaces, LiteralLimits.LeadingSpaces;
    var r := Breaks(k, q, 0, indent, "", "", "", 0, false, q);
    if BlockReads(r, value) {
      if b.folded {
        FoldedBeginningReads(cfg, k, q, indent, "", 0, q, b);
        NotSpaces(value, w, b.spaces, indent);
      } else {
        if b.spaces < indent {
          LiteralLimits.ShallowLine(k, q, indent, b.spaces, b.c, b.after);
        } else {
          LiteralLimits.DeepLine(k, q, indent, b.spaces, b.c, b.after);
          LiteralLimits.SpacesThen(value, b.spaces - indent, b.c);
        }
        FirstWord(value, w);
      }
    }
  }

  lemma FirstWord(value: string, w: nat)
    requires w < |value| && value[..w] == Spaces(w) && !IsSpace(value[w])
    ensures LiteralLimits.LeadingSpaces(value) == w
  {
    assert Spaces(w) + [value[w]] <= value by { assert value[..w + 1] == value[..w] + [value[w]]; }
    LiteralLimits.SpacesThen(value, w, value[w]);
  }

  lemma NotSpaces(value: string, w: nat, spaces: nat, indent: nat)
    requires 0 < w < |value| && value[..w] == Spaces(w) && !IsSpace(value[w]) && !IsBreak(value[w])
    ensures !AllBreaks(value)
    ensures spaces > indent ==> value != "" + Spaces(spaces - indent) && !("" + Spaces(spaces - indent) + "\n" <= value)
  {
    assert forall l :: 0 <= l < w ==> value[..w][l] == value[l] == ' ';
    if spaces > indent {
      var n := spaces - indent;
      var t := "" + Spaces(n) + "\n";
      assert t[n] == '\n' && forall l :: 0 <= l < n ==> t[l] == ' ';
      assert ("" + Spaces(n)) == Spaces(n);
      assert forall l :: 0 <= l < n ==> Spaces(n)[l] == ' ';
      if n < w {
        assert value[n] == ' ';
      } else if n > w {
        assert t[w] == ' ' && ("" + Spaces(n))[w] == ' ';
      }
    }
  }

  // ----- exactly the values that come back -----

  /** With breaks at the beginning, the header eats the first one. */
  lemma FoldedLosesBreak(level: int, cfg: Settings, value: string, pen: Pen, before: string, column: nat, rest: string)
    requires BlockAllowed(cfg.unicode, value) && LiteralFollows(cfg, value, rest) && IsBreak(value[0])
    requires 2 <= cfg.bestIndent <= 9 && pen.footIndent == -1 && level < cfg.indent && 1 <= cfg.indent
    ensures var p := |before| + if pen.whitespace then 0 else 1;
      var buf := before + Folded(cfg, value, pen).text + rest;
      p < |buf| && !BlockReads(ScanBlockScalar(false, level, buf, p, column), value)
  {
    hide *;
    Text(cfg.unicode, value);
    var n := LeadingBreaks(value, 0);
    var open := FoldedText(cfg, value, pen, before, rest);
    var lead := before + if pen.whitespace then "" else " ";
    var run := value[1..n];
    BreaksAtFirst(cfg, value, n, open);
    var next := FoBreaks(cfg, value, 1, n, BreakPen(open), true);
    var x := Fo(cfg, value, n, next, true, true).text + rest;
    var h := IntroOf(cfg, value, value[0]);
    IntroIsHints(cfg, value, value[0]);
    CalmBehind(cfg, value, n, next, rest);
    EndFitsThere(cfg, value[0], run, x);
    HeaderOfRun(cfg, value, value[0], run, Fo(cfg, value, n, next, true, true).text, rest);
    IntroEnd(cfg, value, value[0]);
    var buf := before + Folded(cfg, value, pen).text + rest;
    AfterOpening(lead, '>', IntroText(h) + (RunText(cfg, run) + x));
    IntroReads(false, level, buf, |lead|, column, h, RunText(cfg, run) + x);
    var k := Block(false, level, ChompingOf(h.chomping), buf);
    var indent := HintIsPositive(level, cfg, value, h);
    var b := |lead| + 1 + |IntroText(h)|;
    EmptiesFitThere(cfg, run, indent, x);
    RunTextIs(cfg, run);
    var d, e := EmptiesRead(k, b, indent, "", "", "", 0, false, b, EmptiesOf(cfg, run), indent, x);
    EmptiesAre(cfg, run);
    NothingFirst(run);
    BreakFirstDiffers(cfg, value, k, b + |RunText(cfg, run)|, indent, n, d, e, next, rest);
  }

  lemma RunTextIs(cfg: Settings, run: string)
    ensures RunText(cfg, run) == EmptiesText(EmptiesOf(cfg, run))
  {}

  lemma IntroEnd(cfg: Settings, value: string, end: char)
    requires value != "" && 2 <= cfg.bestIndent <= 9
    ensures IntroOf(cfg, value, end).end == EndOf(cfg, end)
  {}

  lemma HintIsPositive(level: int, cfg: Settings, value: string, h: Intro) returns (indent: nat)
    requires value != "" && 2 <= cfg.bestIndent <= 9 && h.digit == IntroOf(cfg, value, value[0]).digit && (IsBreak(value[0]) || IsSpace(value[0]))
    ensures indent > 0 && indent == IndentFrom(level, h.digit) == IndentFrom(level, cfg.bestIndent)
  {
    indent := IndentFrom(level, cfg.bestIndent);
  }

  lemma BreaksAtFirst(cfg: Settings, value: string, n: nat, open: Pen)
    requires value != "" && BlockAllowed(cfg.unicode, value) && IsBreak(value[0]) && n == LeadingBreaks(value, 0) && open.footIndent == -1
    ensures 1 <= n <= |value| && PenBroken(BreakPen(open)) && (forall k :: 1 <= k < n ==> IsBreak(value[k]))
    ensures value[0] == '\n' || value[0] == LS || value[0] == PS
    ensures Feeds(value[1..n]) && (n < |value| ==> !IsBreak(value[n]))
    ensures Fo(cfg, value, 0, open, true, true).text
         == BreakRun(cfg, value[0], true) + Fo(cfg, value, 1, BreakPen(open), true, true).text
  {
    hide BlockAllowed, Fo;
    FoBreak(cfg, value, 0, open, true, true);
    LitNeighbours(cfg.unicode, value, 0);
    var run := value[1..n];
    forall k | 0 <= k < |run|
      ensures run[k] == '\n' || run[k] == LS || run[k] == PS
    {
      assert IsBreak(value[k + 1]);
      LitNeighbours(cfg.unicode, value, k + 1);
    }
  }

  lemma CalmBehind(cfg: Settings, value: string, n: nat, pen: Pen, rest: string)
    requires 0 < n <= |value| && LiteralFollows(cfg, value, rest) && PenBroken(pen) && cfg.indent >= 1
    requires if n < |value| then !IsBreak(value[n]) else IsBreak(value[n - 1])
    ensures At(Fo(cfg, value, n, pen, true, true).text + rest, 0) != '\n'
  {
    hide Fo, LiteralFollows, Spaces;
    if n < |value| {
      var next := FoLine(cfg, value, n, pen, true);
      assert (Fo(cfg, value, n, pen, true, true).text + rest)[0] == Spaces(cfg.indent)[0];
    } else {
      RestHead(cfg, value, rest);
      assert Fo(cfg, value, n, pen, true, true).text + rest == rest by { NothingAtEnd(cfg, value, pen, rest); }
    }
  }

  lemma NothingAtEnd(cfg: Settings, value: string, pen: Pen, rest: string)
    ensures Fo(cfg, value, |value|, pen, true, true).text + rest == rest
  {
    assert "" + rest == rest;
  }

  lemma HeaderOfRun(cfg: Settings, value: string, c: char, run: string, body: string, rest: string)
    requires value != "" && 2 <= cfg.bestIndent <= 9 && (c == '\n' || c == LS || c == PS)
    ensures Hints(cfg, value) + (BreakRun(cfg, c, true) + (RunText(cfg, run) + body) + rest)
         == IntroText(IntroOf(cfg, value, c)) + (RunText(cfg, run) + (body + rest))
  {
    hide *;
    IntroIsHints(cfg, value, c);
    var a, b := Hints(cfg, value), BreakRun(cfg, c, true);
    Assoc(RunText(cfg, run), body, rest);
    Assoc(b, RunText(cfg, run) + body, rest);
    Assoc(a, b, RunText(cfg, run) + (body + rest));
  }

  /** With spaces at the beginning, the hint may be wrong. */
  lemma FoldedWrongHint(level: int, cfg: Settings, value: string, pen: Pen, before: string, column: nat, rest: string)
    requires BlockAllowed(cfg.unicode, value) && LiteralFollows(cfg, value, rest) && !IsBreak(value[0])
    requires 2 <= cfg.bestIndent <= 9 && pen.footIndent == -1 && level < cfg.indent && 1 <= cfg.indent && !HintFits(level, cfg, value)
    ensures var p := |before| + if pen.whitespace then 0 else 1;
      var buf := before + Folded(cfg, value, pen).text + rest;
      p < |buf| && !BlockReads(ScanBlockScalar(false, level, buf, p, column), value)
  {
    hide *;
    Text(cfg.unicode, value);
    var m: nat := cfg.indent;
    var open := FoldedText(cfg, value, pen, before, rest);
    var lead := before + if pen.whitespace then "" else " ";
    var next := FoFirst(cfg, value, open);
    var body := Fo(cfg, value, 1, next, false, IsBlank(value[0])).text;
    var line := Spaces(m) + (value[0..1] + (body + rest));
    HeaderParts(cfg, value, open, next, rest, line);
    LineIsCalm(m, value[0..1] + (body + rest));
    var h := IntroOf(cfg, value, '\n');
    IntroIsHints(cfg, value, '\n');
    NotFeed(h.end, line);
    var buf := before + Folded(cfg, value, pen).text + rest;
    AfterOpening(lead, '>', IntroText(h) + line);
    IntroReads(false, level, buf, |lead|, column, h, line);
    var k := Block(false, level, ChompingOf(h.chomping), buf);
    NotAHint(level, cfg, value);
    SameDigit(cfg, value);
    var indent := HintIsPositive(level, cfg, value, h);
    var w := WordBehind(cfg.unicode, value, 0);
    assert value[0..w] == value[..w];
    var b := LineBeginning(cfg, value, 0, w, next, IsBlank(value[0]), rest);
    assert value[0..1] == [value[0]];
    SpaceFirstDiffers(cfg, value, k, |lead| + 1 + |IntroText(h)|, indent, w, b);
  }

  lemma SameDigit(cfg: Settings, value: string)
    requires value != "" && 2 <= cfg.bestIndent <= 9
    ensures IntroOf(cfg, value, '\n').digit == IntroOf(cfg, value, value[0]).digit
  {}

  lemma NotAHint(level: int, cfg: Settings, value: string)
    requires 2 <= cfg.bestIndent <= 9 && !HintFits(level, cfg, value)
    ensures value != "" && IsSpace(value[0]) && cfg.indent != IndentFrom(level, cfg.bestIndent)
  {}

  /** For every value that the analysis allows in block style: written folded, it is read back
      if and only if it does not begin with a break, its hint, if it begins with a space, is
      true, every fold stands between lines that begin with no white space, and every line feed
      behind such a line stands where the next line begins as the value does. */
  lemma FoldedReadsIff(level: int, cfg: Settings, value: string, pen: Pen, before: string, column: nat, rest: string)
    requires BlockAllowed(cfg.unicode, value) && LiteralFollows(cfg, value, rest)
    requires 2 <= cfg.bestIndent <= 9 && pen.footIndent == -1
    requires level < cfg.indent && 1 <= cfg.indent
    ensures var p := |before| + if pen.whitespace then 0 else 1;
      var buf := before + Folded(cfg, value, pen).text + rest;
      && p < |buf| && value != ""
      && (BlockReads(ScanBlockScalar(false, level, buf, p, column), value)
          <==> !IsBreak(value[0]) && HintFits(level, cfg, value) && KeptFrom(cfg, value, 0))
  {
    hide *;
    Text(cfg.unicode, value);
    if IsBreak(value[0]) {
      FoldedLosesBreak(level, cfg, value, pen, before, column, rest);
    } else if !HintFits(level, cfg, value) {
      FoldedWrongHint(level, cfg, value, pen, before, column, rest);
    } else {
      FoldedIsHeard(level, cfg, value, pen, before, column, rest);
      FirstIsOnRow(cfg, value);
      HeardIff(cfg, value, 0, 0, IsBlank(value[0]));
      assert value[0..] == value;
      SameReading(false, level, before + Folded(cfg, value, pen).text + rest, |before| + if pen.whitespace then 0 else 1, column,
                  Heard(cfg, value, 0, 0, IsBlank(value[0])), value);
    }
  }

  lemma FirstIsOnRow(cfg: Settings, value: string)
    requires value != "" && !IsBreak(value[0])
    ensures OnRow(cfg, value, 0, 0)
  {}

  lemma SameReading(literal: bool, level: int, buf: string, p: nat, column: nat, a: string, b: string)
    requires p < |buf| && BlockReads(ScanBlockScalar(literal, level, buf, p, column), a)
    ensures BlockReads(ScanBlockScalar(literal, level, buf, p, column), b) <==> a == b
  {
    hide ScanBlockScalar;
  }

  /** A value whose first run of breaks, at i, is not kept does not come back. */
  lemma FirstFeedLost(level: int, cfg: Settings, value: string, i: nat, pen: Pen, column: nat)
    requires 2 <= cfg.bestIndent <= 9 && pen.footIndent == -1 && level < cfg.indent && 1 <= cfg.indent
    requires BlockAllowed(cfg.unicode, value) && 0 < i < |value| && value[i] == '\n' && !IsBlank(value[0])
    requires forall j :: 0 <= j < i ==> !IsBlank(value[j]) && !IsBreak(value[j])
    requires var n := LeadingBreaks(value, i); if n < |value| then IsBlank(value[n]) else n > i + 1
    ensures var p := if pen.whitespace then 0 else 1;
      var text := Folded(cfg, value, pen).text;
      p < |text| && !BlockReads(ScanBlockScalar(false, level, text, p, column), value)
  {
    hide Folded, BlockAllowed, RowStart, ScanBlockScalar;
    var text := Folded(cfg, value, pen).text;
    assert "" + text + "" == text;
    FoldedReadsIff(level, cfg, value, pen, "", column, "");
    FirstRow(cfg, value, i);
    assert !FeedKept(cfg, value, i);
  }

  lemma {:induction false} FirstRow(cfg: Settings, value: string, i: nat)
    requires i < |value| && forall j :: 0 <= j < i ==> !IsBlank(value[j]) && !IsBreak(value[j])
    ensures RowStart(cfg, value, i) == 0
  {
    if i > 0 {
      FirstRow(cfg, value, i - 1);
    }
  }

  /** A line feed is doubled though the next line begins with a space. */
  lemma FeedBeforeSpace(level: int, cfg: Settings, pen: Pen, column: nat)
    requires 2 <= cfg.bestIndent <= 9 && pen.footIndent == -1 && level < cfg.indent && 1 <= cfg.indent
    ensures BlockAllowed(cfg.unicode, "a\n b")
    ensures var p := if pen.whitespace then 0 else 1;
      var text := Folded(cfg, "a\n b", pen).text;
      p < |text| && !BlockReads(ScanBlockScalar(false, level, text, p, column), "a\n b")
  {
    hide Folded, ScanBlockScalar;
    FirstFeedLost(level, cfg, "a\n b", 1, pen, column);
  }

  /** Two line feeds at the end come back as three. */
  lemma TwoFeedsAtEnd(level: int, cfg: Settings, pen: Pen, column: nat)
    requires 2 <= cfg.bestIndent <= 9 && pen.footIndent == -1 && level < cfg.indent && 1 <= cfg.indent
    ensures BlockAllowed(cfg.unicode, "a\n\n")
    ensures var p := if pen.whitespace then 0 else 1;
      var text := Folded(cfg, "a\n\n", pen).text;
      p < |text| && !BlockReads(ScanBlockScalar(false, level, text, p, column), "a\n\n")
  {
    hide Folded, ScanBlockScalar;
    FirstFeedLost(level, cfg, "a\n\n", 1, pen, column);
  }

  /** Lines without white space in front, with single or several line feeds between them and
      at most one at the end, always come back. */
  lemma ParagraphsComeBack(level: int, cfg: Settings, value: string, pen: Pen, before: string, column: nat, rest: string)
    requires BlockAllowed(cfg.unicode, value) && LiteralFollows(cfg, value, rest)
    requires 2 <= cfg.bestIndent <= 9 && pen.footIndent == -1
    requires level < cfg.indent && 1 <= cfg.indent
    requires !HasTab(value) && !HasBreakSpace(value) && !IsSpace(value[0]) && !IsBreak(value[0])
    requires |value| > 1 && IsBreak(value[|value| - 1]) ==> !IsBreak(value[|value| - 2])
    ensures var p := |before| + if pen.whitespace then 0 else 1;
      var buf := before + Folded(cfg, value, pen).text + rest;
      p < |buf| && BlockReads(ScanBlockScalar(false, level, buf, p, column), value)
  {
    hide Folded, ScanBlockScalar, LiteralFollows, HintFits;
    FoldedReadsIff(level, cfg, value, pen, before, column, rest);
    assert HintFits(level, cfg, value) by { NoHint(level, cfg, value); }
    forall i | 0 <= i < |value|
      ensures FoldKept(cfg, value, i) && FeedKept(cfg, value, i)
    {
      ParagraphKept(cfg, value, i);
    }
  }

  lemma NoHint(level: int, cfg: Settings, value: string)
    requires 2 <= cfg.bestIndent <= 9 && (value != "" ==> !IsSpace(value[0]))
    ensures HintFits(level, cfg, value)
  {}

  lemma {:induction false} RowStartsPlain(cfg: Settings, value: string, i: nat)
    requires i < |value| && !HasTab(value) && !HasBreakSpace(value) && !IsSpace(value[0])
    ensures !IsBlank(value[RowStart(cfg, value, i)])
  {
    NoTabAt(value, i);
    if i > 0 {
      RowStartsPlain(cfg, value, i - 1);
      assert !BreakSpaceAt(value, i);
    } else {
      NoTabAt(value, 0);
    }
  }

  lemma NoTabAt(value: string, i: nat)
    requires i < |value| && !HasTab(value)
    ensures value[i] != '\t'
  {
    assert !TabAt(value, i);
  }

  lemma ParagraphKept(cfg: Settings, value: string, i: nat)
    requires BlockAllowed(cfg.unicode, value) && i < |value| && !HasTab(value) && !HasBreakSpace(value) && !IsSpace(value[0])
    requires |value| > 1 && IsBreak(value[|value| - 1]) ==> !IsBreak(value[|value| - 2])
    ensures FoldKept(cfg, value, i) && FeedKept(cfg, value, i)
  {
    hide BlockAllowed, RowStart;
    RowStartsPlain(cfg, value, i);
    NoTabAt(value, 0);
    if i + 1 < |value| {
      NoTabAt(value, i + 1);
    }
    var n := LeadingBreaks(value, i);
    if n < |value| && n > 0 {
      NoTabAt(value, n);
      assert !BreakSpaceAt(value, n);
    }
  }
}
