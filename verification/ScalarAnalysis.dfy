/**
  What `yaml_emitter_analyze_scalar` decides, stated as properties of the value rather
  than as the flags of its loop.
 */
module ScalarAnalysis {
  import opened Chars

  predicate SpecialCharacter(unicode: bool, c: char) {
    c != '\t' && (!IsPrintable(c) || (!IsAscii(c) && !unicode))
  }

  predicate SpecialAt(unicode: bool, value: string, i: nat) {
    i < |value| && SpecialCharacter(unicode, value[i])
  }

  predicate TabAt(value: string, i: nat) { i < |value| && IsTab(value[i]) }

  predicate BreakAt(value: string, i: nat) { i < |value| && IsBreak(value[i]) }

  /** A line break directly after a space. */
  predicate SpaceBreakAt(value: string, i: nat) {
    0 < i < |value| && IsSpace(value[i - 1]) && IsBreak(value[i])
  }

  /** A space directly after a line break. */
  predicate BreakSpaceAt(value: string, i: nat) {
    0 < i < |value| && IsBreak(value[i - 1]) && IsSpace(value[i])
  }

  predicate HasSpecial(unicode: bool, value: string) { exists i :: 0 <= i < |value| && SpecialAt(unicode, value, i) }

  predicate HasTab(value: string) { exists i :: 0 <= i < |value| && TabAt(value, i) }

  predicate HasBreak(value: string) { exists i :: 0 <= i < |value| && BreakAt(value, i) }

  predicate HasSpaceBreak(value: string) { exists i :: 0 <= i < |value| && SpaceBreakAt(value, i) }

  predicate HasBreakSpace(value: string) { exists i :: 0 <= i < |value| && BreakSpaceAt(value, i) }

  lemma AnyBreak(value: string)
    requires value != ""
    ensures IsBreak(value[0]) || IsBreak(value[|value| - 1]) || HasSpaceBreak(value) || HasBreakSpace(value) ==> HasBreak(value)
  {
    assert BreakAt(value, 0) == IsBreak(value[0]);
    assert BreakAt(value, |value| - 1) == IsBreak(value[|value| - 1]);
    if HasSpaceBreak(value) {
      var i :| 0 <= i < |value| && SpaceBreakAt(value, i);
      assert BreakAt(value, i);
    }
    if HasBreakSpace(value) {
      var i :| 0 <= i < |value| && BreakSpaceAt(value, i);
      assert BreakAt(value, i - 1);
    }
  }

  predicate SingleQuotedAllowed(unicode: bool, value: string) {
    !HasSpecial(unicode, value) && !HasTab(value) && !HasSpaceBreak(value) && !HasBreakSpace(value)
  }

  predicate BlockAllowed(unicode: bool, value: string) {
    && value != ""
    && !HasSpecial(unicode, value)
    && !HasSpaceBreak(value)
    && !IsSpace(value[|value| - 1])
  }

  predicate StartsLikeDocument(value: string) {
    "---" <= value || "..." <= value
  }

  /** Is the character at i the last one, or followed by a blank? */
  predicate BlankFollows(value: string, i: nat) {
    i + 1 >= |value| || IsBlank(value[i + 1])
  }

  predicate FlowIndicatorAt(value: string, i: nat) {
    var c := At(value, i);
    if i == 0 then
      || c in "#,[]{}&*!|>'\"%@`?:"
      || (c == '-' && BlankFollows(value, i))
    else
      || c in ",?[]{}:"
      || (c == '#' && IsBlankz(At(value, i - 1)))
  }

  predicate BlockIndicatorAt(value: string, i: nat) {
    var c := At(value, i);
    if i == 0 then
      || c in "#,[]{}&*!|>'\"%@`"
      || (c in "?:-" && BlankFollows(value, i))
    else
      || (c == ':' && BlankFollows(value, i))
      || (c == '#' && IsBlankz(At(value, i - 1)))
  }

  predicate HasFlowIndicator(value: string) {
    StartsLikeDocument(value) || exists i :: 0 <= i < |value| && FlowIndicatorAt(value, i)
  }

  predicate HasBlockIndicator(value: string) {
    StartsLikeDocument(value) || exists i :: 0 <= i < |value| && BlockIndicatorAt(value, i)
  }

  /** What both plain styles ask for. */
  predicate PlainShape(unicode: bool, value: string) {
    && value != ""
    && !IsSpace(value[0]) && !IsSpace(value[|value| - 1])
    && !HasBreak(value)
    && !HasTab(value)
    && !HasSpecial(unicode, value)
  }

  predicate FlowPlainAllowed(unicode: bool, value: string) {
    PlainShape(unicode, value) && !HasFlowIndicator(value)
  }

  predicate BlockPlainAllowed(unicode: bool, value: string) {
    value == "" || (PlainShape(unicode, value) && !HasBlockIndicator(value))
  }
}
