/** The indentation levels that the scanner and the emitter keep on a stack. */
module Indentation {

  /** The indentation levels, the current one last, increase strictly from -1. */
  predicate Increasing(indents: seq<int>, indent: int) {
    && (if indents == [] then indent == -1 else indents[0] == -1 && indents[|indents| - 1] < indent)
    && forall i, j :: 0 <= i < j < |indents| ==> indents[i] < indents[j]
  }
}
