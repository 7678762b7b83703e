/**
  `yaml_insert_token`: a slice that is consumed from its head while tokens are inserted
  anywhere behind the head. Its storage is compacted in place before it would have to grow.
 */
module TokenQueue {

  /** A sequence with a token put in at a position; a negative position means the end. */
  function Inserted<T>(q: seq<T>, pos: int, t: T): seq<T>
    requires pos <= |q|
  {
    if pos < 0 then q + [t] else q[..pos] + [t] + q[pos..]
  }

  /** Insertion seen behind tokens that have been taken away. */
  lemma InsertedBehind<T>(taken: seq<T>, q: seq<T>, pos: int, t: T)
    requires pos <= |taken| + |q| && (pos >= 0 ==> |taken| <= pos)
    ensures Inserted(taken + q, pos, t) == taken + Inserted(q, if pos < 0 then pos else pos - |taken|, t)
  {
    if pos >= 0 {
      var n := pos - |taken|;
      assert (taken + q)[..pos] == taken + q[..n] && (taken + q)[pos..] == q[n..];
    }
  }

  class Queue<T(0)> {
    var store: array<T>
    var len: nat
    var head: nat

    ghost predicate Valid()
      reads this
    {
      head <= len <= store.Length
    }

    /** The tokens that have not been handed out. */
    function Contents(): seq<T>
      requires Valid()
      reads this, store
    {
      store[head..len]
    }

    constructor (capacity: nat)
      ensures Valid() && fresh(store) && store.Length == capacity && Contents() == []
    {
      store := new T[capacity];
      len, head := 0, 0;
    }

    /** Moves the queue to the beginning of its storage. */
    method Compact()
      requires Valid()
      modifies this`len, this`head, store
      ensures Valid() && head == 0 && Contents() == old(Contents())
    {
      ghost var was := Contents();
      var n := len - head;
      if head != len {
        var from := head;
        forall i | 0 <= i < n {
          store[i] := store[from + i];
        }
        assert forall i :: 0 <= i < n ==> store[i] == was[i];
      }
      len, head := n, 0;
    }

    /** Appends in place if there is room, and in a larger copy otherwise. */
    method Append(t: T)
      requires Valid()
      modifies this`len, this`store, store
      ensures Valid() && head == old(head) && Contents() == old(Contents()) + [t]
      ensures store == old(store) || fresh(store)
      ensures len == old(len) + 1
    {
      ghost var was := Contents();
      if len == store.Length {
        var larger := new T[2 * len + 1];
        forall i | 0 <= i < len {
          larger[i] := store[i];
        }
        assert larger[head..len] == was;
        store := larger;
      }
      store[len] := t;
      len := len + 1;
      assert store[head..len] == store[head..len - 1] + [t];
      assert forall i :: 0 <= i < |was| ==> store[head + i] == was[i];
    }

    method InsertToken(pos: int, t: T)
      requires Valid() && pos <= |Contents()|
      modifies this, store
      ensures Valid() && Contents() == Inserted(old(Contents()), pos, t)
      ensures store == old(store) || fresh(store)
    {
      ghost var was := Contents();
      if head > 0 && len == store.Length {
        Compact();
      }
      Append(t);
      if pos < 0 {
        return;
      }
      assert Contents() == was + [t];
      ShiftIn(pos, t);
      assert (was + [t])[..pos] == was[..pos] && (was + [t])[pos..|was|] == was[pos..];
    }

    /** Moves the tokens from a position on back by one; the last one is lost. */
    method ShiftIn(pos: nat, t: T)
      requires Valid() && pos < |Contents()|
      modifies store
      ensures Valid()
      ensures var q, n := old(Contents()), |old(Contents())| - 1; Contents() == q[..pos] + [t] + q[pos..n]
    {
      ghost var q := Contents();
      var at, end := head + pos, len;
      forall i | at < i < end {
        store[i] := store[i - 1];
      }
      store[at] := t;
      forall i | 0 <= i < |q|
        ensures Contents()[i] == (q[..pos] + [t] + q[pos..|q| - 1])[i]
      {
        assert Contents()[i] == store[head + i];
        if i > pos {
          assert store[head + i] == q[i - 1] == q[pos..|q| - 1][i - 1 - pos];
        }
      }
    }

    /** Hands out the token at the head. */
    method TakeHead() returns (t: T)
      requires Valid() && Contents() != []
      modifies this`head
      ensures Valid() && [t] + Contents() == old(Contents())
    {
      t := store[head];
      head := head + 1;
    }
  }
}
