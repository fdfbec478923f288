/**
 * List edits shared by the editors: removing the element at an index (the
 * `filter((_, i) => i !== index)` and `splice(i, 1)` idiom), inserting at an
 * index (`splice(i, 0, x)`), and moving an element by removing it and
 * inserting it again (the meaning of dnd-kit's `arrayMove`).
 */
module Lists {
  import opened Common

  /** The list without the element at `i`; an index past the end removes nothing. */
  function RemoveAt<T>(s: seq<T>, i: nat): (r: seq<T>)
    ensures i >= |s| ==> r == s
    ensures i < |s| ==> |r| == |s| - 1
    ensures i < |s| ==> forall k :: 0 <= k < |r| ==> r[k] == (if k < i then s[k] else s[k + 1])
  {
    if i < |s| then s[..i] + s[i + 1..] else s
  }

  /** The list with `x` inserted so that it sits at index `i`. */
  function InsertAt<T>(s: seq<T>, i: nat, x: T): (r: seq<T>)
    requires i <= |s|
    ensures |r| == |s| + 1 && r[i] == x
    ensures forall k :: 0 <= k < i ==> r[k] == s[k]
    ensures forall k :: i < k < |r| ==> r[k] == s[k - 1]
  {
    s[..i] + [x] + s[i..]
  }

  lemma RemoveAtMultiset<T>(s: seq<T>, i: nat)
    requires i < |s|
    ensures multiset(RemoveAt(s, i)) + multiset{s[i]} == multiset(s)
  {
    assert s == s[..i] + [s[i]] + s[i + 1..];
  }

  lemma InsertAtMultiset<T>(s: seq<T>, i: nat, x: T)
    requires i <= |s|
    ensures multiset(InsertAt(s, i, x)) == multiset(s) + multiset{x}
  {
    assert s == s[..i] + s[i..];
  }

  /** Inserting and then removing at the same index gives the list back. */
  lemma RemoveInsert<T>(s: seq<T>, i: nat, x: T)
    requires i <= |s|
    ensures RemoveAt(InsertAt(s, i, x), i) == s
  {
  }

  /** Removing at `i` and inserting the removed element at `i` again gives the list back. */
  lemma InsertRemove<T>(s: seq<T>, i: nat)
    requires i < |s|
    ensures InsertAt(RemoveAt(s, i), i, s[i]) == s
  {
  }

  /**
   * `splice(from, 1)` and then `splice(to, 0, moved)`: an insertion index past
   * the end of the shortened list is taken as its end, as `splice` does.
   */
  function Move<T>(s: seq<T>, from: nat, to: nat): (r: seq<T>)
    requires from < |s|
    ensures |r| == |s|
  {
    var rest := RemoveAt(s, from);
    InsertAt(rest, Min(to, |rest|), s[from])
  }

  /** Moving keeps every element with its multiplicity. */
  lemma MovePermutes<T>(s: seq<T>, from: nat, to: nat)
    requires from < |s|
    ensures multiset(Move(s, from, to)) == multiset(s)
  {
    RemoveAtMultiset(s, from);
    var rest := RemoveAt(s, from);
    InsertAtMultiset(rest, Min(to, |rest|), s[from]);
  }

  /** Where the element at index `k` after a move came from. */
  function MovedFrom(from: nat, to: nat, k: nat): nat
  {
    if k == to then from
    else if from <= k < to then k + 1
    else if to < k <= from then k - 1
    else k
  }

  /**
   * Element by element: the moved element sits at `to`, the ones between the
   * two positions shift by one towards `from`, and all others stay put.
   */
  lemma MoveAt<T>(s: seq<T>, from: nat, to: nat, k: nat)
    requires from < |s| && to < |s| && k < |s|
    ensures MovedFrom(from, to, k) < |s|
    ensures Move(s, from, to)[k] == s[MovedFrom(from, to, k)]
  {
  }

  /** A target past the last index is the last index. */
  lemma MoveClamped<T>(s: seq<T>, from: nat, to: nat)
    requires from < |s|
    ensures Move(s, from, Min(to, |s| - 1)) == Move(s, from, to)
  {
  }

  /** Positions moved forth and back come back to themselves. */
  lemma MovedFromInverse(from: nat, to: nat, k: nat)
    ensures MovedFrom(from, to, MovedFrom(to, from, k)) == k
  {
  }

  /** Moving an element to where it already is changes nothing. */
  lemma MoveSame<T>(s: seq<T>, i: nat)
    requires i < |s|
    ensures Move(s, i, i) == s
  {
    InsertRemove(s, i);
  }

  lemma MoveBackAt<T>(s: seq<T>, from: nat, to: nat, k: nat)
    requires from < |s| && to < |s| && k < |s|
    ensures Move(Move(s, from, to), to, from)[k] == s[k]
  {
    var m := Move(s, from, to);
    var j := MovedFrom(to, from, k);
    assert Move(m, to, from)[k] == m[j] && j < |s| by {
      MoveAt(m, to, from, k);
    }
    assert m[j] == s[MovedFrom(from, to, j)] by {
      MoveAt(s, from, to, j);
    }
    MovedFromInverse(from, to, k);
  }

  /** Moving back undoes a move. */
  lemma MoveBack<T>(s: seq<T>, from: nat, to: nat)
    requires from < |s| && to < |s|
    ensures Move(Move(s, from, to), to, from) == s
  {
    var back := Move(Move(s, from, to), to, from);
    assert |back| == |s|;
    forall k | 0 <= k < |s| ensures back[k] == s[k] {
      MoveBackAt(s, from, to, k);
    }
  }
}
