/**
 * First-occurrence de-duplication of a sequence. Both Python dictionaries
 * (the order of their keys) and pandas' `drop_duplicates(keep="first")`
 * (the order of the rows it keeps) follow it.
 */
module Sequences {

  predicate NoDups<T(==)>(s: seq<T>) {
    forall i, j | 0 <= i < j < |s| :: s[i] != s[j]
  }

  /** A prefix of a sequence without duplicates has none, and shares no element with the rest. */
  lemma NoDupsPrefix<T>(s: seq<T>, k: nat)
    requires k <= |s| && NoDups(s)
    ensures NoDups(s[..k])
    ensures forall i | k <= i < |s| :: s[i] !in s[..k]
  {
  }

  /** A non-empty sequence is its front followed by its last element. */
  lemma FrontLast<T>(s: seq<T>)
    requires s != []
    ensures s == s[..|s| - 1] + [s[|s| - 1]]
  {
  }

  /** The position of the first `x` in `s`. */
  function FirstIndex<T(==)>(s: seq<T>, x: T): (i: nat)
    requires x in s
    ensures i < |s| && s[i] == x && x !in s[..i]
  {
    if s[0] == x then 0
    else
      var j := FirstIndex(s[1..], x);
      assert s[..j + 1] == [s[0]] + s[1..][..j];
      j + 1
  }

  /** The first occurrence of each element of `s`, in the order of `s`. */
  function Distinct<T(==)>(s: seq<T>): (d: seq<T>)
    ensures forall x | x in s :: x in d
    ensures forall x | x in d :: x in s
    ensures NoDups(d)
  {
    if s == [] then []
    else
      var d := Distinct(s[..|s| - 1]);
      var x := s[|s| - 1];
      assert s == s[..|s| - 1] + [x];
      if x in d then d else d + [x]
  }

  /** Appending one element extends the distinct sequence only when the element is new. */
  lemma DistinctSnoc<T>(s: seq<T>, x: T)
    ensures Distinct(s + [x]) == if x in s then Distinct(s) else Distinct(s) + [x]
  {
    assert (s + [x])[..|s + [x]| - 1] == s;
  }

  /** A sequence without duplicates is its own distinct sequence. */
  lemma {:induction false} DistinctOfNoDups<T>(s: seq<T>)
    requires NoDups(s)
    ensures Distinct(s) == s
  {
    if s != [] {
      var init := s[..|s| - 1];
      assert s == init + [s[|s| - 1]];
      assert NoDups(init);
      DistinctOfNoDups(init);
      assert s[|s| - 1] !in init;
    }
  }

  /**
   * The distinct elements appear in the order of their first occurrence
   * in `s`.
   */
  lemma {:induction false} DistinctOrder<T>(s: seq<T>)
    ensures forall i, j | 0 <= i < j < |Distinct(s)| ::
      FirstIndex(s, Distinct(s)[i]) < FirstIndex(s, Distinct(s)[j])
  {
    if s != [] {
      var init := s[..|s| - 1];
      var x := s[|s| - 1];
      assert s == init + [x];
      DistinctOrder(init);
      var d := Distinct(init);
      forall y | y in init ensures FirstIndex(s, y) == FirstIndex(init, y) {
        FirstIndexPrefix(init, [x], y);
      }
      if x !in init {
        assert FirstIndex(s, x) == |init|;
        forall y | y in d ensures FirstIndex(s, y) < |init| {
          assert FirstIndex(s, y) == FirstIndex(init, y);
        }
      }
    }
  }

  /** Looking up an element that already occurs in a prefix finds it there. */
  lemma FirstIndexPrefix<T>(s: seq<T>, t: seq<T>, x: T)
    requires x in s
    ensures FirstIndex(s + t, x) == FirstIndex(s, x)
  {
    var m := FirstIndex(s, x);
    assert (s + t)[m] == x;
  }
}
