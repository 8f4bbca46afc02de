/** Small value wrappers shared by the whole model: Python's `None`-or-value
    and "value or raised exception". */
module Wrappers {

  /** A value that may be Python's `None`. */
  datatype Option<+T> = None | Some(value: T)

  /** The outcome of a Python call that either returns a value or raises. */
  datatype Result<+T, +E> = Success(value: T) | Failure(error: E)
}

/** Facts about sequences used by several components. */
module Sequences {

  /** No element occurs twice. */
  predicate Distinct<T(==)>(s: seq<T>) {
    forall i, j :: 0 <= i < j < |s| ==> s[i] != s[j]
  }

  /** The elements of a sequence, as a set. */
  function Elements<T>(s: seq<T>): set<T> {
    set x | x in s
  }

  /** Some element satisfies `p` exactly when one of all but the last does,
      or the last one does. */
  lemma ExistsSplit<T>(s: seq<T>, init: seq<T>, p: T -> bool)
    requires s != [] && init == s[..|s| - 1]
    ensures (exists k :: 0 <= k < |s| && p(s[k])) <==>
            (exists k :: 0 <= k < |init| && p(init[k])) || p(s[|s| - 1])
  {
    if exists k :: 0 <= k < |s| && p(s[k]) {
      var k :| 0 <= k < |s| && p(s[k]);
      if k < |init| {
        assert init[k] == s[k];
      }
    }
    if exists k :: 0 <= k < |init| && p(init[k]) {
      var k :| 0 <= k < |init| && p(init[k]);
      assert init[k] == s[k];
    }
  }

  /** When some element satisfies `p`, a last one does. */
  lemma {:induction false} LastSatisfying<T>(s: seq<T>, p: T -> bool) returns (i: int)
    requires exists k :: 0 <= k < |s| && p(s[k])
    ensures 0 <= i < |s| && p(s[i])
    ensures forall j :: i < j < |s| ==> !p(s[j])
    decreases |s|
  {
    var n := |s| - 1;
    if p(s[n]) {
      i := n;
    } else {
      var k :| 0 <= k < |s| && p(s[k]);
      assert k < n && s[..n][k] == s[k];
      i := LastSatisfying(s[..n], p);
      assert forall j :: i < j < n ==> s[..n][j] == s[j];
    }
  }
}
