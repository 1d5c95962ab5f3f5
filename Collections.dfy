/** Searches over sequences shared by the front end and the back end. */
module Collections {
  import opened Wrappers

  /**
   * The index of the first element satisfying `p`, or None when no element does.
   * This is JavaScript's `Array.prototype.find`/`some` and SQL's
   * `select ... where ... .first()` over a table kept in insertion order.
   */
  function FindIndex<T>(s: seq<T>, p: T -> bool): (r: Option<nat>)
    ensures r.Some? ==> r.value < |s| && p(s[r.value])
    ensures r.Some? ==> forall j :: 0 <= j < r.value ==> !p(s[j])
    ensures r.None? <==> forall j :: 0 <= j < |s| ==> !p(s[j])
  {
    if |s| == 0 then None
    else if p(s[0]) then Some(0)
    else
      match FindIndex(s[1..], p)
      case None => None
      case Some(k) => Some(k + 1)
  }

  /** `Array.prototype.some`: some element satisfies `p`. */
  predicate Any<T>(s: seq<T>, p: T -> bool) {
    exists i | 0 <= i < |s| :: p(s[i])
  }

  /** `a` is `b` with some elements dropped and the rest kept in order. */
  ghost predicate IsSubsequence<T>(a: seq<T>, b: seq<T>)
    decreases |b|
  {
    if b == [] then a == []
    else IsSubsequence(a, b[1..]) || (a != [] && a[0] == b[0] && IsSubsequence(a[1..], b[1..]))
  }

  /** No element occurs twice, stated element by element. */
  predicate NoDuplicates<T(==)>(s: seq<T>) {
    |s| == 0 || (s[0] !in s[1..] && NoDuplicates(s[1..]))
  }

  /** Without duplicates, two different positions hold different elements. */
  lemma {:induction false} NoDuplicatesAt<T>(s: seq<T>, a: nat, b: nat)
    requires NoDuplicates(s) && a < b < |s|
    ensures s[a] != s[b]
  {
    if a == 0 {
      assert s[b] == s[1..][b - 1];
    } else {
      NoDuplicatesAt(s[1..], a - 1, b - 1);
    }
  }
}
