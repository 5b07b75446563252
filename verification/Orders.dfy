/** Rows in a strict order: what they hold fixes what they are, so any sort finds the
    same row. */
module Orders {

  /** Every element comes before those after it. */
  ghost predicate Sorted<T(!new)>(before: (T, T) -> bool, s: seq<T>) {
    forall i, j :: 0 <= i < j < |s| ==> before(s[i], s[j])
  }

  /** Nothing comes before itself, and no two come before each other. */
  ghost predicate Strict<T(!new)>(before: (T, T) -> bool) {
    forall x, y :: before(x, y) ==> !before(y, x)
  }

  ghost predicate Within<T(!new)>(a: seq<T>, b: seq<T>) {
    forall i :: 0 <= i < |a| ==> a[i] in b
  }

  lemma {:induction false} SortedIsUnique<T(!new)>(before: (T, T) -> bool, a: seq<T>, b: seq<T>)
    requires Strict(before) && Sorted(before, a) && Sorted(before, b) && |a| == |b| && Within(a, b) && Within(b, a)
    ensures a == b
  {
    if a != [] {
      LastIsLast(before, a, b);
      ButLast(before, a, b);
      ButLast(before, b, a);
      SortedIsUnique(before, a[..|a| - 1], b[..|b| - 1]);
      assert a == a[..|a| - 1] + [a[|a| - 1]] && b == b[..|b| - 1] + [b[|b| - 1]];
    }
  }

  lemma LastIsLast<T(!new)>(before: (T, T) -> bool, a: seq<T>, b: seq<T>)
    requires Strict(before) && Sorted(before, a) && Sorted(before, b) && |a| == |b| > 0 && Within(a, b) && Within(b, a)
    ensures a[|a| - 1] == b[|b| - 1]
  {
    var n := |a| - 1;
    var j :| 0 <= j <= n && b[j] == a[n];
    var i :| 0 <= i <= n && a[i] == b[n];
    Earlier(before, b, j, n);
    Earlier(before, a, i, n);
  }

  lemma Earlier<T(!new)>(before: (T, T) -> bool, s: seq<T>, i: nat, n: nat)
    requires Sorted(before, s) && i <= n < |s|
    ensures i < n ==> before(s[i], s[n])
  {}

  lemma ButLast<T(!new)>(before: (T, T) -> bool, a: seq<T>, b: seq<T>)
    requires Strict(before) && Sorted(before, a) && |a| == |b| > 0 && Within(a, b) && a[|a| - 1] == b[|b| - 1]
    ensures Within(a[..|a| - 1], b[..|b| - 1])
  {
    var n := |a| - 1;
    forall i | 0 <= i < n
      ensures a[..n][i] in b[..n]
    {
      Earlier(before, a, i, n);
      assert a[i] in b && a[i] != b[n];
      var j :| 0 <= j <= n && b[j] == a[i];
      assert b[..n][j] == a[i];
    }
  }
}
