/** The insertion sort that orders alert candidates and queue listings: in place, moving each element
left while it comes strictly before its neighbour. */
module Sorting {
  import opened Common

  /** `before` is a strict order on the elements of s: irreflexive, transitive, and total between different elements. */
  ghost predicate StrictOrder<T>(s: multiset<T>, before: (T, T) -> bool) {
    && (forall x {:trigger before(x, x)} | x in s :: !before(x, x))
    && (forall x, y, z {:trigger before(x, y), before(y, z)} |
          x in s && y in s && z in s && before(x, y) && before(y, z) :: before(x, z))
    && (forall x, y {:trigger before(x, y)} | x in s && y in s && x != y :: before(x, y) || before(y, x))
  }

  function Insert<T>(sorted: seq<T>, x: T, before: (T, T) -> bool): seq<T> {
    if sorted == [] then [x]
    else
      var n := |sorted| - 1;
      if before(x, sorted[n]) then Insert(sorted[..n], x, before) + [sorted[n]] else sorted + [x]
  }

  function Sort<T>(s: seq<T>, before: (T, T) -> bool): seq<T> {
    if s == [] then [] else Insert(Sort(s[..|s| - 1], before), s[|s| - 1], before)
  }

  /** No element comes before its left neighbour. */
  ghost predicate Ascending<T>(s: seq<T>, before: (T, T) -> bool) {
    |s| < 2 || (!before(s[|s| - 1], s[|s| - 2]) && Ascending(s[..|s| - 1], before))
  }

  lemma {:induction false} InsertIsPermutation<T>(sorted: seq<T>, x: T, before: (T, T) -> bool)
    ensures multiset(Insert(sorted, x, before)) == multiset(sorted) + multiset{x}
  {
    if sorted != [] {
      var n := |sorted| - 1;
      InsertIsPermutation(sorted[..n], x, before);
      assert sorted == sorted[..n] + [sorted[n]];
    }
  }

  lemma {:induction false} SortIsPermutation<T>(s: seq<T>, before: (T, T) -> bool)
    ensures multiset(Sort(s, before)) == multiset(s)
  {
    if s != [] {
      var n := |s| - 1;
      SortIsPermutation(s[..n], before);
      InsertIsPermutation(Sort(s[..n], before), s[n], before);
      assert s == s[..n] + [s[n]];
    }
  }

  lemma {:induction false} SortLength<T>(s: seq<T>, before: (T, T) -> bool)
    ensures |Sort(s, before)| == |s|
  {
    SortIsPermutation(s, before);
    assert |multiset(Sort(s, before))| == |multiset(s)|;
  }

  ghost predicate Within<T>(s: seq<T>, all: multiset<T>) {
    forall x | x in s :: x in all
  }

  lemma {:induction false} InsertAscends<T>(sorted: seq<T>, x: T, before: (T, T) -> bool, all: multiset<T>)
    requires StrictOrder(all, before) && Within(sorted, all) && x in all && Ascending(sorted, before)
    ensures Ascending(Insert(sorted, x, before), before)
  {
    if sorted != [] {
      var n := |sorted| - 1;
      if before(x, sorted[n]) {
        var shorter := Insert(sorted[..n], x, before);
        InsertAscends(sorted[..n], x, before, all);
        assert (shorter + [sorted[n]])[..|shorter|] == shorter;
      } else {
        assert (sorted + [x])[..n + 1] == sorted;
      }
    }
  }

  lemma {:induction false} SortAscends<T>(s: seq<T>, before: (T, T) -> bool, all: multiset<T>)
    requires StrictOrder(all, before) && Within(s, all)
    ensures Ascending(Sort(s, before), before)
  {
    if s != [] {
      var n := |s| - 1;
      SortAscends(s[..n], before, all);
      forall x | x in Sort(s[..n], before) ensures x in all { SameElements(s[..n], before, x); }
      InsertAscends(Sort(s[..n], before), s[n], before, all);
    }
  }

  lemma {:induction false} SameElements<T>(s: seq<T>, before: (T, T) -> bool, x: T)
    ensures x in Sort(s, before) <==> x in s
  {
    SortIsPermutation(s, before);
    assert x in s <==> x in multiset(s);
    assert x in Sort(s, before) <==> x in multiset(Sort(s, before));
  }

  /** In an ascending list the last element comes before none of the elements. */
  lemma {:induction false} LastIsGreatest<T>(s: seq<T>, before: (T, T) -> bool, x: T, all: multiset<T>)
    requires StrictOrder(all, before) && Within(s, all) && Ascending(s, before) && x in s
    ensures !before(s[|s| - 1], x)
  {
    var n := |s| - 1;
    if x == s[n] {
      assert x in all && !before(x, x);
    } else {
      assert x in s[..n];
      LastIsGreatest(s[..n], before, x, all);
    }
  }

  lemma DropLast<T>(s: seq<T>)
    requires s != []
    ensures multiset(s[..|s| - 1]) == multiset(s) - multiset{s[|s| - 1]}
  {
    assert s == s[..|s| - 1] + [s[|s| - 1]];
  }

  lemma {:induction false} LastsAgree<T>(a: seq<T>, b: seq<T>, before: (T, T) -> bool, all: multiset<T>)
    requires a != [] && multiset(a) == multiset(b) && StrictOrder(all, before) && Within(a, all) && Within(b, all)
    requires Ascending(a, before) && Ascending(b, before)
    ensures |a| == |b| && a[|a| - 1] == b[|b| - 1]
  {
    assert |multiset(a)| == |a| && |multiset(b)| == |b|;
    var x, y := a[|a| - 1], b[|b| - 1];
    assert x in multiset(a) && y in multiset(b);
    assert x in b && y in a;
    LastIsGreatest(a, before, y, all);
    LastIsGreatest(b, before, x, all);
  }

  /** A strict order leaves only one way to arrange the same elements. */
  lemma {:induction false} AscendingIsUnique<T>(a: seq<T>, b: seq<T>, before: (T, T) -> bool, all: multiset<T>)
    requires multiset(a) == multiset(b) && StrictOrder(all, before) && Within(a, all) && Within(b, all)
    requires Ascending(a, before) && Ascending(b, before)
    ensures a == b
    decreases |a|
  {
    if a == [] {
      assert |multiset(b)| == |b| == 0;
    } else {
      var n := |a| - 1;
      LastsAgree(a, b, before, all);
      DropLast(a);
      DropLast(b);
      assert Within(a[..n], all) && Within(b[..n], all);
      AscendingIsUnique(a[..n], b[..n], before, all);
      SameEnds(a, b);
    }
  }

  lemma SameEnds<T>(a: seq<T>, b: seq<T>)
    requires |a| == |b| > 0 && a[|a| - 1] == b[|b| - 1] && a[..|a| - 1] == b[..|b| - 1]
    ensures a == b
  {
    assert a == a[..|a| - 1] + [a[|a| - 1]];
    assert b == b[..|b| - 1] + [b[|b| - 1]];
  }

  /** The result of sorting does not depend on the order of the input. */
  lemma {:induction false} SortIgnoresInputOrder<T>(a: seq<T>, b: seq<T>, before: (T, T) -> bool)
    requires multiset(a) == multiset(b) && StrictOrder(multiset(a), before)
    ensures Sort(a, before) == Sort(b, before)
  {
    var all := multiset(a);
    assert Within(a, all);
    forall x | x in b ensures x in all { assert x in multiset(b); }
    SortAscends(a, before, all);
    SortAscends(b, before, all);
    forall x | x in Sort(a, before) ensures x in all { SameElements(a, before, x); }
    forall x | x in Sort(b, before) ensures x in all { SameElements(b, before, x); }
    SortIsPermutation(a, before);
    SortIsPermutation(b, before);
    AscendingIsUnique(Sort(a, before), Sort(b, before), before, all);
  }

  /** Insertion with the unread tail in place: x is at position j, everything it has passed is behind it. */
  lemma {:induction false} InsertPast<T>(sorted: seq<T>, x: T, before: (T, T) -> bool, j: nat)
    requires j <= |sorted| && forall k | j <= k < |sorted| :: before(x, sorted[k])
    ensures Insert(sorted, x, before) == Insert(sorted[..j], x, before) + sorted[j..]
    decreases |sorted|
  {
    if j < |sorted| {
      var n := |sorted| - 1;
      InsertPast(sorted[..n], x, before, j);
      assert sorted[..n][..j] == sorted[..j];
      Assoc(Insert(sorted[..j], x, before), sorted[..n][j..], [sorted[n]]);
      assert sorted[..n][j..] + [sorted[n]] == sorted[j..];
    } else {
      assert sorted[..j] == sorted && sorted[j..] == [];
    }
  }

  method InsertionSort<T>(a: array<T>, before: (T, T) -> bool)
    modifies a
    ensures a[..] == Sort(old(a[..]), before)
  {
    ghost var input := a[..];
    assert input[..0] == a[..0] == [];
    var i := 0;
    while i < a.Length
      invariant i <= a.Length
      invariant a[..i] == Sort(input[..i], before) && a[i..] == input[i..]
    {
      assert input[..i + 1][..i] == input[..i] && input[i] == a[i..][0];
      SortLength(input[..i], before);
      MoveLeft(a, i, before);
      i := i + 1;
    }
    assert a[..i] == a[..] && input[..i] == input;
  }

  method MoveLeft<T>(a: array<T>, i: nat, before: (T, T) -> bool)
    requires i < a.Length
    modifies a
    ensures a[..i + 1] == Insert(old(a[..i]), old(a[i]), before)
    ensures a[i + 1..] == old(a[i + 1..])
  {
    ghost var all := a[..];
    var j: nat := i;
    while j > 0 && before(a[j], a[j - 1])
      invariant j <= i && a[j] == all[i]
      invariant forall k | 0 <= k < j :: a[k] == all[k]
      invariant forall k | j < k <= i :: a[k] == all[k - 1]
      invariant forall k | i < k < a.Length :: a[k] == all[k]
      invariant forall k | j <= k < i :: before(all[i], all[k])
    {
      a[j - 1], a[j] := a[j], a[j - 1];
      j := j - 1;
    }
    MovedIsInserted(all, a[..], i, j, before);
  }

  /** The array after moving element i left to position j holds the insertion of that element. */
  lemma {:induction false} MovedIsInserted<T>(was: seq<T>, now: seq<T>, i: nat, j: nat, before: (T, T) -> bool)
    requires j <= i < |was| == |now| && now[j] == was[i]
    requires forall k | 0 <= k < j :: now[k] == was[k]
    requires forall k | j < k <= i :: now[k] == was[k - 1]
    requires forall k | i < k < |was| :: now[k] == was[k]
    requires forall k | j <= k < i :: before(was[i], was[k])
    requires j > 0 ==> !before(was[i], was[j - 1])
    ensures now[..i + 1] == Insert(was[..i], was[i], before) && now[i + 1..] == was[i + 1..]
  {
    InsertPast(was[..i], was[i], before, j);
    assert now[..i + 1] == (was[..i][..j] + [was[i]]) + was[..i][j..];
  }
}
