/**
 * Sequence facts shared by both checkers: sortedness, duplicate-free lists,
 * the membership-guarded append the checkers use to deduplicate, and the
 * ascending sort they apply before comparing (`sort.Ints`).
 */
module Lists {

  ghost predicate IsSorted(s: seq<int>) {
    forall i, j :: 0 <= i < j < |s| ==> s[i] <= s[j]
  }

  ghost predicate StrictlyAscending(s: seq<int>) {
    forall i, j :: 0 <= i < j < |s| ==> s[i] < s[j]
  }

  ghost predicate NoDuplicates<T>(s: seq<T>) {
    forall i, j :: 0 <= i < j < |s| ==> s[i] != s[j]
  }

  /** `AppendIfMissing` / `AppendPodIfMissing`: add `x` at the end unless it is
      already present. The old list is kept as a prefix, `x` is present
      afterwards, nothing else is added, and a duplicate-free list stays so. */
  function AppendIfMissing<T(==, !new)>(s: seq<T>, x: T): (r: seq<T>)
    ensures |s| <= |r| <= |s| + 1 && r[..|s|] == s
    ensures x in r
    ensures forall y :: y in r <==> y in s || y == x
    ensures |r| == |s| + 1 <==> x !in s
    ensures NoDuplicates(s) ==> NoDuplicates(r)
  {
    if x in s then s else s + [x]
  }

  /** A list built by AppendIfMissing, one element of `xs` after another. */
  function AppendAllIfMissing<T(==, !new)>(s: seq<T>, xs: seq<T>): (r: seq<T>)
    ensures |s| <= |r| && r[..|s|] == s
    ensures forall y :: y in r <==> y in s || y in xs
    ensures NoDuplicates(s) ==> NoDuplicates(r)
  {
    if |xs| == 0 then s
    else
      var r := AppendIfMissing(AppendAllIfMissing(s, xs[..|xs| - 1]), xs[|xs| - 1]);
      assert forall y :: y in xs <==> y in xs[..|xs| - 1] || y == xs[|xs| - 1] by {
        assert xs == xs[..|xs| - 1] + [xs[|xs| - 1]];
      }
      r
  }

  /** The deduplicated list of `xs`, in order of first occurrence. */
  function Dedup<T(==, !new)>(xs: seq<T>): (r: seq<T>)
    ensures NoDuplicates(r)
    ensures forall y :: y in r <==> y in xs
  {
    AppendAllIfMissing([], xs)
  }

  /** Adding what is already there changes nothing. */
  lemma {:induction false} AppendAllAbsorbed<T(!new)>(t: seq<T>, xs: seq<T>)
    requires forall x :: x in xs ==> x in t
    ensures AppendAllIfMissing(t, xs) == t
  {
    if |xs| > 0 {
      assert xs[|xs| - 1] in xs;
      AppendAllAbsorbed(t, xs[..|xs| - 1]);
    }
  }

  /** Ingesting the same versions again at a deduplicated list is a no-op. */
  lemma AppendAllIdempotent<T(!new)>(s: seq<T>, xs: seq<T>)
    ensures AppendAllIfMissing(AppendAllIfMissing(s, xs), xs) == AppendAllIfMissing(s, xs)
  {
    AppendAllAbsorbed(AppendAllIfMissing(s, xs), xs);
  }

  /** `x` placed into an ascending list before the first larger-or-equal element. */
  function Insert(x: int, s: seq<int>): (r: seq<int>)
    requires IsSorted(s)
    ensures IsSorted(r)
    ensures multiset(r) == multiset(s) + multiset{x}
    ensures |r| == |s| + 1 && r[0] == (if |s| == 0 || x <= s[0] then x else s[0])
  {
    if |s| == 0 then [x]
    else if x <= s[0] then [x] + s
    else
      var rest := Insert(x, s[1..]);
      assert s == [s[0]] + s[1..];
      [s[0]] + rest
  }

  /** `sort.Ints`: an ascending permutation of `s`. */
  function SortInts(s: seq<int>): (r: seq<int>)
    ensures IsSorted(r)
    ensures multiset(r) == multiset(s)
  {
    if |s| == 0 then []
    else
      assert s == [s[0]] + s[1..];
      Insert(s[0], SortInts(s[1..]))
  }

  /** A permutation of a duplicate-free list is duplicate-free. */
  lemma PermutationNoDuplicates<T>(s: seq<T>, r: seq<T>)
    requires NoDuplicates(s) && multiset(r) == multiset(s)
    ensures NoDuplicates(r)
  {
    forall i, j | 0 <= i < j < |r| ensures r[i] != r[j] {
      if r[i] == r[j] {
        assert r == r[..j] + r[j..];
        assert r[..j][i] == r[i];
        assert r[j..][0] == r[j];
        assert multiset(r)[r[i]] >= 2;
        AtMostOnce(s, r[i]);
        assert false;
      }
    }
  }

  lemma {:induction false} AtMostOnce<T>(s: seq<T>, x: T)
    requires NoDuplicates(s)
    ensures multiset(s)[x] <= 1
  {
    if |s| > 0 {
      assert s == [s[0]] + s[1..];
      assert NoDuplicates(s[1..]);
      AtMostOnce(s[1..], x);
      if x == s[0] {
        assert x !in s[1..];
      }
    }
  }

  /** Sorting a deduplicated list gives a strictly ascending one. */
  lemma SortedDedupStrictlyAscending(s: seq<int>)
    requires NoDuplicates(s)
    ensures StrictlyAscending(SortInts(s))
  {
    PermutationNoDuplicates(s, SortInts(s));
  }

  lemma TailMembers(a: seq<int>, v: int)
    requires StrictlyAscending(a) && |a| > 0
    ensures v in a[1..] <==> v in a && v != a[0]
  {
    if v in a && v != a[0] {
      var m :| 0 <= m < |a| && a[m] == v;
      assert a[1..][m - 1] == v;
    }
  }

  lemma SameMembersSameEmptiness(a: seq<int>, b: seq<int>)
    requires forall v :: v in a <==> v in b
    ensures |a| == 0 <==> |b| == 0
  {
    if |a| > 0 {
      var x := a[0];
      assert x in a;
      assert x in b;
    }
    if |b| > 0 {
      var y := b[0];
      assert y in b;
      assert y in a;
    }
  }

  /** A strictly ascending list is determined by its elements alone. */
  lemma {:induction false} StrictlyAscendingUnique(a: seq<int>, b: seq<int>)
    requires StrictlyAscending(a) && StrictlyAscending(b)
    requires forall v :: v in a <==> v in b
    ensures a == b
  {
    SameMembersSameEmptiness(a, b);
    if |a| > 0 {
      var x, y := a[0], b[0];
      assert x in a && x in b;
      assert y in b && y in a;
      assert x == y;
      forall v ensures v in a[1..] <==> v in b[1..] {
        TailMembers(a, v);
        TailMembers(b, v);
      }
      StrictlyAscendingUnique(a[1..], b[1..]);
    }
  }
}
