/**
 * The newer checker's comparator (`compareWithBase` in hack/eventLoad/eventCheck.go):
 * a two-pointer merge over a base list and a current list of resourceVersions
 * that yields a same/different verdict and the versions that did not pair up.
 */
module MergeDiff {
  import opened Lists

  /** The merge the comparator performs, as a function: equal heads are consumed
      together, otherwise the smaller head is reported and consumed, and once one
      side runs out the rest of the other side is reported. */
  function SymDiff(base: seq<int>, curr: seq<int>): seq<int>
    decreases |base| + |curr|
  {
    if |base| == 0 then curr
    else if |curr| == 0 then base
    else if base[0] == curr[0] then SymDiff(base[1..], curr[1..])
    else if base[0] < curr[0] then [base[0]] + SymDiff(base[1..], curr)
    else [curr[0]] + SymDiff(base, curr[1..])
  }

  /** The list `compareWithBase` returns. Without `eventdiff`, an empty side stops the
      merge before it starts, so nothing is reported even though the lists differ. */
  function DiffReport(base: seq<int>, curr: seq<int>, eventDiff: bool): seq<int> {
    if !eventDiff && (|base| == 0 || |curr| == 0) then [] else SymDiff(base, curr)
  }

  /** With `eventdiff` an empty side reports the whole other side; without it an
      empty side reports nothing. */
  lemma EmptySideReports(base: seq<int>, curr: seq<int>)
    ensures |base| == 0 ==> DiffReport(base, curr, true) == curr
    ensures |curr| == 0 ==> DiffReport(base, curr, true) == base
    ensures |base| == 0 || |curr| == 0 ==> DiffReport(base, curr, false) == []
  {
  }

  /** A version present twice in the base and once in the current list is
      reported once. */
  lemma DuplicateSurplusReported()
    ensures DiffReport([5, 5, 7], [5, 7], false) == [5]
  {
    calc {
      SymDiff([5, 5, 7], [5, 7]);
      { assert [5, 5, 7][1..] == [5, 7] && [5, 7][1..] == [7]; }
      SymDiff([5, 7], [7]);
      [5] + SymDiff([7], [7]);
      { assert [7][1..] == []; }
      [5] + SymDiff([], []);
    }
  }

  /** The merge reports nothing exactly when the two lists are identical, sorted or not. */
  lemma {:induction false} SymDiffEmptyIffEqual(base: seq<int>, curr: seq<int>)
    ensures SymDiff(base, curr) == [] <==> base == curr
    decreases |base| + |curr|
  {
    if |base| > 0 && |curr| > 0 && base[0] == curr[0] {
      SymDiffEmptyIffEqual(base[1..], curr[1..]);
      assert base == [base[0]] + base[1..] && curr == [curr[0]] + curr[1..];
    }
  }

  /** On ascending lists the merge reports the multiset symmetric difference:
      every version that one side holds more often than the other, as many times
      as the surplus. */
  lemma {:induction false} SymDiffMultiset(base: seq<int>, curr: seq<int>)
    requires IsSorted(base) && IsSorted(curr)
    ensures multiset(SymDiff(base, curr)) == SurplusBoth(multiset(base), multiset(curr))
    decreases |base| + |curr|
  {
    if |base| > 0 && |curr| > 0 {
      var b, c := base[0], curr[0];
      if b == c {
        SymDiffMultiset(base[1..], curr[1..]);
        HeadSplit(base);
        HeadSplit(curr);
        CancelCommon(multiset(base[1..]), multiset(curr[1..]), b);
      } else if b < c {
        SymDiffMultiset(base[1..], curr);
        HeadSplit(base);
        NotInSortedBelowHead(curr, b);
        MoveAbsent(multiset(base[1..]), multiset(curr), b);
      } else {
        SymDiffMultiset(base, curr[1..]);
        HeadSplit(curr);
        NotInSortedBelowHead(base, c);
        MoveAbsent(multiset(curr[1..]), multiset(base), c);
      }
    }
  }

  /** What each side holds beyond the other, taken together. */
  function SurplusBoth(a: multiset<int>, b: multiset<int>): multiset<int> {
    (a - b) + (b - a)
  }

  lemma HeadSplit(s: seq<int>)
    requires |s| > 0
    ensures multiset(s) == multiset(s[1..]) + multiset{s[0]}
  {
    assert s == [s[0]] + s[1..];
  }

  /** A version present once more on both sides cancels out. */
  lemma CancelCommon(a: multiset<int>, b: multiset<int>, x: int)
    ensures SurplusBoth(a + multiset{x}, b + multiset{x}) == SurplusBoth(a, b)
  {
  }

  /** A version that the other side lacks entirely is surplus on its own side. */
  lemma MoveAbsent(a: multiset<int>, other: multiset<int>, x: int)
    requires other[x] == 0
    ensures SurplusBoth(a + multiset{x}, other) == SurplusBoth(a, other) + multiset{x}
    ensures SurplusBoth(other, a + multiset{x}) == SurplusBoth(other, a) + multiset{x}
  {
  }

  lemma NotInSortedBelowHead(s: seq<int>, x: int)
    requires IsSorted(s) && |s| > 0 && x < s[0]
    ensures multiset(s)[x] == 0
  {
    assert forall k :: 0 <= k < |s| ==> s[0] <= s[k];
    assert x !in s;
  }

  /** Every reported version comes from one of the two lists. */
  lemma {:induction false} SymDiffFromInputs(base: seq<int>, curr: seq<int>)
    ensures forall x :: x in SymDiff(base, curr) ==> x in base || x in curr
    decreases |base| + |curr|
  {
    if |base| > 0 && |curr| > 0 {
      if base[0] == curr[0] {
        SymDiffFromInputs(base[1..], curr[1..]);
      } else if base[0] < curr[0] {
        SymDiffFromInputs(base[1..], curr);
      } else {
        SymDiffFromInputs(base, curr[1..]);
      }
      assert base == [base[0]] + base[1..] && curr == [curr[0]] + curr[1..];
    }
  }

  /** On ascending lists the report is ascending too: it comes out in merge order. */
  lemma {:induction false} SymDiffSorted(base: seq<int>, curr: seq<int>)
    requires IsSorted(base) && IsSorted(curr)
    ensures IsSorted(SymDiff(base, curr))
    decreases |base| + |curr|
  {
    if |base| > 0 && |curr| > 0 {
      var b, c := base[0], curr[0];
      if b == c {
        SymDiffSorted(base[1..], curr[1..]);
      } else if b < c {
        var rest := SymDiff(base[1..], curr);
        SymDiffSorted(base[1..], curr);
        SymDiffFromInputs(base[1..], curr);
        forall k | 0 <= k < |rest| ensures b <= rest[k] {
          var x := rest[k];
          assert x in rest;
        }
      } else {
        var rest := SymDiff(base, curr[1..]);
        SymDiffSorted(base, curr[1..]);
        SymDiffFromInputs(base, curr[1..]);
        forall k | 0 <= k < |rest| ensures c <= rest[k] {
          var x := rest[k];
          assert x in rest;
        }
      }
    }
  }

  /** The merge state (i, j, diff) of the comparator loop: what has been reported
      so far, followed by the merge of what is left, is the whole merge. */
  ghost predicate Accounted(base: seq<int>, curr: seq<int>, i: nat, j: nat, diff: seq<int>) {
    i <= |base| && j <= |curr| && diff + SymDiff(base[i..], curr[j..]) == SymDiff(base, curr)
  }

  lemma StepBoth(base: seq<int>, curr: seq<int>, i: nat, j: nat, diff: seq<int>)
    requires Accounted(base, curr, i, j, diff)
    requires i < |base| && j < |curr| && base[i] == curr[j]
    ensures Accounted(base, curr, i + 1, j + 1, diff)
  {
    assert base[i..][1..] == base[i + 1..] && curr[j..][1..] == curr[j + 1..];
  }

  lemma StepBase(base: seq<int>, curr: seq<int>, i: nat, j: nat, diff: seq<int>)
    requires Accounted(base, curr, i, j, diff)
    requires i < |base| && j <= |curr| && (j < |curr| ==> base[i] < curr[j])
    ensures Accounted(base, curr, i + 1, j, diff + [base[i]])
  {
    assert base[i..] == [base[i]] + base[i + 1..];
    assert SymDiff(base[i..], curr[j..]) == [base[i]] + SymDiff(base[i + 1..], curr[j..]);
    assert diff + [base[i]] + SymDiff(base[i + 1..], curr[j..]) == diff + ([base[i]] + SymDiff(base[i + 1..], curr[j..]));
  }

  lemma StepCurr(base: seq<int>, curr: seq<int>, i: nat, j: nat, diff: seq<int>)
    requires Accounted(base, curr, i, j, diff)
    requires i <= |base| && j < |curr| && (i < |base| ==> curr[j] < base[i])
    ensures Accounted(base, curr, i, j + 1, diff + [curr[j]])
  {
    assert curr[j..] == [curr[j]] + curr[j + 1..];
    assert SymDiff(base[i..], curr[j..]) == [curr[j]] + SymDiff(base[i..], curr[j + 1..]);
    assert diff + [curr[j]] + SymDiff(base[i..], curr[j + 1..]) == diff + ([curr[j]] + SymDiff(base[i..], curr[j + 1..]));
  }

  lemma AccountedStart(base: seq<int>, curr: seq<int>)
    ensures Accounted(base, curr, 0, 0, [])
  {
    assert base[0..] == base && curr[0..] == curr;
  }

  lemma AccountedDone(base: seq<int>, curr: seq<int>, diff: seq<int>)
    requires Accounted(base, curr, |base|, |curr|, diff)
    ensures diff == SymDiff(base, curr)
  {
    assert base[|base|..] == [] && curr[|curr|..] == [];
  }

  /** While the verdict is still "same", the lists have equal length and the merge
      has advanced in lock step over an equal prefix. */
  ghost predicate LockStep(base: seq<int>, curr: seq<int>, i: nat, j: nat) {
    |base| == |curr| && i == j <= |base| && base[..i] == curr[..j]
  }

  lemma LockStepAdvance(base: seq<int>, curr: seq<int>, i: nat, j: nat)
    requires LockStep(base, curr, i, j) && i < |base| && base[i] == curr[j]
    ensures LockStep(base, curr, i + 1, j + 1)
  {
    assert base[..i + 1] == base[..i] + [base[i]] && curr[..j + 1] == curr[..j] + [curr[j]];
  }

  lemma LockStepDone(base: seq<int>, curr: seq<int>, i: nat, j: nat)
    requires LockStep(base, curr, i, j) && i == |base|
    ensures base == curr
  {
    assert base[..i] == base && curr[..j] == curr;
  }

  /** The two loops that follow a matching pair in `compareWithBase`: once one list
      is used up, everything left in the other is reported. Afterwards either both
      lists are used up or neither is. */
  method DrainAfterMatch(base: seq<int>, curr: seq<int>, i0: nat, j0: nat, diff0: seq<int>, isSame0: bool)
    returns (i: nat, j: nat, diff: seq<int>, isSame: bool)
    requires 0 < i0 <= |base| && 0 < j0 <= |curr|
    requires Accounted(base, curr, i0, j0, diff0)
    requires isSame0 ==> LockStep(base, curr, i0, j0)
    requires base == curr ==> isSame0 && i0 == j0
    ensures i0 <= i <= |base| && j0 <= j <= |curr| && (i == |base| <==> j == |curr|)
    ensures Accounted(base, curr, i, j, diff)
    ensures isSame ==> LockStep(base, curr, i, j)
    ensures base == curr ==> isSame && i == j
  {
    i, j, diff, isSame := i0, j0, diff0, isSame0;
    var bl, cl := |base|, |curr|;
    while i == bl && j < cl
      invariant i0 <= i <= bl && j0 <= j <= cl
      invariant Accounted(base, curr, i, j, diff)
      invariant isSame ==> LockStep(base, curr, i, j)
      invariant base == curr ==> isSame && i == j
      decreases cl - j
    {
      isSame := false;
      StepCurr(base, curr, i, j, diff);
      diff := diff + [curr[j]];
      j := j + 1;
    }
    while i < bl && j == cl
      invariant i0 <= i <= bl && j0 <= j <= cl
      invariant i == bl ==> j == cl
      invariant Accounted(base, curr, i, j, diff)
      invariant isSame ==> LockStep(base, curr, i, j)
      invariant base == curr ==> isSame && i == j
      decreases bl - i
    {
      isSame := false;
      StepBase(base, curr, i, j, diff);
      diff := diff + [base[i]];
      i := i + 1;
    }
  }

  /** The inner loop of `compareWithBase` after a mismatch: report the smaller head
      until the heads agree again, or, once a list is used up, report the rest of the
      other and finish (the early returns of the source). */
  method SkipMismatches(base: seq<int>, curr: seq<int>, i0: nat, j0: nat, diff0: seq<int>)
    returns (i: nat, j: nat, diff: seq<int>, finished: bool)
    requires i0 < |base| && j0 < |curr| && base[i0] != curr[j0]
    requires Accounted(base, curr, i0, j0, diff0)
    ensures finished ==> diff == SymDiff(base, curr)
    ensures !finished ==> i0 <= i < |base| && j0 <= j < |curr| && i0 + j0 < i + j
    ensures !finished ==> base[i] == curr[j] && Accounted(base, curr, i, j, diff)
  {
    i, j, diff := i0, j0, diff0;
    var bl, cl := |base|, |curr|;
    while base[i] != curr[j]
      invariant i0 <= i < bl && j0 <= j < cl
      invariant base[i] == curr[j] ==> i0 + j0 < i + j
      invariant Accounted(base, curr, i, j, diff)
      decreases bl - i + cl - j
    {
      if base[i] < curr[j] {
        StepBase(base, curr, i, j, diff);
        diff := diff + [base[i]];
        i := i + 1;
      } else {
        StepCurr(base, curr, i, j, diff);
        diff := diff + [curr[j]];
        j := j + 1;
      }
      if i == bl {
        diff := ReportRestOfCurr(base, curr, j, diff);
        return i, j, diff, true;
      }
      if j == cl {
        diff := ReportRestOfBase(base, curr, i, diff);
        return i, j, diff, true;
      }
    }
    finished := false;
  }

  /** Base used up: every remaining current version is reported. */
  method ReportRestOfCurr(base: seq<int>, curr: seq<int>, j0: nat, diff0: seq<int>) returns (diff: seq<int>)
    requires Accounted(base, curr, |base|, j0, diff0)
    ensures diff == SymDiff(base, curr)
  {
    diff := diff0;
    var j := j0;
    while j < |curr|
      invariant Accounted(base, curr, |base|, j, diff)
    {
      StepCurr(base, curr, |base|, j, diff);
      diff := diff + [curr[j]];
      j := j + 1;
    }
    AccountedDone(base, curr, diff);
  }

  /** Current list used up: every remaining base version is reported. */
  method ReportRestOfBase(base: seq<int>, curr: seq<int>, i0: nat, diff0: seq<int>) returns (diff: seq<int>)
    requires Accounted(base, curr, i0, |curr|, diff0)
    ensures diff == SymDiff(base, curr)
  {
    diff := diff0;
    var i := i0;
    while i < |base|
      invariant Accounted(base, curr, i, |curr|, diff)
    {
      StepBase(base, curr, i, |curr|, diff);
      diff := diff + [base[i]];
      i := i + 1;
    }
    AccountedDone(base, curr, diff);
  }

  /** `compareWithBase(baseRVList, currRvList)` with `ecOpts.eventdiff` as a parameter
      and the printing left out. The verdict is true exactly when the lists are
      identical; the returned list is the merge report, which on ascending inputs is
      their sorted multiset symmetric difference. */
  method CompareWithBase(base: seq<int>, curr: seq<int>, eventDiff: bool)
    returns (isSame: bool, diff: seq<int>)
    ensures isSame <==> base == curr
    ensures diff == DiffReport(base, curr, eventDiff)
    ensures IsSorted(base) && IsSorted(curr) && (eventDiff || (|base| > 0 && |curr| > 0)) ==>
      IsSorted(diff) && multiset(diff) == SurplusBoth(multiset(base), multiset(curr))
  {
    ReportIsSymmetricDifference(base, curr, eventDiff);
    isSame := true;
    diff := [];
    var bl, cl := |base|, |curr|;
    if bl != cl {
      isSame := false;
    }
    if eventDiff {
      if bl == 0 {
        return isSame, curr;
      }
      if cl == 0 {
        return isSame, base;
      }
    }
    if bl > 0 && cl > 0 {
      isSame, diff := MergeLoop(base, curr, isSame);
    }
  }

  /** The main loop of `compareWithBase` over two non-empty lists, entered with the
      verdict of the length test: it walks both lists in step and reports every
      version the other list lacks. */
  method MergeLoop(base: seq<int>, curr: seq<int>, isSame0: bool) returns (isSame: bool, diff: seq<int>)
    requires |base| > 0 && |curr| > 0
    requires isSame0 <==> |base| == |curr|
    ensures isSame <==> base == curr
    ensures diff == SymDiff(base, curr)
  {
    isSame, diff := isSame0, [];
    var bl, cl := |base|, |curr|;
    AccountedStart(base, curr);
    var i: nat, j: nat := 0, 0;
    while i < bl && j < cl
      invariant i <= bl && j <= cl
      invariant (i == bl) <==> (j == cl)
      invariant Accounted(base, curr, i, j, diff)
      invariant isSame ==> LockStep(base, curr, i, j)
      invariant base == curr ==> isSame && i == j
      decreases bl - i + cl - j
    {
      if base[i] == curr[j] {
        StepBoth(base, curr, i, j, diff);
        if isSame { LockStepAdvance(base, curr, i, j); }
        i, j := i + 1, j + 1;
        i, j, diff, isSame := DrainAfterMatch(base, curr, i, j, diff, isSame);
      } else {
        isSame := false;
        var finished;
        i, j, diff, finished := SkipMismatches(base, curr, i, j, diff);
        if finished {
          return isSame, diff;
        }
      }
    }
    AccountedDone(base, curr, diff);
    if isSame {
      LockStepDone(base, curr, i, j);
    }
  }

  lemma ReportIsSymmetricDifference(base: seq<int>, curr: seq<int>, eventDiff: bool)
    ensures IsSorted(base) && IsSorted(curr) && (eventDiff || (|base| > 0 && |curr| > 0)) ==>
      var diff := DiffReport(base, curr, eventDiff);
      IsSorted(diff) && multiset(diff) == SurplusBoth(multiset(base), multiset(curr))
  {
    if IsSorted(base) && IsSorted(curr) {
      SymDiffSorted(base, curr);
      SymDiffMultiset(base, curr);
    }
  }
}
