/**
 * The pieces of Go's `strings` and `sort` packages that the checkers rely on,
 * written over `string` (a sequence of Unicode code points; see README for
 * how this relates to Go's byte strings).
 */
module Text {

  /** The fields of `s` around every occurrence of `sep`: `strings.Split(s, ",")`.
      There is always at least one field, even for the empty line. */
  function Split(s: string, sep: char): (fields: seq<string>)
    ensures |fields| >= 1
  {
    if |s| == 0 then [""]
    else
      var rest := Split(s[1..], sep);
      if s[0] == sep then [""] + rest
      else [[s[0]] + rest[0]] + rest[1..]
  }

  /** No field holds the separator, and gluing the fields back gives the line. */
  lemma {:induction false} JoinSplit(s: string, sep: char)
    ensures forall k :: 0 <= k < |Split(s, sep)| ==> sep !in Split(s, sep)[k]
    ensures Join(Split(s, sep), sep) == s
  {
    if |s| > 0 {
      var rest := Split(s[1..], sep);
      JoinSplit(s[1..], sep);
      assert s == [s[0]] + s[1..];
      if s[0] == sep {
        assert ([""] + rest)[1..] == rest;
      } else {
        var fields := [[s[0]] + rest[0]] + rest[1..];
        assert fields[1..] == rest[1..];
        assert |rest| > 1 ==> Join(rest, sep) == rest[0] + [sep] + Join(rest[1..], sep);
      }
    }
  }

  /** The inverse of Split: the fields glued together with `sep` between them. */
  function Join(fields: seq<string>, sep: char): string
    requires |fields| >= 1
  {
    if |fields| == 1 then fields[0] else fields[0] + [sep] + Join(fields[1..], sep)
  }

  /** A prefix free of separators stays glued to the first field of what follows. */
  lemma {:induction false} SplitPrefix(x: string, t: string, sep: char)
    requires sep !in x
    ensures Split(x + t, sep) == [x + Split(t, sep)[0]] + Split(t, sep)[1..]
  {
    if |x| == 0 {
      assert x + t == t;
      assert x + Split(t, sep)[0] == Split(t, sep)[0];
      assert Split(t, sep) == [Split(t, sep)[0]] + Split(t, sep)[1..];
    } else {
      assert (x + t)[1..] == x[1..] + t;
      SplitPrefix(x[1..], t, sep);
      assert [x[0]] + (x[1..] + Split(t, sep)[0]) == x + Split(t, sep)[0];
    }
  }

  /** Splitting what Join glued back gives the fields again, provided no field holds the separator. */
  lemma {:induction false} SplitJoin(fields: seq<string>, sep: char)
    requires |fields| >= 1
    requires forall k :: 0 <= k < |fields| ==> sep !in fields[k]
    ensures Split(Join(fields, sep), sep) == fields
  {
    if |fields| == 1 {
      SplitPrefix(fields[0], "", sep);
      assert fields[0] + "" == fields[0];
    } else {
      var tail := Join(fields[1..], sep);
      SplitJoin(fields[1..], sep);
      assert fields[0] + [sep] + tail == fields[0] + ([sep] + tail);
      SplitPrefix(fields[0], [sep] + tail, sep);
      assert ([sep] + tail)[1..] == tail;
      assert Split([sep] + tail, sep) == [""] + fields[1..];
      assert fields[0] + "" == fields[0];
    }
  }

  /** `strings.HasPrefix`. */
  predicate HasPrefix(s: string, prefix: string) {
    |prefix| <= |s| && s[..|prefix|] == prefix
  }

  /** `strings.Contains`: `sub` occurs somewhere in `s`. */
  predicate Contains(s: string, sub: string) {
    exists i :: 0 <= i <= |s| && HasPrefix(s[i..], sub)
  }

  /** `unicode.ToUpper` as far as a comparison with upper-case ASCII words can see it:
      ASCII letters, and the two non-ASCII letters whose upper case is ASCII
      (dotless i and long s). Every other character keeps a non-ASCII image or is
      already upper case, so leaving it unchanged does not alter such a comparison. */
  function UpperChar(c: char): char {
    if 'a' <= c <= 'z' then (c as int - 32) as char
    else if c == 'ı' then 'I'
    else if c == 'ſ' then 'S'
    else c
  }

  /** `strings.ToUpper`, character by character. */
  function ToUpper(s: string): (u: string)
    ensures |u| == |s|
    ensures forall i :: 0 <= i < |s| ==> u[i] == UpperChar(s[i])
  {
    if |s| == 0 then [] else [UpperChar(s[0])] + ToUpper(s[1..])
  }

  /** A word of upper-case ASCII letters is its own upper case. */
  lemma ToUpperOfUpper(s: string)
    requires forall i :: 0 <= i < |s| ==> 'A' <= s[i] <= 'Z'
    ensures ToUpper(s) == s
  {
  }

  /** Go's `<` on strings: lexicographic order, a proper prefix first. */
  predicate Less(a: string, b: string) {
    if |a| == 0 then |b| > 0
    else if |b| == 0 then false
    else if a[0] != b[0] then a[0] < b[0]
    else Less(a[1..], b[1..])
  }

  lemma {:induction false} LessIrreflexive(a: string)
    ensures !Less(a, a)
  {
    if |a| > 0 {
      LessIrreflexive(a[1..]);
    }
  }

  lemma {:induction false} LessTransitive(a: string, b: string, c: string)
    requires Less(a, b) && Less(b, c)
    ensures Less(a, c)
  {
    if |a| > 0 && |b| > 0 && |c| > 0 && a[0] == b[0] == c[0] {
      LessTransitive(a[1..], b[1..], c[1..]);
    }
  }

  lemma {:induction false} LessTotal(a: string, b: string)
    requires a != b
    ensures Less(a, b) || Less(b, a)
  {
    if |a| > 0 && |b| > 0 && a[0] == b[0] {
      assert a == [a[0]] + a[1..] && b == [b[0]] + b[1..];
      LessTotal(a[1..], b[1..]);
    }
  }

  lemma LessAsymmetric(a: string, b: string)
    requires Less(a, b)
    ensures !Less(b, a)
  {
    if Less(b, a) {
      LessTransitive(a, b, a);
      LessIrreflexive(a);
    }
  }

  /** Ascending under Less, no two elements equal: what the guarded lists keep. */
  ghost predicate StrictlyAscendingStrings(s: seq<string>) {
    forall i, j :: 0 <= i < j < |s| ==> Less(s[i], s[j])
  }

  /** `sort.SearchStrings(a, x)`: Go's binary search for the first index whose
      element is not below `x`, over the half-open window [lo, hi). */
  function SearchWindow(a: seq<string>, x: string, lo: nat, hi: nat): (r: nat)
    requires lo <= hi <= |a|
    ensures lo <= r <= hi
    decreases hi - lo
  {
    if lo < hi then
      var h := (lo + hi) / 2;
      if Less(a[h], x) then SearchWindow(a, x, h + 1, hi) else SearchWindow(a, x, lo, h)
    else lo
  }

  function SearchStrings(a: seq<string>, x: string): (r: nat)
    ensures r <= |a|
  {
    SearchWindow(a, x, 0, |a|)
  }

  /** On an ascending window whose outside is already classified, the search
      lands exactly on the boundary between the elements below `x` and the rest. */
  lemma {:induction false} SearchWindowBoundary(a: seq<string>, x: string, lo: nat, hi: nat)
    requires lo <= hi <= |a|
    requires StrictlyAscendingStrings(a)
    requires forall k :: 0 <= k < lo ==> Less(a[k], x)
    requires forall k :: hi <= k < |a| ==> !Less(a[k], x)
    ensures var r := SearchWindow(a, x, lo, hi);
      (forall k :: 0 <= k < r ==> Less(a[k], x)) && (forall k :: r <= k < |a| ==> !Less(a[k], x))
    decreases hi - lo
  {
    if lo < hi {
      var h := (lo + hi) / 2;
      if Less(a[h], x) {
        forall k | 0 <= k < h + 1 ensures Less(a[k], x) {
          if k < h { LessTransitive(a[k], a[h], x); }
        }
        assert SearchWindow(a, x, lo, hi) == SearchWindow(a, x, h + 1, hi);
        SearchWindowBoundary(a, x, h + 1, hi);
      } else {
        forall k | h <= k < |a| ensures !Less(a[k], x) {
          if h < k && Less(a[k], x) {
            LessTransitive(a[h], a[k], x);
          }
        }
        assert SearchWindow(a, x, lo, hi) == SearchWindow(a, x, lo, h);
        SearchWindowBoundary(a, x, lo, h);
      }
    }
  }

  /** On a strictly ascending list, SearchStrings returns the length exactly when
      every element is below `x`. */
  lemma SearchStringsAtEnd(a: seq<string>, x: string)
    requires StrictlyAscendingStrings(a)
    ensures SearchStrings(a, x) == |a| <==> forall k :: 0 <= k < |a| ==> Less(a[k], x)
  {
    SearchWindowBoundary(a, x, 0, |a|);
    var r := SearchStrings(a, x);
    if r < |a| {
      assert !Less(a[r], x);
    }
  }

  /** Ascending under Less, equal elements allowed: what `sort.Strings` produces. */
  ghost predicate SortedStrings(s: seq<string>) {
    forall i, j :: 0 <= i < j < |s| ==> !Less(s[j], s[i])
  }

  /** A head no element of the sorted tail is below keeps the list sorted. */
  lemma ConsSorted(h: string, rest: seq<string>)
    requires SortedStrings(rest)
    requires forall j :: 0 <= j < |rest| ==> !Less(rest[j], h)
    ensures SortedStrings([h] + rest)
  {
  }

  /** `x` placed into a list before the first element not below it. */
  function InsertString(x: string, s: seq<string>): seq<string> {
    if |s| == 0 || !Less(s[0], x) then [x] + s
    else [s[0]] + InsertString(x, s[1..])
  }

  /** Inserting into a sorted list keeps it sorted and adds exactly `x`. */
  lemma {:induction false} InsertStringSorted(x: string, s: seq<string>)
    requires SortedStrings(s)
    ensures SortedStrings(InsertString(x, s))
    ensures multiset(InsertString(x, s)) == multiset(s) + multiset{x}
    ensures |InsertString(x, s)| == |s| + 1
    ensures InsertString(x, s)[0] == if |s| == 0 || !Less(s[0], x) then x else s[0]
  {
    if |s| == 0 {
    } else if !Less(s[0], x) {
      forall j | 0 <= j < |s| ensures !Less(s[j], x) {
        if j > 0 && Less(s[j], x) {
          LessTotal(s[0], s[j]);
          LessTransitive(s[0], s[j], x);
        }
      }
      ConsSorted(x, s);
    } else {
      var rest := InsertString(x, s[1..]);
      InsertStringSorted(x, s[1..]);
      assert s == [s[0]] + s[1..];
      LessAsymmetric(s[0], x);
      forall j | 0 <= j < |rest| ensures !Less(rest[j], s[0]) {
        assert rest[j] in multiset(rest);
        if rest[j] != x {
          assert rest[j] in multiset(s[1..]);
        }
      }
      ConsSorted(s[0], rest);
    }
  }

  /** `sort.Strings`: insertion of every element, last first, into an empty list. */
  function SortStrings(s: seq<string>): seq<string> {
    if |s| == 0 then [] else InsertString(s[0], SortStrings(s[1..]))
  }

  /** SortStrings gives an ascending permutation of its input. */
  lemma {:induction false} SortStringsSorted(s: seq<string>)
    ensures SortedStrings(SortStrings(s))
    ensures multiset(SortStrings(s)) == multiset(s)
  {
    if |s| > 0 {
      SortStringsSorted(s[1..]);
      InsertStringSorted(s[0], SortStrings(s[1..]));
      assert s == [s[0]] + s[1..];
    }
  }

  /** A sorted list is determined by its multiset of elements. */
  lemma {:induction false} SortedUnique(a: seq<string>, b: seq<string>)
    requires SortedStrings(a) && SortedStrings(b)
    requires multiset(a) == multiset(b)
    ensures a == b
  {
    if |a| > 0 {
      assert a[0] in multiset(b);
      assert b[0] in multiset(a);
      if a[0] != b[0] {
        var i :| 0 <= i < |b| && b[i] == a[0];
        var j :| 0 <= j < |a| && a[j] == b[0];
        LessTotal(a[0], b[0]);
        assert false;
      }
      assert a == [a[0]] + a[1..] && b == [b[0]] + b[1..];
      assert multiset(a) == multiset{a[0]} + multiset(a[1..]);
      assert multiset(b) == multiset{b[0]} + multiset(b[1..]);
      forall y ensures multiset(a[1..])[y] == multiset(b[1..])[y] {
        assert multiset(a)[y] == multiset(b)[y];
      }
      assert multiset(a[1..]) == multiset(b[1..]);
      SortedUnique(a[1..], b[1..]);
    }
  }

  /** Two lists sort to the same list exactly when they hold the same elements
      with the same multiplicities. */
  lemma SortedEqualIffSameMultiset(a: seq<string>, b: seq<string>)
    ensures SortStrings(a) == SortStrings(b) <==> multiset(a) == multiset(b)
  {
    SortStringsSorted(a);
    SortStringsSorted(b);
    if multiset(a) == multiset(b) {
      SortedUnique(SortStrings(a), SortStrings(b));
    }
  }

  /** Sorting leaves a strictly ascending list as it is. */
  lemma SortAscending(s: seq<string>)
    requires StrictlyAscendingStrings(s)
    ensures SortStrings(s) == s
  {
    forall i, j | 0 <= i < j < |s| ensures !Less(s[j], s[i]) {
      LessAsymmetric(s[i], s[j]);
    }
    SortStringsSorted(s);
    SortedUnique(SortStrings(s), s);
  }
}
