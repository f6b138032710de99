/**
 * The order Python's `list.sort()` puts strings in: lexicographic by code
 * point, a proper prefix before any longer string. The sort itself is a
 * library call in the source; here it is specified by an insertion sort over
 * the list value.
 */
module StrOrder {

  /** `a < b` on Python strings. */
  predicate Less(a: string, b: string)
    decreases |a|
  {
    if a == [] then b != []
    else if b == [] then false
    else if a[0] != b[0] then a[0] < b[0]
    else Less(a[1..], b[1..])
  }

  predicate LessEq(a: string, b: string) {
    a == b || Less(a, b)
  }

  lemma {:induction false} LessIrreflexive(a: string)
    ensures !Less(a, a)
    decreases |a|
  {
    if a != [] { LessIrreflexive(a[1..]); }
  }

  lemma {:induction false} LessTransitive(a: string, b: string, c: string)
    requires Less(a, b) && Less(b, c)
    ensures Less(a, c)
    decreases |a|
  {
    if a != [] && a[0] == b[0] && b[0] == c[0] {
      LessTransitive(a[1..], b[1..], c[1..]);
    }
  }

  /** Any two different strings are ordered one way, and never both ways. */
  lemma {:induction false} LessTrichotomy(a: string, b: string)
    ensures a == b || Less(a, b) || Less(b, a)
    ensures !(Less(a, b) && Less(b, a))
    decreases |a|
  {
    if a != [] && b != [] && a[0] == b[0] {
      LessTrichotomy(a[1..], b[1..]);
      if a[1..] == b[1..] {
        assert a == [a[0]] + a[1..] && b == [b[0]] + b[1..];
      }
    }
  }

  lemma LessEqTransitive(a: string, b: string, c: string)
    requires LessEq(a, b) && LessEq(b, c)
    ensures LessEq(a, c)
  {
    if a != b && b != c { LessTransitive(a, b, c); }
  }

  /** Ascending, as `sort()` leaves a list. */
  predicate Sorted(s: seq<string>) {
    forall i, j :: 0 <= i < j < |s| ==> LessEq(s[i], s[j])
  }

  /** Strictly ascending: sorted and free of repeats. */
  predicate StrictlyAscending(s: seq<string>) {
    forall i, j :: 0 <= i < j < |s| ==> Less(s[i], s[j])
  }

  predicate NoDuplicates<T(==)>(s: seq<T>) {
    forall i, j :: 0 <= i < j < |s| ==> s[i] != s[j]
  }

  /** Insert `x` before the first element it does not exceed. */
  function Insert(x: string, s: seq<string>): (r: seq<string>)
    ensures multiset(r) == multiset(s) + multiset{x}
  {
    if s == [] then [x]
    else if LessEq(x, s[0]) then [x] + s
    else
      assert s == [s[0]] + s[1..];
      [s[0]] + Insert(x, s[1..])
  }

  lemma {:induction false} InsertSorted(x: string, s: seq<string>)
    requires Sorted(s)
    ensures Sorted(Insert(x, s))
  {
    if s != [] && !LessEq(x, s[0]) {
      InsertSorted(x, s[1..]);
      LessTrichotomy(x, s[0]);
      InsertLowerBound(x, s[1..], s[0]);
      ConsSorted(s[0], Insert(x, s[1..]));
    } else if s != [] {
      forall j | 0 <= j < |s| ensures LessEq(x, s[j]) {
        if j > 0 { LessEqTransitive(x, s[0], s[j]); }
      }
      ConsSorted(x, s);
    }
  }

  /** A bound below `x` and below every element of `s` stays below every
      element after the insertion. */
  lemma {:induction false} InsertLowerBound(x: string, s: seq<string>, b: string)
    requires LessEq(b, x)
    requires forall j :: 0 <= j < |s| ==> LessEq(b, s[j])
    ensures forall j :: 0 <= j < |Insert(x, s)| ==> LessEq(b, Insert(x, s)[j])
  {
    if s != [] && !LessEq(x, s[0]) {
      InsertLowerBound(x, s[1..], b);
    }
  }

  lemma ConsSorted(a: string, t: seq<string>)
    requires Sorted(t)
    requires forall j :: 0 <= j < |t| ==> LessEq(a, t[j])
    ensures Sorted([a] + t)
  {
    var r := [a] + t;
    forall i, j | 0 <= i < j < |r| ensures LessEq(r[i], r[j]) {
      assert r[j] == t[j - 1];
      if i > 0 { assert r[i] == t[i - 1]; }
    }
  }

  /** What `list.sort()` leaves in the list. */
  function Sort(s: seq<string>): (r: seq<string>)
    ensures multiset(r) == multiset(s)
  {
    if s == [] then []
    else
      assert s == [s[0]] + s[1..];
      Insert(s[0], Sort(s[1..]))
  }

  /** `sort()` yields an ascending list. */
  lemma {:induction false} SortSorted(s: seq<string>)
    ensures Sorted(Sort(s))
  {
    if s != [] {
      SortSorted(s[1..]);
      InsertSorted(s[0], Sort(s[1..]));
    }
  }

  /** A permutation of a repeat-free list is repeat-free. */
  lemma PermutationNoDuplicates(s: seq<string>, r: seq<string>)
    requires multiset(r) == multiset(s) && NoDuplicates(s)
    ensures NoDuplicates(r)
  {
    forall x | x in multiset(s) ensures multiset(s)[x] == 1 {
      var k :| 0 <= k < |s| && s[k] == x;
      OnlyOnce(s, k);
    }
    forall i, j | 0 <= i < j < |r| ensures r[i] != r[j] {
      var x := r[i];
      assert x in multiset(r);
      assert multiset(r)[x] == 1;
      assert r == r[..j] + [r[j]] + r[j + 1..];
      assert r[..j][i] == x;
      assert multiset(r[..j])[x] >= 1;
      assert multiset(r)[r[j]] == multiset(r[..j])[r[j]] + 1 + multiset(r[j + 1..])[r[j]];
    }
  }

  lemma {:induction false} OnlyOnce(s: seq<string>, k: nat)
    requires NoDuplicates(s) && k < |s|
    ensures multiset(s)[s[k]] == 1
  {
    if k == 0 {
      assert s == [s[0]] + s[1..];
      assert s[0] !in s[1..];
    } else {
      assert s == [s[0]] + s[1..];
      assert s[1..][k - 1] == s[k];
      OnlyOnce(s[1..], k - 1);
    }
  }

  /** Sorting a repeat-free list gives a strictly ascending one. */
  lemma SortStrict(s: seq<string>)
    requires NoDuplicates(s)
    ensures StrictlyAscending(Sort(s))
  {
    var r := Sort(s);
    SortSorted(s);
    PermutationNoDuplicates(s, r);
  }
}
