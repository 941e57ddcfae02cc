/** Duplicate removal and the multiset facts about it. */
module Seqs {
  /** `r` lists elements of `s` newest (highest index) first: of any two
      entries of `r`, the earlier one occurs later in `s`. */
  ghost predicate NewestFirst<T>(r: seq<T>, s: seq<T>)
  {
    forall i, j :: 0 <= i < j < |r| ==> OccursAfter(s, r[i], r[j])
  }

  /** `x` occurs in `s` at a later index than `y`. */
  ghost predicate OccursAfter<T>(s: seq<T>, x: T, y: T)
  {
    exists a, b :: 0 <= b < a < |s| && s[a] == x && s[b] == y
  }

  /** Putting the newest element of `s` (or nothing) before a newest-first
      listing of the older elements keeps it newest first. */
  lemma PrependNewest<T>(s: seq<T>, rest: seq<T>, head: seq<T>)
    requires |s| > 0 && (head == [] || head == [s[|s| - 1]])
    requires NewestFirst(rest, s[..|s| - 1])
    requires forall x :: x in rest ==> x in s[..|s| - 1]
    ensures NewestFirst(head + rest, s)
  {
    var n := |s| - 1;
    var r := head + rest;
    forall i, j | 0 <= i < j < |r| ensures OccursAfter(s, r[i], r[j]) {
      var k := |head|;
      if k == 1 && i == 0 {
        assert r[j] == rest[j - 1] && rest[j - 1] in rest;
        var b :| 0 <= b < n && s[..n][b] == rest[j - 1];
        assert s[n] == r[i] && s[b] == r[j];
      } else {
        assert r[i] == rest[i - k] && r[j] == rest[j - k];
        var a, b :| 0 <= b < a < n && s[..n][a] == rest[i - k] && s[..n][b] == rest[j - k];
        assert s[a] == r[i] && s[b] == r[j];
      }
    }
  }

  /** Distinct values in first-seen order, as `Array.from(new Set(...))`. */
  function Distinct<T(==,!new)>(s: seq<T>): (r: seq<T>)
    ensures forall i, j :: 0 <= i < j < |r| ==> r[i] != r[j]
    ensures forall x :: x in r <==> x in s
  {
    if |s| == 0 then []
    else
      var d := Distinct(s[..|s| - 1]);
      assert forall x :: x in s <==> x in s[..|s| - 1] || x == s[|s| - 1];
      if s[|s| - 1] in d then d else d + [s[|s| - 1]]
  }

  /** An appended value is kept exactly when it is new. */
  lemma DistinctAppend<T(!new)>(s: seq<T>, x: T)
    ensures Distinct(s + [x]) == if x in Distinct(s) then Distinct(s) else Distinct(s) + [x]
  {
    assert (s + [x])[..|s|] == s;
  }

  /** Two equal positions make a value occur twice. */
  lemma CountTwice<T>(s: seq<T>, i: nat, j: nat)
    requires i < j < |s| && s[i] == s[j]
    ensures multiset(s)[s[i]] >= 2
  {
    var x := s[i];
    assert s == s[..i] + [x] + s[i + 1..j] + [x] + s[j + 1..];
    assert multiset(s) == multiset(s[..i]) + multiset{x} + multiset(s[i + 1..j]) + multiset{x} + multiset(s[j + 1..]);
  }

  /** A value occurs at most once in a duplicate-free sequence. */
  lemma {:induction false} DistinctOnce<T>(s: seq<T>, x: T)
    requires forall i, j :: 0 <= i < j < |s| ==> s[i] != s[j]
    ensures multiset(s)[x] <= 1
  {
    if |s| > 0 {
      var p := s[..|s| - 1];
      DistinctOnce(p, x);
      assert s == p + [s[|s| - 1]];
      if s[|s| - 1] == x {
        assert x !in p;
      }
    }
  }

  /** A permutation of a duplicate-free sequence is duplicate-free. */
  lemma PermutationKeepsDistinct<T>(a: seq<T>, b: seq<T>)
    requires multiset(a) == multiset(b)
    requires forall i, j :: 0 <= i < j < |b| ==> b[i] != b[j]
    ensures forall i, j :: 0 <= i < j < |a| ==> a[i] != a[j]
  {
    forall i, j | 0 <= i < j < |a| ensures a[i] != a[j] {
      if a[i] == a[j] {
        CountTwice(a, i, j);
        DistinctOnce(b, a[i]);
        assert false;
      }
    }
  }
}
