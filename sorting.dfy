/** `Array.prototype.sort`, which is stable: descending by a numeric key (the
    comparators `(a, b) => key(b) - key(a)` of the dashboard handlers) and
    ascending by a string key (`sort()` without a comparator). Modelled as
    stable insertion sorts. */
module Sorting {
  import Text

  predicate SortedDesc<T>(s: seq<T>, key: T -> real)
  {
    forall i, j :: 0 <= i < j < |s| ==> key(s[i]) >= key(s[j])
  }

  /** Places `x` after every element whose key is at least its own. */
  function InsertDesc<T>(x: T, s: seq<T>, key: T -> real): (r: seq<T>)
    ensures |r| == |s| + 1
  {
    if |s| == 0 then [x]
    else if key(s[0]) >= key(x) then [s[0]] + InsertDesc(x, s[1..], key)
    else [x] + s
  }

  function SortDesc<T>(s: seq<T>, key: T -> real): (r: seq<T>)
    ensures |r| == |s|
  {
    if |s| == 0 then [] else InsertDesc(s[|s| - 1], SortDesc(s[..|s| - 1], key), key)
  }

  lemma {:induction false} InsertDescMultiset<T>(x: T, s: seq<T>, key: T -> real)
    ensures multiset(InsertDesc(x, s, key)) == multiset(s) + multiset{x}
  {
    if |s| > 0 && key(s[0]) >= key(x) {
      assert s == [s[0]] + s[1..];
      InsertDescMultiset(x, s[1..], key);
    }
  }

  /** Every element of the insertion is `x` or an element of `s`. */
  lemma InsertDescMembers<T>(x: T, s: seq<T>, key: T -> real, j: nat)
    requires j < |InsertDesc(x, s, key)|
    ensures InsertDesc(x, s, key)[j] == x || InsertDesc(x, s, key)[j] in s
  {
    InsertDescMultiset(x, s, key);
    assert InsertDesc(x, s, key)[j] in multiset(s) + multiset{x};
  }

  lemma {:induction false} InsertDescCorrect<T>(x: T, s: seq<T>, key: T -> real)
    requires SortedDesc(s, key)
    ensures multiset(InsertDesc(x, s, key)) == multiset(s) + multiset{x}
    ensures SortedDesc(InsertDesc(x, s, key), key)
  {
    InsertDescMultiset(x, s, key);
    if |s| > 0 && key(s[0]) >= key(x) {
      var rest := s[1..];
      InsertDescCorrect(x, rest, key);
      var r := InsertDesc(x, rest, key);
      forall j | 0 <= j < |r| ensures key(s[0]) >= key(r[j]) {
        InsertDescMembers(x, rest, key, j);
        if r[j] != x {
          var k :| 0 <= k < |rest| && rest[k] == r[j];
          assert s[k + 1] == r[j];
        }
      }
    }
  }

  /** Sorting yields a descending permutation of its input. */
  lemma {:induction false} SortDescCorrect<T>(s: seq<T>, key: T -> real)
    ensures multiset(SortDesc(s, key)) == multiset(s)
    ensures |SortDesc(s, key)| == |s|
    ensures SortedDesc(SortDesc(s, key), key)
  {
    if |s| > 0 {
      var p := s[..|s| - 1];
      SortDescCorrect(p, key);
      InsertDescCorrect(s[|s| - 1], SortDesc(p, key), key);
      assert s == p + [s[|s| - 1]];
    }
    assert |multiset(SortDesc(s, key))| == |multiset(s)|;
  }

  /** The first element of the descending sort has the largest key and the
      last the smallest; both come from the input. */
  lemma SortDescExtremes<T>(s: seq<T>, key: T -> real)
    requires |s| > 0
    ensures var r := SortDesc(s, key);
      |r| == |s| && r[0] in s && r[|r| - 1] in s &&
      forall i :: 0 <= i < |s| ==> key(r[|r| - 1]) <= key(s[i]) <= key(r[0])
  {
    var r := SortDesc(s, key);
    SortDescCorrect(s, key);
    assert r[0] in multiset(s);
    assert r[|r| - 1] in multiset(s);
    forall i | 0 <= i < |s| ensures key(r[|r| - 1]) <= key(s[i]) <= key(r[0]) {
      assert s[i] in multiset(r);
      var k :| 0 <= k < |r| && r[k] == s[i];
      assert k == 0 || key(r[0]) >= key(r[k]);
      assert k == |r| - 1 || key(r[k]) >= key(r[|r| - 1]);
    }
  }

  predicate SortedAscByString<T>(s: seq<T>, key: T -> string)
  {
    forall i, j :: 0 <= i < j < |s| ==> Text.LexLe(key(s[i]), key(s[j]))
  }

  /** Places `x` after every element whose key is not above its own. */
  function InsertAscByString<T>(x: T, s: seq<T>, key: T -> string): seq<T>
  {
    if |s| == 0 then [x]
    else if Text.LexLe(key(s[0]), key(x)) then [s[0]] + InsertAscByString(x, s[1..], key)
    else [x] + s
  }

  function SortAscByString<T>(s: seq<T>, key: T -> string): seq<T>
  {
    if |s| == 0 then []
    else InsertAscByString(s[|s| - 1], SortAscByString(s[..|s| - 1], key), key)
  }

  lemma PrependAscByString<T>(x: T, s: seq<T>, key: T -> string)
    requires SortedAscByString(s, key)
    requires |s| > 0 && Text.LexLe(key(x), key(s[0]))
    ensures SortedAscByString([x] + s, key)
  {
    var r := [x] + s;
    forall i, j | 0 <= i < j < |r| ensures Text.LexLe(key(r[i]), key(r[j])) {
      if i == 0 && j > 1 {
        Text.LexLeTransitive(key(x), key(s[0]), key(s[j - 1]));
      }
    }
  }

  lemma {:induction false} InsertAscByStringMultiset<T>(x: T, s: seq<T>, key: T -> string)
    ensures multiset(InsertAscByString(x, s, key)) == multiset(s) + multiset{x}
  {
    if |s| > 0 && Text.LexLe(key(s[0]), key(x)) {
      assert s == [s[0]] + s[1..];
      InsertAscByStringMultiset(x, s[1..], key);
    }
  }

  lemma InsertAscByStringMembers<T>(x: T, s: seq<T>, key: T -> string, j: nat)
    requires j < |InsertAscByString(x, s, key)|
    ensures InsertAscByString(x, s, key)[j] == x || InsertAscByString(x, s, key)[j] in s
  {
    InsertAscByStringMultiset(x, s, key);
    assert InsertAscByString(x, s, key)[j] in multiset(s) + multiset{x};
  }

  lemma {:induction false} InsertAscByStringCorrect<T>(x: T, s: seq<T>, key: T -> string)
    requires SortedAscByString(s, key)
    ensures multiset(InsertAscByString(x, s, key)) == multiset(s) + multiset{x}
    ensures SortedAscByString(InsertAscByString(x, s, key), key)
  {
    InsertAscByStringMultiset(x, s, key);
    if |s| == 0 {
    } else if Text.LexLe(key(s[0]), key(x)) {
      var rest := s[1..];
      InsertAscByStringCorrect(x, rest, key);
      var r := InsertAscByString(x, rest, key);
      forall j | 0 <= j < |r| ensures Text.LexLe(key(s[0]), key(r[j])) {
        InsertAscByStringMembers(x, rest, key, j);
        if r[j] != x {
          var k :| 0 <= k < |rest| && rest[k] == r[j];
          assert s[k + 1] == r[j];
        }
      }
      assert InsertAscByString(x, s, key) == [s[0]] + r;
    } else {
      Text.LexLeTotal(key(s[0]), key(x));
      PrependAscByString(x, s, key);
    }
  }

  /** Sorting yields an ascending permutation of its input. */
  lemma {:induction false} SortAscByStringCorrect<T>(s: seq<T>, key: T -> string)
    ensures multiset(SortAscByString(s, key)) == multiset(s)
    ensures |SortAscByString(s, key)| == |s|
    ensures SortedAscByString(SortAscByString(s, key), key)
  {
    if |s| > 0 {
      var p := s[..|s| - 1];
      SortAscByStringCorrect(p, key);
      InsertAscByStringCorrect(s[|s| - 1], SortAscByString(p, key), key);
      assert s == p + [s[|s| - 1]];
    }
    assert |multiset(SortAscByString(s, key))| == |multiset(s)|;
  }
}
