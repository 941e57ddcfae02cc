/** The string operations the source relies on: `Number.prototype.toString`
    for integers, `join`, `includes`, `replace` with a string pattern,
    `toLowerCase`/`toUpperCase` on ASCII letters and the code-unit ordering
    that `Array.prototype.sort` uses when no comparator is given. */
module Text {
  import opened Wrappers

  predicate IsDigit(c: char)
  {
    '0' <= c <= '9'
  }

  predicate AllDigits(s: string)
  {
    forall i :: 0 <= i < |s| ==> IsDigit(s[i])
  }

  function DigitChar(d: nat): (c: char)
    requires d < 10
    ensures IsDigit(c)
  {
    (('0' as int) + d) as char
  }

  function DigitValue(c: char): nat
    requires IsDigit(c)
  {
    (c as int) - ('0' as int)
  }

  /** Decimal digits of a natural number, most significant first, without
      leading zeros. */
  function NatToString(n: nat): (s: string)
    ensures |s| >= 1 && AllDigits(s)
    ensures n >= 10 ==> s[0] != '0'
    decreases n
  {
    if n < 10 then [DigitChar(n)] else NatToString(n / 10) + [DigitChar(n % 10)]
  }

  /** `String(n)` for an integer `n` (JavaScript prints integers below 10^21
      in plain decimal). */
  function IntToString(n: int): string
  {
    if n < 0 then "-" + NatToString(-n) else NatToString(n)
  }

  /** Reads back a string of decimal digits. */
  function ParseNat(s: string): nat
    requires AllDigits(s)
  {
    if |s| == 0 then 0 else ParseNat(s[..|s| - 1]) * 10 + DigitValue(s[|s| - 1])
  }

  function ParseInt(s: string): (n: int)
    requires |s| > 0
    requires s[0] == '-' ==> AllDigits(s[1..])
    requires s[0] != '-' ==> AllDigits(s)
  {
    if s[0] == '-' then 0 - ParseNat(s[1..]) else ParseNat(s)
  }

  /** Printing a natural number and reading it back gives the number. */
  lemma {:induction false} NatToStringRoundTrip(n: nat)
    ensures ParseNat(NatToString(n)) == n
    decreases n
  {
    if n >= 10 {
      NatToStringRoundTrip(n / 10);
      var s := NatToString(n);
      assert s[..|s| - 1] == NatToString(n / 10);
    }
  }

  /** Printing an integer and reading it back gives the integer. */
  lemma IntToStringRoundTrip(n: int)
    ensures var s := IntToString(n);
      |s| > 0 && (s[0] == '-' ==> AllDigits(s[1..])) && (s[0] != '-' ==> AllDigits(s)) &&
      ParseInt(s) == n
  {
    if n < 0 {
      NatToStringRoundTrip(-n);
      assert IntToString(n)[1..] == NatToString(-n);
    } else {
      NatToStringRoundTrip(n);
    }
  }

  /** Distinct integers print differently. */
  lemma IntToStringInjective(a: int, b: int)
    requires IntToString(a) == IntToString(b)
    ensures a == b
  {
    IntToStringRoundTrip(a);
    IntToStringRoundTrip(b);
  }

  /** `items.join(sep)`. */
  function Join(items: seq<string>, sep: string): string
  {
    if |items| == 0 then ""
    else if |items| == 1 then items[0]
    else Join(items[..|items| - 1], sep) + sep + items[|items| - 1]
  }

  /** Whether `pat` occurs in `s` at position `i`. */
  predicate OccursAt(s: string, pat: string, i: nat)
  {
    i + |pat| <= |s| && s[i..i + |pat|] == pat
  }

  /** `s.indexOf(pat, from)`: the first position at or after `from` where `pat`
      occurs. */
  function IndexOfFrom(s: string, pat: string, from: nat): (r: Option<nat>)
    ensures r.Some? ==> from <= r.value && OccursAt(s, pat, r.value)
    ensures r.Some? ==> forall j :: from <= j < r.value ==> !OccursAt(s, pat, j)
    ensures r.None? ==> forall j :: from <= j ==> !OccursAt(s, pat, j)
    decreases |s| - from
  {
    if from + |pat| > |s| then None
    else if s[from..from + |pat|] == pat then Some(from)
    else IndexOfFrom(s, pat, from + 1)
  }

  /** `s.indexOf(pat)`. */
  function IndexOf(s: string, pat: string): Option<nat>
  {
    IndexOfFrom(s, pat, 0)
  }

  /** `s.includes(pat)`. */
  predicate Contains(s: string, pat: string)
  {
    IndexOf(s, pat).Some?
  }

  /** `includes` holds exactly when the pattern occurs somewhere. */
  lemma ContainsIff(s: string, pat: string)
    ensures Contains(s, pat) <==> exists i: nat :: OccursAt(s, pat, i)
  {
    if Contains(s, pat) {
      assert OccursAt(s, pat, IndexOf(s, pat).value);
    }
  }

  /** An occurrence at a known position is enough for `includes`. */
  lemma ContainsAt(s: string, pat: string, i: nat)
    requires OccursAt(s, pat, i)
    ensures Contains(s, pat)
  {
    ContainsIff(s, pat);
  }

  /** `s.replace(pat, rep)` with a string pattern: only the first occurrence
      is replaced. */
  function ReplaceFirst(s: string, pat: string, rep: string): (r: string)
    ensures IndexOf(s, pat).None? ==> r == s
    ensures IndexOf(s, pat).Some? ==>
      var i := IndexOf(s, pat).value;
      r == s[..i] + rep + s[i + |pat|..]
  {
    match IndexOf(s, pat)
    case None => s
    case Some(i) => s[..i] + rep + s[i + |pat|..]
  }

  function LowerChar(c: char): char
  {
    if 'A' <= c <= 'Z' then ((c as int) + 32) as char else c
  }

  function UpperChar(c: char): char
  {
    if 'a' <= c <= 'z' then ((c as int) - 32) as char else c
  }

  /** `s.toLowerCase()` on ASCII letters. */
  function Lower(s: string): (r: string)
    ensures |r| == |s|
    ensures forall i :: 0 <= i < |s| ==> r[i] == LowerChar(s[i])
  {
    if |s| == 0 then "" else [LowerChar(s[0])] + Lower(s[1..])
  }

  /** `s.toUpperCase()` on ASCII letters. */
  function Upper(s: string): (r: string)
    ensures |r| == |s|
    ensures forall i :: 0 <= i < |s| ==> r[i] == UpperChar(s[i])
  {
    if |s| == 0 then "" else [UpperChar(s[0])] + Upper(s[1..])
  }

  /** The ordering JavaScript uses to compare two strings: code unit by code
      unit, a proper prefix first. */
  predicate LexLe(a: string, b: string)
  {
    |a| == 0 || (|b| > 0 && (a[0] < b[0] || (a[0] == b[0] && LexLe(a[1..], b[1..]))))
  }

  lemma {:induction false} LexLeTotal(a: string, b: string)
    ensures LexLe(a, b) || LexLe(b, a)
  {
    if |a| > 0 && |b| > 0 && a[0] == b[0] {
      LexLeTotal(a[1..], b[1..]);
    }
  }

  lemma {:induction false} LexLeTransitive(a: string, b: string, c: string)
    requires LexLe(a, b) && LexLe(b, c)
    ensures LexLe(a, c)
  {
    if |a| > 0 && a[0] == b[0] && b[0] == c[0] {
      LexLeTransitive(a[1..], b[1..], c[1..]);
    }
  }

  lemma {:induction false} LexLeAntisymmetric(a: string, b: string)
    requires LexLe(a, b) && LexLe(b, a)
    ensures a == b
  {
    if |a| > 0 {
      LexLeAntisymmetric(a[1..], b[1..]);
      assert a == [a[0]] + a[1..] && b == [b[0]] + b[1..];
    }
  }
}
