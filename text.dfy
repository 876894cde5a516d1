/** The Python `str` operations the pipeline relies on: digit tests, `int()`
    and `str()` on decimal numerals, `lower()`, `find`/`rfind`, prefix and
    suffix tests, slicing and `<`.  Digits and case are ASCII only. */
module Text {

  predicate IsDigit(c: char) { '0' <= c <= '9' }

  /** `s.isdigit()`: non-empty and made of digits only. */
  predicate IsDigits(s: string) {
    |s| > 0 && forall i :: 0 <= i < |s| ==> IsDigit(s[i])
  }

  predicate NoDigits(s: string) {
    forall i :: 0 <= i < |s| ==> !IsDigit(s[i])
  }

  function DigitValue(c: char): nat
    requires IsDigit(c)
  {
    c as int - '0' as int
  }

  function DigitChar(d: nat): (c: char)
    requires d < 10
    ensures IsDigit(c) && DigitValue(c) == d
  {
    ('0' as int + d) as char
  }

  /** `int(s)` for a numeral made of digits (leading zeros allowed). */
  function DigitsValue(s: string): nat
    requires forall i :: 0 <= i < |s| ==> IsDigit(s[i])
  {
    if s == [] then 0 else 10 * DigitsValue(s[..|s| - 1]) + DigitValue(s[|s| - 1])
  }

  /** `str(n)` for a natural number: its decimal numeral, without leading zeros. */
  function Decimal(n: nat): (r: string)
    ensures IsDigits(r)
    ensures |r| > 1 ==> r[0] != '0'
  {
    if n < 10 then [DigitChar(n)] else Decimal(n / 10) + [DigitChar(n % 10)]
  }

  /** `int(str(n)) == n`. */
  lemma {:induction false} DecimalValue(n: nat)
    ensures DigitsValue(Decimal(n)) == n
  {
    if n >= 10 {
      DecimalValue(n / 10);
      var d := Decimal(n);
      assert d[..|d| - 1] == Decimal(n / 10);
    }
  }

  lemma DecimalInjective(m: nat, n: nat)
    ensures Decimal(m) == Decimal(n) <==> m == n
  {
    DecimalValue(m);
    DecimalValue(n);
  }

  function LowerChar(c: char): char {
    if 'A' <= c <= 'Z' then (c as int + 32) as char else c
  }

  /** `s.lower()` on ASCII letters; every other character is kept. */
  function Lower(s: string): (r: string)
    ensures |r| == |s|
    ensures forall i :: 0 <= i < |s| ==> r[i] == LowerChar(s[i])
  {
    seq(|s|, i requires 0 <= i < |s| => LowerChar(s[i]))
  }

  /** `s.find(c)`: the index of the first `c`, or -1. */
  function Find(s: string, c: char): (r: int)
    ensures -1 <= r < |s|
    ensures r == -1 <==> c !in s
    ensures r >= 0 ==> s[r] == c && c !in s[..r]
  {
    if s == [] then -1
    else if s[0] == c then 0
    else
      var k := Find(s[1..], c);
      assert s == [s[0]] + s[1..];
      if k == -1 then -1
      else
        assert s[..k + 1] == [s[0]] + s[1..][..k];
        k + 1
  }

  /** `s.rfind(c)`: the index of the last `c`, or -1. */
  function RFind(s: string, c: char): (r: int)
    ensures -1 <= r < |s|
    ensures r == -1 <==> c !in s
    ensures r >= 0 ==> s[r] == c && c !in s[r + 1..]
  {
    if s == [] then -1
    else if s[|s| - 1] == c then |s| - 1
    else
      assert s == s[..|s| - 1] + [s[|s| - 1]];
      var k := RFind(s[..|s| - 1], c);
      assert k >= 0 ==> s[k + 1..] == s[..|s| - 1][k + 1..] + [s[|s| - 1]];
      k
  }

  /** The first occurrence of `c` does not move when text free of `c` is
      put in front, or when anything is put behind it. */
  lemma FindInContext(p: string, m: string, q: string, c: char)
    requires c !in p && c in m
    ensures Find(p + m + q, c) == |p| + Find(m, c)
  {
    var s := p + m + q;
    var k := Find(m, c);
    assert s[|p| + k] == c;
  }

  /** The index `t` is the first occurrence of `c` in `s`. */
  lemma FindIs(s: string, c: char, t: nat)
    requires t < |s| && s[t] == c
    requires forall j :: 0 <= j < t ==> s[j] != c
    ensures Find(s, c) == t
  {
  }

  /** The index `t` is the last occurrence of `c` in `s`. */
  lemma RFindIs(s: string, c: char, t: nat)
    requires t < |s| && s[t] == c
    requires forall j :: t < j < |s| ==> s[j] != c
    ensures RFind(s, c) == t
  {
  }

  /** No `c` follows index `|p| + k` of `p + m + q` when none follows index
      `k` of `m` and none is in `q`. */
  lemma NoneAfter(p: string, m: string, q: string, c: char, k: nat)
    requires c !in q && k < |m| && c !in m[k + 1..]
    ensures forall j | |p| + k < j < |p + m + q| :: (p + m + q)[j] != c
  {
    var s := p + m + q;
    forall j | |p| + k < j < |s|
      ensures s[j] != c
    {
      if j < |p| + |m| {
        assert s[j] == m[j - |p|];
        assert m[k + 1..][j - |p| - k - 1] == m[j - |p|];
      } else {
        assert s[j] == q[j - |p| - |m|];
      }
    }
  }

  lemma RFindAt(p: string, m: string, q: string, c: char, k: nat)
    requires c !in q && k < |m| && m[k] == c && c !in m[k + 1..]
    ensures RFind(p + m + q, c) == |p| + k
  {
    NoneAfter(p, m, q, c, k);
    assert (p + m + q)[|p| + k] == c;
    RFindIs(p + m + q, c, |p| + k);
  }

  /** The first `c` of `body` is the first of `text` when `body` sits at
      `offset` in `text` and no `c` comes before it. */
  lemma FindShifted(text: string, body: string, offset: nat, c: char)
    requires c in body && offset + |body| <= |text|
    requires text[offset..offset + |body|] == body && c !in text[..offset]
    ensures Find(text, c) == offset + Find(body, c)
  {
    var first := Find(body, c);
    assert text[offset + first] == text[offset..offset + |body|][first];
    forall j | 0 <= j < offset + first
      ensures text[j] != c
    {
      if j < offset {
        assert text[j] == text[..offset][j];
      } else {
        assert text[j] == text[offset..offset + |body|][j - offset];
        assert body[j - offset] == body[..first][j - offset];
      }
    }
    FindIs(text, c, offset + first);
  }

  /** The last `c` of `body` is the last of `text` when `body` sits at
      `offset` in `text` and no `c` comes after it. */
  lemma RFindShifted(text: string, body: string, offset: nat, c: char)
    requires c in body && offset + |body| <= |text|
    requires text[offset..offset + |body|] == body && c !in text[offset + |body|..]
    ensures RFind(text, c) == offset + RFind(body, c)
  {
    var last := RFind(body, c);
    assert text[offset + last] == text[offset..offset + |body|][last];
    forall j | offset + last < j < |text|
      ensures text[j] != c
    {
      if j < offset + |body| {
        assert text[j] == text[offset..offset + |body|][j - offset];
        assert body[j - offset] == body[last + 1..][j - offset - last - 1];
      } else {
        assert text[j] == text[offset + |body|..][j - offset - |body|];
      }
    }
    RFindIs(text, c, offset + last);
  }

  /** The last occurrence of `c` does not move when text free of `c` is put
      behind it, and is shifted by the length of anything put in front. */
  lemma RFindInContext(p: string, m: string, q: string, c: char)
    requires c !in q && c in m
    ensures RFind(p + m + q, c) == |p| + RFind(m, c)
  {
    RFindAt(p, m, q, c, RFind(m, c));
  }

  predicate StartsWith(s: string, prefix: string) {
    |prefix| <= |s| && s[..|prefix|] == prefix
  }

  predicate EndsWith(s: string, suffix: string) {
    |suffix| <= |s| && s[|s| - |suffix|..] == suffix
  }

  /** `s[i:j]` for indices inside `s`: empty when `j` comes before `i`. */
  function Slice(s: string, i: nat, j: nat): (r: string)
    requires i <= |s| && j <= |s|
    ensures |r| == if i <= j then j - i else 0
    ensures forall k :: 0 <= k < |r| ==> r[k] == s[i + k]
  {
    if i <= j then s[i..j] else []
  }

  /** Slicing a part of `text` gives the same text as slicing the part. */
  lemma SliceShifted(text: string, body: string, offset: nat, i: nat, j: nat, ti: nat, tj: nat)
    requires offset + |body| <= |text| && text[offset..offset + |body|] == body
    requires i <= |body| && j <= |body| && ti == offset + i && tj == offset + j
    ensures Slice(text, ti, tj) == Slice(body, i, j)
  {
    var shifted, part := Slice(text, ti, tj), Slice(body, i, j);
    forall k | 0 <= k < |part|
      ensures shifted[k] == part[k]
    {
      assert body[i + k] == text[offset..offset + |body|][i + k];
    }
  }

  /** Python's `<` on `str`: lexicographic by code point, a proper prefix
      coming first. */
  predicate StrLess(a: string, b: string) {
    if a == [] then b != []
    else if b == [] then false
    else if a[0] != b[0] then a[0] < b[0]
    else StrLess(a[1..], b[1..])
  }

  lemma {:induction false} StrLessIrreflexive(a: string)
    ensures !StrLess(a, a)
  {
    if a != [] {
      StrLessIrreflexive(a[1..]);
    }
  }

  lemma {:induction false} StrLessTransitive(a: string, b: string, c: string)
    requires StrLess(a, b) && StrLess(b, c)
    ensures StrLess(a, c)
  {
    if a != [] && a[0] == b[0] && b[0] == c[0] {
      StrLessTransitive(a[1..], b[1..], c[1..]);
    }
  }

  /** Any two distinct strings are ordered one way or the other. */
  lemma {:induction false} StrLessTotal(a: string, b: string)
    ensures a == b || StrLess(a, b) || StrLess(b, a)
  {
    if a != [] && b != [] && a[0] == b[0] {
      StrLessTotal(a[1..], b[1..]);
      assert a == [a[0]] + a[1..] && b == [b[0]] + b[1..];
    }
  }

  /** A shared prefix does not decide the comparison. */
  lemma {:induction false} StrLessSharedPrefix(p: string, a: string, b: string)
    ensures StrLess(p + a, p + b) == StrLess(a, b)
  {
    if p == [] {
      assert p + a == a && p + b == b;
    } else {
      StrLessSharedPrefix(p[1..], a, b);
      assert (p + a)[1..] == p[1..] + a && (p + b)[1..] == p[1..] + b;
    }
  }
}
