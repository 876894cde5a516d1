/** `natural_sort_key` of the analyzer: a folder name becomes a list that
    alternates lower-cased text with the values of its digit runs, and
    Python compares such lists element by element. */
module NaturalOrder {
  import opened Text
  import opened Seqs

  /** One element of a key list. */
  datatype KeyPart = Word(text: string) | Number(value: nat)

  type Key = seq<KeyPart>

  /** The end of the digit-free run of `s` that starts at `i`. */
  function NonDigitEnd(s: string, i: nat): (k: nat)
    requires i <= |s|
    ensures i <= k <= |s|
    ensures forall j :: i <= j < k ==> !IsDigit(s[j])
    ensures k < |s| ==> IsDigit(s[k])
    decreases |s| - i
  {
    if i == |s| || IsDigit(s[i]) then i else NonDigitEnd(s, i + 1)
  }

  /** The end of the digit run of `s` that starts at `i`. */
  function DigitEnd(s: string, i: nat): (k: nat)
    requires i <= |s|
    ensures i <= k <= |s|
    ensures forall j :: i <= j < k ==> IsDigit(s[j])
    ensures k < |s| ==> !IsDigit(s[k])
    decreases |s| - i
  {
    if i == |s| || !IsDigit(s[i]) then i else DigitEnd(s, i + 1)
  }

  function Concat(segs: seq<string>): string {
    if segs == [] then [] else segs[0] + Concat(segs[1..])
  }

  /** `re.split(r'(\d+)', s)`: the text up to the first digit, the digit
      run that follows, then the split of the rest; the text between digit
      runs sits at the even positions, the runs themselves at the odd ones,
      and the split always ends with a (possibly empty) text segment. */
  function SplitDigitRuns(s: string): (segs: seq<string>)
    ensures |segs| % 2 == 1
    decreases |s|
  {
    var k := NonDigitEnd(s, 0);
    if k == |s| then [s]
    else
      var e := DigitEnd(s, k);
      [s[..k], s[k..e]] + SplitDigitRuns(s[e..])
  }

  /** The segments put back together give the text they were split from. */
  lemma {:induction false} SplitConcat(s: string)
    ensures Concat(SplitDigitRuns(s)) == s
    decreases |s|
  {
    var k := NonDigitEnd(s, 0);
    var segs := SplitDigitRuns(s);
    if k == |s| {
      assert segs == [s];
      assert Concat([s]) == s + Concat([]);
    } else {
      var e := DigitEnd(s, k);
      var tail := SplitDigitRuns(s[e..]);
      assert segs == [s[..k], s[k..e]] + tail;
      assert segs[1..] == [s[k..e]] + tail;
      assert segs[1..][1..] == tail;
      calc {
        Concat(segs);
        s[..k] + Concat(segs[1..]);
        s[..k] + (s[k..e] + Concat(tail));
        { SplitConcat(s[e..]); }
        s[..k] + (s[k..e] + s[e..]);
        s;
      }
    }
  }

  /** Digit runs sit at the odd positions, the even positions hold no digit,
      and every digit run is maximal: a text segment between two runs is
      never empty. */
  lemma {:induction false} SplitKinds(s: string)
    ensures var segs := SplitDigitRuns(s);
      && (forall n :: 0 <= n < |segs| ==> (n % 2 == 0 ==> NoDigits(segs[n])))
      && (forall n :: 0 <= n < |segs| ==> (n % 2 == 1 ==> IsDigits(segs[n])))
      && (forall n :: 0 <= n < |segs| - 1 ==> (n % 2 == 0 && n > 0 ==> segs[n] != []))
      && (segs[0] != [] <==> s != [] && !IsDigit(s[0]))
    decreases |s|
  {
    var k := NonDigitEnd(s, 0);
    var segs := SplitDigitRuns(s);
    if k < |s| {
      var e := DigitEnd(s, k);
      var rest := s[e..];
      var tail := SplitDigitRuns(rest);
      SplitKinds(rest);
      assert segs == [s[..k], s[k..e]] + tail;
      forall n | 0 <= n < |segs|
        ensures n % 2 == 0 ==> NoDigits(segs[n])
        ensures n % 2 == 1 ==> IsDigits(segs[n])
        ensures 0 < n < |segs| - 1 && n % 2 == 0 ==> segs[n] != []
      {
        if n == 0 {
          assert segs[0] == s[..k];
        } else if n == 1 {
          assert segs[1] == s[k..e];
        } else {
          assert segs[n] == tail[n - 2];
          assert (n - 2) % 2 == n % 2;
          if n == 2 && n < |segs| - 1 {
            assert e < |s| && rest[0] == s[e];
          }
        }
      }
    } else {
      assert segs == [s];
    }
  }

  /** `natural_sort_key(s)`: each segment that is a digit run becomes its
      value, every other segment its lower-cased text. */
  function NaturalKey(s: string): (key: Key)
    ensures |key| % 2 == 1
    ensures forall i :: 0 <= i < |key| ==> (key[i].Number? <==> i % 2 == 1)
  {
    var segs := SplitDigitRuns(s);
    SplitKinds(s);
    seq(|segs|, i requires 0 <= i < |segs| => PartOf(segs[i]))
  }

  /** `int(text) if text.isdigit() else text.lower()` for one segment. */
  function PartOf(segment: string): KeyPart {
    if IsDigits(segment) then Number(DigitsValue(segment)) else Word(Lower(segment))
  }

  /** The key has one part per segment of the split. */
  lemma KeyOfSplit(s: string)
    ensures |NaturalKey(s)| == |SplitDigitRuns(s)|
    ensures forall i :: 0 <= i < |NaturalKey(s)| ==> NaturalKey(s)[i] == PartOf(SplitDigitRuns(s)[i])
  {
  }

  /** Two segments in front of a split put their parts in front of its key. */
  lemma KeyOfPrefixedSplit(x: string, y: string, tail: seq<string>, segs: seq<string>, key: Key, tailKey: Key)
    requires segs == [x, y] + tail
    requires |key| == |segs| && forall i :: 0 <= i < |key| ==> key[i] == PartOf(segs[i])
    requires |tailKey| == |tail| && forall i :: 0 <= i < |tailKey| ==> tailKey[i] == PartOf(tail[i])
    ensures key == [PartOf(x), PartOf(y)] + tailKey
  {
    forall i | 2 <= i < |key|
      ensures key[i] == tailKey[i - 2]
    {
      assert segs[i] == tail[i - 2];
    }
  }

  /** Two key lists whose comparison never puts a number against a text
      (Python would raise `TypeError`). */
  predicate Comparable(a: Key, b: Key) {
    forall i :: 0 <= i < |a| && i < |b| ==> a[i].Number? == b[i].Number?
  }

  predicate PartLess(x: KeyPart, y: KeyPart)
    requires x.Number? == y.Number?
  {
    match x
    case Number(m) => m < y.value
    case Word(t) => StrLess(t, y.text)
  }

  /** Python's `<` on lists: the first differing elements decide, and a
      proper prefix comes first. */
  predicate KeyLess(a: Key, b: Key)
    requires Comparable(a, b)
  {
    if a == [] then b != []
    else if b == [] then false
    else if a[0] != b[0] then PartLess(a[0], b[0])
    else KeyLess(a[1..], b[1..])
  }

  /** The order `subdirectories.sort(key=natural_sort_key)` sorts by. */
  predicate NaturalLess(x: string, y: string) {
    KeyLess(NaturalKey(x), NaturalKey(y))
  }

  lemma PartLessIsStrict(x: KeyPart, y: KeyPart, z: KeyPart)
    requires x.Number? == y.Number? == z.Number?
    ensures !PartLess(x, x)
    ensures PartLess(x, y) && PartLess(y, z) ==> PartLess(x, z)
  {
    if x.Word? {
      StrLessIrreflexive(x.text);
      if PartLess(x, y) && PartLess(y, z) {
        StrLessTransitive(x.text, y.text, z.text);
      }
    }
  }

  lemma {:induction false} KeyLessIrreflexive(a: Key)
    ensures !KeyLess(a, a)
  {
    if a != [] {
      KeyLessIrreflexive(a[1..]);
    }
  }

  lemma {:induction false} KeyLessTransitive(a: Key, b: Key, c: Key)
    requires Comparable(a, b) && Comparable(b, c) && Comparable(a, c)
    requires KeyLess(a, b) && KeyLess(b, c)
    ensures KeyLess(a, c)
  {
    if a != [] {
      assert b != [] && c != [];
      PartLessIsStrict(a[0], b[0], c[0]);
      if a[0] == b[0] && b[0] == c[0] {
        KeyLessTransitive(a[1..], b[1..], c[1..]);
      } else if a[0] != b[0] && b[0] != c[0] {
        PartLessIsStrict(a[0], c[0], a[0]);
      }
    }
  }

  /** Two distinct key lists that never put a number against a text are
      ordered one way or the other. */
  lemma {:induction false} KeyLessTotal(a: Key, b: Key)
    requires Comparable(a, b)
    ensures a == b || KeyLess(a, b) || KeyLess(b, a)
  {
    if a != [] && b != [] {
      if a[0] != b[0] {
        if a[0].Word? {
          StrLessTotal(a[0].text, b[0].text);
        }
      } else {
        assert Comparable(a[1..], b[1..]) by {
          forall i | 0 <= i < |a[1..]| && i < |b[1..]|
            ensures a[1..][i].Number? == b[1..][i].Number?
          {
            assert a[1..][i] == a[i + 1] && b[1..][i] == b[i + 1];
          }
        }
        KeyLessTotal(a[1..], b[1..]);
        assert a == [a[0]] + a[1..] && b == [b[0]] + b[1..];
      }
    }
  }

  /** Names are tied, neither sorting before the other, exactly when their
      keys are equal. */
  lemma NaturalTies(x: string, y: string)
    ensures !NaturalLess(x, y) && !NaturalLess(y, x) <==> NaturalKey(x) == NaturalKey(y)
  {
    KeyLessTotal(NaturalKey(x), NaturalKey(y));
    KeyLessIrreflexive(NaturalKey(x));
  }

  /** Sorting by `natural_sort_key` is sorting by a strict weak order:
      names are tied exactly when their keys are equal, so the sorted list
      is in ascending key order and the sort keeps listing order among
      names with equal keys. */
  lemma NaturalLessIsStrictWeakOrder()
    ensures StrictWeakOrder(NaturalLess)
  {
    forall x: string
      ensures !NaturalLess(x, x)
    {
      KeyLessIrreflexive(NaturalKey(x));
    }
    forall x: string, y: string, z: string | NaturalLess(x, y) && NaturalLess(y, z)
      ensures NaturalLess(x, z)
    {
      KeyLessTransitive(NaturalKey(x), NaturalKey(y), NaturalKey(z));
    }
    forall x: string, y: string, z: string | !NaturalLess(x, y) && !NaturalLess(y, z)
      ensures !NaturalLess(x, z)
    {
      NaturalTies(x, y);
      NaturalTies(y, z);
      var a, b, c := NaturalKey(x), NaturalKey(y), NaturalKey(z);
      KeyLessIrreflexive(a);
      if b != a && c != b {
        KeyLessTransitive(c, b, a);
      }
      if KeyLess(a, c) && c != a {
        KeyLessTransitive(a, c, a);
      }
    }
  }

  /** Text without digits up to `k`, digits from `k` up to `e` and no digit
      at `e` splits into those two parts, then the split of what follows. */
  lemma SplitAtRun(s: string, k: nat, e: nat)
    requires k < e <= |s|
    requires forall j :: 0 <= j < k ==> !IsDigit(s[j])
    requires forall j :: k <= j < e ==> IsDigit(s[j])
    requires e < |s| ==> !IsDigit(s[e])
    ensures SplitDigitRuns(s) == [s[..k], s[k..e]] + SplitDigitRuns(s[e..])
  {
    var k', e' := NonDigitEnd(s, 0), DigitEnd(s, k);
    assert IsDigit(s[k]);
    assert k' < |s| ==> IsDigit(s[k']);
    assert k' == k;
    assert e < |s| ==> !IsDigit(s[e]);
    assert e' < |s| ==> !IsDigit(s[e']);
    assert e' == e;
  }

  /** A digit-free prefix, a number and a rest that does not start with a
      digit split into the prefix, the numeral and the split of the rest. */
  lemma NumberedSplit(prefix: string, n: nat, rest: string)
    requires NoDigits(prefix)
    requires rest == [] || !IsDigit(rest[0])
    ensures SplitDigitRuns(prefix + Decimal(n) + rest) == [prefix, Decimal(n)] + SplitDigitRuns(rest)
  {
    var d := Decimal(n);
    var s := prefix + d + rest;
    var k, e := |prefix|, |prefix + d|;
    assert SplitDigitRuns(s) == [s[..k], s[k..e]] + SplitDigitRuns(s[e..]) by {
      assert forall j :: 0 <= j < k ==> s[j] == prefix[j];
      assert forall j :: k <= j < e ==> s[j] == d[j - k];
      assert e < |s| ==> s[e] == rest[0];
      SplitAtRun(s, k, e);
    }
    assert s[..k] == prefix && s[k..e] == d && s[e..] == rest;
  }

  /** The key of such a name: the lower-cased prefix, the number's value,
      and then the key of the rest. */
  lemma NumberedKey(prefix: string, n: nat, rest: string)
    requires NoDigits(prefix)
    requires rest == [] || !IsDigit(rest[0])
    ensures NaturalKey(prefix + Decimal(n) + rest) == [Word(Lower(prefix)), Number(n)] + NaturalKey(rest)
  {
    var s := prefix + Decimal(n) + rest;
    NumberedSplit(prefix, n, rest);
    KeyOfSplit(s);
    KeyOfSplit(rest);
    KeyOfPrefixedSplit(prefix, Decimal(n), SplitDigitRuns(rest), SplitDigitRuns(s), NaturalKey(s), NaturalKey(rest));
    assert PartOf(prefix) == Word(Lower(prefix)) by {
      assert !IsDigits(prefix);
    }
    assert PartOf(Decimal(n)) == Number(n) by {
      DecimalValue(n);
    }
  }

  /** Names that differ only in one embedded number are ordered by that
      number's value, in both directions: `细分榜单2` comes before `细分榜单10`,
      and `a2b` before `a10b`. */
  lemma NumberedNamesOrder(prefix: string, m: nat, n: nat, rest: string)
    requires NoDigits(prefix)
    requires rest == [] || !IsDigit(rest[0])
    ensures NaturalLess(prefix + Decimal(m) + rest, prefix + Decimal(n) + rest) <==> m < n
  {
    NumberedKey(prefix, m, rest);
    NumberedKey(prefix, n, rest);
    var a, b := NaturalKey(prefix + Decimal(m) + rest), NaturalKey(prefix + Decimal(n) + rest);
    if m == n {
      KeyLessIrreflexive(a);
    } else {
      assert a[0] == b[0] && a[1..][0] != b[1..][0];
      assert KeyLess(a, b) == KeyLess(a[1..], b[1..]) == PartLess(a[1], b[1]);
    }
  }

  /** The two sub-board names of the example: numeric order, which is not the
      order of the names as text. */
  lemma SubBoardExample()
    ensures NaturalLess("细分榜单2", "细分榜单10")
    ensures !NaturalLess("细分榜单10", "细分榜单2")
    ensures StrLess("细分榜单10", "细分榜单2")
  {
    var prefix := "细分榜单";
    assert NoDigits(prefix);
    assert Decimal(2) == "2";
    assert Decimal(10) == "10";
    assert prefix + Decimal(2) + [] == "细分榜单2";
    assert prefix + Decimal(10) + [] == "细分榜单10";
    NumberedNamesOrder(prefix, 2, 10, []);
    NumberedNamesOrder(prefix, 10, 2, []);
    assert StrLess("10", "2");
    assert prefix + "10" == "细分榜单10" && prefix + "2" == "细分榜单2";
    StrLessSharedPrefix(prefix, "10", "2");
  }
}
