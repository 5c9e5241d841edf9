/** The order in which a canonical JSON object lists its keys. */
module KeyOrder {

  /** Lexicographic order on code units, as Array.prototype.sort uses it. */
  predicate Lex(a: string, b: string) {
    a == "" || (b != "" && (a[0] < b[0] || (a[0] == b[0] && Lex(a[1..], b[1..]))))
  }

  predicate AllDigits(s: string) {
    forall i :: 0 <= i < |s| ==> '0' <= s[i] <= '9'
  }

  /** Array-index keys: canonical decimals below 2^32 - 1. A JavaScript object lists these first. */
  predicate IsIndex(s: string) {
    && s != "" && AllDigits(s) && (s[0] == '0' ==> |s| == 1)
    && (|s| < 10 || (|s| == 10 && Lex(s, "4294967294")))
  }

  /** Index keys come first in numeric order (for canonical decimals: by length, then digits), the other
      keys follow in lexicographic order. */
  predicate KeyLe(a: string, b: string) {
    if IsIndex(a) && IsIndex(b) then |a| < |b| || (|a| == |b| && Lex(a, b))
    else if IsIndex(a) != IsIndex(b) then IsIndex(a)
    else Lex(a, b)
  }

  lemma {:induction false} LexIsTotal(a: string, b: string)
    ensures Lex(a, b) || Lex(b, a)
    ensures Lex(a, b) && Lex(b, a) ==> a == b
  {
    if a != "" && b != "" && a[0] == b[0] {
      LexIsTotal(a[1..], b[1..]);
      assert a == [a[0]] + a[1..] && b == [b[0]] + b[1..];
    }
  }

  lemma {:induction false} LexIsTransitive(a: string, b: string, c: string)
    requires Lex(a, b) && Lex(b, c)
    ensures Lex(a, c)
  {
    if a != "" && a[0] == b[0] == c[0] {
      LexIsTransitive(a[1..], b[1..], c[1..]);
    }
  }

  lemma KeyLeIsTotalOrder(a: string, b: string, c: string)
    ensures KeyLe(a, b) || KeyLe(b, a)
    ensures KeyLe(a, b) && KeyLe(b, a) ==> a == b
    ensures KeyLe(a, b) && KeyLe(b, c) ==> KeyLe(a, c)
  {
    LexIsTotal(a, b);
    if Lex(a, b) && Lex(b, c) { LexIsTransitive(a, b, c); }
  }

  // ----- the order, said without its definition -----

  function Pow10(n: nat): nat {
    if n == 0 then 1 else 10 * Pow10(n - 1)
  }

  /** The number a string of digits denotes. */
  function ValueOf(s: string): nat
    requires AllDigits(s)
  {
    if s == "" then 0 else (s[0] as int - '0' as int) * Pow10(|s| - 1) + ValueOf(s[1..])
  }

  lemma {:induction false} ValueIsBounded(s: string)
    requires AllDigits(s)
    ensures ValueOf(s) < Pow10(|s|)
    ensures s != "" && s[0] != '0' ==> Pow10(|s| - 1) <= ValueOf(s)
  {
    if s != "" {
      ValueIsBounded(s[1..]);
      DigitTimes(s[0] as int - '0' as int, Pow10(|s| - 1));
    }
  }

  lemma DigitTimes(d: int, p: nat)
    requires 0 <= d <= 9
    ensures d * p <= 9 * p && (d > 0 ==> p <= d * p)
  {
    assert (9 - d) * p >= 0;
    if d > 0 { assert (d - 1) * p >= 0; }
  }

  /** Digits of equal number compare as numbers do. */
  lemma {:induction false} DigitsCompareAsNumbers(a: string, b: string)
    requires AllDigits(a) && AllDigits(b) && |a| == |b|
    ensures Lex(a, b) <==> ValueOf(a) <= ValueOf(b)
  {
    if a != "" {
      DigitsCompareAsNumbers(a[1..], b[1..]);
      ValueIsBounded(a[1..]);
      ValueIsBounded(b[1..]);
      LeadingDigits(a[0] as int - '0' as int, b[0] as int - '0' as int, Pow10(|a| - 1),
                    ValueOf(a[1..]), ValueOf(b[1..]));
    }
  }

  lemma LeadingDigits(x: int, y: int, p: nat, v: nat, w: nat)
    requires v < p && w < p
    ensures x < y ==> x * p + v < y * p + w
    ensures x > y ==> x * p + v > y * p + w
  {
    if x < y { AtLeastOnce(y - x, p); assert y * p == x * p + (y - x) * p; }
    if x > y { AtLeastOnce(x - y, p); assert x * p == y * p + (x - y) * p; }
  }

  lemma {:induction false} AtLeastOnce(d: nat, p: nat)
    requires d >= 1
    ensures d * p >= p
  {
    if d > 1 {
      AtLeastOnce(d - 1, p);
      assert d * p == (d - 1) * p + p;
    }
  }

  lemma {:induction false} MoreDigitsAreLarger(n: nat, m: nat)
    requires n <= m
    ensures Pow10(n) <= Pow10(m)
    decreases m
  {
    if n < m { MoreDigitsAreLarger(n, m - 1); }
  }

  /** Decimals without a leading zero. */
  predicate Canonical(s: string) {
    s != "" && AllDigits(s) && (s[0] == '0' ==> |s| == 1)
  }

  lemma ShorterIsSmaller(a: string, b: string)
    requires Canonical(a) && Canonical(b) && |a| < |b|
    ensures ValueOf(a) < ValueOf(b)
  {
    ValueIsBounded(a);
    ValueIsBounded(b);
    MoreDigitsAreLarger(|a|, |b| - 1);
  }

  lemma OneDigitMore(d: char, rest: string, value: nat, power: nat)
    requires '0' <= d <= '9' && AllDigits(rest) && ValueOf(rest) == value && Pow10(|rest|) == power
    ensures AllDigits([d] + rest) && ValueOf([d] + rest) == (d as int - '0' as int) * power + value
    ensures Pow10(|[d] + rest|) == 10 * power
  {
    assert ([d] + rest)[1..] == rest;
  }

  lemma LowDigits()
    ensures AllDigits("67294") && ValueOf("67294") == 67294 && Pow10(5) == 100000
  {
    OneDigitMore('4', "", 0, 1);
    hide ValueOf;
    hide Pow10;
    assert ['4'] + "" == "4";
    OneDigitMore('9', "4", 4, 10);
    assert ['9'] + "4" == "94";
    OneDigitMore('2', "94", 94, 100);
    assert ['2'] + "94" == "294";
    OneDigitMore('7', "294", 294, 1000);
    assert ['7'] + "294" == "7294";
    OneDigitMore('6', "7294", 7294, 10000);
    assert ['6'] + "7294" == "67294";
  }

  lemma LargestIndex()
    ensures AllDigits("4294967294") && ValueOf("4294967294") == 4294967294
  {
    LowDigits();
    hide ValueOf;
    hide Pow10;
    OneDigitMore('9', "67294", 67294, 100000);
    assert ['9'] + "67294" == "967294";
    OneDigitMore('4', "967294", 967294, 1000000);
    assert ['4'] + "967294" == "4967294";
    OneDigitMore('9', "4967294", 4967294, 10000000);
    assert ['9'] + "4967294" == "94967294";
    OneDigitMore('2', "94967294", 94967294, 100000000);
    assert ['2'] + "94967294" == "294967294";
    OneDigitMore('4', "294967294", 294967294, 1000000000);
    assert ['4'] + "294967294" == "4294967294";
  }

  /** The keys listed first are the decimals without leading zeros up to 2^32 - 2, in numeric order; among the others
      the first code unit in which they differ decides, and a prefix comes first. */
  lemma KeysAreListedAsJavaScriptDoes(a: string, b: string)
    ensures IsIndex(a) <==> Canonical(a) && ValueOf(a) <= 4294967294
    ensures IsIndex(a) && IsIndex(b) ==> (KeyLe(a, b) <==> ValueOf(a) <= ValueOf(b))
    ensures IsIndex(a) && !IsIndex(b) ==> KeyLe(a, b) && !KeyLe(b, a)
    ensures !IsIndex(a) && !IsIndex(b) ==>
      (KeyLe(a, b) <==> a <= b || exists k :: 0 <= k < |a| && k < |b| && a[..k] == b[..k] && a[k] < b[k])
  {
    IndexIsBounded(a);
    IndexIsBounded(b);
    if IsIndex(a) && IsIndex(b) {
      if |a| == |b| { DigitsCompareAsNumbers(a, b); }
      if |a| < |b| { ShorterIsSmaller(a, b); }
      if |a| > |b| { ShorterIsSmaller(b, a); }
    }
    FirstDifferenceDecides(a, b);
  }

  lemma IndexIsBounded(s: string)
    ensures IsIndex(s) <==> Canonical(s) && ValueOf(s) <= 4294967294
  {
    LargestIndex();
    if Canonical(s) {
      if |s| == 10 { DigitsCompareAsNumbers(s, "4294967294"); }
      if |s| < 10 { ShorterIsSmaller(s, "4294967294"); }
      if |s| > 10 { ShorterIsSmaller("4294967294", s); }
    }
  }

  lemma {:induction false} FirstDifferenceDecides(a: string, b: string)
    ensures Lex(a, b) <==> a <= b || exists k :: 0 <= k < |a| && k < |b| && a[..k] == b[..k] && a[k] < b[k]
  {
    if a != "" && b != "" && a[0] == b[0] {
      var c, d := a[1..], b[1..];
      FirstDifferenceDecides(c, d);
      assert a <= b <==> c <= d;
      if k :| 0 <= k < |c| && k < |d| && c[..k] == d[..k] && c[k] < d[k] {
        assert a[..k + 1] == [a[0]] + c[..k] && b[..k + 1] == [b[0]] + d[..k];
        assert a[k + 1] < b[k + 1];
      }
      if k :| 0 <= k < |a| && k < |b| && a[..k] == b[..k] && a[k] < b[k] {
        assert k > 0 && c[..k - 1] == a[..k][1..] && d[..k - 1] == b[..k][1..];
        assert c[k - 1] < d[k - 1];
      }
    } else if a != "" && b != "" {
      assert a[..0] == b[..0];
      assert a[0] < b[0] ==> exists k :: 0 <= k < |a| && k < |b| && a[..k] == b[..k] && a[k] < b[k];
      forall k | 0 < k < |a| && k < |b| ensures a[..k] != b[..k] {
        assert a[..k][0] != b[..k][0];
      }
    }
  }

  /** A number has one decimal. */
  lemma DecimalsAreUnique(a: string, b: string)
    requires Canonical(a) && Canonical(b) && ValueOf(a) == ValueOf(b)
    ensures a == b
  {
    if |a| < |b| { ShorterIsSmaller(a, b); }
    if |a| > |b| { ShorterIsSmaller(b, a); }
    DigitsCompareAsNumbers(a, b);
    DigitsCompareAsNumbers(b, a);
    LexIsTotal(a, b);
  }

  lemma {:induction false} LastDigit(s: string, d: char)
    requires AllDigits(s) && '0' <= d <= '9'
    ensures AllDigits(s + [d]) && ValueOf(s + [d]) == 10 * ValueOf(s) + (d as int - '0' as int)
  {
    if s == "" {
      assert ([d])[1..] == "";
      assert s + [d] == [d];
    } else {
      var digit, power := s[0] as int - '0' as int, Pow10(|s| - 1);
      LastDigit(s[1..], d);
      assert (s + [d])[1..] == s[1..] + [d];
      assert digit * (10 * power) == 10 * (digit * power);
    }
  }

  function Elements(s: seq<string>): set<string> {
    set i | 0 <= i < |s| :: s[i]
  }

  predicate NoDuplicates(s: seq<string>) {
    forall i, j :: 0 <= i < j < |s| ==> s[i] != s[j]
  }

  predicate Sorted(s: seq<string>) {
    forall i, j :: 0 <= i < j < |s| ==> KeyLe(s[i], s[j]) && s[i] != s[j]
  }

  function Insert(s: seq<string>, k: string): seq<string> {
    if s == [] || KeyLe(k, s[0]) then [k] + s else [s[0]] + Insert(s[1..], k)
  }

  function Sort(s: seq<string>): seq<string> {
    if s == [] then [] else Insert(Sort(s[1..]), s[0])
  }

  lemma HeadElement(s: seq<string>)
    requires s != []
    ensures Elements(s) == {s[0]} + Elements(s[1..])
  {
    forall x | x in Elements(s) ensures x in {s[0]} + Elements(s[1..]) {
      var i :| 0 <= i < |s| && s[i] == x;
      if i > 0 { assert s[1..][i - 1] == x; }
    }
    forall x | x in Elements(s[1..]) ensures x in Elements(s) {
      var i :| 0 <= i < |s[1..]| && s[1..][i] == x;
      assert s[i + 1] == x;
    }
  }

  lemma NoDuplicatesCons(x: string, s: seq<string>)
    ensures NoDuplicates([x] + s) <==> NoDuplicates(s) && x !in Elements(s)
  {
    var r := [x] + s;
    assert forall i :: 0 <= i < |s| ==> r[i + 1] == s[i];
    if NoDuplicates(r) {
      forall i, j | 0 <= i < j < |s| ensures s[i] != s[j] {
        assert r[i + 1] != r[j + 1];
      }
      forall i | 0 <= i < |s| ensures s[i] != x {
        assert r[0] != r[i + 1];
      }
    }
  }

  lemma {:induction false} InsertKeepsElements(s: seq<string>, k: string)
    ensures Elements(Insert(s, k)) == Elements(s) + {k}
  {
    var r := Insert(s, k);
    HeadElement(r);
    if s != [] {
      HeadElement(s);
      if KeyLe(k, s[0]) {
        assert r[1..] == s;
      } else {
        InsertKeepsElements(s[1..], k);
        assert r[1..] == Insert(s[1..], k);
      }
    } else {
      assert r == [k] && Elements(r[1..]) == {};
    }
  }

  lemma SortedCons(x: string, s: seq<string>)
    requires Sorted(s) && forall y :: y in Elements(s) ==> KeyLe(x, y) && x != y
    ensures Sorted([x] + s)
  {
    forall i | 0 <= i < |s| ensures KeyLe(x, s[i]) && x != s[i] {
      assert s[i] in Elements(s);
    }
  }

  lemma {:induction false} InsertSorts(s: seq<string>, k: string)
    requires Sorted(s) && k !in Elements(s)
    ensures Sorted(Insert(s, k))
  {
    if s != [] {
      HeadElement(s);
      KeyLeIsTotalOrder(k, s[0], k);
      if KeyLe(k, s[0]) {
        forall y | y in Elements(s) ensures KeyLe(k, y) {
          KeyLeIsTotalOrder(k, s[0], y);
        }
        SortedCons(k, s);
      } else {
        InsertSorts(s[1..], k);
        InsertKeepsElements(s[1..], k);
        SortedCons(s[0], Insert(s[1..], k));
      }
    }
  }

  lemma {:induction false} SortSorts(s: seq<string>)
    requires NoDuplicates(s)
    ensures Sorted(Sort(s)) && Elements(Sort(s)) == Elements(s)
  {
    if s != [] {
      SortSorts(s[1..]);
      HeadElement(s);
      forall i | 0 <= i < |s[1..]| ensures s[1..][i] != s[0] {}
      InsertKeepsElements(Sort(s[1..]), s[0]);
      InsertSorts(Sort(s[1..]), s[0]);
    }
  }

  /** A set of keys has one sorted listing. */
  lemma {:induction false} SortedIsUnique(a: seq<string>, b: seq<string>)
    requires Sorted(a) && Sorted(b) && Elements(a) == Elements(b)
    ensures a == b
  {
    assert a != [] ==> a[0] in Elements(a);
    assert b != [] ==> b[0] in Elements(b);
    if a != [] {
      assert a[0] in Elements(b);
      var i :| 0 <= i < |b| && b[i] == a[0];
      assert b[0] in Elements(a);
      var j :| 0 <= j < |a| && a[j] == b[0];
      KeyLeIsTotalOrder(a[0], b[0], a[0]);
      assert a[0] == b[0];
      HeadElement(a);
      HeadElement(b);
      assert a[0] !in Elements(a[1..]) && a[0] !in Elements(b[1..]);
      SortedIsUnique(a[1..], b[1..]);
      assert a == [a[0]] + a[1..] && b == [b[0]] + b[1..];
    }
  }

  /** Sorting forgets the order it was given. */
  lemma SortForgetsOrder(a: seq<string>, b: seq<string>)
    requires NoDuplicates(a) && NoDuplicates(b) && Elements(a) == Elements(b)
    ensures Sort(a) == Sort(b)
  {
    SortSorts(a);
    SortSorts(b);
    SortedIsUnique(Sort(a), Sort(b));
  }
}
