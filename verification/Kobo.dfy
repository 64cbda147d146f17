/** The printed naira amount of notifications: two decimals, thousands separated by a regular expression. */
module Kobo {
  import opened Json

  predicate IsDigit(c: char) {
    '0' <= c <= '9'
  }

  function Digit(d: nat): (c: char)
    requires d < 10
    ensures IsDigit(c)
  {
    (d + '0' as int) as char
  }

  function Digits(n: nat): (s: string)
    ensures |s| > 0 && forall c | c in s :: IsDigit(c)
  {
    if n < 10 then [Digit(n)] else Digits(n / 10) + [Digit(n % 10)]
  }

  /** (n / 100).toFixed(2) */
  function ToFixed2(n: int): string {
    var m := if n < 0 then -n else n;
    (if n < 0 then "-" else "") + Digits(m / 100) + "." + [Digit(m % 100 / 10), Digit(m % 10)]
  }

  // ----- replace(/\B(?=(\d{3})+(?!\d))/g, ',') -----

  /** How many digits follow from position i on. */
  function DigitRun(s: string, i: nat): nat
    decreases |s| - i
  {
    if i < |s| && IsDigit(s[i]) then 1 + DigitRun(s, i + 1) else 0
  }

  /** \b, for texts whose word characters are digits. */
  predicate Boundary(s: string, i: nat)
    requires i <= |s|
  {
    (i > 0 && IsDigit(s[i - 1])) != (i < |s| && IsDigit(s[i]))
  }

  /** Some positive number of digit triples follows, and then no digit. */
  predicate CommaAt(s: string, i: nat)
    requires i <= |s|
  {
    !Boundary(s, i) && DigitRun(s, i) > 0 && DigitRun(s, i) % 3 == 0
  }

  /** The first n characters with commas put in front of the matching ones. */
  function Commas(s: string, n: nat): string
    requires n <= |s|
  {
    if n == 0 then "" else Commas(s, n - 1) + (if CommaAt(s, n - 1) then "," else "") + [s[n - 1]]
  }

  const NAIRA := "\U{20A6}"

  function FormatKobo(amountInKobo: Option<int>): string {
    var formatted := ToFixed2(if amountInKobo.Some? then amountInKobo.value else 0);
    NAIRA + Commas(formatted, |formatted|)
  }

  // ----- the amount printed in groups of three -----

  function ThreeDigits(n: nat): (s: string)
    requires n < 1000
    ensures |s| == 3
  {
    [Digit(n / 100), Digit(n / 10 % 10), Digit(n % 10)]
  }

  function Grouped(n: nat): string {
    if n < 1000 then Digits(n) else Grouped(n / 1000) + "," + ThreeDigits(n % 1000)
  }

  /** Grouping of a text from the right. */
  function Group(s: string): string {
    if |s| <= 3 then s else Group(s[..|s| - 3]) + "," + s[|s| - 3..]
  }

  lemma {:induction false} DigitRunIs(s: string, i: nat, n: nat)
    requires i <= n <= |s| && (forall k | i <= k < n :: IsDigit(s[k])) && (n < |s| ==> !IsDigit(s[n]))
    ensures DigitRun(s, i) == n - i
    decreases n - i
  {
    if i < n {
      DigitRunIs(s, i + 1, n);
    }
  }

  /** s[a..n] is a whole run of digits. */
  predicate WholeRun(s: string, a: nat, n: nat) {
    a <= n <= |s| && (forall k | a <= k < n :: IsDigit(s[k])) && (n < |s| ==> !IsDigit(s[n]))
    && (a > 0 ==> !IsDigit(s[a - 1]))
  }

  lemma CommaInRun(s: string, a: nat, n: nat, i: nat)
    requires WholeRun(s, a, n) && a <= i < n
    ensures CommaAt(s, i) <==> i > a && (n - i) % 3 == 0
  {
    DigitRunIs(s, i, n);
  }

  lemma ThreeInRun(s: string, a: nat, n: nat, k: nat)
    requires WholeRun(s, a, n) && a + 3 < k <= n && (n - k) % 3 == 0
    ensures Commas(s, k) == Commas(s, k - 3) + ("," + s[k - 3..k])
  {
    CommaInRun(s, a, n, k - 1);
    CommaInRun(s, a, n, k - 2);
    CommaInRun(s, a, n, k - 3);
    assert Commas(s, k - 2) == Commas(s, k - 3) + "," + [s[k - 3]];
    assert s[k - 3..k] == [s[k - 3], s[k - 2], s[k - 1]];
  }

  lemma GroupGrows(s: string, a: nat, k: nat)
    requires a + 3 < k <= |s|
    ensures Group(s[a..k]) == Group(s[a..k - 3]) + ("," + s[k - 3..k])
  {
    var run := s[a..k];
    assert run[..|run| - 3] == s[a..k - 3] && run[|run| - 3..] == s[k - 3..k];
  }

  lemma Regrouped(a: string, b: string, c: string)
    ensures (a + b) + c == a + (b + c)
  {
  }

  lemma {:induction false} RunIsGrouped(s: string, a: nat, n: nat, k: nat)
    requires WholeRun(s, a, n) && a <= k <= n && (n - k) % 3 == 0
    ensures Commas(s, k) == Commas(s, a) + Group(s[a..k])
    decreases k
  {
    if k > a + 3 {
      var tail := "," + s[k - 3..k];
      ThreeInRun(s, a, n, k);
      RunIsGrouped(s, a, n, k - 3);
      GroupGrows(s, a, k);
      Regrouped(Commas(s, a), Group(s[a..k - 3]), tail);
    } else if k > a {
      forall i | a <= i < k
        ensures !CommaAt(s, i)
      {
        CommaInRun(s, a, n, i);
      }
      ShortRun(s, a, k);
    }
  }

  lemma ShortRun(s: string, a: nat, k: nat)
    requires a < k <= a + 3 && k <= |s| && forall i | a <= i < k :: !CommaAt(s, i)
    ensures Commas(s, k) == Commas(s, a) + s[a..k]
  {
    assert Commas(s, a + 1) == Commas(s, a) + [s[a]];
    if k >= a + 2 {
      assert Commas(s, a + 2) == Commas(s, a) + [s[a], s[a + 1]];
    }
    if k == a + 3 {
      assert Commas(s, a + 3) == Commas(s, a) + [s[a], s[a + 1], s[a + 2]];
    }
  }

  lemma {:induction false} GroupOfDigits(n: nat)
    ensures Group(Digits(n)) == Grouped(n)
    ensures n >= 1000 ==> Digits(n) == Digits(n / 1000) + ThreeDigits(n % 1000)
    ensures n < 1000 ==> |Digits(n)| <= 3
    decreases n
  {
    if n >= 1000 {
      GroupOfDigits(n / 1000);
      LastThree(n);
      var d := Digits(n);
      assert d[..|d| - 3] == Digits(n / 1000) && d[|d| - 3..] == ThreeDigits(n % 1000);
    } else {
      assert n >= 10 ==> Digits(n) == Digits(n / 10) + [Digit(n % 10)];
      assert n >= 100 ==> n / 10 / 10 < 10 && |Digits(n / 10)| == |Digits(n / 10 / 10)| + 1;
    }
  }

  lemma ThreeRemainders(n: nat)
    ensures n / 10 / 10 == n / 100 && n / 100 / 10 == n / 1000
    ensures n / 10 % 10 == n % 1000 / 10 % 10 && n / 100 % 10 == n % 1000 / 100 && n % 10 == n % 1000 % 10
  {
  }

  lemma LastThree(n: nat)
    requires n >= 1000
    ensures Digits(n) == Digits(n / 1000) + ThreeDigits(n % 1000)
  {
    ThreeRemainders(n);
    assert Digits(n) == Digits(n / 10) + [Digit(n % 10)];
    assert Digits(n / 10) == Digits(n / 100) + [Digit(n / 10 % 10)];
    assert Digits(n / 100) == Digits(n / 1000) + [Digit(n / 100 % 10)];
  }

  /** Every amount is printed as its naira in groups of three from the right, a point and two digits
      of kobo, after a sign when it is negative. */
  lemma PrintedInGroups(amount: int)
    ensures var n := if amount < 0 then -amount else amount;
            FormatKobo(Some(amount))
            == NAIRA + ((if amount < 0 then "-" else "") + Grouped(n / 100) + "."
                        + [Digit(n % 100 / 10), Digit(n % 10)])
  {
    var n := if amount < 0 then -amount else amount;
    var whole, sign := Digits(n / 100), if amount < 0 then "-" else "";
    SignedRun(sign, whole, Digit(n % 100 / 10), Digit(n % 10));
    GroupOfDigits(n / 100);
  }

  /** A missing amount is printed as nothing. */
  lemma MissingIsZero()
    ensures FormatKobo(None) == "\U{20A6}0.00"
  {
    PrintedInGroups(0);
  }

  /** Minus 12,345 naira and 67 kobo. */
  lemma PrintedExample(amount: int)
    requires amount == -1234567
    ensures FormatKobo(Some(amount)) == "\U{20A6}-12,345.67"
  {
    PrintedInGroups(amount);
    TwelveThousand(12345);
  }

  lemma TwelveThousand(n: nat)
    requires n == 12345
    ensures Grouped(n) == "12,345"
  {
    var thousands := n / 1000;
    assert Grouped(n) == Digits(thousands) + "," + ThreeDigits(345);
    assert Digits(thousands) == Digits(thousands / 10) + "2";
  }

  lemma SignedRun(sign: string, whole: string, x: char, y: char)
    requires sign == "" || sign == "-"
    requires IsDigit(x) && IsDigit(y) && forall c | c in whole :: IsDigit(c)
    ensures var s := sign + whole + "." + [x, y]; Commas(s, |s|) == sign + Group(whole) + "." + [x, y]
  {
    var s := sign + whole + "." + [x, y];
    var a, z := |sign|, |sign| + |whole|;
    assert s[a..z] == whole && s[z] == '.' && s[z + 1] == x && s[z + 2] == y;
    forall k | a <= k < z
      ensures IsDigit(s[k])
    {
      assert s[k] == whole[k - a] && whole[k - a] in whole;
    }
    RunIsGrouped(s, a, z, z);
    assert Commas(s, a) == sign;
    Cents(s, z);
  }

  lemma Cents(s: string, z: nat)
    requires |s| == z + 3 && s[z] == '.' && IsDigit(s[z + 1]) && IsDigit(s[z + 2])
    ensures Commas(s, z + 3) == Commas(s, z) + "." + [s[z + 1], s[z + 2]]
  {
    DigitRunIs(s, z + 2, z + 3);
    assert !CommaAt(s, z) && !CommaAt(s, z + 1) && !CommaAt(s, z + 2);
    assert Commas(s, z + 1) == Commas(s, z) + ".";
    assert Commas(s, z + 2) == Commas(s, z + 1) + [s[z + 1]];
  }

  // ----- reading back -----

  function Value(s: string): nat {
    if s == "" then 0
    else
      var c := s[|s| - 1];
      if IsDigit(c) then Value(s[..|s| - 1]) * 10 + (c as int - '0' as int) else Value(s[..|s| - 1])
  }

  /** Drops the currency sign, commas and point. */
  function ReadBack(s: string): int {
    if '-' in s then 0 - Value(s) else Value(s)
  }

  lemma ValueSnoc(s: string, c: char)
    ensures Value(s + [c]) == if IsDigit(c) then Value(s) * 10 + (c as int - '0' as int) else Value(s)
  {
    assert (s + [c])[..|s|] == s;
  }

  lemma {:induction false} ValueAfterSign(pre: string, s: string)
    requires Value(pre) == 0
    ensures Value(pre + s) == Value(s)
    decreases |s|
  {
    if s == "" {
      assert pre + s == pre;
    } else {
      var t, c := s[..|s| - 1], s[|s| - 1];
      ValueAfterSign(pre, t);
      assert s == t + [c] && pre + s == (pre + t) + [c];
      ValueSnoc(t, c);
      ValueSnoc(pre + t, c);
    }
  }

  lemma {:induction false} DigitsReadBack(n: nat)
    ensures Value(Digits(n)) == n && '-' !in Digits(n)
    decreases n
  {
    if n < 10 {
      ValueSnoc("", Digit(n));
      assert [] + [Digit(n)] == [Digit(n)];
    } else {
      DigitsReadBack(n / 10);
      ValueSnoc(Digits(n / 10), Digit(n % 10));
    }
  }

  lemma {:induction false} GroupedReadsBack(n: nat)
    ensures Value(Grouped(n)) == n && '-' !in Grouped(n)
    decreases n
  {
    if n < 1000 {
      DigitsReadBack(n);
    } else {
      GroupedReadsBack(n / 1000);
      var g, m := Grouped(n / 1000), n % 1000;
      ValueSnoc(g, ',');
      ThreeMore(g + ",", m);
      assert g + "," + ThreeDigits(m) == Grouped(n);
    }
  }

  lemma ThreeMore(g: string, m: nat)
    requires m < 1000
    ensures Value(g + ThreeDigits(m)) == Value(g) * 1000 + m
  {
    var a, b, c := Digit(m / 100), Digit(m / 10 % 10), Digit(m % 10);
    ValueSnoc(g, a);
    ValueSnoc(g + [a], b);
    ValueSnoc(g + [a] + [b], c);
    assert g + ThreeDigits(m) == g + [a] + [b] + [c];
  }

  lemma SignedValue(sign: string, g: string, x: char, y: char)
    requires sign == "" || sign == "-"
    requires IsDigit(x) && IsDigit(y)
    ensures Value(sign + g + "." + [x, y]) == Value(g) * 100 + (x as int - '0' as int) * 10 + (y as int - '0' as int)
  {
    ValueSnoc("", '-');
    assert "" + ['-'] == "-";
    ValueAfterSign(sign, g);
    var t := sign + g;
    ValueSnoc(t, '.');
    ValueSnoc(t + ".", x);
    ValueSnoc(t + "." + [x], y);
    assert t + "." + [x, y] == t + "." + [x] + [y];
  }

  /** Reading a printed amount gives the amount, for every amount. */
  lemma PrintedAmountReadsBack(amount: int)
    ensures ReadBack(FormatKobo(Some(amount))) == amount
  {
    PrintedInGroups(amount);
    var n := if amount < 0 then -amount else amount;
    var sign, g := if amount < 0 then "-" else "", Grouped(n / 100);
    var a, b := Digit(n % 100 / 10), Digit(n % 10);
    var s := sign + g + "." + [a, b];
    ValueSnoc("", NAIRA[0]);
    assert "" + [NAIRA[0]] == NAIRA;
    ValueAfterSign(NAIRA, s);
    SignedValue(sign, g, a, b);
    GroupedReadsBack(n / 100);
    assert n == n / 100 * 100 + n % 100 / 10 * 10 + n % 10;
  }
}
