/** Decimal text of natural numbers: Python's `str(n)`, `int(s)` and the
    thousands-separated `f"{n:,}"`. */
module Decimal {
  import opened Text

  predicate IsDigit(ch: char)
  {
    '0' <= ch <= '9'
  }

  predicate AllDigits(s: string)
  {
    forall i :: 0 <= i < |s| ==> IsDigit(s[i])
  }

  function DigitChar(d: nat): (ch: char)
    requires d < 10
    ensures IsDigit(ch) && DigitOf(ch) == d
  {
    "0123456789"[d]
  }

  function DigitOf(ch: char): nat
    requires IsDigit(ch)
  {
    (ch as int - '0' as int) as nat
  }

  lemma DigitCharOf(ch: char)
    requires IsDigit(ch)
    ensures DigitChar(DigitOf(ch)) == ch
  {
  }

  /** `str(n)` for a non-negative integer: no leading zero, except in "0". */
  function Str(n: nat): (s: string)
    ensures s != [] && AllDigits(s)
    ensures s[0] == '0' <==> n == 0
    decreases n
  {
    if n < 10 then [DigitChar(n)] else Str(n / 10) + [DigitChar(n % 10)]
  }

  lemma StrLength(n: nat)
    requires n >= 10
    ensures |Str(n)| > 1
  {
  }

  /** `int(s)` for a non-empty string of ASCII digits (leading zeros allowed). */
  function DecimalValue(s: string): nat
    requires AllDigits(s)
    decreases |s|
  {
    if s == [] then 0 else DecimalValue(s[..|s| - 1]) * 10 + DigitOf(s[|s| - 1])
  }

  lemma DecimalValueSnoc(s: string, ch: char)
    requires AllDigits(s) && IsDigit(ch)
    ensures DecimalValue(s + [ch]) == DecimalValue(s) * 10 + DigitOf(ch)
  {
    assert (s + [ch])[..|s|] == s;
  }

  /** Reading back the decimal text of `n` gives `n`. */
  lemma {:induction false} StrValue(n: nat)
    ensures DecimalValue(Str(n)) == n
  {
    if n >= 10 {
      StrValue(n / 10);
      DecimalValueSnoc(Str(n / 10), DigitChar(n % 10));
    } else {
      assert Str(n) == [] + [DigitChar(n)];
      DecimalValueSnoc([], DigitChar(n));
    }
  }

  /** The three digits of `m`, padded with leading zeros. */
  function Pad3(m: nat): (s: string)
    requires m < 1000
    ensures |s| == 3 && AllDigits(s)
  {
    [DigitChar(m / 100), DigitChar(m / 10 % 10), DigitChar(m % 10)]
  }

  /** `f"{n:,}"`: the decimal digits of `n` with a comma before every group
      of three digits counted from the right. */
  function Grouped(n: nat): string
    decreases n
  {
    if n < 1000 then Str(n) else Grouped(n / 1000) + "," + Pad3(n % 1000)
  }

  lemma ThousandsDigits(n: nat)
    requires n >= 1000
    ensures n % 10 == n % 1000 % 10
    ensures n / 10 % 10 == n % 1000 / 10 % 10
    ensures n / 10 / 10 % 10 == n % 1000 / 100
    ensures n / 10 / 10 / 10 == n / 1000
  {
    var q, m := n / 1000, n % 1000;
    var a, b, c := m / 100, m / 10 % 10, m % 10;
    assert m == 100 * a + 10 * b + c;
    assert n == 1000 * q + 100 * a + 10 * b + c;
    assert n / 10 == 100 * q + 10 * a + b;
    assert n / 10 / 10 == 10 * q + a;
  }

  lemma StrThousands(n: nat)
    requires n >= 1000
    ensures Str(n) == Str(n / 1000) + Pad3(n % 1000)
  {
    ThousandsDigits(n);
    var n1 := n / 10;
    var n2 := n1 / 10;
    assert n1 >= 100 && n2 >= 10;
    assert Str(n) == Str(n1) + [DigitChar(n % 10)];
    assert Str(n1) == Str(n2) + [DigitChar(n1 % 10)];
    assert Str(n2) == Str(n2 / 10) + [DigitChar(n2 % 10)];
  }

  /** A number below 1000 has at most three decimal digits. */
  lemma StrShort(n: nat)
    requires n < 1000
    ensures |Str(n)| <= 3
  {
    if n >= 10 {
      assert |Str(n)| == |Str(n / 10)| + 1;
      if n / 10 >= 10 {
        assert |Str(n / 10)| == |Str(n / 100)| + 1;
      }
    }
  }

  /** Where the commas of the grouped text go: never first, and exactly at
      the positions three, seven, eleven, … characters before the last one,
      so the leading group has one to three digits and every later group
      three. */
  lemma {:induction false} GroupedCommas(n: nat)
    ensures Grouped(n) != "" && Grouped(n)[0] != ','
    ensures forall i :: 0 <= i < |Grouped(n)| ==> (Grouped(n)[i] == ',' <==> (|Grouped(n)| - 1 - i) % 4 == 3)
    decreases n
  {
    var s := Grouped(n);
    if n < 1000 {
      StrShort(n);
      assert forall i :: 0 <= i < |s| ==> IsDigit(s[i]);
    } else {
      var g, p := Grouped(n / 1000), Pad3(n % 1000);
      GroupedCommas(n / 1000);
      assert s == g + "," + p;
      assert |s| == |g| + 4;
      forall i | 0 <= i < |s| ensures s[i] == ',' <==> (|s| - 1 - i) % 4 == 3 {
        if i < |g| {
          assert s[i] == g[i];
          assert (|s| - 1 - i) % 4 == (|g| - 1 - i) % 4;
        } else if i == |g| {
          assert s[i] == ',';
        } else {
          assert s[i] == p[i - |g| - 1];
          assert IsDigit(p[i - |g| - 1]);
        }
      }
    }
  }

  /** Dropping the commas of `f"{n:,}"` gives `str(n)`. */
  lemma {:induction false} GroupedDigits(n: nat)
    ensures Replace(Grouped(n), ',', "") == Str(n)
  {
    if n < 1000 {
      ReplaceAbsent(Str(n), ',', "");
    } else {
      GroupedDigits(n / 1000);
      StrThousands(n);
      ReplaceConcat(Grouped(n / 1000) + ",", Pad3(n % 1000), ',', "");
      ReplaceConcat(Grouped(n / 1000), ",", ',', "");
      ReplaceAbsent(Pad3(n % 1000), ',', "");
      assert Replace(",", ',', "") == "" + Replace("", ',', "");
    }
  }
}
