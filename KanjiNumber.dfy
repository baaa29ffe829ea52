/** `parse_kanji_number`: a kanji numeral read as an integer, either digit by
    digit (二〇二四) or with the units 十百千 and 万億兆 (二千二十四). */
module KanjiNumber {
  import opened Decimal
  import opened KanjiTables

  /** What the parser returns: `None`, an integer, or the outcome of one of
      the floating-point branches, which this model does not evaluate. Those
      branches are taken for a string of ASCII digits and dots, whose float
      conversion may also raise `ValueError` (as for "." or "1.2.3"), and
      for a string containing the decimal point `・`, which may also give
      `None` (more than one `・`, a non-digit or nothing after it, or an
      integer part that is `None`) or raise `ValueError` (an integer part
      that is itself a float, as in "1・五"). */
  datatype KanjiParse = NoNumber | Integer(value: nat) | FloatBranch

  /** The string is non-empty and made only of ASCII digits and dots. */
  predicate AsciiNumeral(s: string)
  {
    s != [] && forall i :: 0 <= i < |s| ==> IsDigit(s[i]) || s[i] == '.'
  }

  /** Some character of the string is one of the units 十百千万億兆. */
  predicate HasUnitChar(s: string)
  {
    exists i :: 0 <= i < |s| && s[i] in {'十', '百', '千', '万', '億', '兆'}
  }

  /** The test that selects digit-by-digit reading: the string contains 〇, or
      it has no unit character and more than one character. */
  predicate IsPositional(s: string)
  {
    '〇' in s || (!HasUnitChar(s) && |s| > 1)
  }

  predicate AllKanjiDigits(s: string)
  {
    forall i :: 0 <= i < |s| ==> s[i] in KanjiDigits
  }

  /** The ASCII digit string the positional loop builds. */
  function AsciiDigits(s: string): (r: string)
    requires AllKanjiDigits(s)
    ensures |r| == |s| && AllDigits(r)
    ensures forall i :: 0 <= i < |s| ==> DigitOf(r[i]) == DigitValue(s[i])
  {
    seq(|s|, i requires 0 <= i < |s| => DigitChar(DigitValue(s[i])))
  }

  /** The three accumulators of the unit path: `total`, `section_val` and
      `current_val`. */
  datatype Acc = Acc(total: nat, section: nat, current: nat)

  /** One character of the unit path. A digit becomes the pending digit. A
      small unit multiplies the pending digit, or 1 when there is none, into
      the section. A large unit adds the pending digit to the section, counts
      an empty section as 1, multiplies it into the total and starts a new
      section. Any other character is skipped. */
  function Step(a: Acc, ch: char): Acc
  {
    if ch in KanjiDigits then
      a.(current := KanjiDigits[ch])
    else if ch in SmallUnits then
      var cur := if a.current == 0 then 1 else a.current;
      Acc(a.total, a.section + cur * SmallUnits[ch], 0)
    else if ch in LargeUnits then
      var sec := if a.current > 0 then a.section + a.current else a.section;
      var sec' := if sec == 0 && a.current == 0 then 1 else sec;
      Acc(a.total + sec' * LargeUnits[ch], 0, 0)
    else
      a
  }

  /** The accumulators after reading `s` from `a`, left to right. */
  function Scan(a: Acc, s: string): Acc
    decreases |s|
  {
    if s == [] then a else Step(Scan(a, s[..|s| - 1]), s[|s| - 1])
  }

  /** The result of the unit path: the total, the open section and the pending digit added up. */
  function UnitValue(s: string): nat
  {
    var a := Scan(Acc(0, 0, 0), s);
    a.total + a.section + a.current
  }

  /** What `parse_kanji_number` returns for `s`. */
  function KanjiValue(s: string): KanjiParse
  {
    if s == [] then NoNumber
    else if AsciiNumeral(s) || '・' in s then FloatBranch
    else if IsPositional(s) then
      if AllKanjiDigits(s) then Integer(DecimalValue(AsciiDigits(s))) else NoNumber
    else Integer(UnitValue(s))
  }

  /** `parse_kanji_number`, with the two integer paths written as the loops
      of the source. */
  method ParseKanjiNumber(s: string) returns (r: KanjiParse)
    ensures r == KanjiValue(s)
  {
    if s == [] {
      return NoNumber;
    }
    if AsciiNumeral(s) || '・' in s {
      return FloatBranch;
    }
    if IsPositional(s) {
      r := ParsePositional(s);
      return;
    }
    var total := ParseWithUnits(s);
    return Integer(total);
  }

  /** The positional path: every character must be a kanji digit, and the
      digits are read as a decimal number. */
  method ParsePositional(s: string) returns (r: KanjiParse)
    ensures r == if AllKanjiDigits(s) then Integer(DecimalValue(AsciiDigits(s))) else NoNumber
  {
    var res := "";
    for i := 0 to |s|
      invariant AllKanjiDigits(s[..i]) && res == AsciiDigits(s[..i])
    {
      if s[i] !in KanjiDigits {
        return NoNumber;
      }
      res := res + [DigitChar(KanjiDigits[s[i]])];
    }
    assert s[..|s|] == s;
    return Integer(DecimalValue(res));
  }

  /** The unit path: the three accumulators updated character by character. */
  method ParseWithUnits(s: string) returns (total: nat)
    ensures total == UnitValue(s)
  {
    var sectionVal, currentVal := 0, 0;
    total := 0;
    for i := 0 to |s|
      invariant Scan(Acc(0, 0, 0), s[..i]) == Acc(total, sectionVal, currentVal)
    {
      assert s[..i + 1][..i] == s[..i];
      var ch := s[i];
      if ch in KanjiDigits {
        currentVal := KanjiDigits[ch];
      } else if ch in SmallUnits {
        if currentVal == 0 {
          currentVal := 1;
        }
        sectionVal := sectionVal + currentVal * SmallUnits[ch];
        currentVal := 0;
      } else if ch in LargeUnits {
        if currentVal > 0 {
          sectionVal := sectionVal + currentVal;
        }
        if sectionVal == 0 && currentVal == 0 {
          sectionVal := 1;
        }
        total := total + sectionVal * LargeUnits[ch];
        sectionVal := 0;
        currentVal := 0;
      }
    }
    assert s[..|s|] == s;
    total := total + sectionVal + currentVal;
  }

  lemma {:induction false} ScanConcat(a: Acc, x: string, y: string)
    ensures Scan(a, x + y) == Scan(Scan(a, x), y)
    decreases |y|
  {
    if y == [] {
      assert x + y == x;
    } else {
      assert (x + y)[..|x + y| - 1] == x + y[..|y| - 1];
      ScanConcat(a, x, y[..|y| - 1]);
    }
  }

  /** A kanji digit is neither an ASCII digit, nor `.`, nor `・`, nor a unit. */
  lemma KanjiDigitChar(ch: char)
    requires ch in KanjiDigits
    ensures !IsDigit(ch) && ch != '.' && ch != '・'
    ensures ch !in {'十', '百', '千', '万', '億', '兆'}
  {
  }

  // ---- The positional path ----

  /** The kanji digits spelling the ASCII digits `d`. */
  function KanjiOf(d: string): (s: string)
    requires AllDigits(d)
    ensures |s| == |d| && AllKanjiDigits(s)
  {
    seq(|d|, i requires 0 <= i < |d| => KanjiDigit(DigitOf(d[i])))
  }

  /** Spelling a decimal numeral digit by digit in kanji and parsing it gives
      its value back, whenever the spelling takes the positional path. */
  lemma PositionalRoundTrip(d: string)
    requires AllDigits(d) && (|d| > 1 || '0' in d)
    ensures KanjiValue(KanjiOf(d)) == Integer(DecimalValue(d))
  {
    var s := KanjiOf(d);
    assert s[0] in KanjiDigits;
    KanjiDigitChar(s[0]);
    assert !AsciiNumeral(s);
    forall i | 0 <= i < |s| ensures s[i] != '・' && s[i] !in {'十', '百', '千', '万', '億', '兆'} {
      KanjiDigitChar(s[i]);
    }
    if '0' in d {
      var i :| 0 <= i < |d| && d[i] == '0';
      assert DigitOf(d[i]) == 0;
      assert s[i] == '〇';
    }
    assert IsPositional(s);
    var r := AsciiDigits(s);
    forall i | 0 <= i < |d| ensures r[i] == d[i] {
      DigitCharOf(d[i]);
    }
    assert r == d;
  }

  /** Every natural number, written digit by digit in kanji (二〇二四 for
      2024), parses back to itself; a single non-zero digit goes through the
      unit path and gives the same value. */
  lemma DigitsRoundTrip(n: nat)
    ensures KanjiValue(KanjiOf(Str(n))) == Integer(n)
  {
    StrValue(n);
    if n < 10 && n != 0 {
      var s := KanjiOf(Str(n));
      assert Str(n) == [DigitChar(n)];
      assert s == [KanjiDigit(n)];
      KanjiDigitChar(s[0]);
      assert [s[0]][..0] == [];
      assert Scan(Acc(0, 0, 0), s) == Acc(0, 0, n);
    } else {
      if n == 0 {
        assert Str(n) == [DigitChar(0)];
        assert Str(n)[0] == '0';
      } else {
        StrLength(n);
      }
      PositionalRoundTrip(Str(n));
    }
  }

  // ---- The unit path ----

  /** A digit before a small unit, with the 1 left unwritten (千, 二千). */
  function UnitTerm(d: nat, u: char): string
    requires d < 10
  {
    if d == 0 then "" else if d == 1 then [u] else [KanjiDigit(d), u]
  }

  /** The usual spelling of 1..9999 with 千百十 (千二百三十四). */
  function SectionKanji(m: nat): string
    requires m < 10000
  {
    UnitTerm(m / 1000, '千') + UnitTerm(m / 100 % 10, '百') + UnitTerm(m / 10 % 10, '十')
      + (if m % 10 == 0 then "" else [KanjiDigit(m % 10)])
  }

  /** A section followed by its large unit (一万, 二千億), or nothing. */
  function LargeTerm(m: nat, u: char): string
    requires m < 10000
  {
    if m == 0 then "" else SectionKanji(m) + [u]
  }

  /** Four sections (兆, 億, 万 and the rest) spelled one after the other. */
  function Spell(c: nat, q2: nat, q1: nat, r: nat): string
    requires c < 10000 && q2 < 10000 && q1 < 10000 && r < 10000
  {
    LargeTerm(c, '兆') + LargeTerm(q2, '億') + LargeTerm(q1, '万') + SectionKanji(r)
  }

  /** The usual kanji spelling of a number below 10^16. */
  function CanonicalKanji(n: nat): string
    requires n < 10000_0000_0000_0000
  {
    if n == 0 then "〇"
    else
      var a := n / 10000;
      var b := a / 10000;
      Spell(b / 10000, b % 10000, a % 10000, n % 10000)
  }

  lemma UnitTermScan(a: Acc, d: nat, u: char)
    requires d < 10 && u in SmallUnits && a.current == 0
    ensures Scan(a, UnitTerm(d, u)) == Acc(a.total, a.section + d * SmallUnits[u], 0)
  {
    NumeralTablesDisjoint(u);
    if d == 1 {
      assert [u][..0] == [];
    } else if d > 1 {
      var k := KanjiDigit(d);
      NumeralTablesDisjoint(k);
      assert KanjiDigits[k] == d;
      assert [k, u][..1] == [k] && [k][..0] == [];
      assert Scan(a, [k]) == a.(current := d);
    }
  }

  /** The section spelling, digit by digit. */
  lemma {:induction false} SectionPiecesScan(t: nat, d3: nat, d2: nat, d1: nat, d0: nat)
    requires d3 < 10 && d2 < 10 && d1 < 10 && d0 < 10
    ensures var p0: string := if d0 == 0 then "" else [KanjiDigit(d0)];
      Scan(Acc(t, 0, 0), UnitTerm(d3, '千') + UnitTerm(d2, '百') + UnitTerm(d1, '十') + p0)
        == Acc(t, d3 * 1000 + d2 * 100 + d1 * 10, d0)
  {
    var p3, p2, p1 := UnitTerm(d3, '千'), UnitTerm(d2, '百'), UnitTerm(d1, '十');
    var p0: string := if d0 == 0 then "" else [KanjiDigit(d0)];
    var a0 := Acc(t, 0, 0);
    var a3 := Acc(t, d3 * 1000, 0);
    var a2 := Acc(t, d3 * 1000 + d2 * 100, 0);
    var a1 := Acc(t, d3 * 1000 + d2 * 100 + d1 * 10, 0);
    UnitTermScan(a0, d3, '千');
    assert Scan(a0, p3) == a3;
    UnitTermScan(a3, d2, '百');
    assert Scan(a3, p2) == a2;
    UnitTermScan(a2, d1, '十');
    assert Scan(a2, p1) == a1;
    DigitScan(a1, d0);
    assert Scan(a1, p0) == a1.(current := d0);
    ScanConcat(a0, p3, p2);
    ScanConcat(a0, p3 + p2, p1);
    ScanConcat(a0, p3 + p2 + p1, p0);
  }

  /** The units digit of a section. */
  lemma DigitScan(a: Acc, d: nat)
    requires d < 10
    ensures Scan(a, if d == 0 then "" else [KanjiDigit(d)]) == a.(current := if d == 0 then a.current else d)
  {
    if d != 0 {
      var k := KanjiDigit(d);
      assert KanjiDigits[k] == d;
      assert [k][..0] == [];
    }
  }

  lemma SectionDigits(m: nat)
    requires m < 10000
    ensures m == m / 1000 * 1000 + m / 100 % 10 * 100 + m / 10 % 10 * 10 + m % 10
    ensures m / 1000 < 10
  {
    var q := m / 10;
    assert m == q * 10 + m % 10;
    assert q == q / 10 * 10 + q % 10;
    assert q / 10 == m / 100;
    assert m / 100 == m / 100 / 10 * 10 + m / 100 % 10;
    assert m / 100 / 10 == m / 1000;
  }

  lemma SectionScan(t: nat, m: nat)
    requires m < 10000
    ensures Scan(Acc(t, 0, 0), SectionKanji(m)) == Acc(t, m - m % 10, m % 10)
  {
    SectionDigits(m);
    SectionPiecesScan(t, m / 1000, m / 100 % 10, m / 10 % 10, m % 10);
  }

  lemma LargeTermScan(t: nat, m: nat, u: char)
    requires m < 10000 && u in LargeUnits
    ensures Scan(Acc(t, 0, 0), LargeTerm(m, u)) == Acc(t + m * LargeUnits[u], 0, 0)
  {
    if m > 0 {
      var a := Acc(t, m - m % 10, m % 10);
      SectionScan(t, m);
      ScanConcat(Acc(t, 0, 0), SectionKanji(m), [u]);
      NumeralTablesDisjoint(u);
      assert [u][..0] == [];
      assert Scan(a, [u]) == Step(a, u);
      assert Step(a, u) == Acc(t + m * LargeUnits[u], 0, 0);
    }
  }

  lemma {:induction false} SpellScan(c: nat, q2: nat, q1: nat, r: nat)
    requires c < 10000 && q2 < 10000 && q1 < 10000 && r < 10000
    ensures UnitValue(Spell(c, q2, q1, r)) == c * 1000000000000 + q2 * 100000000 + q1 * 10000 + r
  {
    var l3, l2, l1, s0 := LargeTerm(c, '兆'), LargeTerm(q2, '億'), LargeTerm(q1, '万'), SectionKanji(r);
    var t3 := c * 1000000000000;
    var t2 := t3 + q2 * 100000000;
    var t1 := t2 + q1 * 10000;
    var a0 := Acc(0, 0, 0);
    LargeTermScan(0, c, '兆');
    assert Scan(a0, l3) == Acc(t3, 0, 0);
    LargeTermScan(t3, q2, '億');
    assert Scan(Acc(t3, 0, 0), l2) == Acc(t2, 0, 0);
    LargeTermScan(t2, q1, '万');
    assert Scan(Acc(t2, 0, 0), l1) == Acc(t1, 0, 0);
    SectionScan(t1, r);
    assert Scan(Acc(t1, 0, 0), s0) == Acc(t1, r - r % 10, r % 10);
    ScanConcat(a0, l3, l2);
    ScanConcat(a0, l3 + l2, l1);
    ScanConcat(a0, l3 + l2 + l1, s0);
    assert Scan(a0, Spell(c, q2, q1, r)) == Acc(t1, r - r % 10, r % 10);
  }

  predicate CanonicalChar(ch: char)
  {
    (ch in KanjiDigits && ch != '〇') || ch in SmallUnits || ch in LargeUnits
  }

  predicate AllCanonical(s: string)
  {
    forall i :: 0 <= i < |s| ==> CanonicalChar(s[i])
  }

  lemma UnitTermChars(d: nat, u: char)
    requires d < 10 && u in SmallUnits
    ensures AllCanonical(UnitTerm(d, u))
    ensures d != 0 ==> UnitTerm(d, u)[|UnitTerm(d, u)| - 1] == u
  {
    if d > 1 {
      assert DigitValue(KanjiDigit(d)) == d;
    }
  }

  lemma {:induction false} SectionPiecesChars(d3: nat, d2: nat, d1: nat, d0: nat)
    requires d3 < 10 && d2 < 10 && d1 < 10 && d0 < 10
    ensures var s := UnitTerm(d3, '千') + UnitTerm(d2, '百') + UnitTerm(d1, '十') + (if d0 == 0 then "" else [KanjiDigit(d0)]);
      && AllCanonical(s)
      && (d3 != 0 || d2 != 0 || d1 != 0 ==> HasUnitChar(s))
  {
    var p3, p2, p1 := UnitTerm(d3, '千'), UnitTerm(d2, '百'), UnitTerm(d1, '十');
    var p0: string := if d0 == 0 then "" else [KanjiDigit(d0)];
    var s := p3 + p2 + p1 + p0;
    UnitTermChars(d3, '千');
    UnitTermChars(d2, '百');
    UnitTermChars(d1, '十');
    if d0 != 0 {
      assert DigitValue(KanjiDigit(d0)) == d0;
    }
    assert AllCanonical(s);
    if d1 != 0 {
      assert s[|p3| + |p2| + |p1| - 1] == '十';
    } else if d2 != 0 {
      assert s[|p3| + |p2| - 1] == '百';
    } else if d3 != 0 {
      assert s[|p3| - 1] == '千';
    }
  }

  lemma SectionChars(m: nat)
    requires m < 10000
    ensures AllCanonical(SectionKanji(m))
    ensures 10 <= m ==> HasUnitChar(SectionKanji(m))
    ensures 0 < m < 10 ==> SectionKanji(m) == [KanjiDigit(m)]
  {
    SectionDigits(m);
    SectionPiecesChars(m / 1000, m / 100 % 10, m / 10 % 10, m % 10);
  }

  lemma LargeTermChars(m: nat, u: char)
    requires m < 10000 && u in LargeUnits
    ensures AllCanonical(LargeTerm(m, u))
    ensures m != 0 ==> LargeTerm(m, u)[|LargeTerm(m, u)| - 1] == u
  {
    SectionChars(m);
  }

  lemma SpellChars(c: nat, q2: nat, q1: nat, r: nat)
    requires c < 10000 && q2 < 10000 && q1 < 10000 && r < 10000
    ensures AllCanonical(Spell(c, q2, q1, r))
  {
    var l3, l2, l1, s0 := LargeTerm(c, '兆'), LargeTerm(q2, '億'), LargeTerm(q1, '万'), SectionKanji(r);
    LargeTermChars(c, '兆');
    LargeTermChars(q2, '億');
    LargeTermChars(q1, '万');
    SectionChars(r);
    assert Spell(c, q2, q1, r) == l3 + l2 + l1 + s0;
  }

  lemma {:induction false} SpellShape(c: nat, q2: nat, q1: nat, r: nat)
    requires c < 10000 && q2 < 10000 && q1 < 10000 && r < 10000
    ensures c == 0 && q2 == 0 && q1 == 0 && 0 < r < 10 ==> Spell(c, q2, q1, r) == [KanjiDigit(r)]
    ensures c != 0 || q2 != 0 || q1 != 0 || 10 <= r ==> HasUnitChar(Spell(c, q2, q1, r))
  {
    var l3, l2, l1, s0 := LargeTerm(c, '兆'), LargeTerm(q2, '億'), LargeTerm(q1, '万'), SectionKanji(r);
    var s := l3 + l2 + l1 + s0;
    assert Spell(c, q2, q1, r) == s;
    if q1 != 0 {
      LargeTermChars(q1, '万');
      assert s[|l3| + |l2| + |l1| - 1] == '万';
    } else if q2 != 0 {
      LargeTermChars(q2, '億');
      assert s[|l3| + |l2| - 1] == '億';
    } else if c != 0 {
      LargeTermChars(c, '兆');
      assert s[|l3| - 1] == '兆';
    } else {
      SectionChars(r);
      assert s == s0;
      if 10 <= r {
        var i :| 0 <= i < |s0| && s0[i] in {'十', '百', '千', '万', '億', '兆'};
        assert s[i] == s0[i];
      }
    }
  }

  lemma Chunks(n: nat, a: nat, b: nat)
    requires n < 10000_0000_0000_0000 && a == n / 10000 && b == a / 10000
    ensures b / 10000 < 10000
    ensures n == b / 10000 * 1000000000000 + b % 10000 * 100000000 + a % 10000 * 10000 + n % 10000
  {
    assert n == a * 10000 + n % 10000;
    assert a == b * 10000 + a % 10000;
    assert b == b / 10000 * 10000 + b % 10000;
  }

  /** A spelling that is not all zeros takes the unit path. */
  lemma SpellValue(c: nat, q2: nat, q1: nat, r: nat)
    requires c < 10000 && q2 < 10000 && q1 < 10000 && r < 10000
    requires c != 0 || q2 != 0 || q1 != 0 || r != 0
    ensures KanjiValue(Spell(c, q2, q1, r)) == Integer(c * 1000000000000 + q2 * 100000000 + q1 * 10000 + r)
  {
    SpellUnitPath(c, q2, q1, r);
    SpellScan(c, q2, q1, r);
  }

  lemma SpellUnitPath(c: nat, q2: nat, q1: nat, r: nat)
    requires c < 10000 && q2 < 10000 && q1 < 10000 && r < 10000
    requires c != 0 || q2 != 0 || q1 != 0 || r != 0
    ensures KanjiValue(Spell(c, q2, q1, r)) == Integer(UnitValue(Spell(c, q2, q1, r)))
  {
    var s := Spell(c, q2, q1, r);
    SpellChars(c, q2, q1, r);
    SpellShape(c, q2, q1, r);
    assert |s| == 1 || HasUnitChar(s) by {
      if c == 0 && q2 == 0 && q1 == 0 && r < 10 {
        assert s == [KanjiDigit(r)];
      }
    }
    CanonicalUnitPath(s);
  }

  /** A numeral made of non-zero digits and units, with a unit or a single
      character, takes the unit path. */
  lemma CanonicalUnitPath(s: string)
    requires AllCanonical(s) && (|s| == 1 || HasUnitChar(s))
    ensures KanjiValue(s) == Integer(UnitValue(s))
  {
    assert s != [];
    assert !AsciiNumeral(s) by {
      assert CanonicalChar(s[0]);
    }
    assert '〇' !in s && '・' !in s by {
      forall i | 0 <= i < |s| ensures s[i] != '〇' && s[i] != '・' {
        assert CanonicalChar(s[i]);
      }
    }
    assert !IsPositional(s);
  }

  lemma ZeroRoundTrip()
    ensures KanjiValue("〇") == Integer(0)
  {
    assert "〇"[0] == '〇';
    assert AsciiDigits("〇") == "0";
    assert DecimalValue("0") == DecimalValue("") * 10 + 0;
  }

  /** Every number below 10^16 spelled the usual way with 十百千 and 万億兆
      (千二百三十四, 一万五千) parses back to itself. */
  lemma CanonicalRoundTrip(n: nat)
    requires n < 10000_0000_0000_0000
    ensures KanjiValue(CanonicalKanji(n)) == Integer(n)
  {
    if n == 0 {
      ZeroRoundTrip();
    } else {
      var a := n / 10000;
      var b := a / 10000;
      Chunks(n, a, b);
      var c3, c2, c1, c0 := b / 10000, b % 10000, a % 10000, n % 10000;
      assert CanonicalKanji(n) == Spell(c3, c2, c1, c0);
      assert c3 != 0 || c2 != 0 || c1 != 0 || c0 != 0;
      SpellValue(c3, c2, c1, c0);
    }
  }

  /** Worked values of the parser, among them the numerals of the converter's
      own example sentences (一万五千円, 千二百三十四倍, 七百五十ミリメートル). */
  lemma ExampleSmallUnit()
    ensures KanjiValue("十") == Integer(10)
  {
    assert SectionKanji(10) == UnitTerm(1, '十');
    assert Spell(0, 0, 0, 10) == "十";
    SpellValue(0, 0, 0, 10);
  }

  lemma ExampleLargeUnit()
    ensures KanjiValue("万") == Integer(10000)
  {
    var s: string := "万";
    assert s[0] in LargeUnits;
    assert HasUnitChar(s) && AllCanonical(s);
    CanonicalUnitPath(s);
    assert s[..0] == [];
    assert Scan(Acc(0, 0, 0), s) == Acc(10000, 0, 0);
  }

  lemma Example1234()
    ensures KanjiValue("千二百三十四") == Integer(1234)
  {
    assert SectionKanji(1234) == "千二百三十四";
    assert Spell(0, 0, 0, 1234) == "千二百三十四";
    SpellValue(0, 0, 0, 1234);
  }

  lemma Example15000()
    ensures KanjiValue("一万五千") == Integer(15000)
  {
    assert SectionKanji(1) == "一";
    assert SectionKanji(5000) == "五千";
    assert Spell(0, 0, 1, 5000) == "一万五千";
    SpellValue(0, 0, 1, 5000);
  }

  lemma Example750()
    ensures KanjiValue("七百五十") == Integer(750)
  {
    assert SectionKanji(750) == "七百五十";
    assert Spell(0, 0, 0, 750) == "七百五十";
    SpellValue(0, 0, 0, 750);
  }

  lemma Example2024()
    ensures KanjiValue("二〇二四") == Integer(2024)
  {
    var k := KanjiOf("2024");
    assert DigitOf('2') == 2 && DigitOf('0') == 0 && DigitOf('4') == 4;
    assert k[0] == '二' && k[1] == '〇' && k[2] == '二' && k[3] == '四';
    assert k == "二〇二四";
    PositionalRoundTrip("2024");
    assert "2024"[..3] == "202" && "202"[..2] == "20" && "20"[..1] == "2" && "2"[..0] == "";
    assert DecimalValue("2024") == 2024;
  }

  lemma ExampleRejected()
    ensures KanjiValue("二〇a") == NoNumber
  {
    var s: string := "二〇a";
    assert s[1] == '〇' && s[2] !in KanjiDigits;
    assert !AsciiNumeral(s) by {
      assert !IsDigit(s[0]);
    }
  }
}
