/** The constant tables of the kanji-numeral converter: digits, the small
    units 十百千, the large units 万億兆, and the unit-name prefixes, bases and
    modifiers. Python dictionaries are iterated in insertion order, so the
    two tables the converter scans in order are kept as ordered sequences. */
module KanjiTables {

  /** `KANJI_MAP`. */
  const KanjiDigits: map<char, nat> := map[
    '〇' := 0, '一' := 1, '二' := 2, '三' := 3, '四' := 4,
    '五' := 5, '六' := 6, '七' := 7, '八' := 8, '九' := 9]

  /** `UNIT_SMALL`. */
  const SmallUnits: map<char, nat> := map['十' := 10, '百' := 100, '千' := 1000]

  /** `UNIT_LARGE`. */
  const LargeUnits: map<char, nat> := map['万' := 10000, '億' := 100000000, '兆' := 1000000000000]

  /** `UNIT_PREFIXES`, in insertion order. */
  const UnitPrefixes: seq<(string, string)> := [
    ("ギガ", "G"), ("メガ", "M"), ("キロ", "k"), ("センチ", "c"), ("ミリ", "m")]

  /** `UNIT_BASES`: physical units become symbols, counters stay as they are. */
  const UnitBases: map<string, string> := map[
    "メートル" := "m",
    "メートル毎時" := "m/h",
    "メートル毎分" := "m/min",
    "メートル毎秒" := "m/s",
    "メートル毎秒毎秒" := "m/s²",
    "グラム" := "g",
    "トン" := "t",
    "リットル" := "L",
    "ニュートン" := "N",
    "ジュール" := "J",
    "ワット" := "W",
    "パーセント" := "%",
    "パスカル" := "Pa",
    "ルクス" := "lx",
    "グレイ" := "Gy",
    "デシベル" := "dB",
    "オーム" := "Ω",
    "ヘクタール" := "ha",
    "倍" := "倍", "枚" := "枚", "回" := "回",
    "個" := "個", "点" := "点", "冊" := "冊"]

  /** `UNIT_MODIFIERS`, in insertion order. */
  const UnitModifiers: seq<(string, string)> := [("平方", "²"), ("立方", "³")]

  /** The value of a kanji digit. */
  function DigitValue(ch: char): (d: nat)
    requires ch in KanjiDigits
    ensures d < 10 && (d == 0 <==> ch == '〇')
  {
    KanjiDigits[ch]
  }

  /** The kanji for a digit, the inverse of `DigitValue`. */
  function KanjiDigit(d: nat): (ch: char)
    requires d < 10
    ensures ch in KanjiDigits && DigitValue(ch) == d
  {
    "〇一二三四五六七八九"[d]
  }

  /** No character is in two of the three numeral tables. */
  lemma NumeralTablesDisjoint(ch: char)
    ensures !(ch in KanjiDigits && ch in SmallUnits)
    ensures !(ch in KanjiDigits && ch in LargeUnits)
    ensures !(ch in SmallUnits && ch in LargeUnits)
  {
  }

  /** Every key of the modifier and prefix tables is non-empty. */
  lemma AffixKeysNonEmpty()
    ensures forall i :: 0 <= i < |UnitModifiers| ==> UnitModifiers[i].0 != ""
    ensures forall i :: 0 <= i < |UnitPrefixes| ==> UnitPrefixes[i].0 != ""
  {
  }
}
