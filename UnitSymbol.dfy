/** `convert_unit_to_symbol`: a unit name such as 平方キロメートル becomes
    its symbol (km²) by stripping at most one modifier, then at most one
    prefix, and looking the rest up among the base units. A name whose rest
    is not a base unit comes back unchanged. */
module UnitSymbol {
  import opened KanjiTables

  /** The position of the first entry whose key starts `s`, or `|table|`
      when no key does: the entry the source's `for … break` loop stops at. */
  function FirstKey(table: seq<(string, string)>, s: string): (i: nat)
    ensures i <= |table|
    ensures i < |table| ==> table[i].0 <= s
    ensures forall j :: 0 <= j < i ==> !(table[j].0 <= s)
  {
    if table == [] then 0
    else if table[0].0 <= s then 0
    else 1 + FirstKey(table[1..], s)
  }

  /** The key at position `i`, the empty string standing for "no entry". */
  function KeyOf(table: seq<(string, string)>, i: nat): string
  {
    if i < |table| then table[i].0 else ""
  }

  /** The value at position `i`, the empty string standing for "no entry". */
  function ValOf(table: seq<(string, string)>, i: nat): string
  {
    if i < |table| then table[i].1 else ""
  }

  /** What is left of `s` after the first matching key, and that key's value. */
  function Strip(table: seq<(string, string)>, s: string): (r: (string, string))
    ensures s == KeyOf(table, FirstKey(table, s)) + r.0
    ensures r.1 == ValOf(table, FirstKey(table, s))
  {
    var i := FirstKey(table, s);
    if i < |table| then (s[|table[i].0|..], table[i].1) else (s, "")
  }

  /** What `convert_unit_to_symbol` returns. */
  function UnitSymbolOf(u: string): string
  {
    var (afterModifier, suffix) := Strip(UnitModifiers, u);
    var (base, prefix) := Strip(UnitPrefixes, afterModifier);
    if base in UnitBases then prefix + UnitBases[base] + suffix else u
  }

  /** The first scan: the first modifier that starts `u`, removed. */
  method StripModifier(u: string) returns (current: string, suffix: string)
    ensures (current, suffix) == Strip(UnitModifiers, u)
  {
    current, suffix := u, "";
    var i := 0;
    while i < |UnitModifiers|
      invariant i <= |UnitModifiers|
      invariant forall j :: 0 <= j < i ==> !(UnitModifiers[j].0 <= u)
      invariant current == u && suffix == ""
    {
      var (key, val) := UnitModifiers[i];
      if key <= current {
        suffix := val;
        current := current[|key|..];
        assert FirstKey(UnitModifiers, u) == i;
        break;
      }
      i := i + 1;
    }
  }

  /** The second scan: the first prefix that starts `current`, removed. */
  method StripPrefix(s: string) returns (current: string, prefix: string)
    ensures (current, prefix) == Strip(UnitPrefixes, s)
  {
    current, prefix := s, "";
    var i := 0;
    while i < |UnitPrefixes|
      invariant i <= |UnitPrefixes|
      invariant forall j :: 0 <= j < i ==> !(UnitPrefixes[j].0 <= s)
      invariant current == s && prefix == ""
    {
      var (key, val) := UnitPrefixes[i];
      if key <= current {
        prefix := val;
        current := current[|key|..];
        assert FirstKey(UnitPrefixes, s) == i;
        break;
      }
      i := i + 1;
    }
  }

  /** `convert_unit_to_symbol`, step by step. */
  method ConvertUnitToSymbol(u: string) returns (r: string)
    ensures r == UnitSymbolOf(u)
  {
    var current, suffix := StripModifier(u);
    var base, prefix := StripPrefix(current);
    if base in UnitBases {
      r := prefix + UnitBases[base] + suffix;
    } else {
      r := u;
    }
  }

  // ---- The names the conversion accepts ----

  /** No key of the table starts `t`. */
  lemma StripNone(table: seq<(string, string)>, t: string)
    requires forall j :: 0 <= j < |table| ==> !(table[j].0 <= t)
    ensures Strip(table, t) == (t, "")
  {
    var i := FirstKey(table, t);
    assert i == |table| by {
      if i < |table| {
        assert false;
      }
    }
  }

  /** The entry at `i` is stripped from `table[i].0 + t` when every earlier
      key starts with a different character. */
  lemma StripEntry(table: seq<(string, string)>, i: nat, t: string)
    requires i < |table| && table[i].0 != ""
    requires forall j :: 0 <= j < i ==> table[j].0 != "" && table[j].0[0] != table[i].0[0]
    ensures Strip(table, table[i].0 + t) == (t, table[i].1)
  {
    var s := table[i].0 + t;
    var k := FirstKey(table, s);
    assert table[i].0 <= s;
    assert s[0] == table[i].0[0];
    assert k == i by {
      if k < i {
        assert false;
      }
    }
    assert s[|table[i].0|..] == t;
  }

  /** The characters the modifier and prefix keys begin with. */
  predicate AffixStart(ch: char)
  {
    ch in {'平', '立', 'ギ', 'メ', 'キ', 'セ', 'ミ'}
  }

  /** No base unit is mistaken for a modifier or a prefix: none starts with
      平, 立, ギ, キ, セ or ミ, and those starting with メ continue with ー,
      not with the ガ of メガ. */
  lemma BasesStart(b: string)
    requires b in UnitBases
    ensures b != ""
    ensures AffixStart(b[0]) ==> b[0] == 'メ' && |b| > 1 && b[1] == 'ー'
  {
  }

  /** No key of the table starts `t` when none begins with `t`'s first character. */
  lemma NoKeyStarts(table: seq<(string, string)>, t: string)
    requires t != ""
    requires forall j :: 0 <= j < |table| ==> table[j].0 != "" && table[j].0[0] != t[0]
    ensures Strip(table, t) == (t, "")
  {
    forall j | 0 <= j < |table|
      ensures !(table[j].0 <= t)
    {
      assert table[j].0[0] != t[0];
    }
    StripNone(table, t);
  }

  /** No modifier key starts a string that begins with neither 平 nor 立. */
  lemma NoModifierStarts(t: string)
    requires t != "" && t[0] != '平' && t[0] != '立'
    ensures Strip(UnitModifiers, t) == (t, "")
  {
    AffixKeysNonEmpty();
    NoKeyStarts(UnitModifiers, t);
  }

  /** No prefix key starts a base unit. */
  lemma NoPrefixStarts(b: string)
    requires b in UnitBases
    ensures Strip(UnitPrefixes, b) == (b, "")
  {
    BasesStart(b);
    forall j | 0 <= j < |UnitPrefixes|
      ensures !(UnitPrefixes[j].0 <= b)
    {
      var key := UnitPrefixes[j].0;
      assert |key| >= 2 && (key[0] != b[0] || (|b| > 1 && key[1] != b[1]));
    }
    StripNone(UnitPrefixes, b);
  }

  /** The prefix step: an optional prefix (`p == |UnitPrefixes|` for none)
      in front of a base unit is stripped, leaving the base. */
  lemma PrefixStep(p: nat, b: string)
    requires p <= |UnitPrefixes| && b in UnitBases
    ensures Strip(UnitPrefixes, KeyOf(UnitPrefixes, p) + b) == (b, ValOf(UnitPrefixes, p))
  {
    if p < |UnitPrefixes| {
      AffixKeysNonEmpty();
      StripEntry(UnitPrefixes, p, b);
    } else {
      assert KeyOf(UnitPrefixes, p) + b == b;
      NoPrefixStarts(b);
    }
  }

  /** The modifier step: an optional modifier in front of `t` is stripped
      when `t` starts with neither 平 nor 立. */
  lemma ModifierStep(m: nat, t: string)
    requires m <= |UnitModifiers| && t != "" && t[0] != '平' && t[0] != '立'
    ensures Strip(UnitModifiers, KeyOf(UnitModifiers, m) + t) == (t, ValOf(UnitModifiers, m))
  {
    if m < |UnitModifiers| {
      AffixKeysNonEmpty();
      StripEntry(UnitModifiers, m, t);
    } else {
      assert KeyOf(UnitModifiers, m) + t == t;
      NoModifierStarts(t);
    }
  }

  /** Every name built from an optional modifier, an optional prefix and a
      base unit becomes the prefix's symbol, the base's symbol and the
      modifier's symbol, in that order. */
  lemma UnitSymbolGrammar(m: nat, p: nat, b: string, u: string, r: string)
    requires m <= |UnitModifiers| && p <= |UnitPrefixes| && b in UnitBases
    requires u == KeyOf(UnitModifiers, m) + KeyOf(UnitPrefixes, p) + b
    requires r == ValOf(UnitPrefixes, p) + UnitBases[b] + ValOf(UnitModifiers, m)
    ensures UnitSymbolOf(u) == r
  {
    var t := KeyOf(UnitPrefixes, p) + b;
    BasesStart(b);
    assert t != "" && t[0] != '平' && t[0] != '立' by {
      if p < |UnitPrefixes| {
        assert t[0] == UnitPrefixes[p].0[0];
      } else {
        assert t == b;
      }
    }
    assert u == KeyOf(UnitModifiers, m) + t;
    ModifierStep(m, t);
    assert Strip(UnitModifiers, u) == (t, ValOf(UnitModifiers, m));
    PrefixStep(p, b);
    assert Strip(UnitPrefixes, t) == (b, ValOf(UnitPrefixes, p));
  }

  /** Conversely, a name the conversion changes is such a composition, and
      every other name comes back as it was. */
  lemma UnitSymbolComplete(u: string)
    ensures UnitSymbolOf(u) == u || exists m: nat, p: nat, b: string ::
      m <= |UnitModifiers| && p <= |UnitPrefixes| && b in UnitBases &&
      u == KeyOf(UnitModifiers, m) + KeyOf(UnitPrefixes, p) + b &&
      UnitSymbolOf(u) == ValOf(UnitPrefixes, p) + UnitBases[b] + ValOf(UnitModifiers, m)
  {
    var (afterModifier, suffix) := Strip(UnitModifiers, u);
    var (base, prefix) := Strip(UnitPrefixes, afterModifier);
    if base in UnitBases {
      var m := FirstKey(UnitModifiers, u);
      var p := FirstKey(UnitPrefixes, afterModifier);
      assert u == KeyOf(UnitModifiers, m) + KeyOf(UnitPrefixes, p) + base;
    }
  }

  /** 平方キロメートル is km². */
  lemma ExampleSquareKilometre(u: string)
    requires u == "平方キロメートル"
    ensures UnitSymbolOf(u) == "km²"
  {
    UnitSymbolGrammar(0, 2, "メートル", u, "km²");
  }

  /** ミリメートル is mm. */
  lemma ExampleMillimetre(u: string)
    requires u == "ミリメートル"
    ensures UnitSymbolOf(u) == "mm"
  {
    UnitSymbolGrammar(2, 4, "メートル", u, "mm");
  }

  /** キロメートル毎時 is km/h. */
  lemma ExampleKilometrePerHour(u: string)
    requires u == "キロメートル毎時"
    ensures UnitSymbolOf(u) == "km/h"
  {
    UnitSymbolGrammar(2, 2, "メートル毎時", u, "km/h");
  }

  /** 立方メートル is m³. */
  lemma ExampleCubicMetre(u: string)
    requires u == "立方メートル"
    ensures UnitSymbolOf(u) == "m³"
  {
    UnitSymbolGrammar(1, 5, "メートル", u, "m³");
  }

  /** A counter keeps its name. */
  lemma ExampleCounter(u: string)
    requires u == "倍"
    ensures UnitSymbolOf(u) == "倍"
  {
    UnitSymbolGrammar(2, 5, "倍", u, "倍");
  }

  /** ヤード starts with no key and is no base unit. */
  lemma ExampleUnknown(u: string)
    requires u == "ヤード"
    ensures UnitSymbolOf(u) == u
  {
    NoModifierStarts(u);
    NoKeyStarts(UnitPrefixes, u);
  }

  /** Only one modifier is stripped: a name with two modifiers in front
      comes back unchanged, whatever follows them. */
  lemma OneModifierOnly(i: nat, j: nat, b: string, u: string)
    requires i < |UnitModifiers| && j < |UnitModifiers|
    requires u == UnitModifiers[i].0 + UnitModifiers[j].0 + b
    ensures UnitSymbolOf(u) == u
  {
    var t := UnitModifiers[j].0 + b;
    assert u == UnitModifiers[i].0 + t;
    StripEntry(UnitModifiers, i, t);
    assert t[0] == '平' || t[0] == '立';
    NoKeyStarts(UnitPrefixes, t);
    if t in UnitBases {
      BasesStart(t);
      assert false;
    }
  }

  /** 平方平方メートル comes back unchanged. */
  lemma ExampleDoubledModifier(u: string)
    requires u == "平方平方メートル"
    ensures UnitSymbolOf(u) == u
  {
    OneModifierOnly(0, 0, "メートル", u);
  }
}
