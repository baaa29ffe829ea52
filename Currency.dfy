/** `format_currency` on integers: the amount written in base-10000 chunks,
    each comma-grouped and followed by its unit (1億2,345万6,789). */
module Currency {
  import opened Text
  import opened Decimal
  import opened KanjiTables

  /** The unit written after each chunk, from the lowest chunk up: none, 万,
      億, 兆. */
  const Units: seq<string> := ["", "万", "億", "兆"]

  /** 2^1024 - 2^970, written in hexadecimal as (2^56 - 4) * 16^242: the
      midpoint between the largest double (2^1024 - 2^971) and 2^1024. An
      integer of at least this magnitude, of either sign, rounds to 2^1024
      and so cannot be converted to a float. */
  const FloatLimit: int := 0xfffffffffffffc00_0000000000000000_0000000000000000_0000000000000000_0000000000000000_0000000000000000_0000000000000000_0000000000000000_0000000000000000_0000000000000000_0000000000000000_0000000000000000_0000000000000000_0000000000000000_0000000000000000_0000000000000000

  /** The formatted amount; the `IndexError` Python raises when a non-zero
      chunk lies beyond the last unit; or the `OverflowError` raised when the
      integer cannot be converted to a float for the integrality test. */
  datatype Formatted = Shown(text: string) | UnitIndexError | FloatOverflow

  /** 10000 to the power `idx`: the weight of the chunk at position `idx`. */
  function ChunkWeight(idx: nat): (w: nat)
    ensures w >= 1
  {
    if idx == 0 then 1 else 10000 * ChunkWeight(idx - 1)
  }

  /** The text for the chunks of `n` counted from position `idx`, most
      significant first, zero chunks left out; none when a non-zero chunk has
      no unit. */
  function ChunkText(n: nat, idx: nat): Option<string>
    decreases n
  {
    if n == 0 then Some("")
    else
      var rest := ChunkText(n / 10000, idx + 1);
      var chunk := n % 10000;
      if chunk == 0 then rest
      else if idx >= |Units| || rest.None? then None
      else Some(rest.value + Grouped(chunk) + Units[idx])
  }

  /** What `format_currency` returns for an integer. */
  function CurrencyText(num: int): Formatted
  {
    if num == 0 then Shown("0")
    else if num >= FloatLimit || num <= -FloatLimit then FloatOverflow
    else if num < 0 then Shown("")
    else match ChunkText(num, 0)
      case None => UnitIndexError
      case Some(t) => Shown(t)
  }

  function Append(o: Option<string>, t: string): Option<string>
  {
    if o.None? then None else Some(o.value + t)
  }

  lemma AppendEmpty(o: Option<string>)
    ensures Append(o, "") == o
  {
    if o.Some? {
      assert o.value + "" == o.value;
      assert o == Some(o.value);
    }
  }

  lemma AppendAppend(o: Option<string>, t: string, u: string)
    ensures Append(Append(o, t), u) == Append(o, t + u)
  {
    if o.Some? {
      assert o.value + t + u == o.value + (t + u);
    }
  }

  lemma JoinNoSepCons(p: string, ps: seq<string>)
    ensures Join([p] + ps, "") == p + Join(ps, "")
  {
    if ps == [] {
      assert [p] + ps == [p];
    } else {
      JoinCons(p, ps, "");
    }
  }

  /** `format_currency`, on an integer argument, as the loop of the source. */
  method FormatCurrency(num: int) returns (r: Formatted)
    ensures r == CurrencyText(num)
  {
    if num == 0 {
      return Shown("0");
    }
    if num >= FloatLimit || num <= -FloatLimit {
      return FloatOverflow;
    }
    var parts: seq<string> := [];
    var n := num;
    var unitIndex: nat := 0;
    assert Join(parts, "") == "";
    if num > 0 {
      AppendEmpty(ChunkText(num, 0));
    }
    while n > 0
      invariant num < 0 ==> n == num && parts == []
      invariant num > 0 ==> 0 <= n && ChunkText(num, 0) == Append(ChunkText(n, unitIndex), Join(parts, ""))
    {
      var chunk := n % 10000;
      ghost var rest := ChunkText(n / 10000, unitIndex + 1);
      if chunk > 0 {
        if unitIndex >= |Units| {
          return UnitIndexError;
        }
        var piece := Grouped(chunk) + Units[unitIndex];
        JoinNoSepCons(piece, parts);
        assert ChunkText(n, unitIndex) == Append(rest, piece) by {
          if rest.Some? {
            assert rest.value + Grouped(chunk) + Units[unitIndex] == rest.value + piece;
          }
        }
        AppendAppend(rest, piece, Join(parts, ""));
        parts := [piece] + parts;
      } else {
        assert ChunkText(n, unitIndex) == rest;
      }
      n := n / 10000;
      unitIndex := unitIndex + 1;
    }
    return Shown(Join(parts, ""));
  }

  // ---- When the formatter fails ----

  /** Beyond the last unit every non-zero amount fails. */
  lemma {:induction false} ChunkErrorHigh(n: nat, idx: nat)
    requires idx >= |Units|
    ensures ChunkText(n, idx).None? <==> n > 0
    decreases n
  {
    if n > 0 && n % 10000 == 0 {
      ChunkErrorHigh(n / 10000, idx + 1);
    }
  }

  /** From position `idx` on, the chunks fail exactly when the amount needs a
      position past the last unit. */
  lemma {:induction false} ChunkErrorIff(n: nat, idx: nat)
    requires idx <= |Units|
    ensures ChunkText(n, idx).None? <==> n >= ChunkWeight(|Units| - idx)
    decreases |Units| - idx
  {
    if idx == |Units| {
      ChunkErrorHigh(n, idx);
    } else if n > 0 {
      ChunkErrorIff(n / 10000, idx + 1);
      assert ChunkWeight(|Units| - idx) == 10000 * ChunkWeight(|Units| - (idx + 1));
    }
  }

  /** The formatter runs out of units exactly on amounts from 10^16 up to
      the float limit, and overflows exactly on amounts of at least the float
      limit in magnitude. */
  lemma CurrencyErrorIff(num: int)
    ensures CurrencyText(num) == UnitIndexError <==> 10000_0000_0000_0000 <= num < FloatLimit
    ensures CurrencyText(num) == FloatOverflow <==> num >= FloatLimit || num <= -FloatLimit
  {
    if 0 < num < FloatLimit {
      ChunkErrorIff(num, 0);
      assert ChunkWeight(4) == 10000_0000_0000_0000 by {
        assert ChunkWeight(2) == 100000000;
      }
    }
  }

  // ---- The shape of the text ----

  /** The piece a chunk contributes: nothing for a zero chunk. */
  function Piece(c: nat, idx: nat): string
    requires idx < |Units|
  {
    if c == 0 then "" else Grouped(c) + Units[idx]
  }

  lemma ChunkTextStep(h: nat, c: nat, idx: nat, t: string)
    requires c < 10000 && idx < |Units| && ChunkText(h, idx + 1) == Some(t)
    ensures ChunkText(h * 10000 + c, idx) == Some(t + Piece(c, idx))
  {
    var n := h * 10000 + c;
    assert n / 10000 == h && n % 10000 == c;
    if n == 0 {
      assert h == 0 && c == 0;
      assert t + Piece(c, idx) == "";
    } else if c == 0 {
      assert ChunkText(n, idx) == ChunkText(n / 10000, idx + 1);
      assert t + Piece(c, idx) == t;
    } else {
      assert ChunkText(n, idx) == Some(t + Grouped(c) + Units[idx]);
      assert t + Grouped(c) + Units[idx] == t + Piece(c, idx);
    }
  }

  /** Below 10^16 the text is the four pieces, most significant first: each
      non-zero chunk comma-grouped and followed by 兆, 億, 万 or nothing. */
  lemma CurrencyPieces(c3: nat, c2: nat, c1: nat, c0: nat, n: nat)
    requires c3 < 10000 && c2 < 10000 && c1 < 10000 && c0 < 10000
    requires n == ((c3 * 10000 + c2) * 10000 + c1) * 10000 + c0 && n != 0
    ensures CurrencyText(n) == Shown(Piece(c3, 3) + Piece(c2, 2) + Piece(c1, 1) + Piece(c0, 0))
  {
    var h2 := c3 * 10000 + c2;
    UpperPieces(c3, c2, h2);
    LowerPieces(h2, c1, c0, h2 * 10000 + c1, n, Piece(c3, 3) + Piece(c2, 2));
  }

  /** The two most significant chunks. */
  lemma UpperPieces(c3: nat, c2: nat, h2: nat)
    requires c3 < 10000 && c2 < 10000 && h2 == c3 * 10000 + c2
    ensures ChunkText(h2, 2) == Some(Piece(c3, 3) + Piece(c2, 2))
  {
    ChunkTextStep(0, c3, 3, "");
    assert "" + Piece(c3, 3) == Piece(c3, 3);
    assert 0 * 10000 + c3 == c3;
    ChunkTextStep(c3, c2, 2, Piece(c3, 3));
  }

  /** Two more chunks below a prefix whose text is `t`. */
  lemma LowerPieces(h2: nat, c1: nat, c0: nat, h1: nat, n: nat, t: string)
    requires c1 < 10000 && c0 < 10000 && h1 == h2 * 10000 + c1 && n == h1 * 10000 + c0
    requires ChunkText(h2, 2) == Some(t)
    ensures ChunkText(n, 0) == Some(t + Piece(c1, 1) + Piece(c0, 0))
  {
    ChunkTextStep(h2, c1, 1, t);
    ChunkTextStep(h1, c0, 0, t + Piece(c1, 1));
  }

  // ---- Reading the text back ----

  /** A reader for the formatter's output: digits accumulate, commas are
      skipped, and a large unit (万, 億, 兆, with the values of the numeral
      tables) moves the accumulated chunk into the total at its weight. */
  datatype Reading = Reading(total: nat, current: nat)

  function ReadStep(r: Reading, ch: char): Reading
  {
    if IsDigit(ch) then Reading(r.total, r.current * 10 + DigitOf(ch))
    else if ch in LargeUnits then Reading(r.total + r.current * LargeUnits[ch], 0)
    else r
  }

  function Read(r: Reading, s: string): Reading
    decreases |s|
  {
    if s == [] then r else ReadStep(Read(r, s[..|s| - 1]), s[|s| - 1])
  }

  /** The amount a formatted text stands for. */
  function AmountOf(s: string): nat
  {
    var r := Read(Reading(0, 0), s);
    r.total + r.current
  }

  lemma {:induction false} ReadConcat(r: Reading, x: string, y: string)
    ensures Read(r, x + y) == Read(Read(r, x), y)
    decreases |y|
  {
    if y == [] {
      assert x + y == x;
    } else {
      assert (x + y)[..|x + y| - 1] == x + y[..|y| - 1];
      ReadConcat(r, x, y[..|y| - 1]);
    }
  }

  predicate DigitsAndCommas(s: string)
  {
    forall i :: 0 <= i < |s| ==> IsDigit(s[i]) || s[i] == ','
  }

  /** Reading digits and commas accumulates the value of the digits. */
  lemma {:induction false} ReadDigits(t: nat, s: string)
    requires DigitsAndCommas(s)
    ensures AllDigits(Replace(s, ',', ""))
    ensures Read(Reading(t, 0), s) == Reading(t, DecimalValue(Replace(s, ',', "")))
    decreases |s|
  {
    if s != [] {
      var init, ch := s[..|s| - 1], s[|s| - 1];
      assert s == init + [ch];
      ReadDigits(t, init);
      ReplaceConcat(init, [ch], ',', "");
      assert Replace([ch], ',', "") == (if ch == ',' then "" else [ch]) + Replace([], ',', "");
      var digits := Replace(init, ',', "");
      if ch != ',' {
        assert Replace(s, ',', "") == digits + [ch];
        DecimalValueSnoc(digits, ch);
      } else {
        assert Replace(s, ',', "") == digits;
      }
    }
  }

  lemma {:induction false} GroupedChars(n: nat)
    ensures DigitsAndCommas(Grouped(n))
    decreases n
  {
    if n >= 1000 {
      GroupedChars(n / 1000);
    }
  }

  /** Reading a comma-grouped chunk gives the chunk. */
  lemma ReadGrouped(t: nat, c: nat)
    ensures Read(Reading(t, 0), Grouped(c)) == Reading(t, c)
  {
    GroupedChars(c);
    ReadDigits(t, Grouped(c));
    GroupedDigits(c);
    StrValue(c);
  }

  lemma UnitWeights(idx: nat)
    requires 1 <= idx < |Units|
    ensures |Units[idx]| == 1 && Units[idx][0] in LargeUnits
    ensures LargeUnits[Units[idx][0]] == ChunkWeight(idx)
  {
    assert ChunkWeight(1) == 10000;
    assert ChunkWeight(2) == 100000000;
    assert ChunkWeight(3) == 1000000000000;
  }

  /** Reading one piece after a total `t` adds the chunk at its weight. */
  lemma ReadPiece(t: nat, c: nat, idx: nat)
    requires 1 <= idx < |Units|
    ensures Read(Reading(t, 0), Piece(c, idx)) == Reading(t + c * ChunkWeight(idx), 0)
  {
    if c != 0 {
      var u := Units[idx];
      UnitWeights(idx);
      ReadConcat(Reading(t, 0), Grouped(c), u);
      ReadGrouped(t, c);
      assert u == [u[0]] && u[..0] == [];
    }
  }

  /** The chunks from a position past the first, read after a total `t`, add
      the amount they stand for at their weight. */
  lemma {:induction false} ReadChunks(t: nat, n: nat, idx: nat)
    requires idx >= 1 && ChunkText(n, idx).Some?
    ensures Read(Reading(t, 0), ChunkText(n, idx).value) == Reading(t + n * ChunkWeight(idx), 0)
    decreases n
  {
    if n > 0 {
      var h, c := n / 10000, n % 10000;
      assert n == h * 10000 + c;
      var rest := ChunkText(h, idx + 1);
      assert rest.Some?;
      ReadChunks(t, h, idx + 1);
      var w := ChunkWeight(idx);
      var t' := t + h * ChunkWeight(idx + 1);
      if c != 0 {
        assert idx < |Units|;
        ChunkTextStep(h, c, idx, rest.value);
        ReadConcat(Reading(t, 0), rest.value, Piece(c, idx));
        ReadPiece(t', c, idx);
      } else {
        assert ChunkText(n, idx) == rest;
      }
      Weigh(h, c, w);
    }
  }

  lemma Weigh(h: nat, c: nat, w: nat)
    ensures h * (10000 * w) + c * w == (h * 10000 + c) * w
  {
  }

  /** Reading the formatter's text gives back the amount, for every amount
      it can format. */
  lemma CurrencyRoundTrip(n: nat)
    requires n < 10000_0000_0000_0000
    ensures CurrencyText(n).Shown?
    ensures AmountOf(CurrencyText(n).text) == n
  {
    CurrencyErrorIff(n);
    if n == 0 {
      assert "0"[..0] == [] && DigitOf('0') == 0;
    } else {
      var h, c := n / 10000, n % 10000;
      var rest := ChunkText(h, 1);
      assert rest.Some?;
      ReadChunks(0, h, 1);
      assert ChunkWeight(1) == 10000;
      if c != 0 {
        assert Units[0] == "";
        assert ChunkText(n, 0).value == rest.value + Grouped(c);
        ReadConcat(Reading(0, 0), rest.value, Grouped(c));
        ReadGrouped(h * 10000, c);
      }
    }
  }

  /** Worked values: zero, a negative number, 15000 and 123456789. */
  lemma CurrencyExamples()
    ensures CurrencyText(0) == Shown("0")
    ensures CurrencyText(-5) == Shown("")
    ensures CurrencyText(15000) == Shown("1万5,000")
    ensures CurrencyText(123456789) == Shown("1億2,345万6,789")
  {
    Example15000();
    Example123456789(123456789);
  }

  lemma Example15000()
    ensures CurrencyText(15000) == Shown("1万5,000")
  {
    CurrencyPieces(0, 0, 1, 5000, 15000);
    assert Grouped(5) == "5" && Pad3(0) == "000";
    assert Grouped(5000) == "5,000";
    assert Piece(1, 1) == "1万";
  }

  lemma Example123456789(n: int)
    requires n == 123456789
    ensures CurrencyText(n) == Shown("1億2,345万6,789")
  {
    CurrencyPieces(0, 1, 2345, 6789, n);
    assert Piece(0, 3) == "" && Piece(1, 2) == "1億";
    PieceOf2345();
    PieceOf6789();
    assert "" + "1億" + "2,345万" + "6,789" == "1億2,345万6,789";
  }

  lemma PieceOf2345()
    ensures Piece(2345, 1) == "2,345万"
  {
    assert Grouped(2) == "2" && Pad3(345) == "345";
  }

  lemma PieceOf6789()
    ensures Piece(6789, 0) == "6,789"
  {
    assert Grouped(6) == "6" && Pad3(789) == "789";
  }
}
