# Japanese law text to Markdown: labels, tables and kanji numerals

This project models, in Dafny, the text-shaping core of a converter that turns
the XML of Japanese statutes (e-Gov law data) into Markdown, together with the
kanji-numeral helpers the converter uses to rewrite numbers and units.

- **Labels** (`LawText`): the label of an article from its `Num` attribute
  (`38_3_2` becomes 第38条の3の2), of an item (`3_2` becomes 第3の2号), and of a
  paragraph (第2項, or nothing when the article has only one paragraph).
  Whitespace normalisation (every run of whitespace becomes one space, and
  the ends are trimmed) and the line printed for
  an item sentence, whose `Column` children are joined as `term: definition`.
- **Tables** (`LawTable`): `render_table`.
  - Rows whose first cell has a `colspan` attribute are remark rows. They are
    taken out of the table, and their sentences are collected.
  - Without a header row, the first body row becomes the header.
  - Every row is padded with blank cells to the widest row.
  - Going down the body, a blank cell takes the text of the cell above it
    (fill-down). This is done in place on an `array2`.
  - The grid is printed as a pipe table, followed by a blank line and a
    **【】** block with one `- sentence` line per non-empty remark.
- **Kanji numerals** (`KanjiTables`, `KanjiNumber`): `parse_kanji_number`.
  Its integer paths read a numeral two ways:
  - digit by digit (二〇二四 is 2024);
  - with the small units 十百千 and the large units 万億兆 (一万五千 is 15000).
- **Units** (`UnitSymbol`): `convert_unit_to_symbol`. It removes one
  modifier (平方, 立方), then one prefix (キロ, ミリ, …). If the rest is a base
  unit, the symbol is prefix + symbol + modifier (平方キロメートル is km²). Any
  other name comes back unchanged.
- **Amounts** (`Currency`): `format_currency` on integers. The amount is
  split into base-10000 chunks, written with their unit (万, 億, 兆) and comma
  separators, for example 1億2,345万6,789.
- The supporting modules are `Text`, which models Python's `split`, `join`,
  `replace` and whitespace, and `Decimal`, which models `str(n)`, `int(s)` and
  `f"{n:,}"`.

Each loop of the source is a method with loop invariants. These are
`ConvertArticleNum`, `ConvertItemNum`, `CollectRows`, `FillDown`,
`RenderLines`, `RenderRemarks`, `ParsePositional`, `ParseWithUnits`,
`StripModifier`, `StripPrefix` and `FormatCurrency`. Each is proved equal to a
specification function. The properties the source promises are proved as
lemmas about those functions. They include:

- round trips: label back to number, kanji numeral back to value, formatted
  amount back to value;
- the exact error condition of `format_currency`;
- the meaning of fill-down;
- the line structure of the rendered table;
- a complete description of which unit names are converted.

Two facts about `render_table` shape the table model:

- A remark row is recognised by a truthy `colspan` attribute on its first
  cell. The span width is never read.
- Blank cells are filled from the cell above. No row spans are resolved.

## Model

| member | source | states |
|---|---|---|
| LawText.NormalizeText | xml-to-md.py:58-62 | the result has the same words as the input, in order, separated by single spaces |
| LawText.NormalizeTextIdempotent | xml-to-md.py:58-62 | normalising an already normalised text changes nothing |
| LawText.NormalizeTextShape | xml-to-md.py:58-62 | the result has no whitespace at either end, has no two spaces in a row, and its only whitespace is the plain space |
| LawText.NormalizeAll | xml-to-md.py:366 | every element is normalised, in order, and the count is kept |
| LawText.ArticleLabel | xml-to-md.py:28-36 | the article label: empty for an empty number, else 第, the first `_`-separated part, 条, then の before each later part |
| LawText.ConvertArticleNum | xml-to-md.py:28-36 | the loop builds 第, the first part, 条, then の before each later part; an empty number gives the empty label |
| LawText.ArticleLabelByReplace | xml-to-md.py:32-36 | after the first part, the label is the rest of the number with every `_` replaced by の |
| LawText.ArticleLabelRoundTrip | xml-to-md.py:28-36 | a non-empty number without 条 or の is recovered from its label by dropping 第 and 条 and turning の back into `_` |
| LawText.DeleteMark | xml-to-md.py:33 | removing 条 from 第-less label text leaves the number's parts, when they hold no 条 themselves |
| LawText.ConvertItemNum | xml-to-md.py:48-56 | the loop builds 第, the parts joined by の, then 号; an empty number gives the empty label |
| LawText.ItemLabelByReplace | xml-to-md.py:52-56 | the item label is 第 + the number with `_` replaced by の + 号 |
| LawText.ItemLabelRoundTrip | xml-to-md.py:48-56 | a non-empty number without の is recovered from its item label |
| LawText.ItemLabel | xml-to-md.py:48-56 | the item label: empty for an empty number, else 第, the parts joined by の, then 号 |
| LawText.GetParagraphLabel | xml-to-md.py:38-46 | the label is empty exactly when there is one paragraph or the number is empty, and otherwise it is 第, the number, 項 |
| LawText.Indent | xml-to-md.py:318 | the indentation: four spaces per level |
| LawText.ItemTerm | xml-to-md.py:322-326 | the term: the normalised first column, or the item title when that is empty |
| LawText.JoinCollapsed | xml-to-md.py:324 | joining non-empty normalised pieces with a space gives normalised text holding exactly the pieces' words |
| LawText.NormalizedPiecesWords | xml-to-md.py:323-324 | the non-empty normalised column texts are normalised and together hold exactly the columns' words |
| LawText.ItemDefinition | xml-to-md.py:323-324 | the definition is normalised text holding exactly the words of the later columns, in order |
| LawText.RenderItemSentence | xml-to-md.py:315-337 | every item line starts with the indent, `- **label** ` and ends with a line break; the text in between is given by ItemSentenceBody and the single-line property by ItemSentenceOneLine |
| LawText.ItemSentenceBody | xml-to-md.py:321-337 | after the label comes `term: definition` when both are present, the one present otherwise, and the normalised sentence when there are no columns; an empty term is replaced by the item title |
| LawText.ItemSentenceOneLine | xml-to-md.py:315-337 | the rendered item sentence is one line: its only line break is the final one, whenever the label and the item title hold no line break |
| LawText.ItemBodyNoNewline | xml-to-md.py:322-337 | the text after the label (term and definition, or the sentence) holds no line break when the item title holds none |
| LawText.ItemPrefixNoNewline | xml-to-md.py:318-336 | the indent and label prefix holds no line break when the label holds none |
| LawTable.RowContribution | xml-to-md.py:374-384 | what one row adds to the body: nothing for a remark row or a row without cells, else its normalised cells as one row |
| LawTable.RemarkContribution | xml-to-md.py:374-378 | what one row adds to the remarks: the normalised sentences of its first cell for a remark row, else nothing |
| LawTable.Collect | xml-to-md.py:371-384 | the scan over the rows in order, each row adding its contribution at the end |
| LawTable.BodyRows | xml-to-md.py:368-384 | the table rows the scan keeps, in order |
| LawTable.RemarkSentences | xml-to-md.py:369-378 | the remark sentences the scan collects, in order |
| LawTable.CollectConcat | xml-to-md.py:371-384 | scanning two row lists one after the other collects what each collects, in order |
| LawTable.IsRemarkRow | xml-to-md.py:374-375 | a row is a remark row exactly when it has cells and its first cell carries a truthy `colspan` |
| LawTable.CollectSingle | xml-to-md.py:371-384 | scanning one row collects exactly that row's contribution |
| LawTable.RemarkRowLeavesBody | xml-to-md.py:374-378 | inserting a remark row anywhere leaves the body rows unchanged |
| LawTable.BodyRowLeavesRemarks | xml-to-md.py:374-384 | inserting a non-remark row anywhere leaves the remark sentences unchanged |
| LawTable.BodyRowsShape | xml-to-md.py:380-384 | every body row is non-empty and every cell is normalised text |
| LawTable.CollectRows | xml-to-md.py:368-384 | the row loop yields exactly the body rows and the remark sentences of the scan, in order |
| LawTable.MaxWidth | xml-to-md.py:394 | the width bounds every row and is reached by one, or is 0 without rows |
| LawTable.ColumnCount | xml-to-md.py:394 | the column count bounds the header and every row, and equals the header's width or some row's |
| LawTable.Pad | xml-to-md.py:397 | padding keeps the row as a prefix and appends only blank cells up to the width |
| LawTable.PadAll | xml-to-md.py:400 | every padded row has exactly the column count |
| LawTable.FilledDown | xml-to-md.py:403-406 | the filled grid keeps the number of rows and the width |
| LawTable.AboveIsBlank | xml-to-md.py:403-406 | a filled cell is blank exactly when it and every cell above it in its column were blank |
| LawTable.Above | xml-to-md.py:403-406 | the text a cell holds after fill-down: its own text if non-blank or in the first row, else the filled text of the cell above |
| LawTable.AboveIsNearest | xml-to-md.py:403-406 | a non-blank filled cell holds the nearest non-blank text at or above it, with only blank cells in between |
| LawTable.FilledDownShape | xml-to-md.py:403-406 | fill-down keeps the first row and every non-blank cell, and a blank cell takes the filled text of the cell above |
| LawTable.TableLayoutShape | xml-to-md.py:386-400 | there is no table exactly when there is no header and no body row; otherwise the first row is promoted when there is no header, and all rows are padded to the column count |
| LawTable.TableLayout | xml-to-md.py:386-406 | the laid-out table: none without header and body rows; else the header (or the promoted first row) and the filled body, padded to the column count |
| LawTable.PadCollapsed | xml-to-md.py:397-400 | padding keeps every cell normalised |
| LawTable.GridCollapsed | xml-to-md.py:400-406 | padding and filling keep every cell normalised |
| LawTable.LayoutCellsCollapsed | xml-to-md.py:386-406 | every cell of the laid-out table is normalised text |
| LawTable.TableLines | xml-to-md.py:408-417 | the pipe table has the header line, the separator line and one line per body row |
| LawTable.RowLine | xml-to-md.py:411-417 | one pipe-table line: an opening pipe, the cells separated by pipes, and a closing pipe, every pipe set off from the cells by one space |
| LawTable.RemarkItems | xml-to-md.py:423-425 | the `- sentence` line, with its line break, of each non-empty remark sentence, in order |
| LawTable.RemarkBlock | xml-to-md.py:421-426 | nothing without remark sentences; else the 【】 heading line, the remark items and a blank line |
| LawTable.ItemLines | xml-to-md.py:423-425 | there is one remark line per non-empty sentence |
| LawTable.RemarkItemsLines | xml-to-md.py:423-425 | the remark items are the `- sentence` lines of the non-empty sentences, in order, each ended by a line break, and are empty for no such sentence |
| LawTable.ItemLinesNoNewline | xml-to-md.py:425 | no remark line contains a line break when neither the indent nor a sentence does |
| LawTable.RemarkBlockJoin | xml-to-md.py:421-426 | the remark block is its heading line and item lines joined by line breaks, then a blank line |
| LawTable.RemarkBlockLines | xml-to-md.py:421-426 | without sentences there is no block; otherwise its lines are the 【】 heading, one `- sentence` line per non-empty sentence, and a blank line |
| LawTable.TableMarkdownEmpty | xml-to-md.py:386-387 | the output is empty exactly when there is no header and no body row, even when there are remark rows |
| LawTable.TableMarkdown | xml-to-md.py:355-428 | the rendered table: empty without a table, else the table lines joined by line breaks, a blank line, and the remark block |
| LawTable.RowLineNoNewline | xml-to-md.py:411-417 | a line of normalised cells contains no line break |
| LawTable.TableLinesNoNewline | xml-to-md.py:411-417 | no line of the pipe table contains a line break |
| LawTable.TableLineNoNewline | xml-to-md.py:411-417 | the header, separator and body lines each contain no line break |
| LawTable.TableMarkdownLines | xml-to-md.py:419-426 | read line by line, the output is the pipe table, a blank line, then the lines of the remark block |
| LawTable.RemarkSentencesCollapsed | xml-to-md.py:377 | every remark sentence is normalised text |
| LawTable.RemarkSentencesNoNewline | xml-to-md.py:377 | no remark sentence contains a line break |
| LawTable.TableMarkdownRemarkLines | xml-to-md.py:408-428 | read line by line, the output is the pipe table and a blank line, then either one more empty line (no remarks) or the 【】 heading, the `- sentence` lines and a blank line |
| LawTable.Cells | xml-to-md.py:400 | the snapshot of the grid is rectangular with the grid's dimensions |
| LawTable.FillDown | xml-to-md.py:403-406 | after the in-place loop every cell holds the fill-down text of the original grid |
| LawTable.FilledGrid | xml-to-md.py:397-406 | the padded and filled body equals the fill-down of the padded rows |
| LawTable.RenderRemarks | xml-to-md.py:421-426 | the remark loop builds exactly the remark block |
| LawTable.RenderLines | xml-to-md.py:408-417 | the line loop builds exactly the pipe-table lines |
| LawTable.RenderTable | xml-to-md.py:355-428 | the whole procedure returns the rendered table text |
| KanjiTables.KanjiDigits | kanji-example.py:6-9 | the ten kanji digits 〇一二三四五六七八九 with their values 0 to 9 |
| KanjiTables.SmallUnits | kanji-example.py:11 | 十, 百 and 千 with the values 10, 100 and 1000 |
| KanjiTables.LargeUnits | kanji-example.py:12 | 万, 億 and 兆 with the values 10^4, 10^8 and 10^12 |
| KanjiTables.UnitPrefixes | kanji-example.py:14-17 | the prefixes ギガ, メガ, キロ, センチ and ミリ with their symbols, in the order the conversion tries them |
| KanjiTables.UnitBases | kanji-example.py:19-42 | the base units with their symbols; the counters map to themselves |
| KanjiTables.UnitModifiers | kanji-example.py:44 | the modifiers 平方 and 立方 with the suffixes ² and ³, in the order the conversion tries them |
| KanjiTables.DigitValue | kanji-example.py:6-9 | a kanji digit's value is below 10 and is 0 only for 〇 |
| KanjiTables.KanjiDigit | kanji-example.py:6-9 | every digit has a kanji whose value it is |
| KanjiTables.NumeralTablesDisjoint | kanji-example.py:6-12 | no character is in two of the digit, small-unit and large-unit tables |
| KanjiTables.AffixKeysNonEmpty | kanji-example.py:14-17 | no modifier or prefix key is empty |
| KanjiNumber.AsciiDigits | kanji-example.py:79-86 | the positional loop builds one ASCII digit per kanji digit, of the same value |
| KanjiNumber.AsciiNumeral | kanji-example.py:54 | the string is non-empty and holds only ASCII digits and dots |
| KanjiNumber.HasUnitChar | kanji-example.py:77 | some character is one of 十百千万億兆 |
| KanjiNumber.IsPositional | kanji-example.py:77 | the string holds 〇, or holds no unit character and has more than one character |
| KanjiNumber.Step | kanji-example.py:93-108 | one character of the unit loop: a digit becomes pending; a small unit adds pending digit (or 1) times the unit to the section; a large unit adds the pending digit, counts an empty section as 1, adds section times unit to the total and resets; other characters are skipped |
| KanjiNumber.Scan | kanji-example.py:93-108 | the accumulators after reading the characters left to right |
| KanjiNumber.UnitValue | kanji-example.py:88-111 | the unit path result: total plus open section plus pending digit |
| KanjiNumber.KanjiValue | kanji-example.py:48-111 | the parser outcome: none for the empty string, the float tag for ASCII numerals and `・`, the positional reading (none on a non-digit), else the unit path value |
| KanjiNumber.ParseKanjiNumber | kanji-example.py:48-111 | the parser returns None for an empty string, takes the float branch for ASCII numerals and for `・`, reads positional numerals digit by digit (None on any other character), and otherwise takes the unit path |
| KanjiNumber.ParsePositional | kanji-example.py:79-86 | the positional loop yields the decimal value of the digits, or None at the first non-digit |
| KanjiNumber.ParseWithUnits | kanji-example.py:88-111 | the unit loop yields total + section + pending digit after reading every character |
| KanjiNumber.ScanConcat | kanji-example.py:93-108 | reading two strings one after the other is reading their concatenation |
| KanjiNumber.KanjiDigitChar | kanji-example.py:6-12 | a kanji digit is not an ASCII digit, not `.`, not `・` and not a unit |
| KanjiNumber.KanjiOf | kanji-example.py:79-86 | spelling ASCII digits in kanji gives positional numerals of the same length |
| KanjiNumber.PositionalRoundTrip | kanji-example.py:77-86 | a digit string that is longer than one digit or contains 0, spelled in kanji digit by digit, parses to its decimal value |
| KanjiNumber.DigitsRoundTrip | kanji-example.py:77-86 | every natural number written digit by digit in kanji parses back to itself |
| KanjiNumber.UnitTermScan | kanji-example.py:96-100 | a digit before 十, 百 or 千 (1 left unwritten) adds digit × unit to the section |
| KanjiNumber.SectionPiecesScan | kanji-example.py:93-100 | the thousands, hundreds and tens terms and the units digit accumulate the section value and leave the pending digit |
| KanjiNumber.DigitScan | kanji-example.py:94-95 | a single digit becomes the pending digit |
| KanjiNumber.SectionDigits | kanji-example.py:96-100 | proof helper: a section below 10000 is the sum of its digits at 1000, 100, 10 and 1 |
| KanjiNumber.SectionScan | kanji-example.py:93-100 | reading a section spelled with 千百十 leaves the section and pending digit that sum to its value |
| KanjiNumber.LargeTermScan | kanji-example.py:101-108 | a section followed by 万, 億 or 兆 adds section × unit to the total |
| KanjiNumber.SpellScan | kanji-example.py:88-111 | the usual spelling of a four-section number reads to its value on the unit path |
| KanjiNumber.UnitTermChars | kanji-example.py:6-12 | a small-unit term uses only non-zero digits and units and ends in its unit |
| KanjiNumber.SectionPiecesChars | kanji-example.py:6-12 | the section pieces use only non-zero digits and units |
| KanjiNumber.SectionChars | kanji-example.py:77 | a section spelling uses only non-zero digits and units, holds a unit from 10 on, and is one digit below 10 |
| KanjiNumber.LargeTermChars | kanji-example.py:6-12 | a large-unit term uses only non-zero digits and units and ends in its unit |
| KanjiNumber.SpellChars | kanji-example.py:6-12 | a four-section spelling uses only non-zero digits and units |
| KanjiNumber.SpellShape | kanji-example.py:77 | a spelling is one digit for 1..9 and otherwise contains a unit character |
| KanjiNumber.Chunks | kanji-example.py:101-108 | proof helper: a number below 10^16 is its four base-10000 sections weighted by 兆, 億, 万 and 1 |
| KanjiNumber.SpellValue | kanji-example.py:48-111 | a non-zero four-section spelling parses to its value |
| KanjiNumber.SpellUnitPath | kanji-example.py:54-77 | a non-zero spelling passes none of the ASCII, `・` and positional tests, so it takes the unit path |
| KanjiNumber.CanonicalUnitPath | kanji-example.py:54-77 | a numeral of non-zero digits and units that is one character long or holds a unit takes the unit path |
| KanjiNumber.ZeroRoundTrip | kanji-example.py:77-86 | 〇 parses to 0 |
| KanjiNumber.CanonicalRoundTrip | kanji-example.py:48-111 | every number below 10^16 written the usual way with 十百千 and 万億兆 parses back to itself |
| KanjiNumber.ExampleSmallUnit | kanji-example.py:96-100 | 十 is 10 |
| KanjiNumber.ExampleLargeUnit | kanji-example.py:101-108 | 万 alone is 10000 |
| KanjiNumber.Example1234 | kanji-example.py:333 | 千二百三十四 is 1234 |
| KanjiNumber.Example15000 | kanji-example.py:326 | 一万五千 is 15000 |
| KanjiNumber.Example750 | kanji-example.py:332 | 七百五十 is 750 |
| KanjiNumber.Example2024 | kanji-example.py:77-86 | 二〇二四 is 2024 |
| KanjiNumber.ExampleRejected | kanji-example.py:82-85 | a positional numeral with a non-digit character gives None |
| UnitSymbol.FirstKey | kanji-example.py:120-131 | the position found is the first entry whose key starts the string, or past the end if there is none |
| UnitSymbol.Strip | kanji-example.py:120-131 | the string is the matched key followed by what remains, and the value is that key's value |
| UnitSymbol.StripModifier | kanji-example.py:119-124 | the modifier loop removes the first modifier that starts the name and returns its symbol |
| UnitSymbol.UnitSymbolOf | kanji-example.py:113-138 | the conversion: strip the first matching modifier, then the first matching prefix; if the rest is a base unit give prefix symbol, base symbol, modifier symbol, else the original name |
| UnitSymbol.StripPrefix | kanji-example.py:126-131 | the prefix loop removes the first prefix that starts the rest and returns its symbol |
| UnitSymbol.ConvertUnitToSymbol | kanji-example.py:113-138 | the procedure returns the unit's symbol as the modifier and prefix scans and the base lookup determine it |
| UnitSymbol.StripNone | kanji-example.py:120-131 | when no key starts the string, nothing is removed |
| UnitSymbol.StripEntry | kanji-example.py:120-131 | an entry whose key starts the string is removed when no earlier key shares its first character |
| UnitSymbol.BasesStart | kanji-example.py:19-42 | every base unit is non-empty, and one that starts like a prefix or a modifier starts with メー |
| UnitSymbol.NoKeyStarts | kanji-example.py:120-131 | no key starts a string whose first character no key begins with |
| UnitSymbol.NoModifierStarts | kanji-example.py:120-124 | a string beginning with neither 平 nor 立 has no modifier removed |
| UnitSymbol.NoPrefixStarts | kanji-example.py:126-131 | no prefix is removed from a base unit |
| UnitSymbol.PrefixStep | kanji-example.py:126-131 | an optional prefix in front of a base unit is removed, giving its symbol |
| UnitSymbol.ModifierStep | kanji-example.py:119-124 | an optional modifier is removed, giving its symbol |
| UnitSymbol.UnitSymbolGrammar | kanji-example.py:113-138 | an optional modifier, an optional prefix and a base unit convert to prefix symbol + base symbol + modifier symbol |
| UnitSymbol.UnitSymbolComplete | kanji-example.py:113-138 | every name either comes back unchanged or is such a composition and converts as above |
| UnitSymbol.OneModifierOnly | kanji-example.py:119-124 | a name with two modifiers in front comes back unchanged, because only one is removed |
| UnitSymbol.ExampleSquareKilometre | kanji-example.py:113-138 | 平方キロメートル is km² |
| UnitSymbol.ExampleMillimetre | kanji-example.py:332 | ミリメートル is mm |
| UnitSymbol.ExampleKilometrePerHour | kanji-example.py:327 | キロメートル毎時 is km/h |
| UnitSymbol.ExampleCubicMetre | kanji-example.py:113-138 | 立方メートル is m³ |
| UnitSymbol.ExampleCounter | kanji-example.py:333 | the counter 倍 stays 倍 |
| UnitSymbol.ExampleUnknown | kanji-example.py:134-138 | a name that is no base unit comes back unchanged |
| UnitSymbol.ExampleDoubledModifier | kanji-example.py:119-138 | 平方平方メートル comes back unchanged |
| Currency.Units | kanji-example.py:148 | the unit written after each chunk, from the lowest up: none, 万, 億, 兆 |
| Currency.FloatLimit | kanji-example.py:142-147 | the magnitude from which converting the integer to a float overflows: 2^1024 - 2^970 |
| Currency.ChunkWeight | kanji-example.py:153-159 | proof helper: the weight of a chunk position is at least 1 |
| Currency.FormatCurrency | kanji-example.py:140-161 | on an integer, the procedure returns "0" for zero, the overflow error when the integer is too large in magnitude for a float, "" for a negative amount, the chunk text for a positive one, and raises the index error past 兆 |
| Currency.ChunkText | kanji-example.py:150-161 | the base-10000 chunks of the amount, most significant first, each non-zero one comma-grouped with its unit; none when a non-zero chunk has no unit |
| Currency.CurrencyText | kanji-example.py:140-161 | the outcome for an integer: "0" for zero, the overflow error for magnitudes of at least the float limit, "" for a negative amount, else the chunk text or the index error |
| Currency.Piece | kanji-example.py:155-157 | a chunk's text: nothing for a zero chunk, else the grouped chunk and its unit |
| Currency.ChunkErrorHigh | kanji-example.py:157 | past the last unit, the chunks fail exactly when the amount is non-zero |
| Currency.ChunkErrorIff | kanji-example.py:153-159 | from a position on, the chunks fail exactly when the amount reaches the weight past 兆 |
| Currency.CurrencyErrorIff | kanji-example.py:140-161 | the formatter raises the index error exactly for amounts from 10^16 up to the float limit 2^1024 - 2^970, and the overflow error exactly for magnitudes of at least that limit |
| Currency.ChunkTextStep | kanji-example.py:153-159 | one more low chunk appends its piece after the text of the higher chunks |
| Currency.CurrencyPieces | kanji-example.py:140-161 | below 10^16 the text is the four chunk pieces, most significant first, zero chunks omitted |
| Currency.UpperPieces | kanji-example.py:153-159 | the two highest chunks give the 兆 and 億 pieces |
| Currency.LowerPieces | kanji-example.py:153-159 | the two lowest chunks append the 万 and units pieces |
| Currency.ReadConcat | kanji-example.py:140-161 | reading two texts one after the other is reading their concatenation |
| Currency.ReadDigits | kanji-example.py:157 | reading digits and commas yields the value of the digits |
| Currency.GroupedChars | kanji-example.py:157 | comma-grouped text holds only digits and commas |
| Currency.ReadGrouped | kanji-example.py:157 | reading a comma-grouped chunk gives the chunk |
| Currency.UnitWeights | kanji-example.py:148 | each unit 万, 億, 兆 is one character whose value is its chunk position's weight |
| Currency.ReadPiece | kanji-example.py:157 | reading a chunk and its unit adds chunk × weight |
| Currency.ReadChunks | kanji-example.py:153-161 | reading the chunk text from a position past the first adds the amount times that position's weight |
| Currency.CurrencyRoundTrip | kanji-example.py:140-161 | every amount below 10^16 is formatted, and reading the text back gives the amount |
| Currency.CurrencyExamples | kanji-example.py:140-161 | 0 is "0", -5 is "", 15000 is 1万5,000 and 123456789 is 1億2,345万6,789 |
| Currency.Example15000 | kanji-example.py:326 | 15000 is 1万5,000 |
| Currency.Example123456789 | kanji-example.py:140-161 | 123456789 is 1億2,345万6,789 |
| Currency.PieceOf2345 | kanji-example.py:157 | the chunk 2345 at the 万 position is 2,345万 |
| Currency.PieceOf6789 | kanji-example.py:157 | the lowest chunk 6789 is 6,789 |
| Decimal.DigitChar | kanji-example.py:83 | each digit has an ASCII character that reads back as that digit |
| Decimal.DigitCharOf | kanji-example.py:83 | reading an ASCII digit and writing it again gives the same character |
| Decimal.Str | kanji-example.py:83-86 | `str(n)` is a non-empty string of ASCII digits whose first digit is 0 only for n = 0 (no leading zeros) |
| Decimal.StrLength | kanji-example.py:77 | proof helper: a number from 10 on has more than one decimal digit |
| Decimal.DecimalValue | kanji-example.py:86 | the value of a string of ASCII digits read as a decimal numeral, leading zeros allowed |
| Decimal.DecimalValueSnoc | kanji-example.py:86 | appending a digit multiplies the value by ten and adds the digit |
| Decimal.StrValue | kanji-example.py:86 | `int(str(n))` is n |
| Decimal.Pad3 | kanji-example.py:157 | a three-digit group is three ASCII digits |
| Decimal.Grouped | kanji-example.py:157 | the decimal digits of a number with a comma before every group of three from the right |
| Decimal.ThousandsDigits | kanji-example.py:157 | proof helper: the last three digits of a number from 1000 on are those of its remainder modulo 1000 |
| Decimal.StrThousands | kanji-example.py:157 | the decimal text of a number from 1000 on is that of its thousands, then its last three digits |
| Decimal.StrShort | kanji-example.py:157 | proof helper: a number below 1000 has at most three decimal digits |
| Decimal.GroupedCommas | kanji-example.py:157 | the grouped text never starts with a comma and has a comma exactly at the positions 3, 7, 11, … before its last character, so the first group has one to three digits and every later group exactly three |
| Decimal.GroupedDigits | kanji-example.py:157 | removing the commas of the grouped text gives the plain decimal text |

## Left out

- Downloading laws over HTTP, reading and writing files, and the main loop
  over laws are I/O. They are not modelled.
- The walk over the XML tree (`ElementTree`, `findall`, `extract_text`) is
  not modelled.
  - A table comes in as the texts already extracted from its header columns.
  - Each row comes in as its cell texts, whether its first cell carries a
    non-empty `colspan` attribute, and the texts of the `Sentence` elements
    inside that cell.
- Only the column joining of `render_item_sentence` is modelled. It works
  on the extracted texts of the columns and of the sentence.
- The rest of the document walk is not modelled. That covers
  `parse_to_markdown`, the article, paragraph and item renderers, and
  `render_table_struct`, which only prints a title line before
  `render_table`.
- KanjiNumber.ParseKanjiNumber: the floating-point branches are not
  evaluated, and each returns the tag `FloatBranch`.
  - An all-ASCII numeral (`float(s)`) takes that branch, including the
    strings of digits and dots that make the conversion raise `ValueError`
    (".", "1.2.3").
  - So does every string containing `・`, including the cases where that
    branch returns `None`. Those cases are more than one `・`, a
    non-digit after it, nothing after it, or an integer part that is
    `None`. When the integer part is itself a float (an ASCII numeral, as
    in "1・五"), the branch raises `ValueError`.
  - Python floats are not modelled.
- Currency.FormatCurrency: only integer arguments are modelled. The
  non-integral float branch (`f"{num:,}"` on a float) is left out, as is
  `int(num)` on an integral float. Floats are not modelled. The integrality
  test converts the integer to a float. That conversion raises
  `OverflowError` from magnitude 2^1024 - 2^970 on, and the model returns
  `FloatOverflow` there.
- `replace_kanji_references` is not part of this model. It is a chain of
  regular-expression substitutions that call the helpers above, and Dafny
  has no regular-expression engine. The sample sentences it is run on
  appear here only as worked values of the helpers.
- `analyze_table.py`, `check_table.py`, `run_test.py` and `test_images.py`
  are diagnostic and test scripts, not part of the conversion. They are
  not part of this model.
- Characters outside the three numeral tables are skipped on the unit path,
  as in the source (十a reads as 10). This is modelled, not left out.
- Text is a sequence of Unicode code points. Python's whitespace set for
  `str.split()` is written out explicitly.
