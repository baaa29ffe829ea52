/** `render_table`: a law table, given as the texts the tree walk extracted
    from its `TableHeaderRow` and `TableRow` elements, rendered as a Markdown
    pipe table followed by a block of remarks. */
module LawTable {
  import opened Text
  import opened LawText

  /** One `TableRow`: the texts of its `TableColumn` cells, whether the first
      cell carries a `colspan` attribute, and the texts of the `Sentence`
      elements inside that first cell. */
  datatype SourceRow = SourceRow(cells: seq<string>, firstCellColspan: bool, firstCellSentences: seq<string>)

  /** A remark row is one whose first cell spans columns. */
  predicate IsRemarkRow(row: SourceRow)
  {
    row.cells != [] && row.firstCellColspan
  }

  /** What a single row contributes to the body: nothing for a remark row or
      a row without cells, else its normalised cells. */
  function RowContribution(row: SourceRow): seq<seq<string>>
  {
    if IsRemarkRow(row) || row.cells == [] then [] else [NormalizeAll(row.cells)]
  }

  /** What a single row contributes to the remarks: the normalised sentences
      of a remark row, nothing for any other row. */
  function RemarkContribution(row: SourceRow): seq<string>
  {
    if IsRemarkRow(row) then NormalizeAll(row.firstCellSentences) else []
  }

  /** What the scan collects from the rows, in order, given what each row
      contributes. */
  function Collect<T>(rows: seq<SourceRow>, f: SourceRow -> seq<T>): seq<T>
    decreases |rows|
  {
    if rows == [] then [] else Collect(rows[..|rows| - 1], f) + f(rows[|rows| - 1])
  }

  /** The rows the scan keeps for the table body, in order. */
  function BodyRows(rows: seq<SourceRow>): seq<seq<string>>
  {
    Collect(rows, RowContribution)
  }

  /** The sentences of the remark rows, in order. */
  function RemarkSentences(rows: seq<SourceRow>): seq<string>
  {
    Collect(rows, RemarkContribution)
  }

  lemma {:induction false} CollectConcat<T>(a: seq<SourceRow>, b: seq<SourceRow>, f: SourceRow -> seq<T>)
    ensures Collect(a + b, f) == Collect(a, f) + Collect(b, f)
    decreases |b|
  {
    if b == [] {
      assert a + b == a;
    } else {
      var init, last := b[..|b| - 1], b[|b| - 1];
      assert (a + b)[..|a + b| - 1] == a + init;
      assert (a + b)[|a + b| - 1] == last;
      CollectConcat(a, init, f);
    }
  }

  lemma CollectSingle<T>(row: SourceRow, f: SourceRow -> seq<T>)
    ensures Collect([row], f) == f(row)
  {
    assert [row][..0] == [];
  }

  /** A remark row never reaches the table body: taking it out leaves the
      body as it is. */
  lemma {:induction false} RemarkRowLeavesBody(before: seq<SourceRow>, row: SourceRow, after: seq<SourceRow>)
    requires IsRemarkRow(row)
    ensures BodyRows(before + [row] + after) == BodyRows(before + after)
  {
    CollectConcat(before + [row], after, RowContribution);
    CollectConcat(before, [row], RowContribution);
    CollectConcat(before, after, RowContribution);
    CollectSingle(row, RowContribution);
    assert RowContribution(row) == [];
    assert BodyRows(before + [row]) == BodyRows(before);
  }

  /** Any other row never reaches the remark list: taking it out leaves the
      remarks as they are. */
  lemma {:induction false} BodyRowLeavesRemarks(before: seq<SourceRow>, row: SourceRow, after: seq<SourceRow>)
    requires !IsRemarkRow(row)
    ensures RemarkSentences(before + [row] + after) == RemarkSentences(before + after)
  {
    CollectConcat(before + [row], after, RemarkContribution);
    CollectConcat(before, [row], RemarkContribution);
    CollectConcat(before, after, RemarkContribution);
    CollectSingle(row, RemarkContribution);
    assert RemarkContribution(row) == [];
    assert RemarkSentences(before + [row]) == RemarkSentences(before);
  }

  /** Every cell of the body is normalised text and no body row is empty. */
  lemma {:induction false} BodyRowsShape(rows: seq<SourceRow>)
    ensures forall r :: 0 <= r < |BodyRows(rows)| ==> BodyRows(rows)[r] != []
    ensures forall r, c :: 0 <= r < |BodyRows(rows)| && 0 <= c < |BodyRows(rows)[r]| ==> Collapsed(BodyRows(rows)[r][c])
    decreases |rows|
  {
    if rows != [] {
      var init, last := rows[..|rows| - 1], rows[|rows| - 1];
      BodyRowsShape(init);
      assert BodyRows(rows) == BodyRows(init) + RowContribution(last);
    }
  }

  /** Scans the rows of a table as the loop of `render_table` does. */
  method CollectRows(rows: seq<SourceRow>) returns (body: seq<seq<string>>, remarks: seq<string>)
    ensures body == BodyRows(rows) && remarks == RemarkSentences(rows)
  {
    body, remarks := [], [];
    for i := 0 to |rows|
      invariant body == BodyRows(rows[..i]) && remarks == RemarkSentences(rows[..i])
    {
      assert rows[..i + 1][..i] == rows[..i];
      var row := rows[i];
      if IsRemarkRow(row) {
        remarks := remarks + NormalizeAll(row.firstCellSentences);
        continue;
      }
      var rowData := NormalizeAll(row.cells);
      if rowData == [] {
        continue;
      }
      body := body + [rowData];
    }
    assert rows[..|rows|] == rows;
  }

  /** The length of the longest row, 0 when there are no rows. */
  function MaxWidth(rows: seq<seq<string>>): (w: nat)
    ensures forall k :: 0 <= k < |rows| ==> |rows[k]| <= w
    ensures rows == [] ==> w == 0
    ensures rows != [] ==> exists k :: 0 <= k < |rows| && |rows[k]| == w
  {
    if rows == [] then 0
    else
      var rest := MaxWidth(rows[1..]);
      assert forall k :: 1 <= k < |rows| ==> rows[k] == rows[1..][k - 1];
      if |rows[0]| >= rest then |rows[0]| else rest
  }

  /** The column count: the width of the header or of the widest row. */
  function ColumnCount(header: seq<string>, body: seq<seq<string>>): (w: nat)
    ensures |header| <= w && forall k :: 0 <= k < |body| ==> |body[k]| <= w
    ensures w == |header| || exists k :: 0 <= k < |body| && |body[k]| == w
  {
    var widest := MaxWidth(body);
    if |header| >= widest then |header| else widest
  }

  /** The row extended with blank cells up to `width` cells. */
  function Pad(row: seq<string>, width: nat): (r: seq<string>)
    requires |row| <= width
    ensures |r| == width && r[..|row|] == row
    ensures forall c :: |row| <= c < width ==> r[c] == ""
  {
    row + Copies("", width - |row|)
  }

  function PadAll(rows: seq<seq<string>>, width: nat): (r: seq<seq<string>>)
    requires forall k :: 0 <= k < |rows| ==> |rows[k]| <= width
    ensures |r| == |rows| && Rectangular(r, width)
  {
    seq(|rows|, k requires 0 <= k < |rows| => Pad(rows[k], width))
  }

  predicate Rectangular(g: seq<seq<string>>, width: nat)
  {
    forall r :: 0 <= r < |g| ==> |g[r]| == width
  }

  /** The text the fill-down leaves in cell (r, c): its own text when it is not
      blank, else the filled text of the cell above it. */
  function Above(g: seq<seq<string>>, r: nat, c: nat): string
    requires r < |g| && forall k :: 0 <= k <= r ==> c < |g[k]|
    decreases r
  {
    if r == 0 || g[r][c] != "" then g[r][c] else Above(g, r - 1, c)
  }

  /** The grid after the fill-down loop. */
  function FilledDown(g: seq<seq<string>>, width: nat): (f: seq<seq<string>>)
    requires Rectangular(g, width)
    ensures |f| == |g| && Rectangular(f, width)
  {
    seq(|g|, r requires 0 <= r < |g| => seq(width, c requires 0 <= c < width => Above(g, r, c)))
  }

  /** A filled cell is blank exactly when it and every cell above it were
      blank. */
  lemma {:induction false} AboveIsBlank(g: seq<seq<string>>, r: nat, c: nat)
    requires r < |g| && forall k :: 0 <= k <= r ==> c < |g[k]|
    ensures Above(g, r, c) == "" <==> forall k :: 0 <= k <= r ==> g[k][c] == ""
    decreases r
  {
    if r > 0 && g[r][c] == "" {
      AboveIsBlank(g, r - 1, c);
      assert Above(g, r, c) == Above(g, r - 1, c);
    }
  }

  /** A filled cell that is not blank holds the text of the nearest
      non-blank cell at or above it, with only blank cells in between. */
  lemma {:induction false} AboveIsNearest(g: seq<seq<string>>, r: nat, c: nat)
    requires r < |g| && forall k :: 0 <= k <= r ==> c < |g[k]|
    ensures Above(g, r, c) != "" ==>
      exists k :: 0 <= k <= r && g[k][c] == Above(g, r, c) && forall j :: k < j <= r ==> g[j][c] == ""
    decreases r
  {
    if r > 0 && g[r][c] == "" {
      AboveIsNearest(g, r - 1, c);
      assert Above(g, r, c) == Above(g, r - 1, c);
      if Above(g, r, c) != "" {
        var k :| 0 <= k <= r - 1 && g[k][c] == Above(g, r - 1, c) && forall j :: k < j <= r - 1 ==> g[j][c] == "";
        assert forall j :: k < j <= r ==> g[j][c] == "";
      }
    } else {
      assert Above(g, r, c) == g[r][c];
    }
  }

  /** Fill-down leaves the first row as it is and every non-blank cell as it
      is, and a cell below the first row is left blank only if the cell above
      it is blank after filling. */
  lemma FilledDownShape(g: seq<seq<string>>, width: nat)
    requires Rectangular(g, width)
    ensures var f := FilledDown(g, width);
      && (|g| > 0 ==> f[0] == g[0])
      && (forall r, c :: 0 <= r < |g| && 0 <= c < width && g[r][c] != "" ==> f[r][c] == g[r][c])
      && (forall r, c {:trigger f[r][c]} :: 1 <= r < |g| && 0 <= c < width && f[r][c] == "" ==> f[r - 1][c] == "")
      && (forall r, c {:trigger g[r][c]} :: 1 <= r < |g| && 0 <= c < width && g[r][c] == "" ==> f[r][c] == f[r - 1][c])
  {
    var f := FilledDown(g, width);
    if |g| > 0 {
      assert f[0] == g[0];
    }
  }

  /** The table as `render_table` lays it out before printing: the header
      (given, or the first body row promoted), the padded and filled body,
      and the column count; none for a table with no header and no rows. */
  datatype Layout = Layout(header: seq<string>, body: seq<seq<string>>, width: nat)

  function TableLayout(header: seq<string>, rows: seq<SourceRow>): Option<Layout>
  {
    var headerCols := NormalizeAll(header);
    var body := BodyRows(rows);
    if headerCols == [] && body == [] then None
    else
      var h := if headerCols == [] then body[0] else headerCols;
      var b := if headerCols == [] then body[1..] else body;
      var width := ColumnCount(h, b);
      Some(Layout(Pad(h, width), FilledDown(PadAll(b, width), width), width))
  }

  /** Without a header and without rows there is no table. Without a header
      but with rows the first row becomes the header and the body loses
      exactly that row. Header and body rows are all as wide as the header or
      the widest row, whichever is wider, and padding appends blank cells only. */
  lemma TableLayoutShape(header: seq<string>, rows: seq<SourceRow>)
    ensures TableLayout(header, rows) == None <==> header == [] && BodyRows(rows) == []
    ensures TableLayout(header, rows).Some? ==>
      var l := TableLayout(header, rows).value;
      var body := BodyRows(rows);
      var h := if header == [] then body[0] else NormalizeAll(header);
      var b := if header == [] then body[1..] else body;
      && |l.body| == |b|
      && (header == [] ==> |l.body| == |body| - 1)
      && |h| <= l.width && (forall k :: 0 <= k < |b| ==> |b[k]| <= l.width)
      && (l.width == |h| || exists k :: 0 <= k < |b| && |b[k]| == l.width)
      && l.header == Pad(h, l.width)
      && l.body == FilledDown(PadAll(b, l.width), l.width)
      && |l.header| == l.width && Rectangular(l.body, l.width)
  {
  }

  /** Every cell the layout holds is normalised text. */
  predicate CellsCollapsed(l: Layout)
  {
    && (forall c :: 0 <= c < |l.header| ==> Collapsed(l.header[c]))
    && (forall r, c :: 0 <= r < |l.body| && 0 <= c < |l.body[r]| ==> Collapsed(l.body[r][c]))
  }

  /** Padding adds only blank cells. */
  lemma PadCollapsed(row: seq<string>, width: nat)
    requires |row| <= width && forall c :: 0 <= c < |row| ==> Collapsed(row[c])
    ensures forall c :: 0 <= c < width ==> Collapsed(Pad(row, width)[c])
  {
    var p := Pad(row, width);
    forall c | 0 <= c < width ensures Collapsed(p[c]) {
      if c < |row| {
        assert p[..|row|] == row;
        assert p[c] == row[c];
      } else {
        assert p[c] == "";
      }
    }
  }

  /** Padding and filling down keep every cell normalised text. */
  lemma GridCollapsed(b: seq<seq<string>>, width: nat)
    requires forall k :: 0 <= k < |b| ==> |b[k]| <= width
    requires forall r, c :: 0 <= r < |b| && 0 <= c < |b[r]| ==> Collapsed(b[r][c])
    ensures var f := FilledDown(PadAll(b, width), width);
      forall r, c :: 0 <= r < |f| && 0 <= c < |f[r]| ==> Collapsed(f[r][c])
  {
    var padded := PadAll(b, width);
    forall r | 0 <= r < |padded| ensures forall c :: 0 <= c < width ==> Collapsed(padded[r][c]) {
      PadCollapsed(b[r], width);
    }
    forall r, c | 0 <= r < |padded| && 0 <= c < width ensures Collapsed(Above(padded, r, c)) {
      AboveIsNearest(padded, r, c);
    }
  }

  /** Every cell the layout holds is normalised text. */
  lemma {:induction false} LayoutCellsCollapsed(header: seq<string>, rows: seq<SourceRow>, l: Layout)
    requires TableLayout(header, rows) == Some(l)
    ensures CellsCollapsed(l)
  {
    var body := BodyRows(rows);
    BodyRowsShape(rows);
    var headerCols := NormalizeAll(header);
    var h := if headerCols == [] then body[0] else headerCols;
    var b := if headerCols == [] then body[1..] else body;
    assert l.width == ColumnCount(h, b);
    assert l.header == Pad(h, l.width);
    assert l.body == FilledDown(PadAll(b, l.width), l.width);
    PadCollapsed(h, l.width);
    GridCollapsed(b, l.width);
  }

  /** One pipe-table line: the cells between pipes, each pipe set off by spaces. */
  function RowLine(cells: seq<string>): string
  {
    "| " + Join(cells, " | ") + " |"
  }

  /** The lines of the pipe table: header, separator, one line per body row. */
  function TableLines(indent: string, l: Layout): (lines: seq<string>)
    ensures |lines| == 2 + |l.body|
  {
    [indent + RowLine(l.header), indent + RowLine(Copies("---", l.width))]
      + seq(|l.body|, r requires 0 <= r < |l.body| => indent + RowLine(l.body[r]))
  }

  /** The `- sent` lines of the remark block, empty sentences skipped. */
  function RemarkItems(indent: string, sentences: seq<string>): string
    decreases |sentences|
  {
    if sentences == [] then ""
    else
      var last := sentences[|sentences| - 1];
      RemarkItems(indent, sentences[..|sentences| - 1]) + (if last == "" then "" else indent + "- " + last + "\n")
  }

  /** The remark block printed after the table, or nothing without remarks. */
  function RemarkBlock(indent: string, sentences: seq<string>): string
  {
    if sentences == [] then "" else indent + "**【】**\n" + RemarkItems(indent, sentences) + "\n"
  }

  /** The `- sent` lines for the non-empty sentences, in order. */
  function ItemLines(indent: string, sentences: seq<string>): (lines: seq<string>)
    ensures |lines| == |NonEmpty(sentences)|
  {
    var kept := NonEmpty(sentences);
    seq(|kept|, k requires 0 <= k < |kept| => indent + "- " + kept[k])
  }

  /** The items are one line per non-empty sentence, each ended by a line break. */
  lemma {:induction false} RemarkItemsLines(indent: string, sentences: seq<string>)
    ensures NonEmpty(sentences) == [] ==> RemarkItems(indent, sentences) == ""
    ensures NonEmpty(sentences) != [] ==>
      RemarkItems(indent, sentences) == Join(ItemLines(indent, sentences), "\n") + "\n"
    decreases |sentences|
  {
    if sentences != [] {
      var init, last := sentences[..|sentences| - 1], sentences[|sentences| - 1];
      assert sentences == init + [last];
      RemarkItemsLines(indent, init);
      NonEmptyConcat(init, [last]);
      assert [last][1..] == [];
      var a := ItemLines(indent, init);
      var b := ItemLines(indent, sentences);
      if last == "" {
        assert NonEmpty(sentences) == NonEmpty(init);
        assert b == a;
      } else {
        var line := indent + "- " + last;
        assert NonEmpty(sentences) == NonEmpty(init) + [last];
        assert b == a + [line];
        if NonEmpty(init) != [] {
          JoinSnoc(a, line, "\n");
        } else {
          assert b == [line];
          assert Join(b, "\n") == line + Chain("\n", []);
        }
      }
    }
  }

  /** No item line holds a line break when neither the indent nor a sentence does. */
  lemma ItemLinesNoNewline(indent: string, sentences: seq<string>, k: nat)
    requires NoneIn(indent, {'\n'})
    requires forall i :: 0 <= i < |sentences| ==> NoneIn(sentences[i], {'\n'})
    requires k < |ItemLines(indent, sentences)|
    ensures NoneIn(ItemLines(indent, sentences)[k], {'\n'})
  {
    NonEmptyKeeps(sentences, {'\n'}, k);
    assert ItemLines(indent, sentences)[k] == indent + "- " + NonEmpty(sentences)[k];
  }

  /** A non-empty remark block is its heading and item lines joined, then a blank line. */
  lemma RemarkBlockJoin(indent: string, sentences: seq<string>, head: string)
    requires sentences != [] && head == indent + "**【】**"
    ensures RemarkBlock(indent, sentences) == Join([head] + ItemLines(indent, sentences), "\n") + "\n\n" + ""
  {
    var text, block := RemarkItems(indent, sentences), RemarkBlock(indent, sentences);
    RemarkItemsLines(indent, sentences);
    RemarkBlockHead(indent, sentences, head, text, block);
    RemarkBlockSplice(head, text, ItemLines(indent, sentences), block);
  }

  lemma RemarkBlockHead(indent: string, sentences: seq<string>, head: string, text: string, block: string)
    requires sentences != [] && head == indent + "**【】**"
    requires text == RemarkItems(indent, sentences) && block == RemarkBlock(indent, sentences)
    ensures block == head + "\n" + text + "\n"
  {
    assert "**【】**\n" == "**【】**" + "\n";
  }

  /** The string algebra behind `RemarkBlockJoin`. */
  lemma RemarkBlockSplice(head: string, text: string, items: seq<string>, block: string)
    requires block == head + "\n" + text + "\n"
    requires items == [] ==> text == ""
    requires items != [] ==> text == Join(items, "\n") + "\n"
    ensures block == Join([head] + items, "\n") + "\n\n" + ""
  {
    assert "\n\n" == "\n" + "\n";
    if items == [] {
      assert Join([head], "\n") == head;
    } else {
      JoinCons(head, items, "\n");
    }
  }

  /** Read line by line, a non-empty remark list prints the 【】 heading, one
      `- sent` line per non-empty sentence, and a blank line. */
  lemma RemarkBlockLines(indent: string, sentences: seq<string>)
    requires NoneIn(indent, {'\n'})
    requires forall k :: 0 <= k < |sentences| ==> NoneIn(sentences[k], {'\n'})
    ensures sentences == [] ==> RemarkBlock(indent, sentences) == ""
    ensures sentences != [] ==>
      Split(RemarkBlock(indent, sentences), '\n') == [indent + "**【】**"] + ItemLines(indent, sentences) + ["", ""]
  {
    if sentences != [] {
      var head := indent + "**【】**";
      var items := ItemLines(indent, sentences);
      var lines := [head] + items;
      assert NoneIn(head, {'\n'});
      forall k | 0 <= k < |lines| ensures NoneIn(lines[k], {'\n'}) {
        if k > 0 {
          ItemLinesNoNewline(indent, sentences, k - 1);
        }
      }
      RemarkBlockJoin(indent, sentences, head);
      LinesThenBlank(lines, "");
      SplitOnAbsent("", {'\n'});
    }
  }

  /** The text `render_table` returns. */
  function TableMarkdown(header: seq<string>, rows: seq<SourceRow>, level: nat): string
  {
    match TableLayout(header, rows)
    case None => ""
    case Some(l) =>
      Join(TableLines(Indent(level), l), "\n") + "\n\n" + RemarkBlock(Indent(level), RemarkSentences(rows))
  }

  /** The rendered table is empty exactly when there is neither a header nor
      a body row; remarks alone give no output. */
  lemma TableMarkdownEmpty(header: seq<string>, rows: seq<SourceRow>, level: nat)
    ensures TableMarkdown(header, rows, level) == "" <==> header == [] && BodyRows(rows) == []
  {
    TableLayoutShape(header, rows);
  }

  lemma RowLineNoNewline(indent: string, cells: seq<string>)
    requires NoneIn(indent, {'\n'})
    requires forall c :: 0 <= c < |cells| ==> Collapsed(cells[c])
    ensures NoneIn(indent + RowLine(cells), {'\n'})
  {
    forall c | 0 <= c < |cells| ensures NoneIn(cells[c], {'\n'}) {
      CollapsedNoNewline(cells[c]);
    }
    JoinKeepsAbsent(cells, " | ", '\n');
  }

  /** No line of the pipe table contains a line break. */
  lemma TableLinesNoNewline(indent: string, l: Layout)
    requires NoneIn(indent, {'\n'}) && CellsCollapsed(l)
    ensures var tl := TableLines(indent, l);
      forall k :: 0 <= k < |tl| ==> NoneIn(tl[k], {'\n'})
  {
    forall k | 0 <= k < 2 + |l.body| ensures NoneIn(TableLines(indent, l)[k], {'\n'}) {
      TableLineNoNewline(indent, l, k);
    }
  }

  lemma TableLineNoNewline(indent: string, l: Layout, k: nat)
    requires NoneIn(indent, {'\n'}) && CellsCollapsed(l) && k < 2 + |l.body|
    ensures NoneIn(TableLines(indent, l)[k], {'\n'})
  {
    var tl := TableLines(indent, l);
    if k == 0 {
      assert tl[0] == indent + RowLine(l.header);
      RowLineNoNewline(indent, l.header);
    } else if k == 1 {
      var sep := Copies("---", l.width);
      forall c | 0 <= c < |sep| ensures Collapsed(sep[c]) {
        NoWhitespaceCollapsed("---");
      }
      assert tl[1] == indent + RowLine(sep);
      RowLineNoNewline(indent, sep);
    } else {
      var row := l.body[k - 2];
      assert tl[k] == indent + RowLine(row);
      assert forall c :: 0 <= c < |row| ==> Collapsed(row[c]);
      RowLineNoNewline(indent, row);
    }
  }

  /** Read line by line, the output is the pipe table — the header line, a
      separator of `---` cells, one line per body row — then a blank line,
      then the lines of the remark block. */
  lemma {:induction false} TableMarkdownLines(header: seq<string>, rows: seq<SourceRow>, level: nat, l: Layout)
    requires TableLayout(header, rows) == Some(l)
    ensures Split(TableMarkdown(header, rows, level), '\n')
         == TableLines(Indent(level), l) + [""] + Split(RemarkBlock(Indent(level), RemarkSentences(rows)), '\n')
  {
    var indent := Indent(level);
    var tl := TableLines(indent, l);
    LayoutCellsCollapsed(header, rows, l);
    RepeatKeepsAbsent("    ", level, '\n');
    TableLinesNoNewline(indent, l);
    LinesThenBlank(tl, RemarkBlock(indent, RemarkSentences(rows)));
  }

  /** Every collected remark sentence is whitespace-normalised. */
  lemma {:induction false} RemarkSentencesCollapsed(rows: seq<SourceRow>)
    ensures forall k :: 0 <= k < |RemarkSentences(rows)| ==> Collapsed(RemarkSentences(rows)[k])
    decreases |rows|
  {
    if rows != [] {
      var init, last := rows[..|rows| - 1], rows[|rows| - 1];
      RemarkSentencesCollapsed(init);
      var a, b := RemarkSentences(init), RemarkContribution(last);
      assert RemarkSentences(rows) == a + b;
      assert forall k :: 0 <= k < |b| ==> Collapsed(b[k]);
    }
  }

  /** Read line by line, a rendered table with remark rows ends with the
      【】 heading, one `- sent` line per non-empty remark sentence and a
      blank line; without remark rows it ends right after the pipe table's
      blank line. */
  lemma TableMarkdownRemarkLines(header: seq<string>, rows: seq<SourceRow>, level: nat, l: Layout)
    requires TableLayout(header, rows) == Some(l)
    ensures var indent, ss := Indent(level), RemarkSentences(rows);
      Split(TableMarkdown(header, rows, level), '\n')
        == TableLines(indent, l) + [""]
           + (if ss == [] then [""] else [indent + "**【】**"] + ItemLines(indent, ss) + ["", ""])
  {
    var indent, ss := Indent(level), RemarkSentences(rows);
    TableMarkdownLines(header, rows, level, l);
    RemarkSentencesNoNewline(rows);
    RepeatKeepsAbsent("    ", level, '\n');
    RemarkBlockLines(indent, ss);
    if ss == [] {
      SplitOnAbsent("", {'\n'});
    }
  }

  lemma RemarkSentencesNoNewline(rows: seq<SourceRow>)
    ensures forall k :: 0 <= k < |RemarkSentences(rows)| ==> NoneIn(RemarkSentences(rows)[k], {'\n'})
  {
    var ss := RemarkSentences(rows);
    RemarkSentencesCollapsed(rows);
    forall k | 0 <= k < |ss| ensures NoneIn(ss[k], {'\n'}) {
      CollapsedNoNewline(ss[k]);
    }
  }

  /** The cells of a grid, row by row. */
  function Cells(g: array2<string>): (s: seq<seq<string>>)
    reads g
    ensures |s| == g.Length0 && Rectangular(s, g.Length1)
  {
    seq(g.Length0, r requires 0 <= r < g.Length0 reads g =>
      seq(g.Length1, c requires 0 <= c < g.Length1 reads g => g[r, c]))
  }

  /** The fill-down loop of `render_table`: going down the rows from the
      second, a blank cell takes the (already filled) text of the cell above. */
  method FillDown(g: array2<string>)
    modifies g
    ensures forall r, c :: 0 <= r < g.Length0 && 0 <= c < g.Length1 ==> g[r, c] == Above(old(Cells(g)), r, c)
  {
    ghost var orig := Cells(g);
    var rowIdx := 1;
    while rowIdx < g.Length0
      invariant 1 <= rowIdx && (g.Length0 == 0 || rowIdx <= g.Length0)
      invariant forall r, c :: 0 <= r < rowIdx && r < g.Length0 && 0 <= c < g.Length1 ==> g[r, c] == Above(orig, r, c)
      invariant forall r, c :: rowIdx <= r < g.Length0 && 0 <= c < g.Length1 ==> g[r, c] == orig[r][c]
    {
      var colIdx := 0;
      while colIdx < g.Length1
        invariant 0 <= colIdx <= g.Length1
        invariant forall r, c :: 0 <= r < rowIdx && 0 <= c < g.Length1 ==> g[r, c] == Above(orig, r, c)
        invariant forall c :: 0 <= c < colIdx ==> g[rowIdx, c] == Above(orig, rowIdx, c)
        invariant forall c :: colIdx <= c < g.Length1 ==> g[rowIdx, c] == orig[rowIdx][c]
        invariant forall r, c :: rowIdx < r < g.Length0 && 0 <= c < g.Length1 ==> g[r, c] == orig[r][c]
      {
        if g[rowIdx, colIdx] == "" {
          g[rowIdx, colIdx] := g[rowIdx - 1, colIdx];
        }
        colIdx := colIdx + 1;
      }
      rowIdx := rowIdx + 1;
    }
    if g.Length0 > 0 {
      assert forall c :: 0 <= c < g.Length1 ==> g[0, c] == Above(orig, 0, c);
    }
  }

  /** The grid `render_table` builds from the body rows: each row padded to
      the column count, then filled down. */
  method FilledGrid(body: seq<seq<string>>, colCount: nat) returns (filled: seq<seq<string>>)
    requires forall k :: 0 <= k < |body| ==> |body[k]| <= colCount
    ensures filled == FilledDown(PadAll(body, colCount), colCount)
  {
    ghost var padded := PadAll(body, colCount);
    var grid := new string[|body|, colCount]((r, c) => if 0 <= r < |body| && 0 <= c < |body[r]| then body[r][c] else "");
    assert Cells(grid) == padded by {
      forall r | 0 <= r < |body| ensures Cells(grid)[r] == padded[r] {
        assert padded[r][..|body[r]|] == body[r];
      }
    }
    FillDown(grid);
    filled := Cells(grid);
    assert forall r :: 0 <= r < |filled| ==> filled[r] == FilledDown(padded, colCount)[r];
  }

  /** The remark block `render_table` appends after the table. */
  method RenderRemarks(indent: string, remarks: seq<string>) returns (block: string)
    ensures block == RemarkBlock(indent, remarks)
  {
    if remarks == [] {
      return "";
    }
    var items := "";
    for k := 0 to |remarks|
      invariant items == RemarkItems(indent, remarks[..k])
    {
      assert remarks[..k + 1][..k] == remarks[..k];
      var sent := remarks[k];
      if sent != "" {
        items := items + indent + "- " + sent + "\n";
      }
    }
    assert remarks[..|remarks|] == remarks;
    block := indent + "**【】**\n" + items + "\n";
  }

  /** The pipe-table lines for a layout. */
  method RenderLines(indent: string, l: Layout) returns (lines: seq<string>)
    ensures lines == TableLines(indent, l)
  {
    lines := [indent + RowLine(l.header), indent + RowLine(Copies("---", l.width))];
    for r := 0 to |l.body|
      invariant |lines| == 2 + r && lines[..2] == TableLines(indent, l)[..2]
      invariant forall k :: 0 <= k < r ==> lines[2 + k] == indent + RowLine(l.body[k])
    {
      lines := lines + [indent + RowLine(l.body[r])];
    }
  }

  /** `render_table`, over the extracted header texts and rows. */
  method RenderTable(header: seq<string>, rows: seq<SourceRow>, level: nat) returns (md: string)
    ensures md == TableMarkdown(header, rows, level)
  {
    var indent := Indent(level);
    var headerCols := NormalizeAll(header);
    var body, remarks := CollectRows(rows);
    if headerCols == [] && body == [] {
      return "";
    }
    if headerCols == [] {
      headerCols := body[0];
      body := body[1..];
    }
    var colCount := ColumnCount(headerCols, body);
    headerCols := Pad(headerCols, colCount);
    var filled := FilledGrid(body, colCount);
    var l := Layout(headerCols, filled, colCount);
    assert TableLayout(header, rows) == Some(l);
    var lines := RenderLines(indent, l);
    var block := RenderRemarks(indent, remarks);
    md := Join(lines, "\n") + "\n\n" + block;
  }
}
