/** The label and text helpers of the law-to-Markdown converter: article and
    item numbers spelled out, paragraph labels, whitespace normalisation and
    the one-line rendering of an item sentence made of columns. */
module LawText {
  import opened Text

  /** `normalize_text`: every run of whitespace becomes one space and the ends
      are trimmed; the words of the text are kept, in order. */
  function NormalizeText(text: string): (r: string)
    ensures Collapsed(r)
    ensures Words(r) == Words(text)
  {
    if text == "" then
      assert SplitOn("", Whitespace) == [""];
      assert NonEmpty([""]) == [] + NonEmpty([]);
      ""
    else
      WordsAreWords(text);
      JoinWords(Words(text));
      Join(Words(text), " ")
  }

  /** Normalising twice is normalising once. */
  lemma NormalizeTextIdempotent(text: string)
    ensures NormalizeText(NormalizeText(text)) == NormalizeText(text)
  {
    var once := NormalizeText(text);
    if once != "" && text != "" {
      assert Words(once) == Words(text);
    }
  }

  /** Normalised text has no whitespace at either end and no two spaces in a row. */
  lemma NormalizeTextShape(text: string)
    ensures var r := NormalizeText(text);
      && (r != "" ==> r[0] !in Whitespace && r[|r| - 1] !in Whitespace)
      && (forall i :: 0 <= i < |r| - 1 ==> !(r[i] == ' ' && r[i + 1] == ' '))
      && (forall i :: 0 <= i < |r| && r[i] in Whitespace ==> r[i] == ' ')
  {
    var r := NormalizeText(text);
    if r != "" && r[|r| - 1] in Whitespace {
      assert false;
    }
  }

  /** The normalised text of every element, in order. */
  function NormalizeAll(texts: seq<string>): (r: seq<string>)
    ensures |r| == |texts|
    ensures forall k :: 0 <= k < |r| ==> r[k] == NormalizeText(texts[k])
  {
    if texts == [] then [] else [NormalizeText(texts[0])] + NormalizeAll(texts[1..])
  }

  /** The article label the converter prints for a `Num` attribute such as
      "38_3_2": 第, the first part, 条, then の and each further part. */
  function ArticleLabel(num: string): string
  {
    if num == "" then ""
    else
      var parts := Split(num, '_');
      "第" + parts[0] + "条" + Chain("の", parts[1..])
  }

  /** `convert_article_num`. */
  method ConvertArticleNum(num: string) returns (text: string)
    ensures text == ArticleLabel(num)
  {
    if num == "" {
      return "";
    }
    var parts := Split(num, '_');
    text := "第" + parts[0] + "条";
    var i := 1;
    while i < |parts|
      invariant 1 <= i <= |parts|
      invariant text == "第" + parts[0] + "条" + Chain("の", parts[1..i])
    {
      ChainSnoc("の", parts[1..i], parts[i]);
      assert parts[1..i + 1] == parts[1..i] + [parts[i]];
      text := text + "の" + parts[i];
      i := i + 1;
    }
    assert parts[1..i] == parts[1..];
  }

  /** The part after the first `_` separator is spelled with every `_` read as の. */
  lemma ArticleLabelByReplace(num: string)
    requires num != ""
    ensures var head := Split(num, '_')[0];
      ArticleLabel(num) == "第" + head + "条" + Replace(num[|head|..], '_', "の")
  {
    var parts := Split(num, '_');
    var head := parts[0];
    var rest := num[|head|..];
    JoinSplit(num, '_', "の");
    assert Join(parts, "の") == head + Chain("の", parts[1..]);
    assert num == head + rest;
    ReplaceConcat(head, rest, '_', "の");
    ReplaceAbsent(head, '_', "の");
    assert head + Chain("の", parts[1..]) == head + Replace(rest, '_', "の");
    assert (head + Chain("の", parts[1..]))[|head|..] == Chain("の", parts[1..]);
    assert (head + Replace(rest, '_', "の"))[|head|..] == Replace(rest, '_', "の");
  }

  /** Reads the article number back from its label. */
  function ArticleNumOf(text: string): string
    requires text != ""
  {
    Replace(Replace(text[1..], '条', ""), 'の', "_")
  }

  /** An article number that itself holds no 条 and no の is recovered from its label. */
  lemma ArticleLabelRoundTrip(num: string)
    requires num != ""
    requires NoneIn(num, {'条'}) && NoneIn(num, {'の'})
    ensures ArticleLabel(num) != "" && ArticleNumOf(ArticleLabel(num)) == num
  {
    var head := Split(num, '_')[0];
    var rest := num[|head|..];
    var spelled := Replace(rest, '_', "の");
    ArticleLabelByReplace(num);
    var text := ArticleLabel(num);
    assert text == "第" + (head + "条" + spelled);
    assert text[1..] == head + "条" + spelled;
    assert num == head + rest;
    NoneInParts(num, head, rest);
    DeleteMark(head, spelled, rest);
    assert Replace(text[1..], '条', "") == head + spelled;
    ReplaceConcat(head, spelled, 'の', "_");
    ReplaceAbsent(head, 'の', "_");
    ReplaceBack(rest, '_', 'の');
  }

  lemma NoneInParts(num: string, head: string, rest: string)
    requires num == head + rest
    requires NoneIn(num, {'条'}) && NoneIn(num, {'の'})
    ensures NoneIn(head, {'条'}) && NoneIn(head, {'の'})
    ensures NoneIn(rest, {'条'}) && NoneIn(rest, {'の'})
  {
    assert forall i :: 0 <= i < |head| ==> head[i] == num[i];
    assert forall i :: 0 <= i < |rest| ==> rest[i] == num[|head| + i];
  }

  lemma DeleteMark(head: string, spelled: string, rest: string)
    requires NoneIn(head, {'条'}) && NoneIn(rest, {'条'})
    requires spelled == Replace(rest, '_', "の")
    ensures Replace(head + "条" + spelled, '条', "") == head + spelled
  {
    ReplaceKeepsAbsent(rest, '_', "の", '条');
    ReplaceAbsent(head, '条', "");
    ReplaceAbsent(spelled, '条', "");
    assert Replace("条", '条', "") == "" by {
      assert "条"[1..] == "";
    }
    ReplaceConcat(head, "条", '条', "");
    assert Replace(head + "条", '条', "") == head;
    ReplaceConcat(head + "条", spelled, '条', "");
  }

  /** The item label the converter prints for a `Num` attribute such as
      "3_2": 第, the parts joined by の, then 号. */
  function ItemLabel(num: string): string
  {
    if num == "" then ""
    else
      var parts := Split(num, '_');
      "第" + parts[0] + Chain("の", parts[1..]) + "号"
  }

  /** `convert_item_num`. */
  method ConvertItemNum(num: string) returns (text: string)
    ensures text == ItemLabel(num)
  {
    if num == "" {
      return "";
    }
    var parts := Split(num, '_');
    var result := "第" + parts[0];
    var i := 1;
    while i < |parts|
      invariant 1 <= i <= |parts|
      invariant result == "第" + parts[0] + Chain("の", parts[1..i])
    {
      ChainSnoc("の", parts[1..i], parts[i]);
      assert parts[1..i + 1] == parts[1..i] + [parts[i]];
      result := result + "の" + parts[i];
      i := i + 1;
    }
    assert parts[1..i] == parts[1..];
    text := result + "号";
  }

  /** The item label is the number with every `_` read as の, between 第 and 号. */
  lemma ItemLabelByReplace(num: string)
    requires num != ""
    ensures ItemLabel(num) == "第" + Replace(num, '_', "の") + "号"
  {
    JoinSplit(num, '_', "の");
  }

  /** Reads the item number back from its label. */
  function ItemNumOf(text: string): string
    requires |text| >= 2
  {
    Replace(text[1..|text| - 1], 'の', "_")
  }

  /** An item number that holds no の is recovered from its label. */
  lemma ItemLabelRoundTrip(num: string)
    requires num != "" && NoneIn(num, {'の'})
    ensures |ItemLabel(num)| >= 2 && ItemNumOf(ItemLabel(num)) == num
  {
    ItemLabelByReplace(num);
    var text := ItemLabel(num);
    assert text[1..|text| - 1] == Replace(num, '_', "の");
    ReplaceBack(num, '_', 'の');
  }

  /** `get_paragraph_label`: no label for the only paragraph of an article or
      for a paragraph without a number; otherwise 第, the number, 項. */
  function GetParagraphLabel(num: string, totalParagraphs: nat): (text: string)
    ensures text == "" <==> totalParagraphs == 1 || num == ""
    ensures text != "" ==> |text| == |num| + 2 && text[0] == '第' && text[|text| - 1] == '項'
    ensures text != "" ==> text[1..|text| - 1] == num
  {
    if totalParagraphs == 1 then ""
    else if num == "" then ""
    else "第" + num + "項"
  }

  /** Four spaces per indentation level. */
  function Indent(level: nat): string
  {
    Repeat("    ", level)
  }

  /** The words of every text, in order. */
  function WordsOfAll(texts: seq<string>): seq<string>
  {
    if texts == [] then [] else Words(texts[0]) + WordsOfAll(texts[1..])
  }

  lemma {:induction false} JoinCollapsed(ps: seq<string>)
    requires forall k :: 0 <= k < |ps| ==> ps[k] != "" && Collapsed(ps[k])
    ensures Collapsed(Join(ps, " "))
    ensures Words(Join(ps, " ")) == WordsOfAll(ps)
  {
    if ps == [] {
      assert SplitOn("", Whitespace) == [""];
      assert NonEmpty([""]) == [] + NonEmpty([]);
    } else if |ps| == 1 {
      assert ps[1..] == [];
      assert Join(ps, " ") == ps[0] + Chain(" ", []);
      assert Join(ps, " ") == ps[0];
      assert WordsOfAll(ps) == Words(ps[0]) + WordsOfAll([]);
      assert WordsOfAll(ps) == Words(ps[0]);
    } else {
      JoinCons(ps[0], ps[1..], " ");
      assert [ps[0]] + ps[1..] == ps;
      JoinCollapsed(ps[1..]);
      CollapsedJoin2(ps[0], Join(ps[1..], " "));
      WordsConcat(ps[0], Join(ps[1..], " "));
    }
  }

  lemma {:induction false} NormalizedPiecesWords(texts: seq<string>)
    ensures var ps := NonEmpty(NormalizeAll(texts));
      && (forall k :: 0 <= k < |ps| ==> Collapsed(ps[k]))
      && WordsOfAll(ps) == WordsOfAll(texts)
  {
    if texts != [] {
      NormalizedPiecesWords(texts[1..]);
      var n := NormalizeAll(texts);
      assert n == [NormalizeText(texts[0])] + NormalizeAll(texts[1..]);
      assert n[1..] == NormalizeAll(texts[1..]);
      var rest := NonEmpty(NormalizeAll(texts[1..]));
      if n[0] == "" {
        assert NonEmpty(n) == rest;
        assert Words(texts[0]) == Words("") by {
          assert SplitOn("", Whitespace) == [""];
          assert NonEmpty([""]) == [] + NonEmpty([]);
        }
        assert Words("") == [];
      } else {
        assert NonEmpty(n) == [n[0]] + rest;
        assert WordsOfAll([n[0]] + rest) == Words(n[0]) + WordsOfAll(rest);
      }
    }
  }

  /** The definition part of an item sentence: the normalised texts of the
      later columns, empty ones skipped, joined by single spaces. It holds
      exactly the words of those columns, in order. */
  function ItemDefinition(columns: seq<string>): (definition: string)
    ensures Collapsed(definition)
    ensures Words(definition) == WordsOfAll(columns)
  {
    NormalizedPiecesWords(columns);
    JoinCollapsed(NonEmpty(NormalizeAll(columns)));
    Join(NonEmpty(NormalizeAll(columns)), " ")
  }

  /** The term of an item sentence: its first column, or the item title when
      that column is blank. */
  function ItemTerm(columns: seq<string>, itemTitle: string): string
    requires columns != []
  {
    var term := NormalizeText(columns[0]);
    if term == "" then itemTitle else term
  }

  /** `render_item_sentence`, over the already-extracted texts of the
      sentence's `Column` children (or of the whole sentence when it has none). */
  function RenderItemSentence(level: nat, columns: seq<string>, sentence: string,
                              itemLabel: string, itemTitle: string): (line: string)
    ensures var prefix := Indent(level) + "- **" + itemLabel + "** ";
      && |prefix| + 1 <= |line|
      && line[..|prefix|] == prefix
      && line[|line| - 1] == '\n'
  {
    var lead := Indent(level) + "- " + "**" + itemLabel + "**" + " ";
    assert lead == Indent(level) + "- **" + itemLabel + "** ";
    if columns != [] then
      var term := ItemTerm(columns, itemTitle);
      var definition := ItemDefinition(columns[1..]);
      if term != "" && definition != "" then lead + (term + ": " + definition) + "\n"
      else if term != "" then lead + term + "\n"
      else lead + definition + "\n"
    else lead + NormalizeText(sentence) + "\n"
  }

  /** With columns, the line after the label is `term: definition` when both
      are present and the one that is present otherwise; without columns it
      is the normalised sentence. */
  lemma ItemSentenceBody(level: nat, columns: seq<string>, sentence: string,
                         itemLabel: string, itemTitle: string)
    ensures var line := RenderItemSentence(level, columns, sentence, itemLabel, itemTitle);
      var prefix := Indent(level) + "- **" + itemLabel + "** ";
      var body := line[|prefix|..|line| - 1];
      && (columns == [] ==> body == NormalizeText(sentence))
      && (columns != [] ==>
            var term := ItemTerm(columns, itemTitle);
            var definition := ItemDefinition(columns[1..]);
            && (term != "" && definition != "" ==> body == term + ": " + definition)
            && (term != "" && definition == "" ==> body == term)
            && (term == "" ==> body == definition))
  {
  }

  /** The item line is one line: its only line break is the last character,
      provided the label and the item title hold none (a line break inside
      the title, used in place of a blank term, reaches the output). */
  lemma ItemSentenceOneLine(level: nat, columns: seq<string>, sentence: string,
                            itemLabel: string, itemTitle: string)
    requires NoneIn(itemLabel, {'\n'}) && NoneIn(itemTitle, {'\n'})
    ensures var line := RenderItemSentence(level, columns, sentence, itemLabel, itemTitle);
      NoneIn(line[..|line| - 1], {'\n'})
  {
    var line := RenderItemSentence(level, columns, sentence, itemLabel, itemTitle);
    var prefix := Indent(level) + "- **" + itemLabel + "** ";
    var body := line[|prefix|..|line| - 1];
    ItemSentenceBody(level, columns, sentence, itemLabel, itemTitle);
    ItemBodyNoNewline(columns, sentence, itemTitle, body);
    ItemPrefixNoNewline(level, itemLabel, prefix);
    LineSplice(line, prefix, body);
  }

  lemma ItemPrefixNoNewline(level: nat, itemLabel: string, prefix: string)
    requires NoneIn(itemLabel, {'\n'}) && prefix == Indent(level) + "- **" + itemLabel + "** "
    ensures NoneIn(prefix, {'\n'})
  {
    RepeatKeepsAbsent("    ", level, '\n');
  }

  lemma LineSplice(line: string, prefix: string, body: string)
    requires |prefix| + 1 <= |line| && line[..|prefix|] == prefix
    requires body == line[|prefix|..|line| - 1]
    requires NoneIn(prefix, {'\n'}) && NoneIn(body, {'\n'})
    ensures NoneIn(line[..|line| - 1], {'\n'})
  {
    assert line[..|line| - 1] == prefix + body;
  }

  /** The text after the label holds no line break. */
  lemma ItemBodyNoNewline(columns: seq<string>, sentence: string, itemTitle: string, body: string)
    requires NoneIn(itemTitle, {'\n'})
    requires columns == [] ==> body == NormalizeText(sentence)
    requires columns != [] ==>
      var term := ItemTerm(columns, itemTitle);
      var definition := ItemDefinition(columns[1..]);
      && (term != "" && definition != "" ==> body == term + ": " + definition)
      && (term != "" && definition == "" ==> body == term)
      && (term == "" ==> body == definition)
    ensures NoneIn(body, {'\n'})
  {
    if columns == [] {
      CollapsedNoNewline(NormalizeText(sentence));
    } else {
      var term := ItemTerm(columns, itemTitle);
      var definition := ItemDefinition(columns[1..]);
      CollapsedNoNewline(NormalizeText(columns[0]));
      CollapsedNoNewline(definition);
      assert NoneIn(term, {'\n'});
    }
  }
}
