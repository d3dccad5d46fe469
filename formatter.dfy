/** Hugo markdown serialisation of an article
    (internal/formatter/markdown.go): the front matter, the title escaping,
    the five-tag cap, the paragraph normalisation of the body, the file path
    scheme and the category translation table. */
module Formatter {
  import opened StrUtil
  import opened Models

  // ---------------------------------------------------------------------
  // Dates
  // ---------------------------------------------------------------------

  /** The "2006" layout element: at least four digits, with a sign for
      years before year zero. */
  function FormatYear(y: int): (r: string)
    ensures forall k :: 0 <= k < |r| ==> r[k] != '/'
  {
    if y < 0 then "-" + PadNat(-y, 4) else PadNat(y, 4)
  }

  /** Two-digit layout elements such as "01" or "15". */
  function Pad2(n: nat): (r: string)
    ensures |r| >= 2 && forall k :: 0 <= k < |r| ==> '0' <= r[k] <= '9'
  {
    PadNat(n, 2)
  }

  /** The layout "2006-01-02T15:04:05". */
  function DateTime(t: Time): string
  {
    FormatYear(t.year) + "-" + Pad2(t.month) + "-" + Pad2(t.day)
    + "T" + Pad2(t.hour) + ":" + Pad2(t.minute) + ":" + Pad2(t.second)
  }

  // ---------------------------------------------------------------------
  // Title escaping, and how a YAML reader decodes it
  // ---------------------------------------------------------------------

  /** The title shown: the Russian title, else the original one. */
  function DisplayTitle(a: Article): (r: string)
    ensures a.titleRU != "" ==> r == a.titleRU
    ensures a.titleRU == "" ==> r == a.title
  {
    if a.titleRU != "" then a.titleRU else a.title
  }

  /** The escaping as written: every '"' becomes \" and nothing else
      changes, backslashes included. */
  function EscapeQuotes(t: string): string
  {
    ReplaceChar(t, '"', "\\\"")
  }

  /** The escaping a YAML double-quoted scalar needs: a backslash becomes
      \\ and a '"' becomes \". */
  function EscapeYamlQuoted(t: string): string
    decreases |t|
  {
    if |t| == 0 then ""
    else (if t[0] == '\\' then "\\\\" else if t[0] == '"' then "\\\"" else [t[0]]) + EscapeYamlQuoted(t[1..])
  }

  /** Reading a YAML double-quoted scalar (section 7.3.1 of YAML 1.2) whose
      opening quote has been consumed: the decoded value and the text after
      the closing quote, or None when the scalar is not closed or holds an
      escape other than \" and \\ (the only ones the escapers here emit).
      A raw line break is also None: line folding is outside the model. */
  function DecodeDoubleQuoted(s: string): (r: Option<(string, string)>)
    decreases |s|
  {
    if |s| == 0 then None
    else if s[0] == '"' then Some(("", s[1..]))
    else if s[0] == '\n' then None
    else if s[0] == '\\' then
      if |s| < 2 || (s[1] != '"' && s[1] != '\\') then None
      else
        match DecodeDoubleQuoted(s[2..])
        case None => None
        case Some(p) => Some(([s[1]] + p.0, p.1))
    else
      match DecodeDoubleQuoted(s[1..])
      case None => None
      case Some(p) => Some(([s[0]] + p.0, p.1))
  }

  /** As written, a title ending in a backslash breaks the front matter:
      the backslash escapes the closing quote, and the scalar runs on into
      the line break. */
  lemma EscapeQuotesBreaksOnBackslash()
    ensures DecodeDoubleQuoted(EscapeQuotes("a\\") + "\"\n") == None
  {
    var s := "a\\\"\n";
    assert ReplaceChar("\\", '"', "\\\"") == "\\";
    assert EscapeQuotes("a\\") == "a\\";
    assert EscapeQuotes("a\\") + "\"\n" == s;
    assert DecodeDoubleQuoted("\n") == None;
    assert s[1..] == "\\\"\n";
    assert s[1..][2..] == "\n";
    assert DecodeDoubleQuoted(s[1..]) == None;
  }

  /** The corrected escaping reads back as the title, followed by whatever
      came after the closing quote, for every single-line title. */
  lemma {:induction false} EscapeYamlRoundTrip(t: string, rest: string)
    requires forall k :: 0 <= k < |t| ==> t[k] != '\n'
    ensures DecodeDoubleQuoted(EscapeYamlQuoted(t) + "\"" + rest) == Some((t, rest))
    decreases |t|
  {
    if |t| == 0 {
      assert EscapeYamlQuoted(t) + "\"" + rest == "\"" + rest;
    } else {
      var e := EscapeYamlQuoted(t[1..]) + "\"" + rest;
      EscapeYamlRoundTrip(t[1..], rest);
      var head := if t[0] == '\\' then "\\\\" else if t[0] == '"' then "\\\"" else [t[0]];
      assert EscapeYamlQuoted(t) + "\"" + rest == head + e;
      if t[0] == '\\' || t[0] == '"' {
        assert (head + e)[2..] == e;
      } else {
        assert (head + e)[1..] == e;
      }
      assert [t[0]] + t[1..] == t;
    }
  }

  /** Both escapers put a backslash before every '"'; they agree on every
      title without a backslash. */
  lemma {:induction false} EscapersAgreeWithoutBackslash(t: string)
    requires forall k :: 0 <= k < |t| ==> t[k] != '\\'
    ensures EscapeYamlQuoted(t) == EscapeQuotes(t)
    decreases |t|
  {
    if |t| > 0 {
      EscapersAgreeWithoutBackslash(t[1..]);
    }
  }

  // ---------------------------------------------------------------------
  // Categories
  // ---------------------------------------------------------------------

  const CategoryTranslations: map<string, string> := map[
    "news" := "Новости",
    "reviews" := "Обзоры",
    "features" := "Статьи",
    "sportbikes" := "Спортбайки",
    "cruisers" := "Круизеры",
    "adventure" := "Эндуро",
    "touring" := "Туринг",
    "naked" := "Нейкеды",
    "electric" := "Электромотоциклы",
    "racing" := "Гонки",
    "gear" := "Экипировка",
    "technology" := "Технологии",
    "industry" := "Индустрия",
    "custom" := "Кастом",
    "adventure-and-dual-sport" := "Эндуро",
    "touring-and-sport-touring" := "Туринг",
    "standard-and-naked" := "Нейкеды",
    "electric-motorcycles" := "Электромотоциклы"]

  /** translateCategory: the table entry of the lower-cased category, or
      the category unchanged when the table has none. */
  function TranslateCategory(category: string): (r: string)
    ensures ToLower(category) in CategoryTranslations ==> r == CategoryTranslations[ToLower(category)]
    ensures ToLower(category) !in CategoryTranslations ==> r == category
  {
    var lower := ToLower(category);
    if lower in CategoryTranslations then CategoryTranslations[lower] else category
  }

  /** The lookup ignores case: spellings that differ only in capitals
      translate alike whenever the table knows them. */
  lemma TranslateCategoryIgnoresCase(c1: string, c2: string)
    requires ToLower(c1) == ToLower(c2) && ToLower(c1) in CategoryTranslations
    ensures TranslateCategory(c1) == TranslateCategory(c2)
  {
  }

  /** Every translation starts with a Cyrillic letter, every key with a
      Latin one; so a translated category is not translated again. */
  lemma {:induction false} TranslateCategoryIdempotent(c: string)
    ensures TranslateCategory(TranslateCategory(c)) == TranslateCategory(c)
  {
    var lower := ToLower(c);
    if lower in CategoryTranslations {
      var v := CategoryTranslations[lower];
      assert |v| > 0 && '\U{400}' <= v[0] <= '\U{42F}';
      assert ToLower(v)[0] == LowerChar(v[0]);
      assert ToLower(v)[0] as int >= 0x400;
      forall k | k in CategoryTranslations ensures ToLower(v) != k {
        assert |k| > 0 && k[0] as int < 0x80;
      }
    }
  }

  // ---------------------------------------------------------------------
  // Body paragraphs
  // ---------------------------------------------------------------------

  predicate NonEmpty(p: string)
  {
    p != ""
  }

  /** The paragraphs formatContent keeps: the pieces between blank lines,
      trimmed, without the empty ones. */
  function ContentParagraphs(content: string): seq<string>
  {
    KeepTrimmed(Split(content, BlankLine), NonEmpty)
  }

  /** What formatContent returns. */
  function FormattedContent(content: string): string
  {
    Join(ContentParagraphs(content), BlankLine)
  }

  /** formatContent, loop by loop. */
  method FormatContent(content: string) returns (r: string)
    ensures r == FormattedContent(content)
  {
    var paragraphs := Split(content, BlankLine);
    var formatted: seq<string> := [];
    for i := 0 to |paragraphs|
      invariant formatted == KeepTrimmed(paragraphs[..i], NonEmpty)
    {
      PrefixStep(paragraphs, i);
      KeepTrimmedSnoc(paragraphs[..i], paragraphs[i], NonEmpty);
      var p := TrimSpace(paragraphs[i]);
      if p != "" {
        formatted := formatted + [p];
      }
    }
    WholePrefix(paragraphs);
    r := Join(formatted, BlankLine);
  }

  /** Kept paragraphs hold no blank line and do not end in a newline. */
  lemma ContentParagraphsSeparable(content: string)
    ensures forall k :: 0 <= k < |ContentParagraphs(content)| ==>
              var p := ContentParagraphs(content)[k];
              p != "" && TrimSpace(p) == p && !Contains(p, BlankLine) && p[|p| - 1] != '\n'
  {
    var ps := ContentParagraphs(content);
    SplitPiecesFreeAt(content, BlankLine);
    KeepTrimmedNotContains(Split(content, BlankLine), NonEmpty, BlankLine);
    forall k | 0 <= k < |ps| ensures ps[k][|ps[k]| - 1] != '\n' {
      TrimShape(ps[k], IsGoSpace);
    }
  }

  /** The formatted body splits on blank lines into exactly its
      paragraphs, all non-empty and trimmed; it is empty only when no
      paragraph survives. */
  lemma FormattedContentParagraphs(content: string)
    ensures |ContentParagraphs(content)| == 0 ==> FormattedContent(content) == ""
    ensures |ContentParagraphs(content)| >= 1 ==>
              Split(FormattedContent(content), BlankLine) == ContentParagraphs(content)
  {
    ContentParagraphsSeparable(content);
    if |ContentParagraphs(content)| >= 1 {
      SplitJoinBlankLine(ContentParagraphs(content));
    }
  }

  /** formatContent is idempotent. */
  lemma FormatContentIdempotent(content: string)
    ensures FormattedContent(FormattedContent(content)) == FormattedContent(content)
  {
    var ps := ContentParagraphs(content);
    FormattedContentParagraphs(content);
    if |ps| == 0 {
      assert Split("", BlankLine) == [""];
      assert TrimSpace("") == "";
      assert KeepTrimmed([""], NonEmpty) == [];
    } else {
      KeepTrimmedFixpoint(ps, NonEmpty);
    }
  }

  // ---------------------------------------------------------------------
  // The document
  // ---------------------------------------------------------------------

  /** Each text on a line of its own. */
  function Lines(ls: seq<string>): string
    decreases |ls|
  {
    if |ls| == 0 then "" else ls[0] + "\n" + Lines(ls[1..])
  }

  /** Adding a text adds its line at the end. */
  lemma {:induction false} LinesSnoc(ls: seq<string>, x: string)
    ensures Lines(ls + [x]) == Lines(ls) + x + "\n"
    decreases |ls|
  {
    if |ls| == 0 {
      assert Lines([x]) == x + "\n" + Lines([]);
    } else {
      TailOfSnoc(ls, x);
      LinesSnoc(ls[1..], x);
    }
  }

  /** One YAML list entry, without its line break. */
  function ListItem(s: string): string
  {
    "  - " + s
  }

  /** The front-matter tag lines: the first five tags at most, in order. */
  function TagItems(tags: seq<string>): (r: seq<string>)
    ensures |r| == Min(5, |tags|)
    ensures forall k :: 0 <= k < |r| ==> r[k] == ListItem(tags[k])
  {
    var t := Take(tags, 5);
    seq(|t|, k requires 0 <= k < |t| => ListItem(t[k]))
  }

  function TitleLine(escapedTitle: string): string
  {
    "title: \"" + escapedTitle + "\"\n"
  }

  function DateLine(t: Time): string
  {
    "date: " + DateTime(t) + "\n"
  }

  const NewsCategory := "Новости"

  function CategoriesBlock(a: Article): string
  {
    "categories:\n" + ListItem(NewsCategory) + "\n"
    + (if a.category != "" then ListItem(TranslateCategory(a.category)) + "\n" else "")
  }

  function TagsBlock(tags: seq<string>): string
  {
    if |tags| > 0 then "tags:\n" + Lines(TagItems(tags)) else ""
  }

  function SourceBlock(a: Article): string
  {
    "source: " + a.sourceURL + "\n" + (if a.author != "" then "author: " + a.author + "\n" else "")
  }

  function CoverBlock(a: Article, escapedTitle: string): string
  {
    if a.imageURL != "" then
      "cover:\n" + "  image: \"" + a.imageURL + "\"\n" + "  alt: \"" + escapedTitle + "\"\n" + "  hidden: false\n"
    else ""
  }

  /** The front matter between its two "---" lines. */
  function FrontMatter(a: Article): string
  {
    var e := EscapeYamlQuoted(DisplayTitle(a));
    "---\n" + TitleLine(e) + DateLine(a.publishedAt)
    + CategoriesBlock(a) + TagsBlock(a.tags) + SourceBlock(a) + CoverBlock(a, e) + "---\n\n"
  }

  /** The text of the body: the translation, else the original. */
  function BodyText(a: Article): (r: string)
    ensures a.contentRU != "" ==> r == a.contentRU
    ensures a.contentRU == "" ==> r == a.content
  {
    if a.contentRU != "" then a.contentRU else a.content
  }

  function Footer(a: Article): string
  {
    "*Источник: [" + a.sourceSite + "](" + a.sourceURL + ")*\n"
  }

  /** The whole document Format writes. */
  function Markdown(a: Article): string
  {
    FrontMatter(a) + FormattedContent(BodyText(a)) + "\n\n" + "---\n\n" + Footer(a)
  }

  /** The tag loop of Format: one list line per shown tag. */
  method WriteTags(sb: string, tags: seq<string>) returns (out: string)
    ensures out == sb + TagsBlock(tags)
  {
    out := sb;
    if |tags| > 0 {
      out := out + "tags:\n";
      ghost var head := out;
      var shown := Take(tags, 5);
      ghost var items := TagItems(tags);
      for i := 0 to |shown|
        invariant out == head + Lines(items[..i])
      {
        var line := ListItem(shown[i]) + "\n";
        PrefixStep(items, i);
        LinesSnoc(items[..i], items[i]);
        AppendAssoc(head, Lines(items[..i]), line);
        out := out + line;
      }
      assert items[..|shown|] == items;
    }
  }

  /** The opening of the front matter: title, date and categories. */
  method WriteHead(a: Article, escapedTitle: string) returns (sb: string)
    ensures sb == "---\n" + TitleLine(escapedTitle) + DateLine(a.publishedAt) + CategoriesBlock(a)
  {
    sb := "---\n";
    sb := sb + TitleLine(escapedTitle);
    sb := sb + DateLine(a.publishedAt);
    ghost var head := sb;
    sb := sb + "categories:\n";
    sb := sb + ListItem(NewsCategory) + "\n";
    ghost var news := "categories:\n" + ListItem(NewsCategory) + "\n";
    assert sb == head + news by {
      AppendAssoc(head, "categories:\n", ListItem(NewsCategory));
      AppendAssoc(head, "categories:\n" + ListItem(NewsCategory), "\n");
    }
    if a.category != "" {
      var line := ListItem(TranslateCategory(a.category));
      sb := sb + line + "\n";
      AppendAssoc(head + news, line, "\n");
      AppendAssoc(head, news, line + "\n");
    } else {
      assert news + "" == news;
    }
  }

  /** The source line and the optional author line. */
  method WriteSource(sb: string, a: Article) returns (out: string)
    ensures out == sb + SourceBlock(a)
  {
    out := sb + "source: " + a.sourceURL + "\n";
    if a.author != "" {
      out := out + "author: " + a.author + "\n";
    }
  }

  /** The cover block, written only when there is an image. */
  method WriteCover(sb: string, a: Article, escapedTitle: string) returns (out: string)
    ensures out == sb + CoverBlock(a, escapedTitle)
  {
    out := sb;
    if a.imageURL != "" {
      out := out + "cover:\n";
      out := out + "  image: \"" + a.imageURL + "\"\n";
      out := out + "  alt: \"" + escapedTitle + "\"\n";
      out := out + "  hidden: false\n";
    }
  }

  /** Format, step by step into a builder. */
  method Format(a: Article) returns (md: string)
    ensures md == Markdown(a)
  {
    var title := a.titleRU;
    if title == "" {
      title := a.title;
    }
    var escapedTitle := EscapeYamlQuoted(title);
    var sb := WriteHead(a, escapedTitle);
    sb := WriteTags(sb, a.tags);
    sb := WriteSource(sb, a);
    sb := WriteCover(sb, a, escapedTitle);
    sb := sb + "---\n\n";
    assert sb == FrontMatter(a);
    var content := a.contentRU;
    if content == "" {
      content := a.content;
    }
    var body := FormatContent(content);
    sb := sb + body;
    sb := sb + "\n\n";
    sb := sb + "---\n\n";
    sb := sb + Footer(a);
    md := sb;
  }

  /** Lines of texts without line breaks split back into those texts,
      followed by the empty text after the last line break. */
  lemma {:induction false} SplitLines(ls: seq<string>)
    requires forall k :: 0 <= k < |ls| ==> !Contains(ls[k], "\n")
    ensures Split(Lines(ls), "\n") == ls + [""]
    decreases |ls|
  {
    if |ls| == 0 {
      SplitNoSep("", "\n");
    } else {
      var rest := Lines(ls[1..]);
      var tail := Split(rest, "\n");
      SplitLines(ls[1..]);
      SplitAroundSep(ls[0], rest, "\n");
      SplitNoSep(ls[0], "\n");
      assert Split(Lines(ls), "\n") == [ls[0]] + tail;
      SeqAppendAssoc([ls[0]], ls[1..], [""]);
      ConsSplit(ls);
    }
  }

  /** A list entry of a text without line breaks has none either. */
  lemma ListItemNoNewline(t: string)
    requires !Contains(t, "\n")
    ensures !Contains(ListItem(t), "\n")
  {
    if Contains(ListItem(t), "\n") {
      var i := IndexOf(ListItem(t), "\n").value;
      assert OccursAt(ListItem(t), "\n", i);
      assert ListItem(t)[i] == '\n';
      assert i >= 4;
      assert t[i - 4..i - 3] == ListItem(t)[i..i + 1];
      ContainsWitness(t, "\n", i - 4);
    }
  }

  /** The tag section: present exactly when there are tags; then, for tags
      without line breaks, its lines are "tags:" followed by one list entry
      for each of the first five tags at most, in order. */
  lemma TagsBlockLines(tags: seq<string>)
    ensures TagsBlock(tags) == "" <==> |tags| == 0
    ensures |tags| > 0 && (forall k :: 0 <= k < |tags| ==> !Contains(tags[k], "\n")) ==>
              Split(TagsBlock(tags), "\n") == ["tags:"] + TagItems(tags) + [""]
  {
    if |tags| > 0 && (forall k :: 0 <= k < |tags| ==> !Contains(tags[k], "\n")) {
      TagsBlockSplit(tags);
    }
  }

  lemma TagsBlockSplit(tags: seq<string>)
    requires |tags| > 0 && forall k :: 0 <= k < |tags| ==> !Contains(tags[k], "\n")
    ensures Split(TagsBlock(tags), "\n") == ["tags:"] + TagItems(tags) + [""]
  {
    var items := TagItems(tags);
    forall k | 0 <= k < |items| ensures !Contains(items[k], "\n") {
      ListItemNoNewline(tags[k]);
    }
    assert TagsBlock(tags) == "tags:" + "\n" + Lines(items);
    SplitAroundSep("tags:", Lines(items), "\n");
    NotContainsChar("tags:", '\n');
    SplitNoSep("tags:", "\n");
    SplitLines(items);
    SeqAppendAssoc(["tags:"], items, [""]);
  }

  /** The front matter opens with "---" and the escaped title, the Russian
      one when there is one. */
  lemma FrontMatterOpensWithTitle(a: Article)
    ensures "---\n" + TitleLine(EscapeYamlQuoted(DisplayTitle(a))) <= FrontMatter(a)
  {
    var e := EscapeYamlQuoted(DisplayTitle(a));
    PrefixOfChain("---\n" + TitleLine(e), DateLine(a.publishedAt), CategoriesBlock(a), TagsBlock(a.tags), SourceBlock(a));
    var p := "---\n" + TitleLine(e) + DateLine(a.publishedAt) + CategoriesBlock(a) + TagsBlock(a.tags) + SourceBlock(a);
    PrefixOfConcat("---\n" + TitleLine(e), p, CoverBlock(a, e));
    PrefixOfConcat("---\n" + TitleLine(e), p + CoverBlock(a, e), "---\n\n");
  }

  /** Format's document opens with the front matter and so with the title;
      for a title without a backslash that is the line the escaping as
      written produces. */
  lemma MarkdownOpensWithTitle(a: Article)
    ensures FrontMatter(a) <= Markdown(a)
    ensures "---\n" + TitleLine(EscapeYamlQuoted(DisplayTitle(a))) <= Markdown(a)
    ensures (forall k :: 0 <= k < |DisplayTitle(a)| ==> DisplayTitle(a)[k] != '\\') ==>
      "---\n" + TitleLine(EscapeQuotes(DisplayTitle(a))) <= Markdown(a)
  {
    PrefixOfChain(FrontMatter(a), FormattedContent(BodyText(a)), "\n\n", "---\n\n", Footer(a));
    FrontMatterOpensWithTitle(a);
    PrefixTransitive("---\n" + TitleLine(EscapeYamlQuoted(DisplayTitle(a))), FrontMatter(a), Markdown(a));
    if forall k :: 0 <= k < |DisplayTitle(a)| ==> DisplayTitle(a)[k] != '\\' {
      EscapersAgreeWithoutBackslash(DisplayTitle(a));
    }
  }

  /** A YAML reader of the front matter gets the display title back from
      the title line, whatever quotes and backslashes it holds, with the
      date line next; a title spanning lines is outside the model. */
  lemma FrontMatterTitleReadsBack(a: Article)
    ensures (forall k :: 0 <= k < |DisplayTitle(a)| ==> DisplayTitle(a)[k] != '\n') ==>
      var d := DecodeDoubleQuoted(FrontMatter(a)[|"---\ntitle: \""|..]);
      d.Some? && d.value.0 == DisplayTitle(a) && "\n" + DateLine(a.publishedAt) <= d.value.1
  {
    var t := DisplayTitle(a);
    if forall k :: 0 <= k < |t| ==> t[k] != '\n' {
      var e := EscapeYamlQuoted(t);
      var date := DateLine(a.publishedAt);
      var more := CategoriesBlock(a) + TagsBlock(a.tags) + SourceBlock(a) + CoverBlock(a, e) + "---\n\n";
      assert FrontMatter(a) == "---\n" + TitleLine(e) + (date + more) by {
        FrontMatterRegroup("---\n" + TitleLine(e), date, CategoriesBlock(a), TagsBlock(a.tags), SourceBlock(a), CoverBlock(a, e), "---\n\n");
      }
      TitleLineReadsBack(t, date + more);
      PrefixThenMore("\n", date, more);
    }
  }

  lemma PrefixThenMore(n: string, d: string, m: string)
    ensures n + d <= n + (d + m)
  {
    assert (n + (d + m))[..|n + d|] == n + d;
  }

  lemma FrontMatterRegroup(x: string, d: string, c: string, g: string, s: string, v: string, m: string)
    ensures x + d + c + g + s + v + m == x + (d + (c + g + s + v + m))
  {
  }

  /** The title line, with anything after it, decodes to the title. */
  lemma TitleLineReadsBack(t: string, after: string)
    requires forall k :: 0 <= k < |t| ==> t[k] != '\n'
    ensures DecodeDoubleQuoted(("---\n" + TitleLine(EscapeYamlQuoted(t)) + after)[|"---\ntitle: \""|..])
            == Some((t, "\n" + after))
  {
    var e := EscapeYamlQuoted(t);
    TitleLineSplit(e, after);
    DropPrefix("---\ntitle: \"", e + "\"" + ("\n" + after));
    EscapeYamlRoundTrip(t, "\n" + after);
  }

  lemma TitleLineSplit(e: string, after: string)
    ensures "---\n" + TitleLine(e) + after == "---\ntitle: \"" + (e + "\"" + ("\n" + after))
  {
    assert "---\n" + "title: \"" == "---\ntitle: \"";
    assert "\"\n" == "\"" + "\n";
    SplitRegroup("---\n", "title: \"", e, "\"", "\n", after);
  }

  lemma SplitRegroup(x: string, y: string, e: string, w: string, n: string, after: string)
    ensures x + (y + e + (w + n)) + after == (x + y) + (e + w + (n + after))
  {
  }

  lemma DropPrefix(p: string, x: string)
    ensures (p + x)[|p|..] == x
  {
  }


  lemma PrefixOfChain(x: string, b: string, c: string, d: string, e: string)
    ensures x <= x + b + c + d + e
  {
    assert (x + b + c + d + e)[..|x|] == x;
  }

  /** Format's document ends with the source footer. */
  lemma MarkdownEndsWithFooter(a: Article)
    ensures HasSuffix(Markdown(a), Footer(a))
  {
    var head := FrontMatter(a) + FormattedContent(BodyText(a)) + "\n\n" + "---\n\n";
    assert Markdown(a) == head + Footer(a);
    assert Markdown(a)[|head|..] == Footer(a);
  }

  /** The category list always starts with "Новости". */
  lemma CategoriesStartWithNews(a: Article)
    ensures "categories:\n  - Новости\n" <= CategoriesBlock(a)
  {
  }

  /** There is a cover block exactly when the article has an image. */
  lemma CoverIffImage(a: Article, escapedTitle: string)
    ensures CoverBlock(a, escapedTitle) == "" <==> a.imageURL == ""
  {
  }

  // ---------------------------------------------------------------------
  // File path
  // ---------------------------------------------------------------------

  /** The file name's stem: the slug, else "article-<ID>". */
  function FileSlug(a: Article): (r: string)
    ensures a.slug != "" ==> r == a.slug
    ensures a.slug == "" ==> r == "article-" + IntToString(a.id)
  {
    if a.slug != "" then a.slug else "article-" + IntToString(a.id)
  }

  /** GetFilePath: baseDir/posts/YYYY/MM/<slug>.md, the empty base
      contributing nothing. */
  function GetFilePath(a: Article, baseDir: string): string
  {
    if baseDir == "" then RelativePath(a) else baseDir + "/" + RelativePath(a)
  }

  /** posts/YYYY/MM/<slug>.md */
  function RelativePath(a: Article): string
  {
    "posts" + "/" + (FormatYear(a.publishedAt.year) + "/" + (Pad2(a.publishedAt.month) + "/" + (FileSlug(a) + ".md")))
  }

  /** Splitting the path on '/' gives the base directory's components,
      then "posts", the year, the two-digit month and the file name, when
      the slug holds no '/'. */
  lemma GetFilePathComponents(a: Article, baseDir: string)
    requires forall k :: 0 <= k < |a.slug| ==> a.slug[k] != '/'
    ensures Split(GetFilePath(a, baseDir), "/")
            == (if baseDir == "" then [] else Split(baseDir, "/"))
               + ["posts", FormatYear(a.publishedAt.year), Pad2(a.publishedAt.month), FileSlug(a) + ".md"]
  {
    FileNameNoSlash(a);
    RelativePathComponents(FormatYear(a.publishedAt.year), Pad2(a.publishedAt.month), FileSlug(a) + ".md");
    if baseDir != "" {
      SplitAroundSep(baseDir, RelativePath(a), "/");
    }
  }

  lemma FileNameNoSlash(a: Article)
    requires forall k :: 0 <= k < |a.slug| ==> a.slug[k] != '/'
    ensures forall k :: 0 <= k < |FileSlug(a) + ".md"| ==> (FileSlug(a) + ".md")[k] != '/'
  {
    if a.slug == "" {
      var id := IntToString(a.id);
      assert forall k :: 0 <= k < |id| ==> id[k] != '/' by {
        if a.id < 0 {
          assert id == "-" + NatToString(-a.id);
        }
      }
    }
  }

  /** A text without '/' is one path component. */
  lemma Component(s: string)
    requires forall k :: 0 <= k < |s| ==> s[k] != '/'
    ensures Split(s, "/") == [s]
  {
    NotContainsChar(s, '/');
    SplitNoSep(s, "/");
  }

  lemma RelativePathComponents(y: string, m: string, f: string)
    requires forall k :: 0 <= k < |y| ==> y[k] != '/'
    requires forall k :: 0 <= k < |m| ==> m[k] != '/'
    requires forall k :: 0 <= k < |f| ==> f[k] != '/'
    ensures Split("posts" + "/" + (y + "/" + (m + "/" + f)), "/") == ["posts", y, m, f]
  {
    Component(m);
    Component(f);
    Component(y);
    Component("posts");
    SplitAroundSep(m, f, "/");
    SplitAroundSep(y, m + "/" + f, "/");
    SplitAroundSep("posts", y + "/" + (m + "/" + f), "/");
    FourSingletons("posts", y, m, f);
  }

  lemma FourSingletons<T>(a: T, b: T, c: T, d: T)
    ensures [a] + ([b] + ([c] + [d])) == [a, b, c, d]
  {
  }
}
