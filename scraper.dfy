/** Article page scraping (internal/fetcher/scraper.go): the text cleaning
    of a JSON-LD article body, the boilerplate and generic-category
    predicates, order-preserving deduplication, the keyword split and the
    merge of scraped fields into an article. The HTTP client, the regular
    expression that finds the JSON-LD blocks, encoding/json and the goquery
    HTML fallback are foreign code and enter as inputs. */
module Scraper {
  import opened StrUtil
  import opened Models

  // ---------------------------------------------------------------------
  // Boilerplate and generic categories
  // ---------------------------------------------------------------------

  const Boilerplates: seq<string> := [
    "subscribe", "newsletter", "sign up", "follow us", "share this",
    "advertisement", "sponsored", "cookie", "privacy policy",
    "terms of service", "all rights reserved", "for more info",
    "stay informed", "we want your opinion", "what would you like to see on",
    "the rideapart team", "got a tip for us"]

  const GenericCategories: set<string> := {
    "electric motorcycles", "industry", "adventure & dual-sport", "racing",
    "gear news", "technology", "reviews", "hunting", "gear",
    "products & services", "positions", "experiences", "travel", "rants",
    "explainers", "data deep dives", "standard & naked", "off road", "pwcs",
    "real racers", "news", "motogp", "utv", "motorcycle culture", "recalls"}

  /** Some phrase of the list occurs in `lower`, scanning the list in order. */
  function AnyPhraseIn(lower: string, phrases: seq<string>): (r: bool)
    ensures r <==> exists i :: 0 <= i < |phrases| && Contains(lower, phrases[i])
    decreases |phrases|
  {
    if |phrases| == 0 then false
    else if Contains(lower, phrases[0]) then true
    else
      var r := AnyPhraseIn(lower, phrases[1..]);
      assert forall i :: 1 <= i < |phrases| ==> phrases[i] == phrases[1..][i - 1];
      r
  }

  /** isBoilerplate: the text is shorter than 200 bytes and its lower-case
      form contains one of the listed phrases; a text of 200 bytes or more
      is never boilerplate. */
  function IsBoilerplate(text: string): (r: bool)
    ensures ByteLen(text) >= 200 ==> !r
  {
    AnyPhraseIn(ToLower(text), Boilerplates) && ByteLen(text) < 200
  }

  /** What isBoilerplate decides, phrase by phrase. Kept apart from the
      function so that the phrase list enters only the proofs that need it. */
  lemma BoilerplatePhrases(text: string)
    ensures IsBoilerplate(text) <==> ByteLen(text) < 200 && exists i :: 0 <= i < |Boilerplates| && Contains(ToLower(text), Boilerplates[i])
  {
  }

  /** isGenericCategory: case-insensitive membership in the fixed set. */
  predicate IsGenericCategory(kw: string)
  {
    ToLower(kw) in GenericCategories
  }

  /** Every spelling of a listed category, whatever its capitals, is generic,
      and two texts that agree once lower-cased agree on genericity. */
  lemma GenericCaseInsensitive(kw: string, other: string)
    ensures ToLower(kw) in GenericCategories ==> IsGenericCategory(kw)
    ensures ToLower(kw) == ToLower(other) ==> (IsGenericCategory(kw) <==> IsGenericCategory(other))
    ensures IsGenericCategory(ToLower(kw)) <==> IsGenericCategory(kw)
  {
    ToLowerIdempotent(kw);
  }

  // ---------------------------------------------------------------------
  // cleanArticleBody
  // ---------------------------------------------------------------------

  /** A section header that marks the end of the article proper. */
  predicate IsSectionHeader(p: string)
  {
    var lower := ToLower(p);
    lower == "more fun off road" || lower == "recommended for you"
    || (HasPrefix(lower, "more ") && ByteLen(p) < 50)
  }

  /** A short list item such as a team signature. */
  predicate IsTeamListItem(p: string)
  {
    HasPrefix(p, "- The ") && ByteLen(p) < 50
  }

  /** The first loop keeps a trimmed line exactly when this holds. */
  predicate KeepParagraph(p: string)
  {
    p != "" && !IsBoilerplate(p) && !IsSectionHeader(p) && !IsTeamListItem(p)
  }

  /** A short line without a full stop: probably a related-article title. */
  predicate IsShortTitle(p: string)
  {
    ByteLen(p) < 120 && !Contains(p, ".")
  }

  /** The second loop of cleanArticleBody: drop trailing short titles while
      more than one paragraph remains. The result is a prefix of the input,
      never empty when the input is not, everything dropped was a short
      title, and with two or more paragraphs left the last is not one. */
  function DropTrailingTitles(c: seq<string>): (r: seq<string>)
    ensures r <= c
    ensures |c| >= 1 ==> |r| >= 1
    ensures |r| >= 2 ==> !IsShortTitle(r[|r| - 1])
    ensures forall k :: |r| <= k < |c| ==> IsShortTitle(c[k])
    decreases |c|
  {
    if |c| > 1 && IsShortTitle(c[|c| - 1]) then
      var r := DropTrailingTitles(c[..|c| - 1]);
      assert forall k :: |r| <= k < |c| - 1 ==> c[k] == c[..|c| - 1][k];
      r
    else c
  }

  /** What cleanArticleBody returns for an article body. */
  function CleanedParagraphs(body: string): seq<string>
  {
    DropTrailingTitles(KeepTrimmed(Split(body, "\n"), KeepParagraph))
  }

  function CleanedBody(body: string): string
  {
    Join(CleanedParagraphs(body), BlankLine)
  }

  /** cleanArticleBody, loop by loop. */
  method CleanArticleBody(body: string) returns (r: string)
    ensures r == CleanedBody(body)
  {
    var paragraphs := Split(body, "\n");
    var cleaned: seq<string> := [];
    for i := 0 to |paragraphs|
      invariant cleaned == KeepTrimmed(paragraphs[..i], KeepParagraph)
    {
      PrefixStep(paragraphs, i);
      KeepTrimmedSnoc(paragraphs[..i], paragraphs[i], KeepParagraph);
      var p := TrimSpace(paragraphs[i]);
      if p == "" {
        continue;
      }
      if IsBoilerplate(p) {
        continue;
      }
      if IsSectionHeader(p) {
        continue;
      }
      if IsTeamListItem(p) {
        continue;
      }
      cleaned := cleaned + [p];
    }
    WholePrefix(paragraphs);
    ghost var kept := cleaned;
    while |cleaned| > 1
      invariant DropTrailingTitles(cleaned) == DropTrailingTitles(kept)
      decreases |cleaned|
    {
      var last := cleaned[|cleaned| - 1];
      if IsShortTitle(last) {
        cleaned := cleaned[..|cleaned| - 1];
      } else {
        break;
      }
    }
    r := Join(cleaned, BlankLine);
  }

  /** The cleaned body is made of kept paragraphs, each non-empty, trimmed
      and not boilerplate, joined by blank lines: splitting it on blank
      lines gives exactly those paragraphs back; the body is empty only
      when no line was kept. */
  lemma CleanedBodyParagraphs(body: string)
    ensures var ps := CleanedParagraphs(body);
      && (forall k :: 0 <= k < |ps| ==> KeepParagraph(ps[k]) && TrimSpace(ps[k]) == ps[k])
      && (|ps| == 0 ==> CleanedBody(body) == "")
      && (|ps| >= 1 ==> Split(CleanedBody(body), BlankLine) == ps)
  {
    KeptLinesRejoin(body, KeepParagraph, CleanedParagraphs(body));
  }

  /** The kept lines are exactly the trimmed lines that pass the filter,
      in their original order. */
  lemma KeptLinesInOrder(a: string, b: string)
    ensures KeepTrimmed(Split(a, "\n") + Split(b, "\n"), KeepParagraph)
            == KeepTrimmed(Split(a, "\n"), KeepParagraph) + KeepTrimmed(Split(b, "\n"), KeepParagraph)
  {
    KeepTrimmedConcat(Split(a, "\n"), Split(b, "\n"), KeepParagraph);
  }

  // ---------------------------------------------------------------------
  // uniqueStrings
  // ---------------------------------------------------------------------

  /** Deduplicating a longer list only appends: the order of first
      occurrences is kept. */
  lemma {:induction false} DedupPrefix(a: seq<string>, b: seq<string>)
    ensures Dedup(a) <= Dedup(a + b)
    decreases |b|
  {
    if |b| == 0 {
      assert a + b == a;
    } else {
      assert (a + b)[..|a + b| - 1] == a + b[..|b| - 1];
      DedupPrefix(a, b[..|b| - 1]);
    }
  }

  /** A list without repeats is left as it is. */
  lemma {:induction false} DedupOfUnique(s: seq<string>)
    requires NoDup(s)
    ensures Dedup(s) == s
    decreases |s|
  {
    if |s| > 0 {
      var init := s[..|s| - 1];
      DedupOfUnique(init);
      assert s[|s| - 1] !in init;
      assert s == init + [s[|s| - 1]];
    }
  }

  /** uniqueStrings with its `seen` set. */
  method UniqueStrings(input: seq<string>) returns (result: seq<string>)
    ensures result == Dedup(input)
  {
    var seen: set<string> := {};
    result := [];
    for i := 0 to |input|
      invariant result == Dedup(input[..i])
      invariant forall x :: x in seen <==> x in result
    {
      PrefixStep(input, i);
      var s := input[i];
      if s !in seen {
        seen := seen + {s};
        result := result + [s];
      }
    }
    WholePrefix(input);
  }

  // ---------------------------------------------------------------------
  // JSON-LD extraction
  // ---------------------------------------------------------------------

  /** A decoded JSON value of an interface{} field: a string, an array, or
      anything else. */
  datatype JsonValue = JString(s: string) | JArray(items: seq<JsonValue>) | JOther

  /** The fields of a decoded JSON-LD block that the extraction reads. */
  datatype JsonLdArticle = JsonLdArticle(articleBody: string, articleSection: string, image: JsonValue, keywords: JsonValue)

  /** What one extraction strategy yields. */
  datatype Extracted = Extracted(content: string, imageURL: string, category: string, tags: seq<string>)

  /** The image URL: a string field, or the first element of an array when
      that is a string. */
  function ImageOf(v: JsonValue): string
  {
    match v
    case JString(s) => s
    case JArray(items) => if |items| > 0 && items[0].JString? then items[0].s else ""
    case JOther => ""
  }

  /** The string elements of a keyword array that are not generic, in order. */
  function ArrayKeywords(items: seq<JsonValue>): (r: seq<string>)
    ensures |r| <= |items|
    ensures forall k :: 0 <= k < |r| ==> !IsGenericCategory(r[k])
    ensures forall k :: 0 <= k < |r| ==> JString(r[k]) in items
    decreases |items|
  {
    if |items| == 0 then []
    else
      var init := ArrayKeywords(items[..|items| - 1]);
      assert forall x :: x in items[..|items| - 1] ==> x in items;
      var v := items[|items| - 1];
      if v.JString? && !IsGenericCategory(v.s) then init + [v.s] else init
  }

  /** The array case keeps order: the keywords of two arrays one after the
      other are the keywords of the first, then those of the second. */
  lemma {:induction false} ArrayKeywordsConcat(a: seq<JsonValue>, b: seq<JsonValue>)
    ensures ArrayKeywords(a + b) == ArrayKeywords(a) + ArrayKeywords(b)
    decreases |b|
  {
    if |b| > 0 {
      var init := b[..|b| - 1];
      ArrayKeywordsConcat(a, init);
      SnocSplit(b);
      SeqAppendAssoc(a, init, [b[|b| - 1]]);
      assert (a + b)[..|a + b| - 1] == a + init;
      assert (a + b)[|a + b| - 1] == b[|b| - 1];
    } else {
      assert a + b == a;
    }
  }

  /** One array element yields its text exactly when it is a string that
      is not generic; with ArrayKeywordsConcat this fixes the result for
      every array. */
  lemma ArrayKeywordsSingle(v: JsonValue)
    ensures ArrayKeywords([v]) == if v.JString? && !IsGenericCategory(v.s) then [v.s] else []
  {
    assert [v][..0] == [];
  }

  /** Every string element that is not generic is kept. */
  lemma {:induction false} ArrayKeywordsComplete(items: seq<JsonValue>)
    ensures forall x :: JString(x) in items && !IsGenericCategory(x) ==> x in ArrayKeywords(items)
    decreases |items|
  {
    if |items| > 0 {
      var init := items[..|items| - 1];
      ArrayKeywordsComplete(init);
      SnocSplit(items);
      forall x | JString(x) in items && !IsGenericCategory(x)
        ensures x in ArrayKeywords(items)
      {
        if JString(x) != items[|items| - 1] {
          assert JString(x) in init;
        }
      }
    }
  }

  /** A comma-separated keyword is kept when it is non-empty and not generic. */
  predicate IsKeyword(k: string)
  {
    k != "" && !IsGenericCategory(k)
  }

  function KeywordTags(kw: JsonValue): seq<string>
  {
    match kw
    case JArray(items) => ArrayKeywords(items)
    case JString(s) => KeepTrimmed(Split(s, ","), IsKeyword)
    case JOther => []
  }

  /** A keywords string yields tags that hold no comma and are non-empty,
      trimmed and not generic; and every comma-separated piece whose trim
      is non-empty and not generic is among them. */
  lemma StringKeywordsClean(s: string)
    ensures forall k :: 0 <= k < |KeywordTags(JString(s))| ==>
              var t := KeywordTags(JString(s))[k];
              t != "" && TrimSpace(t) == t && !IsGenericCategory(t) && !Contains(t, ",")
    ensures forall p :: p in Split(s, ",") && IsKeyword(TrimSpace(p)) ==> TrimSpace(p) in KeywordTags(JString(s))
  {
    SplitPiecesFreeAt(s, ",");
    KeepTrimmedNotContains(Split(s, ","), IsKeyword, ",");
    KeepTrimmedMembers(Split(s, ","), IsKeyword);
  }

  /** The string case keeps order: the keywords of "a,b" are those of `a`
      followed by those of `b`. */
  lemma StringKeywordsConcat(a: string, b: string)
    ensures KeywordTags(JString(a + "," + b)) == KeywordTags(JString(a)) + KeywordTags(JString(b))
  {
    SplitAroundSep(a, b, ",");
    KeepTrimmedConcat(Split(a, ","), Split(b, ","), IsKeyword);
  }

  /** A piece without a comma yields its trim exactly when that is a
      keyword; with StringKeywordsConcat this fixes the result for every
      keywords string. */
  lemma StringKeywordsPiece(p: string)
    requires !Contains(p, ",")
    ensures KeywordTags(JString(p)) == if IsKeyword(TrimSpace(p)) then [TrimSpace(p)] else []
  {
    SplitNoSep(p, ",");
    KeepTrimmedSnoc([], p, IsKeyword);
  }

  /** The keyword switch of extractFromJSONLD, loop by loop. */
  method ExtractKeywords(kw: JsonValue) returns (tags: seq<string>)
    ensures tags == KeywordTags(kw)
  {
    tags := [];
    match kw {
      case JArray(items) =>
        for i := 0 to |items|
          invariant tags == ArrayKeywords(items[..i])
        {
          PrefixStep(items, i);
          var k := items[i];
          if k.JString? && !IsGenericCategory(k.s) {
            tags := tags + [k.s];
          }
        }
        WholePrefix(items);
      case JString(s) =>
        var parts := Split(s, ",");
        for i := 0 to |parts|
          invariant tags == KeepTrimmed(parts[..i], IsKeyword)
        {
          PrefixStep(parts, i);
          var k := TrimSpace(parts[i]);
          if k != "" && !IsGenericCategory(k) {
            tags := tags + [k];
          }
        }
        WholePrefix(parts);
      case JOther =>
    }
  }

  /** Index of the first block that decoded and has a non-empty body. */
  function FirstArticleBlock(blocks: seq<Option<JsonLdArticle>>): (r: Option<nat>)
    ensures r.Some? ==> r.value < |blocks| && blocks[r.value].Some? && blocks[r.value].value.articleBody != ""
    ensures forall j :: 0 <= j < |blocks| && (r.None? || j < r.value) ==>
              blocks[j].None? || blocks[j].value.articleBody == ""
    decreases |blocks|
  {
    if |blocks| == 0 then None
    else if blocks[0].Some? && blocks[0].value.articleBody != "" then Some(0)
    else
      match FirstArticleBlock(blocks[1..])
      case None => None
      case Some(k) => Some(k + 1)
  }

  /** A usable block with none before it is the first one. */
  lemma FirstArticleBlockAt(blocks: seq<Option<JsonLdArticle>>, i: nat)
    requires i < |blocks| && blocks[i].Some? && blocks[i].value.articleBody != ""
    requires forall j :: 0 <= j < i ==> blocks[j].None? || blocks[j].value.articleBody == ""
    ensures FirstArticleBlock(blocks) == Some(i)
  {
  }

  /** What extractFromJSONLD yields: the fields of the first usable block,
      or nothing. */
  function JsonLdFields(blocks: seq<Option<JsonLdArticle>>): Extracted
  {
    match FirstArticleBlock(blocks)
    case None => Extracted("", "", "", [])
    case Some(k) =>
      var d := blocks[k].value;
      Extracted(CleanedBody(d.articleBody), ImageOf(d.image), d.articleSection, KeywordTags(d.keywords))
  }

  /** extractFromJSONLD over the decoded blocks (None: the block did not
      decode): the loop stops at the first block with a body. */
  method ExtractFromJsonLd(blocks: seq<Option<JsonLdArticle>>) returns (x: Extracted)
    ensures x == JsonLdFields(blocks)
  {
    x := Extracted("", "", "", []);
    var i := 0;
    while i < |blocks|
      invariant 0 <= i <= |blocks|
      invariant forall j :: 0 <= j < i ==> blocks[j].None? || blocks[j].value.articleBody == ""
      invariant x == Extracted("", "", "", [])
    {
      if blocks[i].None? {
        i := i + 1;
        continue;
      }
      var data := blocks[i].value;
      if data.articleBody == "" {
        i := i + 1;
        continue;
      }
      FirstArticleBlockAt(blocks, i);
      var content := CleanArticleBody(data.articleBody);
      var tags := ExtractKeywords(data.keywords);
      x := Extracted(content, ImageOf(data.image), data.articleSection, tags);
      break;
    }
  }

  /** The two strategies of ScrapeArticle: JSON-LD first; when that gives no
      content, the HTML fallback supplies content, image and tags, and the
      category when JSON-LD had none. */
  function ScrapedFields(jsonLd: Extracted, fromHtml: Extracted): (x: Extracted)
    ensures jsonLd.content != "" ==> x == jsonLd
    ensures jsonLd.content == "" ==>
              && x.content == fromHtml.content && x.imageURL == fromHtml.imageURL && x.tags == fromHtml.tags
              && x.category == (if jsonLd.category != "" then jsonLd.category else fromHtml.category)
  {
    if jsonLd.content != "" then jsonLd
    else Extracted(fromHtml.content, fromHtml.imageURL,
                   if jsonLd.category == "" then fromHtml.category else jsonLd.category, fromHtml.tags)
  }

  /** The article once the scraped fields are merged in: the content is
      replaced only by non-empty text, trimmed; the image and the category
      are filled only when they were empty; the tags are replaced by the
      deduplicated scraped tags only when there are any; nothing else
      changes. */
  function MergeScraped(a: Article, x: Extracted): (m: Article)
    ensures m.(content := a.content, imageURL := a.imageURL, category := a.category, tags := a.tags) == a
    ensures x.content != "" ==> m.content == TrimSpace(x.content)
    ensures x.content == "" ==> m.content == a.content
    ensures a.imageURL != "" || x.imageURL == "" ==> m.imageURL == a.imageURL
    ensures a.imageURL == "" && x.imageURL != "" ==> m.imageURL == x.imageURL
    ensures a.category != "" || x.category == "" ==> m.category == a.category
    ensures a.category == "" && x.category != "" ==> m.category == x.category
    ensures |x.tags| > 0 ==> m.tags == Dedup(x.tags) && NoDup(m.tags)
    ensures |x.tags| == 0 ==> m.tags == a.tags
  {
    a.(content := if x.content != "" then TrimSpace(x.content) else a.content,
       imageURL := if x.imageURL != "" && a.imageURL == "" then x.imageURL else a.imageURL,
       category := if x.category != "" && a.category == "" then x.category else a.category,
       tags := if |x.tags| > 0 then Dedup(x.tags) else a.tags)
  }

  /** The last block of ScrapeArticle, field by field. */
  method UpdateScraped(article: Article, x: Extracted) returns (a: Article)
    ensures a == MergeScraped(article, x)
  {
    a := article;
    if x.content != "" {
      a := a.(content := TrimSpace(x.content));
    }
    if x.imageURL != "" && a.imageURL == "" {
      a := a.(imageURL := x.imageURL);
    }
    if x.category != "" && a.category == "" {
      a := a.(category := x.category);
    }
    if |x.tags| > 0 {
      var u := UniqueStrings(x.tags);
      a := a.(tags := u);
    }
  }

  /** The outcome of the page request. */
  datatype HttpOutcome =
    | RequestError(err: string)
    | TransportError(err: string)
    | Response(status: int, body: Result<string>)

  /** ScrapeArticle. A nil article or one without a source URL is refused
      before any request. A failed request, a status other than 200 or an
      unreadable body is an error and leaves the article as it was.
      Otherwise the scraped fields are merged: the content is replaced only
      by non-empty trimmed text, the image and the category are filled only
      when they were empty, the tags are replaced by the deduplicated scraped
      tags only when there are any; nothing else changes. */
  method ScrapeArticle(article: Option<Article>, fetch: string -> HttpOutcome,
                       jsonLdBlocks: string -> seq<Option<JsonLdArticle>>, fromHtml: string -> Extracted)
    returns (r: Result<Article>, requested: bool)
    ensures article.None? || article.value.sourceURL == "" ==> r == Err("article has no source URL") && !requested
    ensures article.Some? && article.value.sourceURL != "" ==> requested
    ensures r.Ok? ==> article.Some? && fetch(article.value.sourceURL).Response?
                      && fetch(article.value.sourceURL).status == 200 && fetch(article.value.sourceURL).body.Ok?
    ensures r.Ok? ==>
              var html := fetch(article.value.sourceURL).body.value;
              r.value == MergeScraped(article.value, ScrapedFields(JsonLdFields(jsonLdBlocks(html)), fromHtml(html)))
    ensures article.Some? && article.value.sourceURL != "" ==>
              match fetch(article.value.sourceURL)
              case RequestError(e) => r == Err("failed to create request for " + article.value.sourceURL + ": " + e)
              case TransportError(e) => r == Err("failed to fetch " + article.value.sourceURL + ": " + e)
              case Response(status, body) =>
                if status != 200 then r == Err("unexpected status " + IntToString(status) + " for " + article.value.sourceURL)
                else if body.Err? then r == Err("failed to read body from " + article.value.sourceURL + ": " + body.msg)
                else r.Ok?
  {
    requested := false;
    if article.None? || article.value.sourceURL == "" {
      return Err("article has no source URL"), requested;
    }
    var a := article.value;
    requested := true;
    var resp := fetch(a.sourceURL);
    match resp {
      case RequestError(e) =>
        return Err("failed to create request for " + a.sourceURL + ": " + e), requested;
      case TransportError(e) =>
        return Err("failed to fetch " + a.sourceURL + ": " + e), requested;
      case Response(status, body) =>
        if status != 200 {
          return Err("unexpected status " + IntToString(status) + " for " + a.sourceURL), requested;
        }
        if body.Err? {
          return Err("failed to read body from " + a.sourceURL + ": " + body.msg), requested;
        }
    }
    var html := resp.body.value;
    var jl := ExtractFromJsonLd(jsonLdBlocks(html));
    var content, imageURL, category, tags := jl.content, jl.imageURL, jl.category, jl.tags;
    if content == "" {
      var h := fromHtml(html);
      content, imageURL, tags := h.content, h.imageURL, h.tags;
      if category == "" {
        category := h.category;
      }
    }
    a := UpdateScraped(a, Extracted(content, imageURL, category, tags));
    r := Ok(a);
  }
}
