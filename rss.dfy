/** RSS items to articles (internal/fetcher/rss.go). The feed parser
    (gofeed) and the slug generator (gosimple/slug) are foreign code: the
    parsed items and the slug function are inputs. The clock is the
    parameter `now`. */
module Rss {
  import opened StrUtil
  import opened Models

  datatype Person = Person(name: string)
  datatype Enclosure = Enclosure(url: string, mimeType: string)

  /** The fields of a gofeed.Item that the mapping reads. `image` is the
      URL of item.Image when that is present. */
  datatype Item = Item(
    link: string,
    title: string,
    description: string,
    publishedParsed: Option<Time>,
    updatedParsed: Option<Time>,
    authors: seq<Person>,
    author: Option<Person>,
    categories: seq<string>,
    image: Option<string>,
    enclosures: seq<Enclosure>)

  const MaxSlugLen := 80

  predicate IsImageType(t: string)
  {
    t == "image/jpeg" || t == "image/png" || t == "image/webp"
  }

  /** URL of the first enclosure whose type is an image type, if any. */
  function FirstImageEnclosure(encs: seq<Enclosure>): (r: Option<string>)
    ensures r.None? <==> forall k :: 0 <= k < |encs| ==> !IsImageType(encs[k].mimeType)
    ensures r.Some? ==> exists k :: 0 <= k < |encs| && IsImageType(encs[k].mimeType) && encs[k].url == r.value
                          && forall j :: 0 <= j < k ==> !IsImageType(encs[j].mimeType)
    decreases |encs|
  {
    if |encs| == 0 then None
    else if IsImageType(encs[0].mimeType) then Some(encs[0].url)
    else
      var r := FirstImageEnclosure(encs[1..]);
      assert forall k :: 1 <= k < |encs| ==> encs[k] == encs[1..][k - 1];
      if r.Some? then
        var k :| 0 <= k < |encs[1..]| && IsImageType(encs[1..][k].mimeType) && encs[1..][k].url == r.value
                 && forall j :: 0 <= j < k ==> !IsImageType(encs[1..][j].mimeType);
        assert forall j :: 0 <= j < k + 1 ==> !IsImageType(encs[j].mimeType) by {
          forall j | 0 <= j < k + 1 ensures !IsImageType(encs[j].mimeType) {
            if j > 0 { assert encs[j] == encs[1..][j - 1]; }
          }
        }
        r
      else r
  }

  /** The article built from one item (the specification of ItemToArticle). */
  function ItemArticle(item: Item, sourceSite: string, now: Time, makeSlug: string -> string): Article
  {
    var published :=
      if item.publishedParsed.Some? then item.publishedParsed.value
      else if item.updatedParsed.Some? then item.updatedParsed.value
      else now;
    var author :=
      if |item.authors| > 0 then item.authors[0].name
      else if item.author.Some? then item.author.value.name
      else "";
    var image :=
      if item.image.Some? then item.image.value
      else match FirstImageEnclosure(item.enclosures)
        case Some(u) => u
        case None => "";
    var s := makeSlug(item.title);
    Article(
      id := 0, sourceURL := item.link, sourceSite := sourceSite,
      title := item.title, titleRU := "", description := item.description,
      content := "", contentRU := "", author := author,
      category := if |item.categories| > 0 then item.categories[0] else "",
      tags := item.categories, imageURL := image,
      publishedAt := published, fetchedAt := now, translatedAt := None,
      publishedToMkDocs := false,
      slug := if |s| > MaxSlugLen then s[..MaxSlugLen] else s)
  }

  /** The first image enclosure is the one FirstImageEnclosure finds. */
  lemma {:induction false} FirstImageIs(encs: seq<Enclosure>, k: nat)
    requires k < |encs| && IsImageType(encs[k].mimeType)
    requires forall j :: 0 <= j < k ==> !IsImageType(encs[j].mimeType)
    ensures FirstImageEnclosure(encs) == Some(encs[k].url)
    decreases k
  {
    if k > 0 {
      assert forall j :: 0 <= j < k - 1 ==> encs[1..][j] == encs[j + 1];
      FirstImageIs(encs[1..], k - 1);
    }
  }

  /** What itemToArticle promises. The date falls back from the published
      date to the updated date to `now`; the author from the first of the
      authors to the single author to ""; with categories the first is the
      category and all of them are the tags; the image is the item image,
      else the URL of the first jpeg/png/webp enclosure, else ""; the slug is
      at most 80 characters long and a prefix of the generated slug. */
  lemma ItemArticleFacts(item: Item, sourceSite: string, now: Time, makeSlug: string -> string)
    ensures var a := ItemArticle(item, sourceSite, now, makeSlug);
      && a.sourceURL == item.link && a.title == item.title && a.fetchedAt == now
      && a.publishedAt == (if item.publishedParsed.Some? then item.publishedParsed.value
                           else if item.updatedParsed.Some? then item.updatedParsed.value
                           else now)
      && (|item.authors| > 0 ==> a.author == item.authors[0].name)
      && (|item.authors| == 0 && item.author.Some? ==> a.author == item.author.value.name)
      && (|item.authors| == 0 && item.author.None? ==> a.author == "")
      && (|item.categories| > 0 ==> a.category == item.categories[0] && a.tags == item.categories)
      && (item.image.Some? ==> a.imageURL == item.image.value)
      && ((item.image.None? && forall k :: 0 <= k < |item.enclosures| ==> !IsImageType(item.enclosures[k].mimeType))
          ==> a.imageURL == "")
      && (forall k :: item.image.None? && 0 <= k < |item.enclosures| && IsImageType(item.enclosures[k].mimeType)
            && (forall j :: 0 <= j < k ==> !IsImageType(item.enclosures[j].mimeType))
            ==> a.imageURL == item.enclosures[k].url)
      && |a.slug| <= MaxSlugLen && a.slug <= makeSlug(item.title)
  {
    forall k | item.image.None? && 0 <= k < |item.enclosures| && IsImageType(item.enclosures[k].mimeType)
               && (forall j :: 0 <= j < k ==> !IsImageType(item.enclosures[j].mimeType))
      ensures ItemArticle(item, sourceSite, now, makeSlug).imageURL == item.enclosures[k].url
    {
      FirstImageIs(item.enclosures, k);
    }
  }

  /** itemToArticle, step by step; it builds ItemArticle (whose properties
      ItemArticleFacts states). */
  method ItemToArticle(item: Item, sourceSite: string, now: Time, makeSlug: string -> string)
    returns (a: Article)
    ensures a == ItemArticle(item, sourceSite, now, makeSlug)
  {
    var published := now;
    if item.publishedParsed.Some? {
      published := item.publishedParsed.value;
    } else if item.updatedParsed.Some? {
      published := item.updatedParsed.value;
    }
    var author := "";
    if |item.authors| > 0 {
      author := item.authors[0].name;
    } else if item.author.Some? {
      author := item.author.value.name;
    }
    var category := "";
    var tags: seq<string> := [];
    if |item.categories| > 0 {
      category := item.categories[0];
      tags := item.categories;
    }
    var image := "";
    if item.image.Some? {
      image := item.image.value;
    } else if |item.enclosures| > 0 {
      var i := 0;
      while i < |item.enclosures|
        invariant 0 <= i <= |item.enclosures|
        invariant image == ""
        invariant forall j :: 0 <= j < i ==> !IsImageType(item.enclosures[j].mimeType)
      {
        var enc := item.enclosures[i];
        if IsImageType(enc.mimeType) {
          FirstImageIs(item.enclosures, i);
          image := enc.url;
          break;
        }
        i := i + 1;
      }
    }
    var s := makeSlug(item.title);
    if |s| > MaxSlugLen {
      s := s[..MaxSlugLen];
    }
    a := Article(
      id := 0, sourceURL := item.link, sourceSite := sourceSite,
      title := item.title, titleRU := "", description := item.description,
      content := "", contentRU := "", author := author,
      category := category, tags := tags, imageURL := image,
      publishedAt := published, fetchedAt := now, translatedAt := None,
      publishedToMkDocs := false, slug := s);
  }

  /** The articles of one feed, item by item. */
  function FeedArticles(items: seq<Item>, sourceSite: string, now: Time, makeSlug: string -> string): (r: seq<Article>)
    ensures |r| == |items|
    ensures forall i :: 0 <= i < |items| ==> r[i] == ItemArticle(items[i], sourceSite, now, makeSlug)
  {
    seq(|items|, i requires 0 <= i < |items| => ItemArticle(items[i], sourceSite, now, makeSlug))
  }

  /** FetchFeed: a parse failure is an error naming the feed; otherwise the
      items are mapped one to one, in order. */
  method FetchFeed(feedURL: string, sourceSite: string, parsed: Result<seq<Item>>, now: Time, makeSlug: string -> string)
    returns (r: Result<seq<Article>>)
    ensures parsed.Err? ==> r == Err("failed to parse feed " + feedURL + ": " + parsed.msg)
    ensures parsed.Ok? ==> r == Ok(FeedArticles(parsed.value, sourceSite, now, makeSlug))
  {
    if parsed.Err? {
      return Err("failed to parse feed " + feedURL + ": " + parsed.msg);
    }
    var items := parsed.value;
    var articles: seq<Article> := [];
    for i := 0 to |items|
      invariant articles == FeedArticles(items[..i], sourceSite, now, makeSlug)
    {
      var a := ItemToArticle(items[i], sourceSite, now, makeSlug);
      articles := articles + [a];
    }
    WholePrefix(items);
    r := Ok(articles);
  }

  /** The articles of several feeds: the feeds that parse, in input order,
      each contributing its articles in item order; failed feeds add nothing. */
  function AllFeedArticles(feedURLs: seq<string>, sourceSite: string, parse: string -> Result<seq<Item>>,
                           now: Time, makeSlug: string -> string): seq<Article>
    decreases |feedURLs|
  {
    if |feedURLs| == 0 then []
    else
      var init := feedURLs[..|feedURLs| - 1];
      var last := parse(feedURLs[|feedURLs| - 1]);
      AllFeedArticles(init, sourceSite, parse, now, makeSlug)
        + (if last.Ok? then FeedArticles(last.value, sourceSite, now, makeSlug) else [])
  }

  /** FetchMultipleFeeds: never fails; concatenates the successful feeds. */
  method FetchMultipleFeeds(feedURLs: seq<string>, sourceSite: string, parse: string -> Result<seq<Item>>,
                            now: Time, makeSlug: string -> string)
    returns (all: seq<Article>)
    ensures all == AllFeedArticles(feedURLs, sourceSite, parse, now, makeSlug)
  {
    all := [];
    for i := 0 to |feedURLs|
      invariant all == AllFeedArticles(feedURLs[..i], sourceSite, parse, now, makeSlug)
    {
      var res := FetchFeed(feedURLs[i], sourceSite, parse(feedURLs[i]), now, makeSlug);
      PrefixStep(feedURLs, i);
      if res.Err? {
        continue;
      }
      all := all + res.value;
    }
    WholePrefix(feedURLs);
  }

  /** A feed that fails contributes nothing, and one that parses contributes
      exactly its items' articles: the total is the sum of the parsed feeds. */
  lemma {:induction false} AllFeedArticlesCount(feedURLs: seq<string>, sourceSite: string,
                                                parse: string -> Result<seq<Item>>, now: Time, makeSlug: string -> string)
    ensures |AllFeedArticles(feedURLs, sourceSite, parse, now, makeSlug)| == ParsedItemCount(feedURLs, parse)
    decreases |feedURLs|
  {
    if |feedURLs| > 0 {
      AllFeedArticlesCount(feedURLs[..|feedURLs| - 1], sourceSite, parse, now, makeSlug);
    }
  }

  function ParsedItemCount(feedURLs: seq<string>, parse: string -> Result<seq<Item>>): nat
    decreases |feedURLs|
  {
    if |feedURLs| == 0 then 0
    else
      var last := parse(feedURLs[|feedURLs| - 1]);
      ParsedItemCount(feedURLs[..|feedURLs| - 1], parse) + (if last.Ok? then |last.value| else 0)
  }
}
