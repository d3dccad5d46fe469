/** The site reader tool of the agents (agents/tools/site_reader.py): the
    base URL of a page, the links kept from its anchors, its word count,
    the article candidates taken from the sitemap, and the previews of
    sample articles. HTTP requests and HTML parsing are inputs: a page is
    given as what BeautifulSoup extracted from it. */
module SiteReader {
  import opened StrUtil

  const ContentCap := 5000
  const LinkCap := 50
  const BodyPreviewCap := 500
  const RawPreviewCap := 1500
  const MaxSampleArticles := 3

  // ---------------------------------------------------------------------
  // _base_url
  // ---------------------------------------------------------------------

  /** Python's s.rstrip("/"). */
  function RStripSlash(s: string): (r: string)
    ensures r <= s
    ensures |r| == 0 || r[|r| - 1] != '/'
    ensures forall k :: |r| <= k < |s| ==> s[k] == '/'
    decreases |s|
  {
    if |s| > 0 && s[|s| - 1] == '/' then RStripSlash(s[..|s| - 1]) else s
  }

  /** `"/".join(s.split("/")[:n])`. */
  function FirstSegments(s: string, n: nat): string
  {
    Join(Take(Split(s, "/"), n), "/")
  }

  /** _base_url: scheme and host, as the first three '/'-pieces of the URL
      without its trailing slashes. */
  function BaseUrl(url: string): string
  {
    FirstSegments(RStripSlash(url), 3)
  }

  /** The first n pieces re-joined are a prefix of the text. */
  lemma {:induction false} FirstSegmentsPrefix(s: string, n: nat)
    ensures FirstSegments(s, n) <= s
    decreases |s|
  {
    match IndexOf(s, "/")
    case None =>
    case Some(i) =>
      var head, rest := s[..i], s[i + 1..];
      assert s == head + "/" + rest;
      if n >= 2 {
        FirstSegmentsPrefix(rest, n - 1);
      }
      JoinTakePrefix(head, rest, Split(rest, "/"), n);
  }

  /** Re-joining the first n pieces after a leading piece stays a prefix,
      given that the first n - 1 of the remaining pieces do. */
  lemma JoinTakePrefix(head: string, rest: string, tail: seq<string>, n: nat)
    requires |tail| >= 1
    requires n >= 2 ==> Join(Take(tail, n - 1), "/") <= rest
    ensures Join(Take([head] + tail, n), "/") <= head + "/" + rest
  {
    if n >= 1 {
      TakeCons(head, tail, n);
    }
    if n >= 2 {
      var t := Take(tail, n - 1);
      ConsParts(head, t);
      assert Join([head] + t, "/") == head + "/" + Join(t, "/");
      PrefixAfter(head + "/", Join(t, "/"), rest);
    }
  }

  /** Splitting a sequence after its first element. */
  lemma ConsParts<T>(x: T, t: seq<T>)
    ensures |[x] + t| == 1 + |t| && ([x] + t)[0] == x && ([x] + t)[1..] == t
  {
  }

  lemma TakeCons<T>(x: T, t: seq<T>, n: nat)
    requires n >= 1
    ensures Take([x] + t, n) == [x] + Take(t, n - 1)
  {
  }

  /** A common start keeps the prefix order. */
  lemma PrefixAfter(x: string, p: string, q: string)
    requires p <= q
    ensures x + p <= x + q
  {
    assert (x + q)[..|x + p|] == x + q[..|p|];
  }

  /** The first n pieces re-joined hold at most n - 1 slashes. */
  lemma FirstSegmentsSlashes(s: string, n: nat)
    requires n >= 1
    ensures CountChar(FirstSegments(s, n), '/') < n
  {
    var parts := Split(s, "/");
    var taken := Take(parts, n);
    SplitPiecesFree(s, "/");
    assert forall k :: 0 <= k < |taken| ==> taken[k] in parts by {
      forall k | 0 <= k < |taken| ensures taken[k] in parts {
        assert taken[k] == parts[k];
      }
    }
    CountCharJoin(taken, '/');
  }

  /** The base URL is a prefix of the URL and holds at most two slashes
      (those of "scheme://"), so it names no path. */
  lemma BaseUrlFacts(url: string)
    ensures BaseUrl(url) <= url
    ensures CountChar(BaseUrl(url), '/') <= 2
  {
    FirstSegmentsPrefix(RStripSlash(url), 3);
    FirstSegmentsSlashes(RStripSlash(url), 3);
  }

  // ---------------------------------------------------------------------
  // fetch_page: links and word count
  // ---------------------------------------------------------------------

  /** `url.split("/")[2]`, which raises IndexError with fewer pieces. */
  function Host(url: string): Option<string>
  {
    var parts := Split(url, "/");
    if |parts| >= 3 then Some(parts[2]) else None
  }

  predicate Absolute(href: string)
  {
    HasPrefix(href, "http://") || HasPrefix(href, "https://")
  }

  /** The link an href contributes: an absolute link on the page's host as
      is, a root-relative one behind scheme and host, nothing otherwise.
      The host is looked up only for absolute hrefs. */
  function LinkOf(url: string, href: string): Result<Option<string>>
  {
    if Absolute(href) && Host(url).None? then Err("list index out of range")
    else if Absolute(href) && Contains(href, Host(url).value) then Ok(Some(href))
    else if HasPrefix(href, "/") then Ok(Some(FirstSegments(url, 3) + href))
    else Ok(None)
  }

  /** The links of the anchors, in order, before duplicates are dropped. */
  function Links(url: string, hrefs: seq<string>): Result<seq<string>>
  {
    if |hrefs| == 0 then Ok([])
    else
      match Links(url, hrefs[..|hrefs| - 1])
      case Err(e) => Err(e)
      case Ok(links) =>
        match LinkOf(url, hrefs[|hrefs| - 1])
        case Err(e) => Err(e)
        case Ok(None) => Ok(links)
        case Ok(Some(l)) => Ok(links + [l])
  }

  /** Every link kept is an absolute link on the host or lies under the
      page's scheme and host. */
  lemma {:induction false} LinksShape(url: string, hrefs: seq<string>)
    ensures Links(url, hrefs).Ok? ==> forall l :: l in Links(url, hrefs).value ==>
      (Absolute(l) && Host(url).Some? && Contains(l, Host(url).value)) || HasPrefix(l, FirstSegments(url, 3) + "/")
    decreases |hrefs|
  {
    if |hrefs| > 0 {
      LinksShape(url, hrefs[..|hrefs| - 1]);
      var href := hrefs[|hrefs| - 1];
      if !Absolute(href) || Host(url).Some? {
        if !(Absolute(href) && Contains(href, Host(url).value)) && HasPrefix(href, "/") {
          var base := FirstSegments(url, 3);
          assert (base + href)[..|base| + 1] == base + "/";
        }
      }
    }
  }

  /** Nothing that qualifies is dropped: when the page's links are found,
      every absolute href naming the page's host is among them as it is,
      and every root-relative href behind the page's scheme and host. */
  lemma {:induction false} LinksKeep(url: string, hrefs: seq<string>)
    ensures Links(url, hrefs).Ok? ==> forall h :: h in hrefs ==>
      && (Absolute(h) ==> Host(url).Some?)
      && (Absolute(h) && Host(url).Some? && Contains(h, Host(url).value) ==> h in Links(url, hrefs).value)
      && (HasPrefix(h, "/") ==> FirstSegments(url, 3) + h in Links(url, hrefs).value)
    decreases |hrefs|
  {
    if |hrefs| > 0 && Links(url, hrefs).Ok? {
      var init := hrefs[..|hrefs| - 1];
      LinksKeep(url, init);
      SnocSplit(hrefs);
      forall h | h in hrefs && HasPrefix(h, "/")
        ensures !Absolute(h)
      {
        assert h[0] == '/';
      }
    }
  }

  /** The anchor loop of fetch_page. */
  method ExtractLinks(url: string, hrefs: seq<string>) returns (r: Result<seq<string>>)
    ensures r == Links(url, hrefs)
  {
    var links: seq<string> := [];
    var i := 0;
    while i < |hrefs|
      invariant 0 <= i <= |hrefs|
      invariant Links(url, hrefs[..i]) == Ok(links)
    {
      PrefixStep(hrefs, i);
      var link := LinkOf(url, hrefs[i]);
      if link.Err? {
        assert hrefs[..i + 1][i] == hrefs[i];
        PrefixError(url, hrefs, i + 1);
        return Err(link.msg);
      }
      if link.value.Some? {
        links := links + [link.value.value];
      }
      i := i + 1;
    }
    WholePrefix(hrefs);
    r := Ok(links);
  }

  /** A failure on a prefix of the anchors is the failure of all of them. */
  lemma {:induction false} PrefixError(url: string, hrefs: seq<string>, n: nat)
    requires n <= |hrefs| && Links(url, hrefs[..n]).Err?
    ensures Links(url, hrefs) == Links(url, hrefs[..n])
    decreases |hrefs| - n
  {
    if n == |hrefs| {
      assert hrefs[..n] == hrefs;
    } else {
      PrefixStep(hrefs, n);
      PrefixError(url, hrefs, n + 1);
    }
  }

  /** What BeautifulSoup extracted from a page. */
  datatype Parsed = Parsed(title: string, metaDescription: string, content: string,
                           hrefs: seq<string>, headings: seq<string>)

  datatype PageInfo = PageInfo(url: string, title: string, content: string, links: seq<string>,
                               metaDescription: string, headings: seq<string>, wordCount: nat)

  /** Python's isspace for every character of a text. */
  predicate NoSpace(s: string)
  {
    forall k :: 0 <= k < |s| ==> !IsPySpace(s[k])
  }

  /** The run of non-space characters a text starts with. */
  function WordAt(s: string): (w: string)
    requires |s| > 0 && !IsPySpace(s[0])
    ensures 0 < |w| <= |s| && w == s[..|w|] && NoSpace(w)
    ensures |w| == |s| || IsPySpace(s[|w|])
    decreases |s|
  {
    if |s| == 1 || IsPySpace(s[1]) then [s[0]] else [s[0]] + WordAt(s[1..])
  }

  /** str.split() without a separator: the maximal runs of non-space. */
  function Words(s: string): (r: seq<string>)
    ensures forall k :: 0 <= k < |r| ==> r[k] != "" && NoSpace(r[k])
    decreases |s|
  {
    if |s| == 0 then []
    else if IsPySpace(s[0]) then Words(s[1..])
    else var w := WordAt(s); [w] + Words(s[|w|..])
  }

  /** The non-space characters of a text, in order. */
  function NonSpace(s: string): string
    decreases |s|
  {
    if |s| == 0 then "" else (if IsPySpace(s[0]) then "" else [s[0]]) + NonSpace(s[1..])
  }

  function Concat(ws: seq<string>): string
  {
    if |ws| == 0 then "" else ws[0] + Concat(ws[1..])
  }

  lemma {:induction false} WordAtNonSpace(s: string)
    requires |s| > 0 && !IsPySpace(s[0])
    ensures NonSpace(s) == WordAt(s) + NonSpace(s[|WordAt(s)|..])
    decreases |s|
  {
    if !(|s| == 1 || IsPySpace(s[1])) {
      WordAtNonSpace(s[1..]);
      var w' := WordAt(s[1..]);
      assert s[1..][|w'|..] == s[1 + |w'|..];
    }
  }

  /** The words together are exactly the text without its whitespace. */
  lemma {:induction false} WordsCover(s: string)
    ensures Concat(Words(s)) == NonSpace(s)
    decreases |s|
  {
    if |s| > 0 {
      if IsPySpace(s[0]) {
        WordsCover(s[1..]);
      } else {
        var w := WordAt(s);
        WordsCover(s[|w|..]);
        WordAtNonSpace(s);
        assert ([w] + Words(s[|w|..]))[1..] == Words(s[|w|..]);
      }
    }
  }

  /** `len(content.split()) if content else 0`. */
  function WordCount(content: string): nat
  {
    if content == "" then 0 else |Words(content)|
  }

  /** A text of whitespace only has no words. */
  lemma {:induction false} WordsOfSpace(s: string)
    requires AllSpace(s, IsPySpace)
    ensures Words(s) == [] && WordCount(s) == 0
    decreases |s|
  {
    if |s| > 0 {
      assert AllSpace(s[1..], IsPySpace);
      WordsOfSpace(s[1..]);
    }
  }

  /** A text without whitespace is one word. */
  lemma WordsOfWord(s: string)
    requires s != "" && NoSpace(s)
    ensures Words(s) == [s] && WordCount(s) == 1
  {
    var w := WordAt(s);
    assert |w| == |s|;
    assert w == s[..|s|] == s;
    assert s[|w|..] == "";
    assert Words(s[|w|..]) == [];
  }

  /** fetch_page after the request: content capped at 5000 characters,
      links without duplicates capped at 50, words counted on the whole
      content. */
  function PageOf(url: string, page: Parsed): Result<PageInfo>
  {
    match Links(url, page.hrefs)
    case Err(e) => Err(e)
    case Ok(links) =>
      Ok(PageInfo(url, page.title, Take(page.content, ContentCap), Take(Dedup(links), LinkCap),
                  page.metaDescription, page.headings, WordCount(page.content)))
  }

  /** The page's links: no duplicates, at most 50, each one a link of an
      anchor, and all of them when there are no more than 50. */
  lemma PageOfFacts(url: string, page: Parsed)
    ensures var r := PageOf(url, page);
      && (r.Ok? <==> Links(url, page.hrefs).Ok?)
      && (r.Ok? ==>
           && |r.value.content| <= ContentCap && r.value.content <= page.content
           && |r.value.links| <= LinkCap && NoDup(r.value.links)
           && (forall l :: l in r.value.links ==> l in Links(url, page.hrefs).value)
           && (|Dedup(Links(url, page.hrefs).value)| <= LinkCap ==>
                 forall l :: l in Links(url, page.hrefs).value ==> l in r.value.links))
  {
    if Links(url, page.hrefs).Ok? {
      var d := Dedup(Links(url, page.hrefs).value);
      var t := Take(d, LinkCap);
      assert forall i :: 0 <= i < |t| ==> t[i] == d[i];
      assert forall l :: l in t ==> l in d;
    }
  }

  // ---------------------------------------------------------------------
  // build_site_report: article candidates from the sitemap
  // ---------------------------------------------------------------------

  /** A sitemap URL that names an article: not the homepage, on the site,
      and not a tag, category or pagination page. */
  predicate IsArticleUrl(url: string, u: string)
  {
    && u != url
    && u != url + "/"
    && HasPrefix(u, BaseUrl(url))
    && !Contains(u, "/tags/")
    && !Contains(u, "/categories/")
    && !Contains(u, "/page/")
  }

  function ArticleCandidates(url: string, sitemap: seq<string>): seq<string>
  {
    if |sitemap| == 0 then []
    else if IsArticleUrl(url, sitemap[|sitemap| - 1]) then ArticleCandidates(url, sitemap[..|sitemap| - 1]) + [sitemap[|sitemap| - 1]]
    else ArticleCandidates(url, sitemap[..|sitemap| - 1])
  }

  /** Exactly the article URLs of the sitemap are candidates. */
  lemma {:induction false} ArticleCandidatesMembers(url: string, sitemap: seq<string>)
    ensures forall u :: u in ArticleCandidates(url, sitemap) <==> u in sitemap && IsArticleUrl(url, u)
    ensures |ArticleCandidates(url, sitemap)| <= |sitemap|
    decreases |sitemap|
  {
    if |sitemap| > 0 {
      ArticleCandidatesMembers(url, sitemap[..|sitemap| - 1]);
      SnocSplit(sitemap);
    }
  }

  /** The size of the random sample: none without candidates, else
      min(max_articles, candidates), which random.sample refuses when
      negative. */
  function SampleSize(maxArticles: int, candidates: nat): (r: Result<nat>)
    ensures r.Err? <==> candidates > 0 && maxArticles < 0
    ensures r.Ok? ==> r.value <= candidates && (candidates > 0 ==> r.value <= maxArticles)
    ensures r.Ok? && candidates > 0 ==> r.value == candidates || r.value == maxArticles
  {
    if candidates == 0 then Ok(0)
    else if Min(maxArticles, candidates) < 0 then Err("Sample larger than population or is negative")
    else Ok(Min(maxArticles, candidates) as nat)
  }

  /** The sampled pages that could be fetched, in order. */
  function FetchedPages(sample: seq<string>, fetch: string -> Option<PageInfo>): (r: seq<PageInfo>)
    ensures |r| <= |sample|
  {
    if |sample| == 0 then []
    else
      var page := fetch(sample[|sample| - 1]);
      FetchedPages(sample[..|sample| - 1], fetch) + (if page.Some? then [page.value] else [])
  }

  /** The loop over the sample: a page that fails to load is skipped. */
  method FetchSample(sample: seq<string>, fetch: string -> Option<PageInfo>) returns (articles: seq<PageInfo>)
    ensures articles == FetchedPages(sample, fetch)
    ensures |articles| <= |sample|
  {
    articles := [];
    var i := 0;
    while i < |sample|
      invariant 0 <= i <= |sample|
      invariant articles == FetchedPages(sample[..i], fetch)
    {
      PrefixStep(sample, i);
      var page := fetch(sample[i]);
      if page.Some? {
        articles := articles + [page.value];
      }
      i := i + 1;
    }
    WholePrefix(sample);
  }

  // ---------------------------------------------------------------------
  // fetch_source_context: previews of sample articles
  // ---------------------------------------------------------------------

  function PreviewHead(path: string): string
  {
    "=== " + path + " ===\n"
  }

  /** The preview of one article file, or none for an empty file: front
      matter and at most 500 characters of body when the text splits into
      three parts on "---", otherwise its first 1500 characters. */
  function Preview(path: string, content: string): Option<string>
  {
    if content == "" then None
    else if Contains(content, "---") && |Split3(content, "---")| >= 3 then
      var parts := Split3(content, "---");
      Some(PreviewHead(path) + "---\n" + Strip(parts[1]) + "\n---\n" + Take(Strip(parts[2]), BodyPreviewCap) + "...")
    else Some(PreviewHead(path) + Take(content, RawPreviewCap))
  }

  /** The two shapes of a preview, with their bounds. */
  lemma PreviewFacts(path: string, content: string)
    ensures Preview(path, content).None? <==> content == ""
    ensures content != "" && |Split3(content, "---")| == 3 ==>
      exists body :: |body| <= BodyPreviewCap && body <= Strip(Split3(content, "---")[2])
        && Preview(path, content).value
           == PreviewHead(path) + "---\n" + Strip(Split3(content, "---")[1]) + "\n---\n" + body + "..."
    ensures content != "" && |Split3(content, "---")| < 3 ==>
      exists raw :: |raw| <= RawPreviewCap && raw <= content && Preview(path, content).value == PreviewHead(path) + raw
  {
    if content != "" && |Split3(content, "---")| == 3 {
      var body := Take(Strip(Split3(content, "---")[2]), BodyPreviewCap);
      assert |body| <= BodyPreviewCap;
    }
    if content != "" && |Split3(content, "---")| < 3 {
      var raw := Take(content, RawPreviewCap);
      assert |raw| <= RawPreviewCap;
    }
  }

  function Previews(paths: seq<string>, getFile: string -> string): (r: seq<string>)
    ensures |r| <= |paths|
  {
    if |paths| == 0 then []
    else
      var p := Preview(paths[|paths| - 1], getFile(paths[|paths| - 1]));
      Previews(paths[..|paths| - 1], getFile) + (if p.Some? then [p.value] else [])
  }

  /** One more path adds its preview, if any, at the end. */
  lemma PreviewsSnoc(paths: seq<string>, i: nat, getFile: string -> string)
    requires i < |paths|
    ensures Previews(paths[..i + 1], getFile)
            == Previews(paths[..i], getFile)
               + (var p := Preview(paths[i], getFile(paths[i])); if p.Some? then [p.value] else [])
  {
    PrefixStep(paths, i);
  }

  /** The loop over at most three article paths; a file that reads as
      empty gives no preview. */
  method SampleArticles(paths: seq<string>, getFile: string -> string) returns (samples: seq<string>)
    ensures samples == Previews(Take(paths, MaxSampleArticles), getFile)
    ensures |samples| <= MaxSampleArticles
  {
    var chosen := Take(paths, MaxSampleArticles);
    samples := [];
    var i := 0;
    while i < |chosen|
      invariant 0 <= i <= |chosen|
      invariant samples == Previews(chosen[..i], getFile)
    {
      PreviewsSnoc(chosen, i, getFile);
      ghost var next := Previews(chosen[..i + 1], getFile);
      var p := Preview(chosen[i], getFile(chosen[i]));
      if p.Some? {
        samples := samples + [p.value];
      }
      assert samples == next;
      i := i + 1;
    }
    WholePrefix(chosen);
  }
}
