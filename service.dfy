/** The pipeline service of the aggregator (internal/service/service.go):
    fetching new articles into the store, translating the untranslated ones,
    publishing the translated ones, and the store statistics.

    The store is an in-memory map from source URL (unique in the articles
    table) to the stored row, plus the next row id. The feeds, the scraper,
    the translator, the two publishers, the rows a store query returns and
    the failures of single store operations are inputs. */
module Service {
  import opened StrUtil
  import opened Models
  import HugoPub
  import GitHubPub

  // ---------------------------------------------------------------------
  // Configuration and results
  // ---------------------------------------------------------------------

  datatype Source = Source(name: string, feeds: seq<string>, enabled: bool)

  datatype OllamaConfig = OllamaConfig(
    model: string, host: string, prompt: string, titlePrompt: string,
    temperature: real, topP: real, numCtx: int)

  datatype TranslatorConfig = TranslatorConfig(provider: string, ollama: OllamaConfig, libreTranslateHost: string)

  datatype FetchResult = FetchResult(newArticles: nat, skippedArticles: nat, errors: nat)
  datatype TranslateResult = TranslateResult(translated: nat, total: nat, errors: nat)
  datatype PublishResult = PublishResult(published: nat, total: nat, errors: nat)
  datatype StatsResult = StatsResult(total: int, translated: int, published: int, pending: int, unpublished: int)

  type Rows = map<string, Article>

  /** Which single store operations fail, by the article's source URL. */
  datatype StoreFaults = StoreFaults(
    existsFails: string -> bool,
    insertFails: string -> bool,
    updateFails: string -> bool)

  /** A translator client: its title and text translations. */
  datatype Translator = Translator(title: string -> Result<string>, text: string -> Result<string>)

  /** The publishers the service hands articles to: the GitHub batch
      publisher and the local Hugo publisher, each giving its error. */
  datatype Publishers = Publishers(
    github: seq<Article> -> Option<string>,
    local: Article -> Option<string>)

  // ---------------------------------------------------------------------
  // The store
  // ---------------------------------------------------------------------

  /** UpdateArticle: the row of the article takes its Russian title and
      content, translation time, published flag, slug and content; every
      other column, and every other row, stays. Without such a row nothing
      changes. */
  function UpdateRow(rows: Rows, a: Article): (r: Rows)
    ensures r.Keys == rows.Keys
    ensures forall u :: u in rows && u != a.sourceURL ==> r[u] == rows[u]
    ensures a.sourceURL in rows ==>
      var row := rows[a.sourceURL];
      r[a.sourceURL] == a.(id := row.id, sourceURL := row.sourceURL, sourceSite := row.sourceSite, title := row.title,
                           description := row.description, author := row.author,
                           category := row.category, tags := row.tags, imageURL := row.imageURL,
                           publishedAt := row.publishedAt, fetchedAt := row.fetchedAt)
  {
    if a.sourceURL in rows then
      var row := rows[a.sourceURL];
      rows[a.sourceURL := row.(titleRU := a.titleRU, contentRU := a.contentRU,
                               translatedAt := a.translatedAt, publishedToMkDocs := a.publishedToMkDocs,
                               slug := a.slug, content := a.content)]
    else rows
  }

  // ---------------------------------------------------------------------
  // Fetch
  // ---------------------------------------------------------------------

  /** The counter one fetched article bumps. */
  datatype Tally = New | Skipped | Failed

  datatype FetchState = FetchState(rows: Rows, nextId: int, result: FetchResult)

  function Total(r: FetchResult): nat
  {
    r.newArticles + r.skippedArticles + r.errors
  }

  function Bump(r: FetchResult, t: Tally): (s: FetchResult)
    ensures Total(s) == Total(r) + 1
    ensures t == New ==>
      s.newArticles == r.newArticles + 1 && s.skippedArticles == r.skippedArticles && s.errors == r.errors
    ensures t == Skipped ==>
      s.skippedArticles == r.skippedArticles + 1 && s.newArticles == r.newArticles && s.errors == r.errors
    ensures t == Failed ==>
      s.errors == r.errors + 1 && s.newArticles == r.newArticles && s.skippedArticles == r.skippedArticles
  {
    match t
    case New => r.(newArticles := r.newArticles + 1)
    case Skipped => r.(skippedArticles := r.skippedArticles + 1)
    case Failed => r.(errors := r.errors + 1)
  }

  /** One feed article: a failed existence check is an error; a stored URL
      is skipped; otherwise the article is scraped (a failed scrape leaves
      it as it was) and inserted with the next id, an insert that fails or
      meets a taken URL being an error. */
  function SaveOutcome(rows: Rows, nextId: int, a: Article, scrape: Article -> Option<Article>, faults: StoreFaults)
    : (Rows, int, Tally)
  {
    if faults.existsFails(a.sourceURL) then (rows, nextId, Failed)
    else if a.sourceURL in rows then (rows, nextId, Skipped)
    else
      var s := if scrape(a).Some? then scrape(a).value else a;
      if faults.insertFails(s.sourceURL) || s.sourceURL in rows then (rows, nextId, Failed)
      else (rows[s.sourceURL := s.(id := nextId)], nextId + 1, New)
  }

  function SaveStep(st: FetchState, a: Article, scrape: Article -> Option<Article>, faults: StoreFaults): FetchState
  {
    var (rows, nextId, t) := SaveOutcome(st.rows, st.nextId, a, scrape, faults);
    FetchState(rows, nextId, Bump(st.result, t))
  }

  /** The articles of one feed batch, saved in order. */
  function SaveAll(st: FetchState, arts: seq<Article>, scrape: Article -> Option<Article>, faults: StoreFaults): FetchState
  {
    if |arts| == 0 then st
    else SaveStep(SaveAll(st, arts[..|arts| - 1], scrape, faults), arts[|arts| - 1], scrape, faults)
  }

  /** One source: nothing when disabled; one error when its feeds cannot be
      fetched; otherwise its articles saved in order. */
  function SourceStep(st: FetchState, src: Source, feeds: (seq<string>, string) -> Result<seq<Article>>,
                      scrape: Article -> Option<Article>, faults: StoreFaults): FetchState
  {
    if !src.enabled then st
    else match feeds(src.feeds, src.name)
      case Err(_) => st.(result := Bump(st.result, Failed))
      case Ok(arts) => SaveAll(st, arts, scrape, faults)
  }

  /** The sources, processed in order. */
  function FetchAll(st: FetchState, sources: seq<Source>, feeds: (seq<string>, string) -> Result<seq<Article>>,
                    scrape: Article -> Option<Article>, faults: StoreFaults): FetchState
  {
    if |sources| == 0 then st
    else SourceStep(FetchAll(st, sources[..|sources| - 1], feeds, scrape, faults), sources[|sources| - 1], feeds, scrape, faults)
  }

  /** The number of counter bumps the sources call for: one per article of
      an enabled source whose feeds were fetched, one per enabled source
      whose feeds failed. */
  function Work(sources: seq<Source>, feeds: (seq<string>, string) -> Result<seq<Article>>): nat
  {
    if |sources| == 0 then 0
    else
      var src := sources[|sources| - 1];
      Work(sources[..|sources| - 1], feeds)
      + (if !src.enabled then 0
         else match feeds(src.feeds, src.name)
           case Err(_) => 1
           case Ok(arts) => |arts|)
  }

  /** The enabled sources, in order. */
  function Enabled(sources: seq<Source>): (r: seq<Source>)
    ensures forall k :: 0 <= k < |r| ==> r[k].enabled
  {
    if |sources| == 0 then []
    else if sources[|sources| - 1].enabled then Enabled(sources[..|sources| - 1]) + [sources[|sources| - 1]]
    else Enabled(sources[..|sources| - 1])
  }

  /** Each article of a batch bumps exactly one counter. */
  lemma {:induction false} SaveAllCounts(st: FetchState, arts: seq<Article>, scrape: Article -> Option<Article>, faults: StoreFaults)
    ensures Total(SaveAll(st, arts, scrape, faults).result) == Total(st.result) + |arts|
    decreases |arts|
  {
    if |arts| > 0 {
      SaveAllCounts(st, arts[..|arts| - 1], scrape, faults);
    }
  }

  /** Fetch bumps exactly one counter per article of the enabled sources and
      one per enabled source whose feeds failed. */
  lemma {:induction false} FetchCounts(st: FetchState, sources: seq<Source>, feeds: (seq<string>, string) -> Result<seq<Article>>,
                                       scrape: Article -> Option<Article>, faults: StoreFaults)
    ensures Total(FetchAll(st, sources, feeds, scrape, faults).result) == Total(st.result) + Work(sources, feeds)
    decreases |sources|
  {
    if |sources| > 0 {
      var prev := FetchAll(st, sources[..|sources| - 1], feeds, scrape, faults);
      FetchCounts(st, sources[..|sources| - 1], feeds, scrape, faults);
      var src := sources[|sources| - 1];
      if src.enabled && feeds(src.feeds, src.name).Ok? {
        SaveAllCounts(prev, feeds(src.feeds, src.name).value, scrape, faults);
      }
    }
  }

  /** Disabled sources play no part: fetching all sources is fetching the
      enabled ones. */
  lemma {:induction false} FetchIgnoresDisabled(st: FetchState, sources: seq<Source>, feeds: (seq<string>, string) -> Result<seq<Article>>,
                                                scrape: Article -> Option<Article>, faults: StoreFaults)
    ensures FetchAll(st, sources, feeds, scrape, faults) == FetchAll(st, Enabled(sources), feeds, scrape, faults)
    decreases |sources|
  {
    if |sources| > 0 {
      var init := sources[..|sources| - 1];
      FetchIgnoresDisabled(st, init, feeds, scrape, faults);
      var src := sources[|sources| - 1];
      if src.enabled {
        var e := Enabled(init) + [src];
        assert Enabled(sources) == e;
        assert e[..|e| - 1] == Enabled(init);
      }
    }
  }

  /** An article whose URL is stored is skipped: the store and the id are
      untouched and the scraper plays no part. */
  lemma SkipsStored(rows: Rows, nextId: int, a: Article, scrape: Article -> Option<Article>,
                    other: Article -> Option<Article>, faults: StoreFaults)
    requires !faults.existsFails(a.sourceURL) && a.sourceURL in rows
    ensures SaveOutcome(rows, nextId, a, scrape, faults) == (rows, nextId, Skipped)
    ensures SaveOutcome(rows, nextId, a, scrape, faults) == SaveOutcome(rows, nextId, a, other, faults)
  {
  }

  /** A failed scrape does not stop the save: a new article is stored as it
      came from the feed. */
  lemma ScrapeFailureStillSaves(rows: Rows, nextId: int, a: Article, scrape: Article -> Option<Article>, faults: StoreFaults)
    requires !faults.existsFails(a.sourceURL) && a.sourceURL !in rows
    requires scrape(a).None? && !faults.insertFails(a.sourceURL)
    ensures SaveOutcome(rows, nextId, a, scrape, faults) == (rows[a.sourceURL := a.(id := nextId)], nextId + 1, New)
  {
  }

  /** Saving never changes or drops a stored row, and every new article
      adds exactly one row. */
  lemma {:induction false} SaveAllGrows(st: FetchState, arts: seq<Article>, scrape: Article -> Option<Article>, faults: StoreFaults)
    ensures var r := SaveAll(st, arts, scrape, faults);
      && (forall u :: u in st.rows ==> u in r.rows && r.rows[u] == st.rows[u])
      && |r.rows| - |st.rows| == r.result.newArticles - st.result.newArticles
    decreases |arts|
  {
    if |arts| > 0 {
      SaveAllGrows(st, arts[..|arts| - 1], scrape, faults);
    }
  }

  /** Fetch never changes or drops a stored row, and the store grows by
      exactly the number of new articles. */
  lemma {:induction false} FetchGrows(st: FetchState, sources: seq<Source>, feeds: (seq<string>, string) -> Result<seq<Article>>,
                                      scrape: Article -> Option<Article>, faults: StoreFaults)
    ensures var r := FetchAll(st, sources, feeds, scrape, faults);
      && (forall u :: u in st.rows ==> u in r.rows && r.rows[u] == st.rows[u])
      && |r.rows| - |st.rows| == r.result.newArticles - st.result.newArticles
    decreases |sources|
  {
    if |sources| > 0 {
      var prev := FetchAll(st, sources[..|sources| - 1], feeds, scrape, faults);
      FetchGrows(st, sources[..|sources| - 1], feeds, scrape, faults);
      var src := sources[|sources| - 1];
      if src.enabled && feeds(src.feeds, src.name).Ok? {
        SaveAllGrows(prev, feeds(src.feeds, src.name).value, scrape, faults);
      }
    }
  }

  // ---------------------------------------------------------------------
  // Translate
  // ---------------------------------------------------------------------

  /** createTranslator: the Ollama client with all seven of its settings,
      or the LibreTranslate client; any other provider is an error. */
  datatype Provider = Ollama(settings: OllamaConfig) | LibreTranslate(host: string)

  function CreateTranslator(tc: TranslatorConfig): (r: Result<Provider>)
    ensures r.Ok? <==> tc.provider == "ollama" || tc.provider == "libretranslate"
    ensures r.Ok? && r.value.Ollama? ==> r.value.settings == tc.ollama
    ensures r.Err? ==> r.msg == "unknown translator provider: " + tc.provider
  {
    if tc.provider == "ollama" then Ok(Ollama(tc.ollama))
    else if tc.provider == "libretranslate" then Ok(LibreTranslate(tc.libreTranslateHost))
    else Err("unknown translator provider: " + tc.provider)
  }

  /** One article through the translator: the title, then the content when
      there is any, then the translation time; None when a translation
      fails. */
  function TranslatedArticle(a: Article, tr: Translator, now: Time): Option<Article>
  {
    match tr.title(a.title)
    case Err(_) => None
    case Ok(t) =>
      if a.content == "" then Some(a.(titleRU := t, translatedAt := Some(now)))
      else match tr.text(a.content)
        case Err(_) => None
        case Ok(c) => Some(a.(titleRU := t, contentRU := c, translatedAt := Some(now)))
  }

  /** A translated article carries the translated title, the translated
      content when it had content and its own otherwise, and the
      translation time; all else is the article's own. An article without
      content has only its title translated: the text translation plays no
      part. */
  lemma TranslatedArticleFacts(a: Article, tr: Translator, other: Translator, now: Time)
    requires other.title == tr.title
    ensures var t := TranslatedArticle(a, tr, now);
      && (t.Some? <==> tr.title(a.title).Ok? && (a.content != "" ==> tr.text(a.content).Ok?))
      && (t.Some? ==>
            && t.value.titleRU == tr.title(a.title).value
            && t.value.contentRU == (if a.content == "" then a.contentRU else tr.text(a.content).value)
            && t.value.translatedAt == Some(now)
            && t.value.(titleRU := a.titleRU, contentRU := a.contentRU, translatedAt := a.translatedAt) == a)
      && (a.content == "" ==> t == TranslatedArticle(a, other, now))
  {
  }

  datatype TranslateState = TranslateState(rows: Rows, translated: seq<Article>, errors: nat)

  /** One article: translated and stored, or counted as an error when a
      translation or the store update fails. */
  function TranslateStep(st: TranslateState, a: Article, tr: Translator, now: Time, faults: StoreFaults): TranslateState
  {
    var t := TranslatedArticle(a, tr, now);
    if t.None? || faults.updateFails(t.value.sourceURL) then st.(errors := st.errors + 1)
    else TranslateState(UpdateRow(st.rows, t.value), st.translated + [t.value], st.errors)
  }

  function TranslateAll(st: TranslateState, arts: seq<Article>, tr: Translator, now: Time, faults: StoreFaults): TranslateState
  {
    if |arts| == 0 then st
    else TranslateStep(TranslateAll(st, arts[..|arts| - 1], tr, now, faults), arts[|arts| - 1], tr, now, faults)
  }

  /** The translations that were stored, in input order: those of the
      articles that translate and whose update succeeds. */
  function StoredTranslations(arts: seq<Article>, tr: Translator, now: Time, faults: StoreFaults): (r: seq<Article>)
    ensures |r| <= |arts|
    decreases |arts|
  {
    if |arts| == 0 then []
    else
      var t := TranslatedArticle(arts[|arts| - 1], tr, now);
      StoredTranslations(arts[..|arts| - 1], tr, now, faults)
      + (if t.None? || faults.updateFails(t.value.sourceURL) then [] else [t.value])
  }

  /** Every article is either translated or an error, and the translated
      ones are in input order, each the translation of its article. */
  lemma {:induction false} TranslateAllCounts(st: TranslateState, arts: seq<Article>, tr: Translator, now: Time, faults: StoreFaults)
    ensures TranslateAll(st, arts, tr, now, faults).translated == st.translated + StoredTranslations(arts, tr, now, faults)
    ensures var r := TranslateAll(st, arts, tr, now, faults);
      && |r.translated| + r.errors == |st.translated| + st.errors + |arts|
      && st.translated <= r.translated
      && forall k :: |st.translated| <= k < |r.translated| ==>
           exists j :: 0 <= j < |arts| && TranslatedArticle(arts[j], tr, now) == Some(r.translated[k])
    decreases |arts|
  {
    if |arts| > 0 {
      var init := arts[..|arts| - 1];
      var prev := TranslateAll(st, init, tr, now, faults);
      TranslateAllCounts(st, init, tr, now, faults);
      var r := TranslateAll(st, arts, tr, now, faults);
      SeqAppendAssoc(st.translated, StoredTranslations(init, tr, now, faults), r.translated[|prev.translated|..]);
      forall k | |st.translated| <= k < |r.translated|
        ensures exists j :: 0 <= j < |arts| && TranslatedArticle(arts[j], tr, now) == Some(r.translated[k])
      {
        if k < |prev.translated| {
          var j :| 0 <= j < |init| && TranslatedArticle(init[j], tr, now) == Some(prev.translated[k]);
          assert arts[j] == init[j];
        } else {
          assert TranslatedArticle(arts[|arts| - 1], tr, now) == Some(r.translated[k]);
        }
      }
    }
  }

  // ---------------------------------------------------------------------
  // Publishing
  // ---------------------------------------------------------------------

  /** Whether the GitHub publisher the service builds is available. */
  predicate GitHubAvailable(hugo: HugoPub.HugoConfig, token: string)
  {
    GitHubPub.IsAvailable(GitHubPub.NewGitHubPublisher(hugo.gitRepo, hugo.gitBranch, hugo.contentDir, token))
  }

  /** After a successful batch: each article is marked published and
      stored, a failed update leaving its row as it was. */
  function MarkAll(rows: Rows, arts: seq<Article>, faults: StoreFaults): Rows
  {
    if |arts| == 0 then rows
    else
      var prev := MarkAll(rows, arts[..|arts| - 1], faults);
      var a := arts[|arts| - 1].(publishedToMkDocs := true);
      if faults.updateFails(a.sourceURL) then prev else UpdateRow(prev, a)
  }

  datatype PublishState = PublishState(rows: Rows, published: nat, errors: nat)

  /** One article through the local publisher: a publish error is an error;
      otherwise the article is marked published and stored. A failed store
      update is an error when `strict` (Publish) and ignored otherwise
      (Translate). */
  function PublishStep(st: PublishState, a: Article, local: Article -> Option<string>, faults: StoreFaults, strict: bool): PublishState
  {
    if local(a).Some? then st.(errors := st.errors + 1)
    else
      var m := a.(publishedToMkDocs := true);
      if faults.updateFails(m.sourceURL) then
        (if strict then st.(errors := st.errors + 1) else st.(published := st.published + 1))
      else PublishState(UpdateRow(st.rows, m), st.published + 1, st.errors)
  }

  function PublishAll(st: PublishState, arts: seq<Article>, local: Article -> Option<string>, faults: StoreFaults, strict: bool): PublishState
  {
    if |arts| == 0 then st
    else PublishStep(PublishAll(st, arts[..|arts| - 1], local, faults, strict), arts[|arts| - 1], local, faults, strict)
  }

  /** Every article is either published or an error. */
  lemma {:induction false} PublishAllCounts(st: PublishState, arts: seq<Article>, local: Article -> Option<string>, faults: StoreFaults, strict: bool)
    ensures var r := PublishAll(st, arts, local, faults, strict);
      r.published + r.errors == st.published + st.errors + |arts|
    decreases |arts|
  {
    if |arts| > 0 {
      PublishAllCounts(st, arts[..|arts| - 1], local, faults, strict);
    }
  }

  /** The git commit after local publishing: only with automatic commits
      and at least one article published. */
  function Commits(autoCommit: bool, published: nat): (r: seq<string>)
    ensures |r| <= 1
    ensures |r| == 1 <==> autoCommit && published > 0
  {
    if autoCommit && published > 0 then [HugoPub.BatchMessage(published)] else []
  }

  /** Publishing the translated articles at the end of Translate: the store
      after it and the commit messages it passes to git. */
  function PublishTranslated(rows: Rows, ts: seq<Article>, github: bool, autoCommit: bool, pubs: Publishers, faults: StoreFaults)
    : (Rows, seq<string>)
  {
    if |ts| == 0 then (rows, [])
    else if github then
      (if pubs.github(ts).None? then MarkAll(rows, ts, faults) else rows, [])
    else
      var r := PublishAll(PublishState(rows, 0, 0), ts, pubs.local, faults, false);
      (r.rows, Commits(autoCommit, r.published))
  }

  /** What Translate does, from the rows the untranslated-articles query
      returned: its result, the store after it and the commit messages. */
  function TranslateRun(rows: Rows, query: Result<seq<Article>>, tc: TranslatorConfig, clients: Provider -> Translator,
                        now: Time, github: bool, autoCommit: bool, pubs: Publishers, faults: StoreFaults)
    : (Result<TranslateResult>, Rows, seq<string>)
  {
    if query.Err? then (Err("failed to get articles: " + query.msg), rows, [])
    else if |query.value| == 0 then (Ok(TranslateResult(0, 0, 0)), rows, [])
    else match CreateTranslator(tc)
      case Err(e) => (Err(e), rows, [])
      case Ok(provider) =>
        var t := TranslateAll(TranslateState(rows, [], 0), query.value, clients(provider), now, faults);
        var (after, commits) := PublishTranslated(t.rows, t.translated, github, autoCommit, pubs, faults);
        (Ok(TranslateResult(|t.translated|, |query.value|, t.errors)), after, commits)
  }

  /** Translate: Translated + Errors == Total for every successful run; an
      unknown provider is an error only when there is something to
      translate; a failed query is reported. */
  lemma TranslateRunFacts(rows: Rows, query: Result<seq<Article>>, tc: TranslatorConfig, clients: Provider -> Translator,
                          now: Time, github: bool, autoCommit: bool, pubs: Publishers, faults: StoreFaults)
    ensures var (res, _, _) := TranslateRun(rows, query, tc, clients, now, github, autoCommit, pubs, faults);
      && (query.Err? ==> res == Err("failed to get articles: " + query.msg))
      && (query.Ok? && |query.value| > 0 && CreateTranslator(tc).Err? ==> res == Err(CreateTranslator(tc).msg))
      && (res.Ok? ==> res.value.translated + res.value.errors == res.value.total == |query.value|)
  {
    if query.Ok? && |query.value| > 0 && CreateTranslator(tc).Ok? {
      TranslateAllCounts(TranslateState(rows, [], 0), query.value, clients(CreateTranslator(tc).value), now, faults);
    }
  }

  /** What Publish does, from the rows the unpublished-articles query
      returned. */
  function PublishRun(rows: Rows, query: Result<seq<Article>>, github: bool, autoCommit: bool, pubs: Publishers, faults: StoreFaults)
    : (Result<PublishResult>, Rows, seq<string>)
  {
    if query.Err? then (Err("failed to get articles: " + query.msg), rows, [])
    else
      var arts := query.value;
      if |arts| == 0 then (Ok(PublishResult(0, 0, 0)), rows, [])
      else if github then
        if pubs.github(arts).Some? then (Ok(PublishResult(0, |arts|, |arts|)), rows, [])
        else (Ok(PublishResult(|arts|, |arts|, 0)), MarkAll(rows, arts, faults), [])
      else
        var r := PublishAll(PublishState(rows, 0, 0), arts, pubs.local, faults, true);
        (Ok(PublishResult(r.published, |arts|, r.errors)), r.rows, Commits(autoCommit, r.published))
  }

  /** Publish: every article is published or an error; through GitHub the
      batch is all or nothing and nothing is committed; locally the commit
      happens exactly when automatic commits are on and something was
      published, with that count in its message. */
  lemma PublishRunFacts(rows: Rows, query: Result<seq<Article>>, github: bool, autoCommit: bool, pubs: Publishers, faults: StoreFaults)
    ensures var (res, after, commits) := PublishRun(rows, query, github, autoCommit, pubs, faults);
      && (query.Err? <==> res.Err?)
      && (res.Ok? ==> res.value.published + res.value.errors == res.value.total == |query.value|)
      && (res.Ok? && github && |query.value| > 0 ==>
            && commits == []
            && (pubs.github(query.value).Some? ==> res.value.published == 0 && after == rows)
            && (pubs.github(query.value).None? ==> res.value.errors == 0))
      && (res.Ok? && !github && |query.value| > 0 ==>
            commits == (if autoCommit && res.value.published > 0 then [HugoPub.BatchMessage(res.value.published)] else []))
  {
    if query.Ok? && |query.value| > 0 && !github {
      PublishAllCounts(PublishState(rows, 0, 0), query.value, pubs.local, faults, true);
    }
  }

  /** A successful GitHub batch marks every article whose update succeeds
      as published, and changes no other row. */
  lemma MarkAllMarks(rows: Rows, arts: seq<Article>, faults: StoreFaults)
    ensures var r := MarkAll(rows, arts, faults);
      && r.Keys == rows.Keys
      && (forall u :: u in rows && (forall j :: 0 <= j < |arts| ==> arts[j].sourceURL != u) ==> r[u] == rows[u])
      && (forall j :: 0 <= j < |arts| && arts[j].sourceURL in rows && !faults.updateFails(arts[j].sourceURL)
            ==> r[arts[j].sourceURL].publishedToMkDocs)
  {
    MarkAllFrame(rows, arts, faults);
    MarkAllMarked(rows, arts, faults);
  }

  /** Marking keeps the set of rows and every row no article names. */
  lemma {:induction false} MarkAllFrame(rows: Rows, arts: seq<Article>, faults: StoreFaults)
    ensures var r := MarkAll(rows, arts, faults);
      && r.Keys == rows.Keys
      && (forall u :: u in rows && (forall j :: 0 <= j < |arts| ==> arts[j].sourceURL != u) ==> r[u] == rows[u])
    decreases |arts|
  {
    if |arts| > 0 {
      var init := arts[..|arts| - 1];
      MarkAllFrame(rows, init, faults);
      forall u | u in rows && (forall j :: 0 <= j < |arts| ==> arts[j].sourceURL != u)
        ensures forall j :: 0 <= j < |init| ==> init[j].sourceURL != u
      {
        PrefixElements(arts, init);
      }
    }
  }

  /** Every article whose row exists and whose update succeeds ends up
      marked published. */
  lemma {:induction false} MarkAllMarked(rows: Rows, arts: seq<Article>, faults: StoreFaults)
    ensures var r := MarkAll(rows, arts, faults);
      && r.Keys == rows.Keys
      && (forall j :: 0 <= j < |arts| && arts[j].sourceURL in rows && !faults.updateFails(arts[j].sourceURL)
            ==> r[arts[j].sourceURL].publishedToMkDocs)
    decreases |arts|
  {
    MarkAllFrame(rows, arts, faults);
    if |arts| > 0 {
      var init := arts[..|arts| - 1];
      MarkAllMarked(rows, init, faults);
      MarkAllFrame(rows, init, faults);
      PrefixElements(arts, init);
    }
  }

  // ---------------------------------------------------------------------
  // Stats
  // ---------------------------------------------------------------------

  /** Stats, from the three counts of the store (or the error reading them). */
  function Stats(counts: Result<(int, int, int)>): (r: Result<StatsResult>)
    ensures counts.Err? <==> r.Err?
    ensures counts.Err? ==> r.msg == "failed to get stats: " + counts.msg
    ensures r.Ok? ==>
      && (r.value.total, r.value.translated, r.value.published) == counts.value
      && r.value.pending + r.value.translated == r.value.total
      && r.value.unpublished + r.value.published == r.value.translated
  {
    if counts.Err? then Err("failed to get stats: " + counts.msg)
    else
      var (total, translated, published) := counts.value;
      Ok(StatsResult(total, translated, published, total - translated, translated - published))
  }

  // ---------------------------------------------------------------------
  // The service
  // ---------------------------------------------------------------------

  /** A Service over its store and its configuration. */
  class NewsService {
    var rows: Rows
    var nextId: int
    const sources: seq<Source>
    const translator: TranslatorConfig
    const hugo: HugoPub.HugoConfig
    const token: string
    const faults: StoreFaults

    constructor(rows: Rows, nextId: int, sources: seq<Source>, translator: TranslatorConfig,
                hugo: HugoPub.HugoConfig, token: string, faults: StoreFaults)
      ensures this.rows == rows && this.nextId == nextId
      ensures this.sources == sources && this.translator == translator
      ensures this.hugo == hugo && this.token == token && this.faults == faults
    {
      this.rows := rows;
      this.nextId := nextId;
      this.sources := sources;
      this.translator := translator;
      this.hugo := hugo;
      this.token := token;
      this.faults := faults;
    }

    /** Fetch: every enabled source's articles, in order, saved or skipped
        or counted as errors. */
    method Fetch(feeds: (seq<string>, string) -> Result<seq<Article>>, scrape: Article -> Option<Article>)
      returns (result: FetchResult)
      modifies this
      ensures FetchState(rows, nextId, result)
              == FetchAll(FetchState(old(rows), old(nextId), FetchResult(0, 0, 0)), sources, feeds, scrape, faults)
    {
      result := FetchResult(0, 0, 0);
      ghost var st0 := FetchState(rows, nextId, result);
      var i := 0;
      while i < |sources|
        invariant 0 <= i <= |sources|
        invariant FetchState(rows, nextId, result) == FetchAll(st0, sources[..i], feeds, scrape, faults)
      {
        var source := sources[i];
        PrefixStep(sources, i);
        if source.enabled {
          var fetched := feeds(source.feeds, source.name);
          if fetched.Err? {
            result := result.(errors := result.errors + 1);
          } else {
            result := SaveArticles(fetched.value, result, scrape);
          }
        }
        i := i + 1;
      }
      WholePrefix(sources);
    }

    /** The inner loop of Fetch over one batch of feed articles. */
    method SaveArticles(articles: seq<Article>, result0: FetchResult, scrape: Article -> Option<Article>)
      returns (result: FetchResult)
      modifies this
      ensures FetchState(rows, nextId, result) == SaveAll(FetchState(old(rows), old(nextId), result0), articles, scrape, faults)
    {
      result := result0;
      ghost var start := FetchState(rows, nextId, result);
      var j := 0;
      while j < |articles|
        invariant 0 <= j <= |articles|
        invariant FetchState(rows, nextId, result) == SaveAll(start, articles[..j], scrape, faults)
      {
        var article := articles[j];
        PrefixStep(articles, j);
        if faults.existsFails(article.sourceURL) {
          result := result.(errors := result.errors + 1);
        } else if article.sourceURL in rows {
          result := result.(skippedArticles := result.skippedArticles + 1);
        } else {
          var scraped := scrape(article);
          var saved := if scraped.Some? then scraped.value else article;
          if faults.insertFails(saved.sourceURL) || saved.sourceURL in rows {
            result := result.(errors := result.errors + 1);
          } else {
            rows := rows[saved.sourceURL := saved.(id := nextId)];
            nextId := nextId + 1;
            result := result.(newArticles := result.newArticles + 1);
          }
        }
        j := j + 1;
      }
      WholePrefix(articles);
    }

    /** Translate, over the rows the untranslated-articles query returned,
        with the translator clients by provider and the publishers. */
    method Translate(query: Result<seq<Article>>, clients: Provider -> Translator, now: Time, pubs: Publishers)
      returns (res: Result<TranslateResult>, commits: seq<string>)
      modifies this
      ensures (res, rows, commits)
              == TranslateRun(old(rows), query, translator, clients, now,
                              GitHubAvailable(hugo, token), hugo.autoCommit, pubs, faults)
      ensures nextId == old(nextId)
    {
      commits := [];
      if query.Err? {
        return Err("failed to get articles: " + query.msg), commits;
      }
      var articles := query.value;
      if |articles| == 0 {
        return Ok(TranslateResult(0, 0, 0)), commits;
      }
      var trans := CreateTranslator(translator);
      if trans.Err? {
        return Err(trans.msg), commits;
      }
      var t := TranslateArticles(articles, clients(trans.value), now);
      res := Ok(TranslateResult(|t.translated|, |articles|, t.errors));
      commits := PublishTranslatedArticles(t.translated, pubs);
    }

    /** The translation loop of Translate. */
    method TranslateArticles(articles: seq<Article>, tr: Translator, now: Time) returns (t: TranslateState)
      modifies this
      ensures t == TranslateAll(TranslateState(old(rows), [], 0), articles, tr, now, faults)
      ensures rows == t.rows && nextId == old(nextId)
    {
      var translated: seq<Article> := [];
      var errors := 0;
      var i := 0;
      while i < |articles|
        invariant 0 <= i <= |articles|
        invariant nextId == old(nextId)
        invariant TranslateState(rows, translated, errors)
                  == TranslateAll(TranslateState(old(rows), [], 0), articles[..i], tr, now, faults)
      {
        var article := articles[i];
        PrefixStep(articles, i);
        var done := TranslatedArticle(article, tr, now);
        if done.None? || faults.updateFails(done.value.sourceURL) {
          errors := errors + 1;
        } else {
          rows := UpdateRow(rows, done.value);
          translated := translated + [done.value];
        }
        i := i + 1;
      }
      WholePrefix(articles);
      t := TranslateState(rows, translated, errors);
    }

    /** The publishing step at the end of Translate. */
    method PublishTranslatedArticles(ts: seq<Article>, pubs: Publishers) returns (commits: seq<string>)
      modifies this
      ensures (rows, commits) == PublishTranslated(old(rows), ts, GitHubAvailable(hugo, token), hugo.autoCommit, pubs, faults)
      ensures nextId == old(nextId)
    {
      commits := [];
      if |ts| > 0 {
        if GitHubAvailable(hugo, token) {
          if pubs.github(ts).None? {
            MarkPublished(ts);
          }
        } else {
          var published, _ := PublishLocally(ts, pubs.local, false);
          commits := Commits(hugo.autoCommit, published);
        }
      }
    }

    /** Marks each article published and stores it, ignoring a failed
        update. */
    method MarkPublished(arts: seq<Article>)
      modifies this
      ensures rows == MarkAll(old(rows), arts, faults)
      ensures nextId == old(nextId)
    {
      var i := 0;
      while i < |arts|
        invariant 0 <= i <= |arts|
        invariant rows == MarkAll(old(rows), arts[..i], faults)
        invariant nextId == old(nextId)
      {
        PrefixStep(arts, i);
        var a := arts[i].(publishedToMkDocs := true);
        if !faults.updateFails(a.sourceURL) {
          rows := UpdateRow(rows, a);
        }
        i := i + 1;
      }
      WholePrefix(arts);
    }

    /** The local publishing loop. */
    method PublishLocally(arts: seq<Article>, local: Article -> Option<string>, strict: bool)
      returns (published: nat, errors: nat)
      modifies this
      ensures PublishState(rows, published, errors) == PublishAll(PublishState(old(rows), 0, 0), arts, local, faults, strict)
      ensures nextId == old(nextId)
    {
      published, errors := 0, 0;
      var i := 0;
      while i < |arts|
        invariant 0 <= i <= |arts|
        invariant PublishState(rows, published, errors) == PublishAll(PublishState(old(rows), 0, 0), arts[..i], local, faults, strict)
        invariant nextId == old(nextId)
      {
        var article := arts[i];
        PrefixStep(arts, i);
        if local(article).Some? {
          errors := errors + 1;
        } else {
          var m := article.(publishedToMkDocs := true);
          if faults.updateFails(m.sourceURL) {
            if strict {
              errors := errors + 1;
            } else {
              published := published + 1;
            }
          } else {
            rows := UpdateRow(rows, m);
            published := published + 1;
          }
        }
        i := i + 1;
      }
      WholePrefix(arts);
    }

    /** Publish, over the rows the unpublished-articles query returned. */
    method Publish(query: Result<seq<Article>>, pubs: Publishers)
      returns (res: Result<PublishResult>, commits: seq<string>)
      modifies this
      ensures (res, rows, commits)
              == PublishRun(old(rows), query, GitHubAvailable(hugo, token), hugo.autoCommit, pubs, faults)
      ensures nextId == old(nextId)
    {
      commits := [];
      if query.Err? {
        return Err("failed to get articles: " + query.msg), commits;
      }
      var articles := query.value;
      if |articles| == 0 {
        return Ok(PublishResult(0, 0, 0)), commits;
      }
      if GitHubAvailable(hugo, token) {
        if pubs.github(articles).Some? {
          return Ok(PublishResult(0, |articles|, |articles|)), commits;
        }
        MarkPublished(articles);
        res := Ok(PublishResult(|articles|, |articles|, 0));
      } else {
        var published, errors := PublishLocally(articles, pubs.local, true);
        commits := Commits(hugo.autoCommit, published);
        res := Ok(PublishResult(published, |articles|, errors));
      }
    }
  }
}
