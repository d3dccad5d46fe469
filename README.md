# moto-news in Dafny

A model of the deterministic core of moto-news. The project has two halves.

The Go half is a motorcycle-news aggregator:
- read RSS feeds into articles;
- scrape each article page for the body, image, category and keywords;
- translate the article;
- render it as Hugo markdown;
- publish it, either through the GitHub REST API in a single commit or as a local file followed by git.

The Python half is a set of agents that work on the blog:
- a site reader that summarises pages and sitemaps;
- a user agent that posts suggestions to GitHub Discussions, with linear back-off;
- an admin agent that turns discussions labelled "Implement" into pull requests;
- the configuration layering both halves read.

Each core source file becomes one Dafny module:

| module | file | form |
|---|---|---|
| `Models` | internal/models/article.go | functions on an `Article` datatype |
| `Rss` | internal/fetcher/rss.go | functions, with methods for the feed loops |
| `Scraper` | internal/fetcher/scraper.go | functions, with methods for its loops |
| `Formatter` | internal/formatter/markdown.go | string-builder methods, each proved equal to a document function |
| `GitHubPub` | internal/publisher/github.go | request sequences against an API oracle |
| `HugoPub` | internal/publisher/hugo.go | filesystem and git steps against a command oracle |
| `Service` | internal/service/service.go | class `NewsService` over an in-memory store |
| `AdminAgent` | agents/admin_agent.py | mixed: pure checks and imperative loops |
| `UserAgent` | agents/user_agent.py | the retry loop |
| `Discussions` | agents/tools/github_discussions.py | mixed: pure checks and imperative loops |
| `SiteReader` | agents/tools/site_reader.py | mixed: pure checks and imperative loops |
| `AgentSettings` | agents/config.py | setattr loops and environment overrides |

`StrUtil` holds the string library the others share:
- Go and Python whitespace and trimming;
- lower-casing;
- search, split and join;
- the UTF-8 byte length, which stands for Go's `len` on strings;
- decimal printing;
- the `Option` and `Result` types.

HTTP, SQL, git subprocesses, the clock and the language models never appear as code. Each enters as a parameter: a function from request to answer, or a value such as `now`.

The service store is a map from source URL to stored row, plus the next row id. Source URL is unique in the articles table.

Where the sources disagree with each other:
- internal/service/service.go sets a `PublishedToHugo` field at lines 218, 232, 275 and 293. The `Article` of internal/models/article.go has only `PublishedToMkDocs`, so the model sets that field.
- `createTranslator` (internal/service/service.go:436-440) passes three arguments to an Ollama constructor that takes seven. The model hands the translator the whole Ollama configuration, as the constructor expects.

## Model

| member | source | states |
|---|---|---|
| Models.TagsJSON | internal/models/article.go:30-36 | no tags encode as "[]"; the encoding is never empty |
| Models.ParseTags | internal/models/article.go:39-45 | only the tags change; "" and "[]" give no tags |
| Models.TagsRoundTrip | internal/models/article.go:30-45 | parsing the stored encoding of the tags gives back the same tags |
| Models.NullTimeToPtr | internal/models/article.go:48-53 | a time exactly when the column is valid, and then that time |
| Models.PtrToNullTime | internal/models/article.go:56-61 | valid exactly when a time is given; no time gives the zero time |
| Models.NullTimeRoundTrip | internal/models/article.go:48-61 | the two conversions invert each other, on every optional time and on every canonical column value |
| Models.LifecycleExclusive | internal/models/article.go:63-81 | an article never both needs translation and is translated; needing publishing means translated, with Russian content, and not yet published |
| Rss.FirstImageEnclosure | internal/fetcher/rss.go:70-79 | the URL of the first enclosure whose type is an image, or none exactly when no enclosure is an image |
| Rss.FirstImageIs | internal/fetcher/rss.go:70-79 | the first image enclosure at index k is the one chosen |
| Rss.ItemArticleFacts | internal/fetcher/rss.go:38-88 | item to article: link, title, fetch time, published then updated then now, first author, first category and all categories as tags, item image before an image enclosure, slug capped in length |
| Rss.ItemToArticle | internal/fetcher/rss.go:38-88 | the imperative mapping builds exactly that article |
| Rss.FeedArticles | internal/fetcher/rss.go:23-36 | one article per item, in order, each the mapping of its item |
| Rss.FetchFeed | internal/fetcher/rss.go:23-36 | a parse failure is reported with the feed URL; otherwise the articles of the items |
| Rss.FetchMultipleFeeds | internal/fetcher/rss.go:91-105 | the loop collects the articles of every parsed feed in order, skipping feeds that fail |
| Rss.AllFeedArticlesCount | internal/fetcher/rss.go:91-105 | as many articles as the parsed feeds have items |
| Scraper.AnyPhraseIn | internal/fetcher/scraper.go:318-346 | true exactly when some listed phrase occurs |
| Scraper.IsBoilerplate | internal/fetcher/scraper.go:318-346 | text of 200 bytes or more is never boilerplate |
| Scraper.BoilerplatePhrases | internal/fetcher/scraper.go:318-346 | boilerplate exactly when shorter than 200 bytes and its lower-case form contains a listed phrase |
| Scraper.GenericCaseInsensitive | internal/fetcher/scraper.go:286-315 | the generic-category test ignores letter case |
| Scraper.DropTrailingTitles | internal/fetcher/scraper.go:272-280 | only trailing short title lines are dropped, one line always stays, and the last kept line of several is not a title |
| Scraper.CleanArticleBody | internal/fetcher/scraper.go:244-283 | the cleaning loop computes the cleaned body |
| Scraper.CleanedBodyParagraphs | internal/fetcher/scraper.go:244-283 | the paragraphs are trimmed and kept lines; the body is empty without them, and splitting the body on blank lines gives them back |
| StrUtil.KeepTrimmedSeparable | internal/fetcher/scraper.go:249-283 | kept lines of a newline split hold no blank line and do not end in a newline |
| Scraper.KeptLinesInOrder | internal/fetcher/scraper.go:249-268 | the line filter works line by line and keeps order |
| StrUtil.Dedup | internal/fetcher/scraper.go:349-359 | no duplicates, the same members, no longer than the input |
| Scraper.DedupPrefix | internal/fetcher/scraper.go:349-359 | deduplication keeps first occurrences: the result for a prefix is a prefix of the result |
| Scraper.DedupOfUnique | internal/fetcher/scraper.go:349-359 | a list without duplicates is unchanged |
| Scraper.UniqueStrings | internal/fetcher/scraper.go:349-359 | the loop with a seen-set computes the deduplication |
| Scraper.ArrayKeywords | internal/fetcher/scraper.go:146-152 | keywords from a JSON array are strings of the array that are not generic categories |
| Scraper.ArrayKeywordsConcat | internal/fetcher/scraper.go:146-152 | the keywords of two arrays side by side are the keywords of each, in order |
| Scraper.ArrayKeywordsSingle | internal/fetcher/scraper.go:146-152 | one element gives itself when it is a string and not a generic category, and nothing otherwise |
| Scraper.ArrayKeywordsComplete | internal/fetcher/scraper.go:146-152 | every string of the array that is not a generic category is kept |
| Scraper.StringKeywordsClean | internal/fetcher/scraper.go:153-159 | keywords from a comma-separated string are non-empty, trimmed, comma-free and not generic, and every piece that trims to such a keyword is kept |
| Scraper.StringKeywordsConcat | internal/fetcher/scraper.go:153-159 | joining two keyword strings with a comma gives the keywords of each, in order |
| Scraper.StringKeywordsPiece | internal/fetcher/scraper.go:153-159 | a piece without a comma gives its trimmed self when that is a keyword, and nothing otherwise |
| Scraper.ExtractKeywords | internal/fetcher/scraper.go:145-160 | the keyword loop computes the keyword tags |
| Scraper.FirstArticleBlock | internal/fetcher/scraper.go:112-125 | the first JSON-LD block with an article body is chosen; no earlier block has one |
| Scraper.ExtractFromJsonLd | internal/fetcher/scraper.go:107-166 | the extraction loop computes the fields of the chosen block |
| Scraper.ScrapedFields | internal/fetcher/scraper.go:74-84 | JSON-LD with content wins; otherwise the HTML fields, with a JSON-LD category kept |
| Scraper.MergeScraped | internal/fetcher/scraper.go:86-101 | only content, image, category and tags change; content only by non-empty text, trimmed; image and category only when empty; tags deduplicated, only when there are any |
| Scraper.UpdateScraped | internal/fetcher/scraper.go:86-101 | the article after the merge is exactly the merged article |
| Scraper.ScrapeArticle | internal/fetcher/scraper.go:41-104 | each error path with its message and no request without a source URL; on success the article with the scraped fields merged in |
| Formatter.FormatYear | internal/formatter/markdown.go:99 | the year element holds no '/' |
| Formatter.Pad2 | internal/formatter/markdown.go:100 | the month element is at least two decimal digits |
| Formatter.DisplayTitle | internal/formatter/markdown.go:23-26 | the Russian title when there is one, else the original title |
| Formatter.EscapeQuotesBreaksOnBackslash | internal/formatter/markdown.go:28 | the escaping as written produces a title line that no YAML reader can close for the title `a\` |
| Formatter.EscapeYamlRoundTrip | internal/formatter/markdown.go:28-32 | the corrected escaping reads back as the same title followed by the rest of the line |
| Formatter.EscapersAgreeWithoutBackslash | internal/formatter/markdown.go:28 | without a backslash both escapings agree |
| Formatter.TranslateCategory | internal/formatter/markdown.go:112-139 | a known category, matched in lower case, maps to its Russian name; any other stays as given |
| Formatter.TranslateCategoryIgnoresCase | internal/formatter/markdown.go:134-138 | two spellings of a known category that differ only in case translate alike |
| Formatter.TranslateCategoryIdempotent | internal/formatter/markdown.go:112-139 | translating twice is translating once |
| Formatter.FormatContent | internal/formatter/markdown.go:82-95 | the paragraph loop computes the formatted content |
| Formatter.ContentParagraphsSeparable | internal/formatter/markdown.go:84-92 | paragraphs are non-empty and trimmed, with no blank line inside and no trailing newline |
| Formatter.FormattedContentParagraphs | internal/formatter/markdown.go:82-95 | the content is empty without paragraphs; splitting it on blank lines gives the paragraphs back |
| Formatter.FormatContentIdempotent | internal/formatter/markdown.go:82-95 | formatting formatted content changes nothing |
| Formatter.TagItems | internal/formatter/markdown.go:42-48 | the first min(5, n) tags, each as a list item |
| Formatter.TagsBlockLines | internal/formatter/markdown.go:42-48 | no tags give no block; otherwise its lines are "tags:" and the items |
| Formatter.WriteTags | internal/formatter/markdown.go:42-48 | the builder gains exactly the tags block |
| Formatter.WriteHead | internal/formatter/markdown.go:30-40 | the builder holds the opening marker, the title and date lines and the categories |
| Formatter.WriteSource | internal/formatter/markdown.go:50-54 | the builder gains exactly the source block |
| Formatter.WriteCover | internal/formatter/markdown.go:56-62 | the builder gains exactly the cover block |
| Formatter.Format | internal/formatter/markdown.go:19-79 | the builder steps produce the whole document |
| Formatter.FrontMatterOpensWithTitle | internal/formatter/markdown.go:22-32 | the front matter opens with the marker and the title line of the display title, the Russian one when there is one |
| Formatter.FrontMatterTitleReadsBack | internal/formatter/markdown.go:22-33 | a YAML reader of the front matter gets the display title back from the title line, followed by the date line, for every single-line title |
| Formatter.TitleLineReadsBack | internal/formatter/markdown.go:28-32 | the title line decodes to the title, whatever text follows it |
| Formatter.MarkdownOpensWithTitle | internal/formatter/markdown.go:19-32 | the document opens with its front matter and so with the title line; for a title without a backslash that is exactly the line the escaping as written gives |
| Formatter.MarkdownEndsWithFooter | internal/formatter/markdown.go:74-78 | the document ends with the footer |
| Formatter.CategoriesStartWithNews | internal/formatter/markdown.go:35-37 | the categories always list "Новости" first |
| Formatter.CoverIffImage | internal/formatter/markdown.go:57-62 | a cover block exactly when the article has an image |
| Formatter.BodyText | internal/formatter/markdown.go:67-70 | the Russian content when present, else the original content |
| Formatter.FileSlug | internal/formatter/markdown.go:102-105 | the slug, or "article-<id>" without one |
| Formatter.FileNameNoSlash | internal/formatter/markdown.go:102-108 | the file name holds no '/' when the slug holds none |
| Formatter.GetFilePathComponents | internal/formatter/markdown.go:98-108 | the path's components are the base directory's, then posts, year, month and file name |
| GitHubPub.ParseGitHubRepo | internal/publisher/github.go:349-363 | the owner never contains '/' |
| GitHubPub.TrimmedRepoRef | internal/publisher/github.go:353-356 | suffix and prefix trimming leave owner/repo for every accepted form |
| GitHubPub.ParseTrimmed | internal/publisher/github.go:358-361 | the split is at the '/' after the owner |
| GitHubPub.ParseRepoRoundTrip | internal/publisher/github.go:349-362 | every accepted form of owner/repo, with or without ".git", parses back to the owner and repo |
| GitHubPub.ParseRepoNoSlash | internal/publisher/github.go:359-363 | a reference without '/' gives ("", "") |
| GitHubPub.ToForwardSlashChars | internal/publisher/github.go:334-336 | same length; backslashes become '/' and every other character stays |
| GitHubPub.ToForwardSlashFacts | internal/publisher/github.go:334-336 | no backslash is left, and the conversion is idempotent |
| GitHubPub.PathEscapeChars | internal/publisher/github.go:343 | an escaped segment holds only safe characters and '%', and never '/' |
| GitHubPub.PathEscapeSafe | internal/publisher/github.go:343 | a segment of safe characters is unchanged |
| GitHubPub.PathEscapeRoundTrip | internal/publisher/github.go:343 | unescaping an escaped segment gives back its UTF-8 bytes |
| GitHubPub.EscapeAll | internal/publisher/github.go:342-344 | each segment is escaped in place |
| GitHubPub.EscapeInPlace | internal/publisher/github.go:342-344 | every part of the slice is replaced by its own escape, in place |
| GitHubPub.EncodePathSegments | internal/publisher/github.go:340-346 | the loop joins the escaped segments with '/' |
| GitHubPub.EncodedPathSegments | internal/publisher/github.go:340-346 | the encoded path splits back into the escaped segments and keeps the number of separators |
| GitHubPub.NewGitHubPublisher | internal/publisher/github.go:36-54 | owner and repo are parsed from the reference; the branch defaults to "main" |
| GitHubPub.AvailableFromRepoRef | internal/publisher/github.go:57-59 | a publisher for a well-formed reference is available |
| GitHubPub.UnavailableWithoutSlash | internal/publisher/github.go:57-59 | a reference without '/' never is |
| GitHubPub.Entries | internal/publisher/github.go:284-292 | one blob tree entry per file, in order, with the file's path and content |
| GitHubPub.CommitMultipleFiles | internal/publisher/github.go:260-330 | the five requests (ref, commit, tree, commit, ref update) follow the protocol up to the first failure |
| GitHubPub.ProtocolDeterminate | internal/publisher/github.go:260-330 | the protocol fixes the requests and the outcome |
| GitHubPub.RefMovesLast | internal/publisher/github.go:322-330 | success takes all five requests; the branch reference moves only in the last one |
| GitHubPub.TreeFilesShape | internal/publisher/github.go:102-111 | the k-th file belongs to the k-th present article, absent ones skipped, at its forward-slash path under the content directory and holding its markdown; no path holds a backslash |
| GitHubPub.Present | internal/publisher/github.go:105-108 | the present articles, in order: exactly those in the list |
| GitHubPub.FileOf | internal/publisher/github.go:109-111 | an article's file has a path without backslashes |
| GitHubPub.PublishMultiple | internal/publisher/github.go:93-122 | unavailable is an error with no request; an empty list sends nothing; otherwise one commit of the articles' files |
| GitHubPub.Publish | internal/publisher/github.go:62-90 | a nil article or unavailable publisher is an error with no request; otherwise the file is put at its path |
| GitHubPub.PutFile | internal/publisher/github.go:232-257 | the lookup of the existing file, then the write to the encoded path, carrying the SHA only when the lookup gave one |
| HugoPub.ValidateConfig | internal/publisher/hugo.go:192-197 | an error exactly when the site path is empty |
| HugoPub.JoinPath | internal/publisher/hugo.go:38 | empty elements are dropped, others joined by '/' |
| HugoPub.LastSlash | internal/publisher/hugo.go:44 | an index inside the path |
| HugoPub.LastSlashFacts | internal/publisher/hugo.go:44 | the last '/' is found, and none means there is none |
| HugoPub.DirOfFacts | internal/publisher/hugo.go:44 | the directory is "." without a separator, else the path up to the last one |
| HugoPub.NewHugoPublisher | internal/publisher/hugo.go:20-25 | the publisher formats with the markdown formatter and its file paths |
| HugoPub.Publish | internal/publisher/hugo.go:28-59 | the steps and error texts of publishing one article |
| HugoPub.WriteArticle | internal/publisher/hugo.go:43-55 | directory creation, then the write, stopping at the first failure |
| HugoPub.PublishFacts | internal/publisher/hugo.go:28-59 | without an article or site path nothing is touched; success creates the directory and writes the formatted article at its path |
| HugoPub.ArticleUnderContentDir | internal/publisher/hugo.go:37-41 | every article lands under the content directory |
| HugoPub.GitCommit | internal/publisher/hugo.go:78-114 | add, status, commit, stopping at the first failure, each with its error text |
| HugoPub.GitCommitFacts | internal/publisher/hugo.go:78-114 | a commit runs exactly when staging and status succeed and the status is not empty; an empty status is success without a commit |
| HugoPub.ChainStopsAt | internal/publisher/hugo.go:63-67 | a chain of steps fails with the first failure's error |
| HugoPub.ChainAllOk | internal/publisher/hugo.go:63-67 | a chain without a failure succeeds |
| HugoPub.PublishOutcomes | internal/publisher/hugo.go:63-67 | the outcome of each article on its own |
| HugoPub.PublishMultiple | internal/publisher/hugo.go:62-74 | articles are published in order up to the first failure; a commit follows only when all succeeded, auto-commit is on and the list is not empty |
| HugoPub.PublishCommands | internal/publisher/hugo.go:28-59 | publishing one article runs only directory and file commands |
| HugoPub.PublishMultipleStops | internal/publisher/hugo.go:62-67 | the first failing article ends the batch with its error; git never runs |
| HugoPub.PublishMultipleAllOk | internal/publisher/hugo.go:62-67 | with no failure, only file commands run before the optional commit |
| HugoPub.RefusalFacts | internal/publisher/hugo.go:213 | with the guard as written, the target itself and every path made of the target, one '/' and more are refused; a sibling whose name extends the target's is not; for the root target "/" that covers only paths starting "//" (see Findings) |
| HugoPub.RootTargetNotRefused | internal/publisher/hugo.go:213 | the guard as written lets the target "/" be removed while the working directory is "/home", which the intended guard refuses |
| HugoPub.DirPrefix | internal/publisher/hugo.go:199-200 | the target as a directory prefix ends in '/', extends the target by at most one character, and equals it exactly when it already ends in '/' |
| HugoPub.ContainsCwdFacts | internal/publisher/hugo.go:199-200 | the intended guard refuses the target and every path below it, lets a sibling through, and agrees with the guard as written for every target not ending in '/' |
| HugoPub.RootContainsEveryCwd | internal/publisher/hugo.go:199-200 | with the intended guard the root target refuses every absolute working directory |
| HugoPub.SafeRemoveAll | internal/publisher/hugo.go:201-222 | the directory is removed only when both paths resolve and the intended guard `ContainsCwd` does not refuse; the outcome is `Removal` |
| HugoPub.Removal | internal/publisher/hugo.go:201-222 | the removal runs at most one command, and running none means an error |
| HugoPub.GitPull | internal/publisher/hugo.go:117-162 | without .git and with git_repo: the safe removal when the directory exists, then, unless it failed, the clone, with "git clone failed" on failure; with .git: the pull after the remote and branch checks; each configuration error before any command |
| HugoPub.GitPush | internal/publisher/hugo.go:165-184 | a push only with the site path, remote and branch set |
| Service.UpdateRow | internal/storage/sqlite.go:114-124 | only the six updated columns of the article's row change; no other row changes |
| Service.Bump | internal/service/service.go:96-125 | a new article bumps `NewArticles`, a skipped one `SkippedArticles`, a failed one `Errors`, by one each, and the other two counters stay as they were |
| Service.Enabled | internal/service/service.go:88-91 | only enabled sources remain |
| Service.SaveAllCounts | internal/service/service.go:101-129 | every article of a batch bumps exactly one counter |
| Service.FetchCounts | internal/service/service.go:88-130 | every article of an enabled source, and every enabled source whose feeds fail, bumps exactly one counter |
| Service.FetchIgnoresDisabled | internal/service/service.go:88-91 | fetching all sources is fetching the enabled ones |
| Service.SkipsStored | internal/service/service.go:102-112 | a stored URL is skipped without scraping and without touching the store |
| Service.ScrapeFailureStillSaves | internal/service/service.go:114-126 | a failed scrape still stores the article as the feed gave it |
| Service.SaveAllGrows | internal/service/service.go:101-129 | saving never changes a stored row, and the store grows by the number of new articles |
| Service.FetchGrows | internal/service/service.go:82-135 | the same for the whole fetch |
| Service.CreateTranslator | internal/service/service.go:433-446 | only "ollama" and "libretranslate" are accepted; anything else is the unknown-provider error |
| Service.TranslatedArticleFacts | internal/service/service.go:170-189 | success needs the title, and the content when there is some; only the Russian title, Russian content and time change; without content, text translation plays no part |
| Service.TranslateAllCounts | internal/service/service.go:166-202 | the translated articles are exactly the stored translations, in input order; translated plus errors equals the articles; each translated article is the translation of an input |
| Service.StoredTranslations | internal/service/service.go:166-202 | no more stored translations than articles |
| Service.PublishAllCounts | internal/service/service.go:285-302 | published plus errors equals the articles |
| Service.Commits | internal/service/service.go:304-308 | one commit exactly when auto-commit is on and something was published |
| Service.TranslateRunFacts | internal/service/service.go:138-246 | a failed query is reported; an unknown provider is an error only when there is something to translate; translated plus errors equals the total |
| Service.PublishRunFacts | internal/service/service.go:249-313 | published plus errors equals the total; a GitHub batch is all or nothing with no git commit; locally a commit happens exactly when auto-commit is on and something was published |
| Service.MarkAllMarks | internal/service/service.go:274-278 | a successful batch marks every article whose update succeeds as published, and changes no other row |
| Service.MarkAllFrame | internal/service/service.go:274-278 | marking keeps the set of stored rows and every row no article of the batch names |
| Service.MarkAllMarked | internal/service/service.go:274-278 | every article of the batch whose row exists and whose update succeeds ends up marked published |
| Service.Stats | internal/service/service.go:344-357 | pending plus translated is the total; unpublished plus published is translated |
| Service.NewsService.constructor | internal/service/service.go:74-79 | the service holds its store and configuration |
| Service.NewsService.Fetch | internal/service/service.go:82-135 | the loop over sources leaves the store and counters of the fetch specification |
| Service.NewsService.SaveArticles | internal/service/service.go:101-129 | the inner loop leaves those of the batch specification |
| Service.NewsService.Translate | internal/service/service.go:138-246 | the result, store and commits of the translate specification; row ids untouched |
| Service.NewsService.TranslateArticles | internal/service/service.go:166-202 | the translation loop |
| Service.NewsService.PublishTranslatedArticles | internal/service/service.go:209-243 | the publishing at the end of Translate |
| Service.NewsService.MarkPublished | internal/service/service.go:274-278 | each article is marked published and stored; a failed update is ignored |
| Service.NewsService.PublishLocally | internal/service/service.go:285-302 | the local publishing loop |
| Service.NewsService.Publish | internal/service/service.go:249-313 | the result, store and commits of the publish specification |
| AdminAgent.ImplementOnlyMembers | agents/admin_agent.py:86-95 | exactly the discussions with an "implement" label, in any case, are kept |
| AdminAgent.FilterImplement | agents/admin_agent.py:86-95 | the filter loop keeps them in order |
| AdminAgent.ProcessedIff | agents/admin_agent.py:98-104 | processed exactly when some comment body, None read as "", contains the bot marker |
| AdminAgent.PrComment | agents/admin_agent.py:384-390 | the posted comment starts with the bot marker |
| AdminAgent.CommentMarksProcessed | agents/admin_agent.py:98-104 | after the comment is posted the discussion counts as processed |
| AdminAgent.AnyKeywordIff | agents/admin_agent.py:407-425 | the keyword scan finds a keyword exactly when one occurs |
| AdminAgent.TargetRepo | agents/admin_agent.py:407-425 | the target is one of the two repositories |
| AdminAgent.TargetRepoIff | agents/admin_agent.py:407-425 | the aggregator repository exactly when the lower-cased title and body contain one of its keywords |
| AdminAgent.CapContext | agents/admin_agent.py:214-217 | a context over 30000 characters is cut there and gets the marker; a shorter one is unchanged |
| AdminAgent.KeyFileParts | agents/admin_agent.py:155-175 | the included paths are the key files that can be read, in list order, and the parts are their sections |
| AdminAgent.Readable | agents/admin_agent.py:169-175 | the readable paths: exactly the listed paths that can be fetched |
| AdminAgent.KeySections | agents/admin_agent.py:169-175 | one section per readable path, in order, holding its path and first 3000 characters |
| AdminAgent.KeywordParts | agents/admin_agent.py:177-210 | the loop computes the keyword scan; no path is fetched twice; only paths of named keywords are requested, and one is requested again only after it failed; every path of a named keyword that can be fetched is included; each section holds its path, a named keyword listing it and the first 4000 characters |
| AdminAgent.StepFacts | agents/admin_agent.py:201-212 | one path keeps the scan invariant, adds at most one request, and adds its section exactly when it is fetched |
| AdminAgent.PathsInv | agents/admin_agent.py:200-212 | the paths of one keyword keep the scan invariant and only extend the state |
| AdminAgent.PathsRequests | agents/admin_agent.py:200-212 | each new request is one of the keyword's paths |
| AdminAgent.PathsComplete | agents/admin_agent.py:200-212 | each of the keyword's paths that can be fetched is fetched afterwards |
| AdminAgent.PathsSections | agents/admin_agent.py:200-212 | each new section belongs to one of the keyword's paths and to the keyword |
| AdminAgent.TableInv | agents/admin_agent.py:197-212 | the keyword loop keeps the scan invariant |
| AdminAgent.TableRequests | agents/admin_agent.py:197-212 | only paths of keywords the text names are requested |
| AdminAgent.CompleteExtend | agents/admin_agent.py:197-212 | completeness carries over one more keyword |
| AdminAgent.TableComplete | agents/admin_agent.py:197-212 | every path of a named keyword that can be fetched is fetched |
| AdminAgent.TiedExtend | agents/admin_agent.py:197-212 | the sections stay tied to their paths and keywords over one more keyword |
| AdminAgent.TableSections | agents/admin_agent.py:197-212 | each section belongs to its path and to a named keyword that lists it |
| AdminAgent.FetchContext | agents/admin_agent.py:131-220 | the context is the capped join, by blank lines, of the tree section, the key-file sections and the keyword sections; it is capped, and opens with the tree section unless it was cut |
| AdminAgent.SanitizeJsonString | agents/admin_agent.py:335-360 | the character loop computes the sanitizer |
| AdminAgent.SanitizeIdentity | agents/admin_agent.py:335-360 | a text without a raw newline or tab is returned unchanged |
| AdminAgent.RunConcat | agents/admin_agent.py:341-358 | the scan of a concatenation resumes where the first part left off |
| AdminAgent.EmitStable | agents/admin_agent.py:341-358 | what the sanitizer writes for a character is left alone by a second pass |
| AdminAgent.SanitizeIdempotent | agents/admin_agent.py:335-360 | sanitizing twice is sanitizing once |
| AdminAgent.SanitizeClean | agents/admin_agent.py:353-358 | no raw newline or tab is left inside a string |
| AdminAgent.BackslashPair | agents/admin_agent.py:341-352 | a backslash and the next character are copied and do not toggle the in-string state, so `\"` never ends a string |
| AdminAgent.ControlCharsAt | agents/admin_agent.py:353-358 | inside a string a raw newline or tab becomes `\n` or `\t`; outside it is copied |
| AdminAgent.BeforeFence | agents/admin_agent.py:303-309 | the text before the first fence is a prefix of the text and holds no fence |
| AdminAgent.StripFencesClean | agents/admin_agent.py:303-309 | the fence-stripped payload never contains a fence |
| AdminAgent.LastIndexOf | agents/admin_agent.py:322-328 | the last occurrence of a character, or none when absent |
| AdminAgent.ObjectSpan | agents/admin_agent.py:322-328 | the greedy match of `\{[\s\S]*\}`: a piece of the text from the first '{' to the last '}', with no '{' before it and no '}' after it; none exactly when there is no '{' or no '}' after the first one |
| AdminAgent.ParseChanges | agents/admin_agent.py:299-332 | the three parsing attempts in order, each giving its own value: the fence-stripped text, else its sanitized form, else the sanitized object span of the raw text; the error, with the first 500 characters, exactly when all fail |
| AdminAgent.FirstParse | agents/admin_agent.py:311-332 | the first of the three texts the decoder accepts gives the value, in order; the error exactly when none is accepted |
| AdminAgent.GenerateWithRetries | agents/admin_agent.py:457-468 | at most 2 attempts, stopping at the first success, sleeping 20 seconds only before another attempt |
| UserAgent.FinalMessage | agents/user_agent.py:193 | the last message's content, or "" without messages |
| UserAgent.RunOnce | agents/user_agent.py:154-230 | at most 3 attempts; the first success returns its final message; sleeps of 15 then 30 seconds only before another attempt; after exhaustion "Error after 3 retries: " and the last error |
| Discussions.Headers | agents/tools/github_discussions.py:37-45 | ValueError exactly when the token is empty; otherwise a bearer authorization |
| Discussions.MakePayload | agents/tools/github_discussions.py:50-52 | variables are sent only when there are some |
| Discussions.GraphqlQueryFacts | agents/tools/github_discussions.py:48-66 | nothing is sent without a token, otherwise exactly the one payload; a status outside 200-299 is raised; a 2xx answer with errors is raised even with data; a result is the data of a 2xx answer without errors |
| Discussions.SplitRepo | agents/tools/github_discussions.py:79 | unpacking succeeds exactly with two '/'-pieces, which rejoin to the name |
| Discussions.InCategoryMembers | agents/tools/github_discussions.py:110-115 | exactly the discussions whose category matches, ignoring case, are kept |
| Discussions.InCategoryConcat | agents/tools/github_discussions.py:110-115 | filtering a concatenation is concatenating the filtered parts, so the kept discussions stay in their input order |
| Discussions.InCategorySingle | agents/tools/github_discussions.py:110-115 | one discussion is kept exactly when no category is given or its category matches ignoring case |
| Discussions.FormatListing | agents/tools/github_discussions.py:120-131 | the listing is the header followed by one entry per discussion |
| Discussions.ListDiscussionsFacts | agents/tools/github_discussions.py:110-131 | the "none found" text exactly when nothing matches; otherwise the listing opens with its header |
| Discussions.CreateDiscussionComment | agents/tools/github_discussions.py:204-262 | a blank body is refused before any request; the id query, then the comment only when the id was found; the result is `CommentOutcome`: the caught text of a failed id query or post ("Error: " for a ValueError, "Error posting comment: " otherwise), or "Comment posted successfully! URL: " with the comment's URL or "N/A" |
| Discussions.FindCategory | agents/tools/github_discussions.py:301-305 | the first category matching by name, ignoring case, or none exactly when none matches |
| Discussions.Names | agents/tools/github_discussions.py:308 | the names of the categories, in order |
| Discussions.CreateInCategory | agents/tools/github_discussions.py:293-353 | the categories query comes first and its failure is the caught answer; no match, or a first match with an empty id, gives "Category '…' not found. Available: …" with no further request; otherwise the repository-id query is second and, when it answers, the creation in the first matching category with the given title and body is third; every failure is caught ("Error: " for a ValueError, "Error creating discussion: " otherwise) and success answers "Discussion created: #number — url" |
| Discussions.CreateInMatch | agents/tools/github_discussions.py:311-353 | with a non-empty category id: the repository-id query, then the creation with that id, title and body; each failure caught with its prefix; success reports number and URL |
| Discussions.CreateDiscussionTool | agents/tools/github_discussions.py:266-353 | blank title or body is refused before any request; a malformed repo raises; otherwise exactly the outcome of the try block described for CreateInCategory |
| SiteReader.RStripSlash | agents/tools/site_reader.py:167 | a prefix without a trailing '/', dropping only slashes |
| SiteReader.FirstSegmentsPrefix | agents/tools/site_reader.py:165-167 | the first pieces rejoined are a prefix of the text |
| SiteReader.FirstSegmentsSlashes | agents/tools/site_reader.py:165-167 | n pieces rejoined hold fewer than n slashes |
| SiteReader.BaseUrlFacts | agents/tools/site_reader.py:165-167 | the base URL is a prefix of the URL with at most two slashes |
| SiteReader.LinksShape | agents/tools/site_reader.py:125-132 | every kept link is absolute on the page's host, or lies under its scheme and host |
| SiteReader.LinksKeep | agents/tools/site_reader.py:125-132 | when the scan succeeds, the page URL has a host if any link is absolute; every absolute link containing that host and every root-relative link, made absolute, is kept |
| SiteReader.ExtractLinks | agents/tools/site_reader.py:125-132 | the anchor loop computes the links |
| SiteReader.PrefixError | agents/tools/site_reader.py:128 | a host lookup that fails on one anchor fails the page |
| SiteReader.WordAt | agents/tools/site_reader.py:145 | a word is a maximal run of non-space characters |
| SiteReader.Words | agents/tools/site_reader.py:145 | the words are non-empty and hold no whitespace |
| SiteReader.WordAtNonSpace | agents/tools/site_reader.py:145 | the first word starts the text's non-space characters |
| SiteReader.WordsCover | agents/tools/site_reader.py:145 | the words together are the text without its whitespace |
| SiteReader.WordsOfSpace | agents/tools/site_reader.py:145 | whitespace alone counts no words |
| SiteReader.WordsOfWord | agents/tools/site_reader.py:145 | text without whitespace counts one word |
| SiteReader.PageOfFacts | agents/tools/site_reader.py:134-154 | content at most 5000 characters; at most 50 links, without duplicates, each from an anchor, and all of them when there are no more than 50 |
| SiteReader.ArticleCandidatesMembers | agents/tools/site_reader.py:403-411 | exactly the sitemap URLs that are on the site and not the homepage or a tag, category or page listing |
| SiteReader.SampleSize | agents/tools/site_reader.py:413-414 | min(max_articles, candidates) when there are candidates; negative is refused |
| SiteReader.FetchedPages | agents/tools/site_reader.py:415-420 | no more pages than sampled URLs |
| SiteReader.FetchSample | agents/tools/site_reader.py:415-420 | the loop keeps the pages that load, in order |
| SiteReader.PreviewFacts | agents/tools/site_reader.py:621-633 | no preview of an empty file; front matter with at most 500 body characters when the text splits into three parts on "---"; otherwise at most its first 1500 characters |
| SiteReader.Previews | agents/tools/site_reader.py:618-633 | no more previews than paths |
| SiteReader.SampleArticles | agents/tools/site_reader.py:618-633 | the loop previews at most the first three paths |
| AgentSettings.MergeSection | agents/config.py:71-73 | the setattr loop sets the existing attributes the file names and ignores the others |
| AgentSettings.FileSection | agents/config.py:70-88 | a section entry that is not a mapping fails; otherwise each attribute is the file's value, else its previous one |
| AgentSettings.FileMapping | agents/config.py:70-91 | the sections and schedule read from a mapping document |
| AgentSettings.DefaultsFromNothing | agents/config.py:16-58 | the defaults are what an empty file gives |
| AgentSettings.ApplyFile | agents/config.py:66-91 | no file gives the defaults; a document fails exactly when Python's membership test or item access would raise; otherwise the file's values |
| AgentSettings.GetEnv | agents/config.py:94-109 | the variable's value when it is set, else the current one |
| AgentSettings.Override | agents/config.py:94-108 | one attribute takes the variable's value; the others stay |
| AgentSettings.EnvLlm | agents/config.py:94-97 | the four LLM overrides |
| AgentSettings.EnvOllama | agents/config.py:100-102 | the three Ollama overrides |
| AgentSettings.EnvGitHub | agents/config.py:105-106 | the token and repository overrides |
| AgentSettings.EnvSite | agents/config.py:107-108 | the site URL and repository path overrides |
| AgentSettings.ApplyEnv | agents/config.py:93-109 | each section takes its variables; the schedule stays; the log level comes from LOG_LEVEL |
| AgentSettings.LayeredSection | agents/config.py:61-111 | a section read from the file and then the environment holds the layered values |
| AgentSettings.LoadConfig | agents/config.py:61-111 | every attribute is environment over file over default; the schedule comes from the file only, the log level from the environment only |
| AgentSettings.LayeredPrecedence | agents/config.py:61-111 | a set variable wins; otherwise a value in the file; otherwise the default |
| AgentSettings.CreateLlm | agents/config.py:114-156 | admin always gets Ollama's admin model; otherwise OpenRouter exactly when the provider is "openrouter"; user gets the user model, other roles the coder model |
| AgentSettings.AdminIgnoresProvider | agents/config.py:127-134 | the admin model does not depend on the provider |
| AgentSettings.ProviderVariableDecides | agents/config.py:94-156 | with LLM_PROVIDER set to anything but "openrouter", no role gets OpenRouter, whatever the file says |

## Left out

- HTTP transport, SQLite, git subprocesses, the language models and the clock are not modelled. They enter as parameters: answer functions, command oracles and the value `now`.
- Printing, logging and `time.Sleep` in the Go code are not modelled. The agents' sleeps are recorded as a list of delays instead.
- The store is keyed by source URL, which is unique in the articles table. `UpdateArticle` matches rows by id. The rows it updates were read from the store and carry their own id, so both keys pick the same row.
- The limit arguments of `Translate` and `Publish` are not modelled. The rows the store queries return are inputs.
- internal/service/service.go: `Run`, `Rescrape` and `Articles` are not part of this model. `Pull` and `Push` only call `GitPull` and `GitPush`, which are modelled in `HugoPub`.
- `GenerateIndex` (internal/formatter/markdown.go:142-180) is not part of this model.
- Formatter.Format: the document escapes the title with the corrected escaping of the finding below (`EscapeYamlQuoted`, which also doubles backslashes), not with the quote-only replacement at internal/formatter/markdown.go:28. The two agree on every title without a backslash (`EscapersAgreeWithoutBackslash`). So `FrontMatter`, `Markdown` and every publisher that writes the document (`GitHubPub.TreeFiles`, `GitHubPub.PublishMultiple`, `GitHubPub.Publish`, `HugoPub.WriteArticle`, `HugoPub.Publish`) differ from the code only for titles that contain a backslash.
- Formatter.FrontMatterOpensWithTitle: states the title line over the corrected escaping. For titles without a backslash, `MarkdownOpensWithTitle` also states it over the escaping as written.
- Formatter.GetFilePath: joins the base directory and `posts/YYYY/MM/<slug>.md` with one '/'. It does not apply the lexical cleaning of `filepath.Join`, which collapses repeated or trailing slashes and resolves `.` and `..`. The two agree for a clean base directory. A base of `content/` gives `content//posts/…` here, where the code gives `content/posts/…`.
- Formatter.GetFilePathComponents: inherits that gap. For an unclean base directory, the components are those of the uncleaned join.
- HugoPub.JoinPath: joins like `filepath.Join` without cleaning. The model assumes a clean base directory and a slug without '/'.
- HugoPub.SafeRemoveAll: the absolute path and working directory are inputs, and `filepath.Clean` of the working directory is taken as the identity.
- HugoPub.GitPull: the two `os.Stat` checks are boolean inputs.
- HugoPub.SafeRemoveAll: refuses with the intended guard `ContainsCwd` of the Findings row, not with the guard as written (`RefusesRemoval`); the two differ only for a target ending in '/', which for a cleaned absolute path is the root, so the model does not promise the source's removal of "/" from a working directory below it.
- HugoPub.Removal: uses `ContainsCwd` in the same way as SafeRemoveAll, differing from the source only for the root target.
- HugoPub.GitPull: its removal step uses `ContainsCwd` through SafeRemoveAll, differing from the source only for the root target.
- StrUtil.ToLower lower-cases ASCII and basic Cyrillic only; other scripts keep their case.
- Rss.ItemToArticle: gofeed parsing and gosimple/slug are inputs. Slug bytes are counted as characters because that slug is ASCII. One `now` is used for both the fetch time and the fallback publication time, where the code reads the clock twice.
- Scraper.ScrapeArticle: the HTTP response, the regular expression that finds JSON-LD blocks, `encoding/json` and the goquery HTML fallback are inputs. A failed scrape leaves the article unchanged.
- GitHubPub: every REST exchange is an oracle answering with a failure, an unparsable body or a SHA. base64 and JSON encoding of the request bodies are not modelled.
- AdminAgent: the GitHub API, `json.loads`, the language model (`generate_changes`), PR creation, `fetch_repo_tree`, `run_pipeline` and `main` are not part of this model. A missing `body` key of a discussion is not modelled; a None body is.
- UserAgent: `create_user_agent`, message logging and `time.monotonic` are not part of this model.
- Discussions.GraphqlQuery: the message of httpx's `HTTPStatusError` (reason phrase, URL, redirect location) is abstracted as "HTTP status " followed by the code; the 2xx rule itself is modelled.
- Discussions: `get_discussion_comments` is not part of this model. The list of available category names is printed with plain single quotes, without Python's escaping of quotes inside names.
- SiteReader: `list(set(links))` has no defined order. The model keeps first occurrences, so which 50 links survive the cap follows that order.
- SiteReader: `random.sample` is an input, as is the directory walk that chooses article paths (agents/tools/site_reader.py:601-616).
- SiteReader: sitemap XML, robots.txt, header analysis, structured data, the text tools built on `fetch_page`, and the floating-point PageSpeed scores are not part of this model.
- AgentSettings.ApplyFile: `hasattr` also accepts attributes the dataclasses inherit, such as dunder names. The model accepts only the declared fields. A YAML document is a value given as an input.

## Findings

| source | as written | input that shows it | evidently intended | confidence | as-written member | corrected member |
|---|---|---|---|---|---|---|
| internal/formatter/markdown.go:28 | the title is escaped for a YAML double-quoted scalar by replacing only `"` with `\"` | the title `a\` becomes the line `title: "a\"`, whose final quote is escaped, so the scalar never closes | escape `\` as `\\` as well as `"`, so the title reads back unchanged | not executed | Formatter.EscapeQuotesBreaksOnBackslash | Formatter.EscapeYamlRoundTrip |
| internal/publisher/hugo.go:213 | the target is refused when it equals the working directory or when the working directory starts with the target plus one '/' | the target "/" with the working directory "/home": the test asks for the prefix "//", so the root is removed although it contains the working directory, against the comment at hugo.go:199-200 | add the separator only when the target does not already end in one, so every working directory at or below the target is refused | not executed | HugoPub.RootTargetNotRefused | HugoPub.ContainsCwdFacts |
