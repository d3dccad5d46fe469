/** The deterministic logic of the admin agent (agents/admin_agent.py): the
    "Implement" label filter, the already-processed check, the choice of
    target repository, the assembly of the source context, the repair and
    parsing of the model's JSON answer, and the bounded retry of the
    generation. The GitHub API, the language model and json.loads are
    inputs. */
module AdminAgent {
  import opened StrUtil

  const BotMarker := "<!-- admin-agent-pr -->"
  const MaxRetries := 2
  const RetryDelaySeconds := 20

  /** A discussion as the GraphQL query returns it; a missing body or
      comment body is None. */
  datatype Discussion = Discussion(
    number: int,
    title: string,
    body: Option<string>,
    labels: seq<string>,
    comments: seq<Option<string>>)

  // ---------------------------------------------------------------------
  // The label filter of fetch_implement_discussions
  // ---------------------------------------------------------------------

  /** Some label, lower-cased, is "implement". */
  predicate HasImplementLabel(d: Discussion)
  {
    exists k :: 0 <= k < |d.labels| && ToLower(d.labels[k]) == "implement"
  }

  /** The discussions with the label, in their order. */
  function ImplementOnly(ds: seq<Discussion>): seq<Discussion>
  {
    if |ds| == 0 then []
    else if HasImplementLabel(ds[|ds| - 1]) then ImplementOnly(ds[..|ds| - 1]) + [ds[|ds| - 1]]
    else ImplementOnly(ds[..|ds| - 1])
  }

  /** Exactly the labelled discussions are kept. */
  lemma {:induction false} ImplementOnlyMembers(ds: seq<Discussion>)
    ensures var r := ImplementOnly(ds);
      && |r| <= |ds|
      && (forall d :: d in r <==> d in ds && HasImplementLabel(d))
    decreases |ds|
  {
    if |ds| > 0 {
      ImplementOnlyMembers(ds[..|ds| - 1]);
      SnocSplit(ds);
    }
  }

  /** The filtering loop. */
  method FilterImplement(ds: seq<Discussion>) returns (implement: seq<Discussion>)
    ensures implement == ImplementOnly(ds)
  {
    implement := [];
    var i := 0;
    while i < |ds|
      invariant 0 <= i <= |ds|
      invariant implement == ImplementOnly(ds[..i])
    {
      PrefixStep(ds, i);
      var labelled := false;
      var j := 0;
      while j < |ds[i].labels|
        invariant 0 <= j <= |ds[i].labels|
        invariant labelled <==> exists k :: 0 <= k < j && ToLower(ds[i].labels[k]) == "implement"
      {
        if ToLower(ds[i].labels[j]) == "implement" {
          labelled := true;
        }
        j := j + 1;
      }
      if labelled {
        implement := implement + [ds[i]];
      }
      i := i + 1;
    }
    WholePrefix(ds);
  }

  // ---------------------------------------------------------------------
  // Already processed
  // ---------------------------------------------------------------------

  function CommentText(body: Option<string>): string
  {
    if body.Some? then body.value else ""
  }

  /** is_already_processed: some comment carries the bot marker. */
  predicate IsAlreadyProcessed(comments: seq<Option<string>>)
    decreases |comments|
  {
    |comments| > 0 && (Contains(CommentText(comments[0]), BotMarker) || IsAlreadyProcessed(comments[1..]))
  }

  lemma {:induction false} ProcessedIff(comments: seq<Option<string>>)
    ensures IsAlreadyProcessed(comments)
            <==> exists k :: 0 <= k < |comments| && Contains(CommentText(comments[k]), BotMarker)
    decreases |comments|
  {
    if |comments| > 0 {
      ProcessedIff(comments[1..]);
      if IsAlreadyProcessed(comments[1..]) {
        var k :| 0 <= k < |comments[1..]| && Contains(CommentText(comments[1..][k]), BotMarker);
        assert comments[k + 1] == comments[1..][k];
      }
      if exists k :: 0 <= k < |comments| && Contains(CommentText(comments[k]), BotMarker) {
        var k :| 0 <= k < |comments| && Contains(CommentText(comments[k]), BotMarker);
        if k > 0 {
          assert comments[1..][k - 1] == comments[k];
        }
      }
    }
  }

  /** The comment comment_on_discussion posts: it opens with the marker. */
  function PrComment(prUrl: string): (r: string)
    ensures BotMarker <= r
  {
    BotMarker + "\n" + "**PR created:** " + prUrl + "\n\n"
    + "This PR was automatically generated by the admin-agent based on this discussion.\n\n"
    + "_Please review the changes before merging._"
  }

  /** Once the bot's comment is posted, the discussion counts as processed. */
  lemma CommentMarksProcessed(comments: seq<Option<string>>, prUrl: string)
    ensures IsAlreadyProcessed(comments + [Some(PrComment(prUrl))])
  {
    var all := comments + [Some(PrComment(prUrl))];
    var c := PrComment(prUrl);
    assert c[..|BotMarker|] == BotMarker;
    ContainsWitness(c, BotMarker, 0);
    assert all[|comments|] == Some(c);
    ProcessedIff(all);
  }

  // ---------------------------------------------------------------------
  // Target repository
  // ---------------------------------------------------------------------

  const MotoNewsRepo := "eblooo/moto-news"
  const BlogRepo := "KlimDos/my-blog"

  const MotoNewsKeywords: seq<string> := [
    "aggregat", "fetcher", "rss", "scraper", "translator", "перевод",
    "markdown", "formatter", "sqlite", "publisher", "agent", "pipeline",
    "go ", "golang", "internal/"]

  /** A body formatted into an f-string: Python prints a null body as "None". */
  function BodyText(body: Option<string>): string
  {
    if body.Some? then body.value else "None"
  }

  /** The lower-cased "title body" text the agent matches keywords in. */
  function DiscussionText(title: string, body: Option<string>): string
  {
    ToLower(title + " " + BodyText(body))
  }

  predicate AnyKeyword(text: string, kws: seq<string>)
    decreases |kws|
  {
    |kws| > 0 && (Contains(text, kws[0]) || AnyKeyword(text, kws[1..]))
  }

  lemma {:induction false} AnyKeywordIff(text: string, kws: seq<string>)
    ensures AnyKeyword(text, kws) <==> exists k :: 0 <= k < |kws| && Contains(text, kws[k])
    decreases |kws|
  {
    if |kws| > 0 {
      AnyKeywordIff(text, kws[1..]);
      if exists k :: 0 <= k < |kws| && Contains(text, kws[k]) {
        var k :| 0 <= k < |kws| && Contains(text, kws[k]);
        if k > 0 {
          assert kws[1..][k - 1] == kws[k];
        }
      }
    }
  }

  /** determine_target_repo: the aggregator's repository when the text
      names one of its keywords, the blog otherwise. */
  function TargetRepo(title: string, body: Option<string>): (r: string)
    ensures r == MotoNewsRepo || r == BlogRepo
  {
    if AnyKeyword(DiscussionText(title, body), MotoNewsKeywords) then MotoNewsRepo else BlogRepo
  }

  lemma TargetRepoIff(title: string, body: Option<string>)
    ensures TargetRepo(title, body) == MotoNewsRepo
            <==> exists k :: 0 <= k < |MotoNewsKeywords| && Contains(DiscussionText(title, body), MotoNewsKeywords[k])
  {
    AnyKeywordIff(DiscussionText(title, body), MotoNewsKeywords);
  }

  // ---------------------------------------------------------------------
  // Source context
  // ---------------------------------------------------------------------

  const ContextCap := 30000
  const TruncationMarker := "\n\n[... context truncated ...]"

  const KeyFiles: seq<string> := [
    "config.yaml", "config.toml", "config.yml",
    "hugo.yaml", "hugo.toml",
    "go.mod",
    "agents/agents.yaml",
    "agents/requirements.txt",
    "Dockerfile",
    "agents/Dockerfile"]

  /** The keyword table, in its insertion order. */
  const KeywordPaths: seq<(string, seq<string>)> := [
    ("seo", ["layouts/partials/head.html", "layouts/partials/seo.html", "layouts/_default/baseof.html"]),
    ("robot", ["static/robots.txt", "layouts/robots.txt"]),
    ("sitemap", ["layouts/sitemap.xml", "config.yaml"]),
    ("навигац", ["layouts/partials/header.html", "layouts/partials/nav.html"]),
    ("rss", ["layouts/_default/rss.xml", "layouts/index.xml"]),
    ("изображен", ["layouts/partials/post_meta.html", "internal/formatter/markdown.go"]),
    ("перевод", ["internal/translator/ollama.go", "internal/translator/deepl.go"]),
    ("категори", ["internal/formatter/markdown.go"]),
    ("формат", ["internal/formatter/markdown.go"]),
    ("fetch", ["internal/fetcher/rss.go", "internal/fetcher/scraper.go"]),
    ("publish", ["internal/publisher/hugo.go", "internal/publisher/github.go"])]

  /** The file tree section: at most 200 paths, then how many were left out. */
  function TreePart(repo: string, tree: Result<seq<string>>): string
  {
    match tree
    case Err(e) => "=== File tree unavailable: " + e + " ==="
    case Ok(paths) =>
      var shown := Join(Take(paths, 200), "\n");
      var more := if |paths| > 200 then "\n... and " + NatToString(|paths| - 200) + " more files" else "";
      "=== Repository file tree (" + repo + ") ===\n" + shown + more
  }

  /** The cap on the joined context. */
  function CapContext(full: string): (r: string)
    ensures |r| <= ContextCap + |TruncationMarker|
    ensures |full| <= ContextCap ==> r == full
    ensures |full| > ContextCap ==>
      |r| == ContextCap + |TruncationMarker| && r[..ContextCap] == full[..ContextCap] && r[ContextCap..] == TruncationMarker
  {
    if |full| > ContextCap then full[..ContextCap] + TruncationMarker else full
  }

  function KeyFilePart(path: string, content: string): string
  {
    "=== " + path + " ===\n" + Take(content, 3000)
  }

  /** The paths that can be fetched, in order. */
  function Readable(paths: seq<string>, getFile: string -> Result<string>): (r: seq<string>)
    ensures |r| <= |paths|
    ensures forall p :: p in r <==> p in paths && getFile(p).Ok?
    decreases |paths|
  {
    if |paths| == 0 then []
    else
      var init, last := paths[..|paths| - 1], paths[|paths| - 1];
      assert paths == init + [last];
      Readable(init, getFile) + (if getFile(last).Ok? then [last] else [])
  }

  /** The section of each path that can be fetched, in order. */
  function KeySections(paths: seq<string>, getFile: string -> Result<string>): (r: seq<string>)
    ensures |r| == |Readable(paths, getFile)|
    ensures forall k :: 0 <= k < |r| ==>
      getFile(Readable(paths, getFile)[k]).Ok?
      && r[k] == KeyFilePart(Readable(paths, getFile)[k], getFile(Readable(paths, getFile)[k]).value)
    decreases |paths|
  {
    if |paths| == 0 then []
    else
      var last := paths[|paths| - 1];
      var c := getFile(last);
      KeySections(paths[..|paths| - 1], getFile) + (if c.Ok? then [KeyFilePart(last, c.value)] else [])
  }

  /** The sections of the key files that could be fetched, each cut to 3000
      characters, in the list's order, with the paths they come from:
      every key file that can be fetched, and only those. */
  method KeyFileParts(keyFiles: seq<string>, getFile: string -> Result<string>) returns (parts: seq<string>, included: seq<string>)
    ensures included == Readable(keyFiles, getFile) && parts == KeySections(keyFiles, getFile)
    ensures |parts| == |included| <= |keyFiles|
    ensures forall k :: 0 <= k < |included| ==>
      included[k] in keyFiles && getFile(included[k]).Ok? && parts[k] == KeyFilePart(included[k], getFile(included[k]).value)
    ensures forall p :: p in keyFiles && getFile(p).Ok? ==> p in included
  {
    parts, included := [], [];
    var i := 0;
    while i < |keyFiles|
      invariant 0 <= i <= |keyFiles|
      invariant included == Readable(keyFiles[..i], getFile)
      invariant parts == KeySections(keyFiles[..i], getFile)
    {
      assert keyFiles[..i + 1][..i] == keyFiles[..i];
      var content := getFile(keyFiles[i]);
      if content.Ok? {
        parts := parts + [KeyFilePart(keyFiles[i], content.value)];
        included := included + [keyFiles[i]];
      }
      i := i + 1;
    }
    assert keyFiles[..i] == keyFiles;
  }

  /** A path belongs to a keyword that the text names. */
  predicate Matched(table: seq<(string, seq<string>)>, text: string, path: string)
  {
    exists k :: 0 <= k < |table| && Contains(text, table[k].0) && path in table[k].1
  }

  function KeywordPart(path: string, keyword: string, content: string): string
  {
    "=== " + path + " (keyword match: '" + keyword + "') ===\n" + Take(content, 4000)
  }

  /** The state of the keyword loop: the sections, the paths fetched (the
      set `fetched_extra`, in the order of addition) and every request. */
  datatype KeywordScan = KeywordScan(parts: seq<string>, fetched: seq<string>, requested: seq<string>)

  /** One path of a named keyword: skipped when already fetched, else
      requested, and added with its section when it can be fetched. */
  function KeywordStep(st: KeywordScan, keyword: string, path: string, getFile: string -> Result<string>): KeywordScan
  {
    if path in st.fetched then st
    else
      var c := getFile(path);
      if c.Ok? then KeywordScan(st.parts + [KeywordPart(path, keyword, c.value)], st.fetched + [path], st.requested + [path])
      else st.(requested := st.requested + [path])
  }

  /** The paths of one named keyword, in order. */
  function KeywordPathsScan(st: KeywordScan, keyword: string, paths: seq<string>, getFile: string -> Result<string>): KeywordScan
    decreases |paths|
  {
    if |paths| == 0 then st
    else KeywordStep(KeywordPathsScan(st, keyword, paths[..|paths| - 1], getFile), keyword, paths[|paths| - 1], getFile)
  }

  /** The keyword loop over the first entries of the table. */
  function KeywordTableScan(text: string, table: seq<(string, seq<string>)>, getFile: string -> Result<string>): KeywordScan
    decreases |table|
  {
    if |table| == 0 then KeywordScan([], [], [])
    else
      var prev := KeywordTableScan(text, table[..|table| - 1], getFile);
      var (keyword, paths) := table[|table| - 1];
      if Contains(text, keyword) then KeywordPathsScan(prev, keyword, paths, getFile) else prev
  }

  /** What the keyword loop keeps true of its state: a section per fetched
      path, no path fetched twice, the fetched paths are exactly the
      requested ones that can be fetched, and a path is requested again
      only after it could not be fetched. */
  predicate ScanInv(st: KeywordScan, getFile: string -> Result<string>)
  {
    && |st.parts| == |st.fetched|
    && NoDup(st.fetched)
    && (forall p :: p in st.fetched ==> p in st.requested && getFile(p).Ok?)
    && (forall p :: p in st.requested && getFile(p).Ok? ==> p in st.fetched)
    && (forall a, b :: 0 <= a < b < |st.requested| && st.requested[a] == st.requested[b] ==> getFile(st.requested[a]).Err?)
  }

  /** A section holding the path, the keyword and the file's first 4000
      characters. */
  predicate SectionOf(part: string, path: string, keyword: string, getFile: string -> Result<string>)
  {
    getFile(path).Ok? && part == KeywordPart(path, keyword, getFile(path).value)
  }

  lemma StepFacts(st: KeywordScan, keyword: string, path: string, getFile: string -> Result<string>)
    requires ScanInv(st, getFile)
    ensures var r := KeywordStep(st, keyword, path, getFile);
      && ScanInv(r, getFile)
      && (r.requested == st.requested || r.requested == st.requested + [path])
      && ((r.parts == st.parts && r.fetched == st.fetched)
          || (r.parts == st.parts + [KeywordPart(path, keyword, getFile(path).value)]
              && r.fetched == st.fetched + [path] && getFile(path).Ok?))
      && (getFile(path).Ok? ==> path in r.fetched)
  {
    var r := KeywordStep(st, keyword, path, getFile);
    if path !in st.fetched {
      forall a, b | 0 <= a < b < |r.requested| && r.requested[a] == r.requested[b]
        ensures getFile(r.requested[a]).Err?
      {
        if b == |st.requested| {
          assert st.requested[a] == path;
        }
      }
    }
  }

  /** The paths of one named keyword extend the state: ScanInv still
      holds and what was there stays. */
  lemma {:induction false} PathsInv(st: KeywordScan, keyword: string, paths: seq<string>, getFile: string -> Result<string>)
    requires ScanInv(st, getFile)
    ensures var r := KeywordPathsScan(st, keyword, paths, getFile);
      && ScanInv(r, getFile)
      && st.parts <= r.parts && st.fetched <= r.fetched && st.requested <= r.requested
    decreases |paths|
  {
    if |paths| > 0 {
      var init := paths[..|paths| - 1];
      PathsInv(st, keyword, init, getFile);
      StepFacts(KeywordPathsScan(st, keyword, init, getFile), keyword, paths[|paths| - 1], getFile);
    }
  }

  /** Every request the paths of one keyword add is one of those paths. */
  lemma {:induction false} PathsRequests(st: KeywordScan, keyword: string, paths: seq<string>, getFile: string -> Result<string>)
    requires ScanInv(st, getFile)
    ensures var r := KeywordPathsScan(st, keyword, paths, getFile);
      forall m :: |st.requested| <= m < |r.requested| ==> r.requested[m] in paths
    decreases |paths|
  {
    if |paths| > 0 {
      var init := paths[..|paths| - 1];
      PathsRequests(st, keyword, init, getFile);
      PathsInv(st, keyword, init, getFile);
      StepFacts(KeywordPathsScan(st, keyword, init, getFile), keyword, paths[|paths| - 1], getFile);
      assert forall q :: q in init ==> q in paths;
    }
  }

  /** Every one of the paths that can be fetched ends up fetched. */
  lemma {:induction false} PathsComplete(st: KeywordScan, keyword: string, paths: seq<string>, getFile: string -> Result<string>)
    requires ScanInv(st, getFile)
    ensures var r := KeywordPathsScan(st, keyword, paths, getFile);
      forall p :: p in paths && getFile(p).Ok? ==> p in r.fetched
    decreases |paths|
  {
    if |paths| > 0 {
      var init := paths[..|paths| - 1];
      PathsComplete(st, keyword, init, getFile);
      PathsInv(st, keyword, init, getFile);
      var prev := KeywordPathsScan(st, keyword, init, getFile);
      StepFacts(prev, keyword, paths[|paths| - 1], getFile);
      assert paths == init + [paths[|paths| - 1]];
    }
  }

  /** Each section the paths of one keyword add belongs to one of those
      paths and to the keyword. */
  lemma {:induction false} PathsSections(st: KeywordScan, keyword: string, paths: seq<string>, getFile: string -> Result<string>)
    requires ScanInv(st, getFile)
    ensures var r := KeywordPathsScan(st, keyword, paths, getFile);
      forall k :: |st.parts| <= k < |r.parts| ==>
        k < |r.fetched| && r.fetched[k] in paths && SectionOf(r.parts[k], r.fetched[k], keyword, getFile)
    decreases |paths|
  {
    if |paths| > 0 {
      var init := paths[..|paths| - 1];
      PathsSections(st, keyword, init, getFile);
      PathsInv(st, keyword, init, getFile);
      StepFacts(KeywordPathsScan(st, keyword, init, getFile), keyword, paths[|paths| - 1], getFile);
      assert forall q :: q in init ==> q in paths;
    }
  }

  /** The keyword loop keeps ScanInv. */
  lemma {:induction false} TableInv(text: string, table: seq<(string, seq<string>)>, getFile: string -> Result<string>)
    ensures ScanInv(KeywordTableScan(text, table, getFile), getFile)
    decreases |table|
  {
    if |table| > 0 {
      var init := table[..|table| - 1];
      TableInv(text, init, getFile);
      var (keyword, paths) := table[|table| - 1];
      if Contains(text, keyword) {
        PathsInv(KeywordTableScan(text, init, getFile), keyword, paths, getFile);
      }
    }
  }

  /** The keyword loop requests only paths of keywords the text names. */
  lemma {:induction false} TableRequests(text: string, table: seq<(string, seq<string>)>, getFile: string -> Result<string>)
    ensures forall p :: p in KeywordTableScan(text, table, getFile).requested ==> Matched(table, text, p)
    decreases |table|
  {
    if |table| > 0 {
      var init, last := table[..|table| - 1], |table| - 1;
      TableRequests(text, init, getFile);
      TableInv(text, init, getFile);
      var prev := KeywordTableScan(text, init, getFile);
      var r := KeywordTableScan(text, table, getFile);
      forall p | p in prev.requested ensures Matched(table, text, p) {
        var n :| 0 <= n < |init| && Contains(text, init[n].0) && p in init[n].1;
        assert table[n] == init[n];
      }
      if Contains(text, table[last].0) {
        PathsInv(prev, table[last].0, table[last].1, getFile);
        PathsRequests(prev, table[last].0, table[last].1, getFile);
        forall p | p in r.requested ensures Matched(table, text, p) {
          if p !in prev.requested {
            var m :| 0 <= m < |r.requested| && r.requested[m] == p;
            PrefixElements(r.requested, prev.requested);
            assert p in table[last].1;
          }
        }
      }
    }
  }

  /** Every path of a keyword the text names that can be fetched is
      fetched. */
  ghost predicate Complete(r: KeywordScan, table: seq<(string, seq<string>)>, text: string, getFile: string -> Result<string>)
  {
    forall p :: Matched(table, text, p) && getFile(p).Ok? ==> p in r.fetched
  }

  /** Each section belongs to its path and to a keyword the text names
      that lists the path. */
  predicate Tied(r: KeywordScan, table: seq<(string, seq<string>)>, text: string, getFile: string -> Result<string>)
  {
    && |r.parts| <= |r.fetched|
    && forall k :: 0 <= k < |r.parts| ==> SectionFromTable(r.parts[k], r.fetched[k], table, text, getFile)
  }

  /** The section of a path listed under a keyword the text names. */
  predicate SectionFromTable(part: string, path: string, table: seq<(string, seq<string>)>, text: string,
                             getFile: string -> Result<string>)
  {
    exists n :: 0 <= n < |table| && Contains(text, table[n].0) && path in table[n].1 && SectionOf(part, path, table[n].0, getFile)
  }

  /** Completeness carries over one more table entry. */
  lemma CompleteExtend(prev: KeywordScan, r: KeywordScan, table: seq<(string, seq<string>)>, text: string,
                       getFile: string -> Result<string>)
    requires |table| > 0
    requires Complete(prev, table[..|table| - 1], text, getFile)
    requires prev.fetched <= r.fetched
    requires Contains(text, table[|table| - 1].0) ==>
               forall p :: p in table[|table| - 1].1 && getFile(p).Ok? ==> p in r.fetched
    ensures Complete(r, table, text, getFile)
  {
    var init, last := table[..|table| - 1], |table| - 1;
    PrefixElements(r.fetched, prev.fetched);
    forall p | Matched(table, text, p) && getFile(p).Ok? ensures p in r.fetched {
      var n :| 0 <= n < |table| && Contains(text, table[n].0) && p in table[n].1;
      if n < last {
        assert init[n] == table[n];
        assert Matched(init, text, p);
        var i :| 0 <= i < |prev.fetched| && prev.fetched[i] == p;
        assert r.fetched[i] == p;
      }
    }
  }

  /** The sections stay tied over one more table entry. */
  lemma TiedExtend(prev: KeywordScan, r: KeywordScan, table: seq<(string, seq<string>)>, text: string,
                   getFile: string -> Result<string>)
    requires |table| > 0
    requires Tied(prev, table[..|table| - 1], text, getFile)
    requires prev.parts <= r.parts && prev.fetched <= r.fetched && |r.parts| == |r.fetched|
    requires |prev.parts| < |r.parts| ==> Contains(text, table[|table| - 1].0)
    requires forall k :: |prev.parts| <= k < |r.parts| ==>
               r.fetched[k] in table[|table| - 1].1 && SectionOf(r.parts[k], r.fetched[k], table[|table| - 1].0, getFile)
    ensures Tied(r, table, text, getFile)
  {
    var init, last := table[..|table| - 1], |table| - 1;
    PrefixElements(r.fetched, prev.fetched);
    PrefixElements(r.parts, prev.parts);
    forall k | 0 <= k < |r.parts|
      ensures SectionFromTable(r.parts[k], r.fetched[k], table, text, getFile)
    {
      if k < |prev.parts| {
        assert SectionFromTable(prev.parts[k], prev.fetched[k], init, text, getFile);
        var n :| 0 <= n < |init| && Contains(text, init[n].0) && prev.fetched[k] in init[n].1
                  && SectionOf(prev.parts[k], prev.fetched[k], init[n].0, getFile);
        assert table[n] == init[n];
        assert r.parts[k] == prev.parts[k] && r.fetched[k] == prev.fetched[k];
        assert Contains(text, table[n].0) && r.fetched[k] in table[n].1 && SectionOf(r.parts[k], r.fetched[k], table[n].0, getFile);
      } else {
        assert Contains(text, table[last].0) && r.fetched[k] in table[last].1;
      }
    }
  }

  lemma {:induction false} TableComplete(text: string, table: seq<(string, seq<string>)>, getFile: string -> Result<string>)
    ensures Complete(KeywordTableScan(text, table, getFile), table, text, getFile)
    decreases |table|
  {
    if |table| > 0 {
      var init := table[..|table| - 1];
      TableComplete(text, init, getFile);
      TableInv(text, init, getFile);
      var prev := KeywordTableScan(text, init, getFile);
      var (keyword, paths) := table[|table| - 1];
      if Contains(text, keyword) {
        PathsInv(prev, keyword, paths, getFile);
        PathsComplete(prev, keyword, paths, getFile);
      }
      CompleteExtend(prev, KeywordTableScan(text, table, getFile), table, text, getFile);
    }
  }

  lemma {:induction false} TableSections(text: string, table: seq<(string, seq<string>)>, getFile: string -> Result<string>)
    ensures Tied(KeywordTableScan(text, table, getFile), table, text, getFile)
    decreases |table|
  {
    if |table| > 0 {
      var init := table[..|table| - 1];
      TableSections(text, init, getFile);
      TableInv(text, init, getFile);
      TableInv(text, table, getFile);
      var prev := KeywordTableScan(text, init, getFile);
      var (keyword, paths) := table[|table| - 1];
      if Contains(text, keyword) {
        PathsInv(prev, keyword, paths, getFile);
        PathsSections(prev, keyword, paths, getFile);
      }
      TiedExtend(prev, KeywordTableScan(text, table, getFile), table, text, getFile);
    }
  }

  /** The keyword-matched files: for each keyword the text names, in the
      table's order, each of its paths not yet included is requested, and
      included when it can be fetched. No path is included twice, a path is
      requested again only after its earlier requests failed, only paths of
      named keywords are requested, every path of a named keyword that can
      be fetched is included, and each section holds its path, a keyword
      the text names that lists the path, and the file's first 4000
      characters. */
  method KeywordParts(text: string, table: seq<(string, seq<string>)>, getFile: string -> Result<string>)
    returns (parts: seq<string>, fetched: seq<string>, requested: seq<string>)
    ensures KeywordScan(parts, fetched, requested) == KeywordTableScan(text, table, getFile)
    ensures |parts| == |fetched|
    ensures NoDup(fetched)
    ensures forall p :: p in fetched ==> p in requested && getFile(p).Ok?
    ensures forall p :: p in requested ==> Matched(table, text, p)
    ensures forall i, j :: 0 <= i < j < |requested| && requested[i] == requested[j] ==> getFile(requested[i]).Err?
    ensures forall p :: Matched(table, text, p) && getFile(p).Ok? ==> p in fetched
    ensures forall k :: 0 <= k < |parts| ==> SectionFromTable(parts[k], fetched[k], table, text, getFile)
  {
    parts, fetched, requested := [], [], [];
    var i := 0;
    while i < |table|
      invariant 0 <= i <= |table|
      invariant KeywordScan(parts, fetched, requested) == KeywordTableScan(text, table[..i], getFile)
    {
      assert table[..i + 1][..i] == table[..i];
      var (keyword, paths) := table[i];
      if Contains(text, keyword) {
        var start := KeywordScan(parts, fetched, requested);
        var j := 0;
        while j < |paths|
          invariant 0 <= j <= |paths|
          invariant KeywordScan(parts, fetched, requested) == KeywordPathsScan(start, keyword, paths[..j], getFile)
        {
          assert paths[..j + 1][..j] == paths[..j];
          var fpath := paths[j];
          if fpath !in fetched {
            requested := requested + [fpath];
            var content := getFile(fpath);
            if content.Ok? {
              parts := parts + [KeywordPart(fpath, keyword, content.value)];
              fetched := fetched + [fpath];
            }
          }
          j := j + 1;
        }
        assert paths[..j] == paths;
      }
      i := i + 1;
    }
    assert table[..i] == table;
    TableInv(text, table, getFile);
    TableRequests(text, table, getFile);
    TableComplete(text, table, getFile);
    TableSections(text, table, getFile);
  }

  /** fetch_context_for_discussion: the tree section, the key files and the
      keyword files, joined by blank lines and capped. */
  method FetchContext(repo: string, title: string, body: Option<string>,
                      tree: Result<seq<string>>, getFile: string -> Result<string>)
    returns (context: string)
    ensures context == CapContext(Join([TreePart(repo, tree)] + KeySections(KeyFiles, getFile)
                                       + KeywordTableScan(DiscussionText(title, body), KeywordPaths, getFile).parts, "\n\n"))
    ensures |context| <= ContextCap + |TruncationMarker|
    ensures TreePart(repo, tree) <= context || |context| > ContextCap
  {
    var keyParts, _ := KeyFileParts(KeyFiles, getFile);
    var kwParts, _, _ := KeywordParts(DiscussionText(title, body), KeywordPaths, getFile);
    var all := [TreePart(repo, tree)] + keyParts + kwParts;
    var full := Join(all, "\n\n");
    JoinStartsWithFirst(all, "\n\n");
    context := CapContext(full);
  }

  lemma JoinStartsWithFirst(parts: seq<string>, sep: string)
    requires |parts| > 0
    ensures parts[0] <= Join(parts, sep)
  {
  }

  // ---------------------------------------------------------------------
  // Repairing the model's JSON
  // ---------------------------------------------------------------------

  /** The scanner state of _sanitize_json_string: inside a string literal,
      and whether the next character is escaped. */
  datatype Scan = Scan(inString: bool, escapeNext: bool)

  const Start := Scan(false, false)

  function Next(st: Scan, c: char): Scan
  {
    if st.escapeNext then Scan(st.inString, false)
    else if c == '\\' then Scan(st.inString, true)
    else if c == '"' then Scan(!st.inString, false)
    else st
  }

  /** What the sanitizer writes for one character. */
  function Emit(st: Scan, c: char): string
  {
    if st.escapeNext || c == '\\' || c == '"' then [c]
    else if st.inString && c == '\n' then "\\n"
    else if st.inString && c == '\t' then "\\t"
    else [c]
  }

  /** The sanitizer over a text from a state: the output and the final state. */
  function Run(st: Scan, s: string): (string, Scan)
    decreases |s|
  {
    if |s| == 0 then ("", st)
    else
      var rest := Run(Next(st, s[0]), s[1..]);
      (Emit(st, s[0]) + rest.0, rest.1)
  }

  function Sanitize(s: string): string
  {
    Run(Start, s).0
  }

  /** _sanitize_json_string. */
  method SanitizeJsonString(jsonStr: string) returns (r: string)
    ensures r == Sanitize(jsonStr)
  {
    var result := "";
    var inString := false;
    var escapeNext := false;
    var i := 0;
    while i < |jsonStr|
      invariant 0 <= i <= |jsonStr|
      invariant Sanitize(jsonStr) == result + Run(Scan(inString, escapeNext), jsonStr[i..]).0
    {
      var ch := jsonStr[i];
      ghost var st := Scan(inString, escapeNext);
      ghost var tail := Run(Next(st, ch), jsonStr[i + 1..]).0;
      assert jsonStr[i..][1..] == jsonStr[i + 1..];
      assert Run(st, jsonStr[i..]).0 == Emit(st, ch) + tail;
      AppendAssoc(result, Emit(st, ch), tail);
      if escapeNext {
        result := result + [ch];
        escapeNext := false;
      } else if ch == '\\' {
        result := result + [ch];
        escapeNext := true;
      } else if ch == '"' {
        inString := !inString;
        result := result + [ch];
      } else if inString && ch == '\n' {
        result := result + "\\n";
      } else if inString && ch == '\t' {
        result := result + "\\t";
      } else {
        result := result + [ch];
      }
      i := i + 1;
    }
    r := result;
  }

  /** A text without raw newlines or tabs comes back unchanged. */
  lemma {:induction false} SanitizeIdentity(st: Scan, s: string)
    requires forall k :: 0 <= k < |s| ==> s[k] != '\n' && s[k] != '\t'
    ensures Run(st, s).0 == s
    decreases |s|
  {
    if |s| > 0 {
      SanitizeIdentity(Next(st, s[0]), s[1..]);
      assert s == [s[0]] + s[1..];
    }
  }

  /** Running over a concatenation runs over the second part from where the
      first part left the scanner. */
  lemma {:induction false} RunConcat(st: Scan, a: string, b: string)
    ensures Run(st, a + b).0 == Run(st, a).0 + Run(Run(st, a).1, b).0
    ensures Run(st, a + b).1 == Run(Run(st, a).1, b).1
    decreases |a|
  {
    if |a| > 0 {
      assert (a + b)[0] == a[0];
      assert (a + b)[1..] == a[1..] + b;
      assert Run(st, a + b) == (Emit(st, a[0]) + Run(Next(st, a[0]), a[1..] + b).0, Run(Next(st, a[0]), a[1..] + b).1);
      assert Run(st, a) == (Emit(st, a[0]) + Run(Next(st, a[0]), a[1..]).0, Run(Next(st, a[0]), a[1..]).1);
      RunConcat(Next(st, a[0]), a[1..], b);
      AppendAssoc(Emit(st, a[0]), Run(Next(st, a[0]), a[1..]).0, Run(Run(st, a).1, b).0);
    } else {
      assert a + b == b;
    }
  }

  /** What the sanitizer writes for a character scans like that character
      and is left alone by a second pass. */
  lemma EmitStable(st: Scan, c: char)
    ensures Run(st, Emit(st, c)) == (Emit(st, c), Next(st, c))
  {
    var e := Emit(st, c);
    if !st.escapeNext && c != '\\' && c != '"' && st.inString && (c == '\n' || c == '\t') {
      var s1 := Scan(st.inString, true);
      assert e == ['\\', e[1]] && e[1] != '\n' && e[1] != '\t';
      var x := e[1];
      assert st == Scan(st.inString, false);
      assert Next(s1, x) == st && Emit(s1, x) == [x];
      assert [x][1..] == "";
      assert Run(st, "") == ("", st);
      assert Run(s1, [x]) == ([x] + "", st);
      assert [x] + "" == [x];
      assert e[0] == '\\' && Next(st, e[0]) == s1 && Emit(st, e[0]) == ['\\'];
      assert e[1..] == [x];
      assert Run(st, e) == (['\\'] + [x], st);
      assert ['\\'] + [x] == e;
      assert Next(st, c) == st;
    } else {
      assert e == [c] && e[1..] == "";
      assert Run(Next(st, c), "") == ("", Next(st, c));
      assert Run(st, e) == (Emit(st, c) + "", Next(st, c));
      assert Emit(st, c) + "" == Emit(st, c);
    }
  }

  /** Sanitizing twice is sanitizing once, and the output leaves the
      scanner where the input did: no string literal is opened or closed
      by the repair. */
  lemma {:induction false} SanitizeIdempotent(st: Scan, s: string)
    ensures Run(st, Run(st, s).0) == Run(st, s)
    decreases |s|
  {
    if |s| > 0 {
      var e := Emit(st, s[0]);
      var st1 := Next(st, s[0]);
      SanitizeIdempotent(st1, s[1..]);
      EmitStable(st, s[0]);
      RunConcat(st, e, Run(st1, s[1..]).0);
    }
  }

  /** No raw newline or tab is left inside a string literal of the output:
      each one stands outside strings or right after a backslash. */
  predicate NoRawControlInStrings(st: Scan, t: string)
  {
    forall k :: 0 <= k < |t| && (t[k] == '\n' || t[k] == '\t') ==>
      !Run(st, t[..k]).1.inString || Run(st, t[..k]).1.escapeNext
  }

  lemma {:induction false} SanitizeClean(st: Scan, s: string)
    ensures NoRawControlInStrings(st, Run(st, s).0)
    decreases |s|
  {
    if |s| > 0 {
      var c := s[0];
      var e := Emit(st, c);
      var st1 := Next(st, c);
      var r := Run(st1, s[1..]).0;
      var t := Run(st, s).0;
      assert t == e + r;
      SanitizeClean(st1, s[1..]);
      EmitStable(st, c);
      forall k | 0 <= k < |t| && (t[k] == '\n' || t[k] == '\t')
        ensures !Run(st, t[..k]).1.inString || Run(st, t[..k]).1.escapeNext
      {
        if k < |e| {
          assert k == 0 && e == [c];
          assert t[..k] == "";
        } else {
          var m := k - |e|;
          assert t[..k] == e + r[..m];
          assert r[m] == t[k];
          RunConcat(st, e, r[..m]);
        }
      }
    }
  }

  /** A backslash and the character after it are copied as they are, and
      the pair leaves the string state as it was: `\"` never ends a string. */
  lemma BackslashPair(st: Scan, c: char, rest: string)
    requires !st.escapeNext
    ensures Run(st, ['\\', c] + rest).0 == ['\\', c] + Run(Scan(st.inString, false), rest).0
    ensures Run(st, ['\\', c] + rest).1 == Run(Scan(st.inString, false), rest).1
  {
    var s := ['\\', c] + rest;
    assert s[1..] == [c] + rest;
    assert s[1..][1..] == rest;
  }

  /** Inside a string literal, outside an escape, a raw newline is written
      as \n and a raw tab as \t; outside string literals both are copied. */
  lemma ControlCharsAt(s: string, k: nat)
    requires k < |s| && (s[k] == '\n' || s[k] == '\t')
    ensures var st := Run(Start, s[..k]).1;
      && Sanitize(s) == Sanitize(s[..k]) + Emit(st, s[k]) + Run(Next(st, s[k]), s[k + 1..]).0
      && (st.inString && !st.escapeNext ==> Emit(st, s[k]) == (if s[k] == '\n' then "\\n" else "\\t"))
      && (!st.inString ==> Emit(st, s[k]) == [s[k]])
  {
    var st := Run(Start, s[..k]).1;
    assert s == s[..k] + s[k..];
    RunConcat(Start, s[..k], s[k..]);
    assert s[k..][1..] == s[k + 1..];
  }

  // ---------------------------------------------------------------------
  // Parsing the model's answer
  // ---------------------------------------------------------------------

  /** The code-fence stripping of _parse_changes_json: the text after
      "```json" up to the next fence, else the text between the first two
      fences (or after the only one), else the whole stripped text. */
  function StripFences(text: string): string
  {
    var s := Strip(text);
    match IndexOf(s, "```json")
    case Some(i) => BeforeFence(s[i + 7..])
    case None =>
      match IndexOf(s, "```")
      case Some(i) => BeforeFence(s[i + 3..])
      case None => s
  }

  /** The text up to the first fence, or all of it when it has none; it
      holds no fence. */
  function BeforeFence(t: string): (r: string)
    ensures r <= t
    ensures !Contains(r, "```")
  {
    match IndexOf(t, "```")
    case Some(j) =>
      BeforeFirstNotContains(t, "```", j);
      t[..j]
    case None => t
  }

  /** The stripped payload never holds a fence. */
  lemma {:induction false} StripFencesClean(text: string)
    ensures !Contains(StripFences(text), "```")
  {
    var s := Strip(text);
    if IndexOf(s, "```json").None? && IndexOf(s, "```").None? {
      assert StripFences(text) == s;
    }
  }

  /** The last index of a character. */
  function LastIndexOf(s: string, c: char): (r: Option<nat>)
    ensures r.Some? ==> r.value < |s| && s[r.value] == c
    ensures r.Some? ==> forall k :: r.value < k < |s| ==> s[k] != c
    ensures r.None? ==> forall k :: 0 <= k < |s| ==> s[k] != c
  {
    if |s| == 0 then None
    else if s[|s| - 1] == c then Some(|s| - 1)
    else LastIndexOf(s[..|s| - 1], c)
  }

  /** The greedy match of `\{[\s\S]*\}`: from the first '{' to the last '}'
      after it. */
  function ObjectSpan(text: string): (r: Option<string>)
    ensures r.Some? ==> |r.value| >= 2 && r.value[0] == '{' && r.value[|r.value| - 1] == '}'
    ensures r.Some? ==> exists i :: OccursAt(text, r.value, i)
                                   && (forall k :: 0 <= k < i ==> text[k] != '{')
                                   && (forall k :: i + |r.value| <= k < |text| ==> text[k] != '}')
    ensures r.None? <==> (IndexOf(text, "{").None? || forall k :: IndexOf(text, "{").value < k < |text| ==> text[k] != '}')
  {
    match IndexOf(text, "{")
    case None => None
    case Some(i) =>
      FirstCharAt(text, '{', i);
      match LastIndexOf(text, '}')
      case Some(j) =>
        if i < j then
          assert OccursAt(text, text[i..j + 1], i);
          Some(text[i..j + 1])
        else None
      case None => None
  }


  /** _parse_changes_json, with json.loads as `loads`: the fence-stripped
      text, then its sanitized form, then the sanitized greedy object span
      of the raw text; otherwise an error quoting the first 500 characters. */
  function ParseChanges<T>(text: string, loads: string -> Option<T>): (r: Result<T>)
    ensures r.Err? ==> r.msg == "Could not parse LLM response as JSON. First 500 chars: " + Take(text, 500)
    ensures r.Err? <==>
      && loads(Strip(StripFences(text))).None?
      && loads(Sanitize(Strip(StripFences(text)))).None?
      && (ObjectSpan(text).None? || loads(Sanitize(ObjectSpan(text).value)).None?)
    ensures var js := Strip(StripFences(text));
      && (loads(js).Some? ==> r == Ok(loads(js).value))
      && (loads(js).None? && loads(Sanitize(js)).Some? ==> r == Ok(loads(Sanitize(js)).value))
      && ((loads(js).None? && loads(Sanitize(js)).None? && ObjectSpan(text).Some?
           && loads(Sanitize(ObjectSpan(text).value)).Some?) ==> r == Ok(loads(Sanitize(ObjectSpan(text).value)).value))
  {
    var js := Strip(StripFences(text));
    var span := ObjectSpan(text);
    FirstParse(js, Sanitize(js), if span.Some? then Some(Sanitize(span.value)) else None,
               "Could not parse LLM response as JSON. First 500 chars: " + Take(text, 500), loads)
  }

  /** The first of up to three texts that `loads` accepts, else the error. */
  function FirstParse<T>(first: string, second: string, third: Option<string>, err: string,
                         loads: string -> Option<T>): (r: Result<T>)
    ensures r.Err? ==> r.msg == err
    ensures r.Err? <==> loads(first).None? && loads(second).None? && (third.None? || loads(third.value).None?)
    ensures loads(first).Some? ==> r == Ok(loads(first).value)
    ensures loads(first).None? && loads(second).Some? ==> r == Ok(loads(second).value)
    ensures (loads(first).None? && loads(second).None? && third.Some? && loads(third.value).Some?) ==>
              r == Ok(loads(third.value).value)
  {
    if loads(first).Some? then Ok(loads(first).value)
    else if loads(second).Some? then Ok(loads(second).value)
    else if third.Some? && loads(third.value).Some? then Ok(loads(third.value).value)
    else Err(err)
  }

  // ---------------------------------------------------------------------
  // The retry of the generation in process_discussion
  // ---------------------------------------------------------------------

  /** Up to MaxRetries attempts (attempt k answered by `generate(k)`),
      stopping at the first success and sleeping only between attempts. */
  method GenerateWithRetries<T>(generate: nat -> Result<T>)
    returns (changes: Option<T>, attempts: nat, sleeps: seq<nat>, lastError: Option<string>)
    ensures 1 <= attempts <= MaxRetries
    ensures forall k :: 1 <= k < attempts ==> generate(k).Err?
    ensures changes.Some? ==> generate(attempts).Ok? && changes.value == generate(attempts).value
    ensures changes.None? ==> attempts == MaxRetries && generate(attempts).Err?
                              && lastError == Some(generate(attempts).msg)
    ensures |sleeps| == attempts - 1
    ensures forall k :: 0 <= k < |sleeps| ==> sleeps[k] == RetryDelaySeconds
  {
    changes, sleeps, lastError := None, [], None;
    var attempt := 1;
    while true
      invariant 1 <= attempt <= MaxRetries
      invariant forall k :: 1 <= k < attempt ==> generate(k).Err?
      invariant |sleeps| == attempt - 1
      invariant forall k :: 0 <= k < |sleeps| ==> sleeps[k] == RetryDelaySeconds
      decreases MaxRetries - attempt
    {
      var answer := generate(attempt);
      if answer.Ok? {
        return Some(answer.value), attempt, sleeps, lastError;
      }
      lastError := Some(answer.msg);
      if attempt < MaxRetries {
        sleeps := sleeps + [RetryDelaySeconds];
        attempt := attempt + 1;
      } else {
        return None, attempt, sleeps, lastError;
      }
    }
  }
}
