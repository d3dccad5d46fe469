/** The local Hugo publisher (internal/publisher/hugo.go): writing article
    files under the site's content directory, the git steps run in the site
    directory, and the safety check before a non-git site directory is
    removed. Filesystem calls and git subprocesses are commands sent to the
    oracle `run`; `ran` records the commands in the order they run. */
module HugoPub {
  import opened StrUtil
  import opened Models
  import Formatter

  datatype HugoConfig = HugoConfig(
    path: string,
    contentDir: string,
    gitRepo: string,
    gitRemote: string,
    gitBranch: string,
    autoCommit: bool)

  /** The filesystem operations and git subprocesses the publisher runs. */
  datatype Command =
    | MkdirAll(dir: string)
    | WriteFile(path: string, content: string)
    | GitAdd(dir: string)
    | GitStatus(dir: string)
    | GitCommitCmd(dir: string, message: string)
    | GitClone(repo: string, path: string)
    | GitPullCmd(dir: string, remote: string, branch: string)
    | GitPushCmd(dir: string, remote: string, branch: string)
    | RemoveAll(path: string)

  /** A command's result: its output, or its output and the error. */
  datatype Outcome = Done(output: string) | Failed(output: string, err: string)

  const PathNotConfigured := "hugo.path is not configured"

  /** validateConfig. */
  function ValidateConfig(cfg: HugoConfig): (r: Option<string>)
    ensures r.Some? <==> cfg.path == ""
    ensures r.Some? ==> r.value == PathNotConfigured
  {
    if cfg.path == "" then Some(PathNotConfigured) else None
  }

  /** filepath.Join of two elements: empty elements are dropped. */
  function JoinPath(a: string, b: string): (r: string)
    ensures a == "" ==> r == b
    ensures b == "" ==> r == a
    ensures a != "" && b != "" ==> r == a + "/" + b
  {
    if a == "" then b else if b == "" then a else a + "/" + b
  }

  /** The index of the last '/', if any. */
  function LastSlash(p: string): (r: Option<nat>)
    ensures r.Some? ==> r.value < |p|
    decreases |p|
  {
    if |p| == 0 then None
    else if p[|p| - 1] == '/' then Some(|p| - 1)
    else LastSlash(p[..|p| - 1])
  }

  /** LastSlash finds the last '/', and None means there is none. */
  lemma {:induction false} LastSlashFacts(p: string)
    ensures LastSlash(p).None? ==> forall k :: 0 <= k < |p| ==> p[k] != '/'
    ensures LastSlash(p).Some? ==>
              p[LastSlash(p).value] == '/' && forall k :: LastSlash(p).value < k < |p| ==> p[k] != '/'
    decreases |p|
  {
    if |p| > 0 && p[|p| - 1] != '/' {
      LastSlashFacts(p[..|p| - 1]);
    }
  }

  /** filepath.Dir: the path up to its last separator, "/" for a file in
      the root and "." when there is no separator. */
  function DirOf(p: string): string
  {
    match LastSlash(p)
    case None => "."
    case Some(i) => if i == 0 then "/" else p[..i]
  }

  /** The directory of a path and the rest: the rest is the last name,
      which has no separator in it. */
  lemma DirOfFacts(p: string)
    ensures (forall k :: 0 <= k < |p| ==> p[k] != '/') ==> DirOf(p) == "."
    ensures forall i :: 0 < i < |p| && p[i] == '/' && (forall k :: i < k < |p| ==> p[k] != '/') ==>
              DirOf(p) == p[..i]
  {
    LastSlashFacts(p);
  }

  /** A HugoPublisher: the site configuration and the markdown formatter,
      whose two operations are the document of an article and its file path
      under a base directory. */
  datatype HugoPublisher = HugoPublisher(
    config: HugoConfig,
    format: Article -> string,
    filePath: (Article, string) -> string)

  /** NewHugoPublisher: the configuration with the markdown formatter. */
  function NewHugoPublisher(cfg: HugoConfig): (p: HugoPublisher)
    ensures p.config == cfg
    ensures forall a :: p.format(a) == Formatter.Markdown(a)
    ensures forall a, base :: p.filePath(a, base) == Formatter.GetFilePath(a, base)
  {
    HugoPublisher(cfg, Formatter.Markdown, Formatter.GetFilePath)
  }

  /** The directory the articles go to: the site path joined with the
      content directory (GetContentPath). */
  function ContentPath(cfg: HugoConfig): string
  {
    JoinPath(cfg.path, cfg.contentDir)
  }

  function ArticlePath(p: HugoPublisher, a: Article): string
  {
    p.filePath(a, ContentPath(p.config))
  }

  /** The two filesystem steps of Publish: create the file's directory,
      then write the file. */
  function WriteSteps(filePath: string, content: string, run: Command -> Outcome): (Option<string>, seq<Command>)
  {
    var dir := DirOf(filePath);
    var mk := MkdirAll(dir);
    var write := WriteFile(filePath, content);
    match run(mk)
    case Failed(_, e) => (Some("failed to create directory " + dir + ": " + e), [mk])
    case Done(_) =>
      match run(write)
      case Failed(_, e) => (Some("failed to write file " + filePath + ": " + e), [mk, write])
      case Done(_) => (None, [mk, write])
  }

  /** What Publish does: reject a missing article, then an unset site path;
      then write the formatted article at its path. */
  function PublishOutcome(p: HugoPublisher, article: Option<Article>, run: Command -> Outcome): (Option<string>, seq<Command>)
  {
    if article.None? then (Some("article cannot be nil"), [])
    else if p.config.path == "" then (Some(PathNotConfigured), [])
    else WriteSteps(ArticlePath(p, article.value), p.format(article.value), run)
  }

  /** Publish. */
  method Publish(p: HugoPublisher, article: Option<Article>, run: Command -> Outcome)
    returns (err: Option<string>, ran: seq<Command>)
    ensures (err, ran) == PublishOutcome(p, article, run)
  {
    if article.None? {
      return Some("article cannot be nil"), [];
    }
    var v := ValidateConfig(p.config);
    if v.Some? {
      return v, [];
    }
    var a := article.value;
    var contentPath := JoinPath(p.config.path, p.config.contentDir);
    var filePath := p.filePath(a, contentPath);
    var content := p.format(a);
    err, ran := WriteArticle(filePath, content, run);
  }

  /** The directory and file steps of Publish, for one article. */
  method WriteArticle(filePath: string, content: string, run: Command -> Outcome)
    returns (err: Option<string>, ran: seq<Command>)
    ensures (err, ran) == WriteSteps(filePath, content, run)
  {
    var dir := DirOf(filePath);
    ran := [MkdirAll(dir)];
    var made := run(MkdirAll(dir));
    if made.Failed? {
      return Some("failed to create directory " + dir + ": " + made.err), ran;
    }
    ran := ran + [WriteFile(filePath, content)];
    var written := run(WriteFile(filePath, content));
    assert ran == [MkdirAll(dir), WriteFile(filePath, content)];
    if written.Failed? {
      return Some("failed to write file " + filePath + ": " + written.err), ran;
    }
    err := None;
  }

  /** A published article is written as the publisher's document for it,
      at its path, after the file's directory is created; nothing is touched
      without an article and a site path. */
  lemma PublishFacts(p: HugoPublisher, article: Option<Article>, run: Command -> Outcome)
    ensures (article.None? || p.config.path == "") ==> PublishOutcome(p, article, run).1 == []
    ensures article.Some? && p.config.path == "" ==> PublishOutcome(p, article, run).0 == Some(PathNotConfigured)
    ensures PublishOutcome(p, article, run).0.None? ==>
            && article.Some? && p.config.path != ""
            && PublishOutcome(p, article, run).1
               == [MkdirAll(DirOf(ArticlePath(p, article.value))),
                   WriteFile(ArticlePath(p, article.value), p.format(article.value))]
  {
  }

  /** With the markdown formatter and a site path, every article lands
      under the content directory, in posts/YYYY/MM/<slug>.md. */
  lemma ArticleUnderContentDir(cfg: HugoConfig, a: Article)
    requires cfg.path != ""
    ensures ArticlePath(NewHugoPublisher(cfg), a) == ContentPath(cfg) + "/" + Formatter.RelativePath(a)
    ensures ContentPath(cfg) + "/" <= ArticlePath(NewHugoPublisher(cfg), a)
  {
    var c := ContentPath(cfg);
    assert c != "";
    var rel := Formatter.RelativePath(a);
    assert (c + "/" + rel)[..|c + "/"|] == c + "/";
  }

  /** What GitCommit does: stage everything, ask for the porcelain status,
      and commit only when it reports a change. */
  function GitCommitOutcome(cfg: HugoConfig, message: string, run: Command -> Outcome): (Option<string>, seq<Command>)
  {
    if cfg.path == "" then (Some(PathNotConfigured), [])
    else
      var add := GitAdd(cfg.path);
      var status := GitStatus(cfg.path);
      var commit := GitCommitCmd(cfg.path, message);
      match run(add)
      case Failed(out, e) => (Some("git add failed: " + out + ": " + e), [add])
      case Done(_) =>
        match run(status)
        case Failed(_, e) => (Some("git status failed: " + e), [add, status])
        case Done(porcelain) =>
          if |porcelain| == 0 then (None, [add, status])
          else
            match run(commit)
            case Failed(out, e) => (Some("git commit failed: " + out + ": " + e), [add, status, commit])
            case Done(_) => (None, [add, status, commit])
  }

  /** GitCommit. */
  method GitCommit(cfg: HugoConfig, message: string, run: Command -> Outcome)
    returns (err: Option<string>, ran: seq<Command>)
    ensures (err, ran) == GitCommitOutcome(cfg, message, run)
  {
    var v := ValidateConfig(cfg);
    if v.Some? {
      return v, [];
    }
    var dir := cfg.path;
    ran := [GitAdd(dir)];
    var added := run(GitAdd(dir));
    if added.Failed? {
      return Some("git add failed: " + added.output + ": " + added.err), ran;
    }
    ran := ran + [GitStatus(dir)];
    var status := run(GitStatus(dir));
    if status.Failed? {
      assert ran == [GitAdd(dir), GitStatus(dir)];
      return Some("git status failed: " + status.err), ran;
    }
    if |status.output| == 0 {
      return None, ran;
    }
    ran := ran + [GitCommitCmd(dir, message)];
    var committed := run(GitCommitCmd(dir, message));
    if committed.Failed? {
      assert ran == [GitAdd(dir), GitStatus(dir), GitCommitCmd(dir, message)];
      return Some("git commit failed: " + committed.output + ": " + committed.err), ran;
    }
    err := None;
  }

  /** A commit is made only when staging succeeded and the porcelain status
      is not empty; an empty status is success without a commit. */
  lemma GitCommitFacts(cfg: HugoConfig, message: string, run: Command -> Outcome)
    ensures cfg.path == "" ==> GitCommitOutcome(cfg, message, run) == (Some(PathNotConfigured), [])
    ensures GitCommitCmd(cfg.path, message) in GitCommitOutcome(cfg, message, run).1 <==>
              cfg.path != "" && run(GitAdd(cfg.path)).Done? && run(GitStatus(cfg.path)).Done?
              && |run(GitStatus(cfg.path)).output| > 0
    ensures cfg.path != "" && run(GitAdd(cfg.path)).Done? && run(GitStatus(cfg.path)) == Done("") ==>
              GitCommitOutcome(cfg, message, run) == (None, [GitAdd(cfg.path), GitStatus(cfg.path)])
  {
  }

  /** Steps run one after another until the first that fails: the error of
      that step (or none) and the commands of every step that ran. */
  function Chain(outs: seq<(Option<string>, seq<Command>)>): (Option<string>, seq<Command>)
    decreases |outs|
  {
    if |outs| == 0 then (None, [])
    else if outs[0].0.Some? then outs[0]
    else
      var rest := Chain(outs[1..]);
      (rest.0, outs[0].1 + rest.1)
  }

  lemma ChainStep(outs: seq<(Option<string>, seq<Command>)>, i: nat)
    requires i < |outs|
    ensures Chain(outs[i..]) == if outs[i].0.Some? then outs[i] else (Chain(outs[i + 1..]).0, outs[i].1 + Chain(outs[i + 1..]).1)
  {
    assert outs[i..][0] == outs[i];
    assert outs[i..][1..] == outs[i + 1..];
  }

  /** The chain fails exactly with the first failing step's error, and runs
      no command that some step up to that one did not run. */
  lemma {:induction false} ChainStopsAt(outs: seq<(Option<string>, seq<Command>)>, k: nat, allowed: Command -> bool)
    requires k < |outs| && outs[k].0.Some?
    requires forall j :: 0 <= j < k ==> outs[j].0.None?
    requires forall j, c :: 0 <= j <= k && c in outs[j].1 ==> allowed(c)
    ensures Chain(outs).0 == outs[k].0
    ensures forall c :: c in Chain(outs).1 ==> allowed(c)
    decreases k
  {
    if k > 0 {
      ChainStopsAt(outs[1..], k - 1, allowed);
    }
  }

  /** Without a failing step the chain succeeds and runs the steps'
      commands in order. */
  lemma {:induction false} ChainAllOk(outs: seq<(Option<string>, seq<Command>)>, allowed: Command -> bool)
    requires forall j :: 0 <= j < |outs| ==> outs[j].0.None?
    requires forall j, c :: 0 <= j < |outs| && c in outs[j].1 ==> allowed(c)
    ensures Chain(outs).0.None?
    ensures forall c :: c in Chain(outs).1 ==> allowed(c)
    decreases |outs|
  {
    if |outs| > 0 {
      ChainAllOk(outs[1..], allowed);
    }
  }

  /** The outcome of publishing each article on its own. */
  function PublishOutcomes(p: HugoPublisher, articles: seq<Option<Article>>, run: Command -> Outcome)
    : (r: seq<(Option<string>, seq<Command>)>)
    ensures |r| == |articles|
    ensures forall i :: 0 <= i < |articles| ==> r[i] == PublishOutcome(p, articles[i], run)
  {
    seq(|articles|, i requires 0 <= i < |articles| => PublishOutcome(p, articles[i], run))
  }

  function BatchMessage(n: nat): string
  {
    "Add " + NatToString(n) + " new articles"
  }

  /** PublishMultiple: publish the articles in order up to the first
      failure, which is returned; then, only when every article was
      published, automatic commits are on and the list is not empty, commit
      them together. */
  method PublishMultiple(p: HugoPublisher, articles: seq<Option<Article>>, run: Command -> Outcome)
    returns (err: Option<string>, ran: seq<Command>)
    ensures var pub := Chain(PublishOutcomes(p, articles, run));
            if pub.0.Some? then (err, ran) == pub
            else if p.config.autoCommit && |articles| > 0 then
              var commit := GitCommitOutcome(p.config, BatchMessage(|articles|), run);
              err == commit.0 && ran == pub.1 + commit.1
            else err.None? && ran == pub.1
  {
    ghost var outs := PublishOutcomes(p, articles, run);
    ran := [];
    var i := 0;
    assert outs[0..] == outs;
    while i < |articles|
      invariant 0 <= i <= |articles|
      invariant Chain(outs).0 == Chain(outs[i..]).0
      invariant Chain(outs).1 == ran + Chain(outs[i..]).1
    {
      var e, r := Publish(p, articles[i], run);
      ChainStep(outs, i);
      if e.Some? {
        return e, ran + r;
      }
      SeqAppendAssoc(ran, r, Chain(outs[i + 1..]).1);
      ran := ran + r;
      i := i + 1;
    }
    if p.config.autoCommit && |articles| > 0 {
      var e, r := GitCommit(p.config, BatchMessage(|articles|), run);
      return e, ran + r;
    }
    err := None;
  }

  /** Publishing an article runs only directory and file commands. */
  lemma PublishCommands(p: HugoPublisher, article: Option<Article>, run: Command -> Outcome)
    ensures forall c :: c in PublishOutcome(p, article, run).1 ==> c.MkdirAll? || c.WriteFile?
  {
  }

  predicate IsFileCommand(c: Command)
  {
    c.MkdirAll? || c.WriteFile?
  }

  /** The first failing article ends PublishMultiple with its error: the
      later articles are not written and git is not run. */
  lemma PublishMultipleStops(p: HugoPublisher, articles: seq<Option<Article>>, run: Command -> Outcome, k: nat)
    requires k < |articles|
    requires forall j :: 0 <= j < k ==> PublishOutcome(p, articles[j], run).0.None?
    requires PublishOutcome(p, articles[k], run).0.Some?
    ensures Chain(PublishOutcomes(p, articles, run)).0 == PublishOutcome(p, articles[k], run).0
    ensures forall c :: c in Chain(PublishOutcomes(p, articles, run)).1 ==> IsFileCommand(c)
  {
    var outs := PublishOutcomes(p, articles, run);
    forall j | 0 <= j <= k ensures forall c :: c in outs[j].1 ==> IsFileCommand(c) {
      PublishCommands(p, articles[j], run);
    }
    ChainStopsAt(outs, k, IsFileCommand);
  }

  /** When every article is published, PublishMultiple runs only file
      commands before its optional commit. */
  lemma PublishMultipleAllOk(p: HugoPublisher, articles: seq<Option<Article>>, run: Command -> Outcome)
    requires forall j :: 0 <= j < |articles| ==> PublishOutcome(p, articles[j], run).0.None?
    ensures Chain(PublishOutcomes(p, articles, run)).0.None?
    ensures forall c :: c in Chain(PublishOutcomes(p, articles, run)).1 ==> IsFileCommand(c)
  {
    var outs := PublishOutcomes(p, articles, run);
    forall j | 0 <= j < |outs| ensures forall c :: c in outs[j].1 ==> IsFileCommand(c) {
      PublishCommands(p, articles[j], run);
    }
    ChainAllOk(outs, IsFileCommand);
  }

  // ---------------------------------------------------------------------
  // Removing a non-git site directory
  // ---------------------------------------------------------------------

  /** The refusal test of safeRemoveAll as written: the target is the
      working directory, or the working directory starts with the target
      followed by one '/'. For a target that already ends in '/' (the root
      "/") that asks for "//", so no real directory below the root is
      refused; see RootTargetNotRefused. */
  predicate RefusesRemoval(absPath: string, cwd: string)
  {
    absPath == cwd || HasPrefix(cwd, absPath + "/")
  }

  /** The target itself and every path made of the target, '/' and more
      are refused; a sibling whose name merely extends the target's is
      not: for "/a/blog", "/a/blog/site" is refused and "/a/blog2" is
      not. For the root the second clause only covers paths that start
      with "//". */
  lemma RefusalFacts(absPath: string, below: string, sibling: string)
    requires sibling != "" && sibling[0] != '/'
    ensures RefusesRemoval(absPath, absPath)
    ensures RefusesRemoval(absPath, absPath + "/" + below)
    ensures !RefusesRemoval(absPath, absPath + sibling)
  {
    var c := absPath + "/" + below;
    assert c[..|absPath + "/"|] == absPath + "/";
    var s := absPath + sibling;
    assert s[|absPath|] != (absPath + "/")[|absPath|];
  }

  /** The guard as written lets the root be removed while the working
      directory is /home, although /home lies inside it; the intended
      guard refuses. */
  lemma RootTargetNotRefused()
    ensures !RefusesRemoval("/", "/home")
    ensures ContainsCwd("/", "/home")
  {
    assert "/" + "/" == "//";
    assert "/home"[1] != "//"[1];
  }

  /** The target as a directory prefix: one '/' added unless it already
      ends in one. */
  function DirPrefix(p: string): (r: string)
    ensures |r| > 0 && r[|r| - 1] == '/'
    ensures p <= r && |r| <= |p| + 1
    ensures (|p| > 0 && p[|p| - 1] == '/') <==> r == p
  {
    if |p| > 0 && p[|p| - 1] == '/' then p else p + "/"
  }

  /** The intended refusal test: the target is the working directory or
      contains it. */
  predicate ContainsCwd(absPath: string, cwd: string)
  {
    absPath == cwd || HasPrefix(cwd, DirPrefix(absPath))
  }

  /** The intended guard refuses the target and every path below it,
      lets a sibling through, and agrees with the guard as written for
      every target that does not end in '/'. */
  lemma ContainsCwdFacts(absPath: string, cwd: string, below: string, sibling: string)
    requires sibling != "" && sibling[0] != '/'
    ensures ContainsCwd(absPath, absPath)
    ensures ContainsCwd(absPath, DirPrefix(absPath) + below)
    ensures DirPrefix(absPath) != absPath ==> !ContainsCwd(absPath, absPath + sibling)
    ensures DirPrefix(absPath) != absPath ==> (ContainsCwd(absPath, cwd) <==> RefusesRemoval(absPath, cwd))
  {
    var c := DirPrefix(absPath) + below;
    assert c[..|DirPrefix(absPath)|] == DirPrefix(absPath);
    if DirPrefix(absPath) != absPath {
      var s := absPath + sibling;
      assert s[|absPath|] != DirPrefix(absPath)[|absPath|];
    }
  }

  /** With the intended guard the root refuses every absolute working
      directory. */
  lemma RootContainsEveryCwd(cwd: string)
    requires |cwd| > 0 && cwd[0] == '/'
    ensures ContainsCwd("/", cwd)
  {
    assert DirPrefix("/") == "/";
    assert cwd[..1] == "/";
  }

  /** The error and the commands of safeRemoveAll, as one value. */
  function Removal(cfg: HugoConfig, absPath: Result<string>, cwd: Result<string>, run: Command -> Outcome)
    : (r: (Option<string>, seq<Command>))
    ensures r.1 == [] || r.1 == [RemoveAll(cfg.path)]
    ensures r.1 == [] ==> r.0.Some?
  {
    if absPath.Err? then (Some("failed to resolve blog path: " + absPath.msg), [])
    else if cwd.Err? then (Some("failed to get working directory: " + cwd.msg), [])
    else if ContainsCwd(absPath.value, cwd.value) then
      (Some("refusing to remove " + absPath.value + ": it contains or equals the current directory " + cwd.value), [])
    else
      var removed := run(RemoveAll(cfg.path));
      (if removed.Failed? then Some("failed to remove directory: " + removed.err) else None, [RemoveAll(cfg.path)])
  }

  /** safeRemoveAll; the absolute target path and the working directory
      are the results of filepath.Abs and os.Getwd. */
  method SafeRemoveAll(cfg: HugoConfig, absPath: Result<string>, cwd: Result<string>, run: Command -> Outcome)
    returns (err: Option<string>, ran: seq<Command>)
    ensures (err, ran) == Removal(cfg, absPath, cwd, run)
    ensures absPath.Err? ==> err == Some("failed to resolve blog path: " + absPath.msg) && ran == []
    ensures absPath.Ok? && cwd.Err? ==> err == Some("failed to get working directory: " + cwd.msg) && ran == []
    ensures absPath.Ok? && cwd.Ok? && ContainsCwd(absPath.value, cwd.value) ==>
              err == Some("refusing to remove " + absPath.value + ": it contains or equals the current directory " + cwd.value)
              && ran == []
    ensures absPath.Ok? && cwd.Ok? && !ContainsCwd(absPath.value, cwd.value) ==>
              ran == [RemoveAll(cfg.path)]
              && err == (if run(RemoveAll(cfg.path)).Failed?
                         then Some("failed to remove directory: " + run(RemoveAll(cfg.path)).err) else None)
    ensures RemoveAll(cfg.path) in ran ==> absPath.Ok? && cwd.Ok? && !ContainsCwd(absPath.value, cwd.value)
  {
    if absPath.Err? {
      return Some("failed to resolve blog path: " + absPath.msg), [];
    }
    if cwd.Err? {
      return Some("failed to get working directory: " + cwd.msg), [];
    }
    if absPath.value == cwd.value || HasPrefix(cwd.value, DirPrefix(absPath.value)) {
      return Some("refusing to remove " + absPath.value + ": it contains or equals the current directory " + cwd.value), [];
    }
    ran := [RemoveAll(cfg.path)];
    var removed := run(RemoveAll(cfg.path));
    err := if removed.Failed? then Some("failed to remove directory: " + removed.err) else None;
  }

  // ---------------------------------------------------------------------
  // Pull and push
  // ---------------------------------------------------------------------

  const PullNeedsRemote := "git_remote and git_branch must be configured for pull"
  const PushNeedsRemote := "git_remote and git_branch must be configured for push"

  /** GitPull. Without a .git directory (`gitDirMissing`) the site is cloned,
      which needs git_repo, after an existing site directory (`pathExists`)
      was removed safely; otherwise it pulls, which needs remote and branch. */
  method GitPull(cfg: HugoConfig, gitDirMissing: bool, pathExists: bool,
                 absPath: Result<string>, cwd: Result<string>, run: Command -> Outcome)
    returns (err: Option<string>, ran: seq<Command>)
    ensures cfg.path == "" ==> err == Some(PathNotConfigured) && ran == []
    ensures cfg.path != "" && gitDirMissing && cfg.gitRepo == "" ==>
              err == Some("git_repo not configured") && ran == []
    ensures cfg.path != "" && !gitDirMissing && (cfg.gitRemote == "" || cfg.gitBranch == "") ==>
              err == Some(PullNeedsRemote) && ran == []
    ensures cfg.path != "" && !gitDirMissing && cfg.gitRemote != "" && cfg.gitBranch != "" ==>
              var pull := GitPullCmd(cfg.path, cfg.gitRemote, cfg.gitBranch);
              ran == [pull]
              && err == (if run(pull).Failed? then Some("git pull failed: " + run(pull).output + ": " + run(pull).err) else None)
    ensures cfg.path != "" && gitDirMissing && cfg.gitRepo != "" ==>
              var clone := GitClone(cfg.gitRepo, cfg.path);
              var removal := if pathExists then Removal(cfg, absPath, cwd, run) else (None, []);
              if removal.0.Some? then err == removal.0 && ran == removal.1
              else
                && ran == removal.1 + [clone]
                && err == (if run(clone).Failed? then Some("git clone failed: " + run(clone).output + ": " + run(clone).err) else None)
    ensures GitClone(cfg.gitRepo, cfg.path) in ran ==> cfg.path != "" && gitDirMissing && cfg.gitRepo != ""
    ensures RemoveAll(cfg.path) in ran ==>
              pathExists && absPath.Ok? && cwd.Ok? && !ContainsCwd(absPath.value, cwd.value)
    ensures forall c :: c in ran ==> c.GitClone? || c.GitPullCmd? || c.RemoveAll?
  {
    var v := ValidateConfig(cfg);
    if v.Some? {
      return v, [];
    }
    ran := [];
    if gitDirMissing {
      if cfg.gitRepo == "" {
        return Some("git_repo not configured"), [];
      }
      if pathExists {
        var e, r := SafeRemoveAll(cfg, absPath, cwd, run);
        ran := r;
        if e.Some? {
          return e, ran;
        }
      }
      var clone := GitClone(cfg.gitRepo, cfg.path);
      ran := ran + [clone];
      var cloned := run(clone);
      if cloned.Failed? {
        return Some("git clone failed: " + cloned.output + ": " + cloned.err), ran;
      }
      return None, ran;
    }
    if cfg.gitRemote == "" || cfg.gitBranch == "" {
      return Some(PullNeedsRemote), [];
    }
    var pull := GitPullCmd(cfg.path, cfg.gitRemote, cfg.gitBranch);
    ran := [pull];
    var pulled := run(pull);
    if pulled.Failed? {
      return Some("git pull failed: " + pulled.output + ": " + pulled.err), ran;
    }
    err := None;
  }

  /** GitPush: needs the site path, then remote and branch. */
  method GitPush(cfg: HugoConfig, run: Command -> Outcome) returns (err: Option<string>, ran: seq<Command>)
    ensures cfg.path == "" ==> err == Some(PathNotConfigured) && ran == []
    ensures cfg.path != "" && (cfg.gitRemote == "" || cfg.gitBranch == "") ==> err == Some(PushNeedsRemote) && ran == []
    ensures cfg.path != "" && cfg.gitRemote != "" && cfg.gitBranch != "" ==>
              var push := GitPushCmd(cfg.path, cfg.gitRemote, cfg.gitBranch);
              ran == [push]
              && err == (if run(push).Failed? then Some("git push failed: " + run(push).output + ": " + run(push).err) else None)
  {
    var v := ValidateConfig(cfg);
    if v.Some? {
      return v, [];
    }
    if cfg.gitRemote == "" || cfg.gitBranch == "" {
      return Some(PushNeedsRemote), [];
    }
    var push := GitPushCmd(cfg.path, cfg.gitRemote, cfg.gitBranch);
    ran := [push];
    var pushed := run(push);
    if pushed.Failed? {
      return Some("git push failed: " + pushed.output + ": " + pushed.err), ran;
    }
    err := None;
  }
}
