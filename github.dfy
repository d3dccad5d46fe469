/** Publishing through the GitHub REST API (internal/publisher/github.go):
    repository URL parsing, path separator normalisation, per-segment path
    escaping, the availability gate, and the request sequences of Publish and
    PublishMultiple. Every HTTP request goes to the oracle `api`, which
    answers a request with a failure, an unparsable body, or the SHA the
    response carries; `sent` records the requests in the order they are
    made. */
module GitHubPub {
  import opened StrUtil
  import opened Models
  import Formatter

  // ---------------------------------------------------------------------
  // Repository URL
  // ---------------------------------------------------------------------

  const HttpsPrefix := "https://github.com/"
  const HttpPrefix := "http://github.com/"
  const SshPrefix := "git@github.com:"

  /** parseGitHubRepo: drop a ".git" suffix, then each of the three known
      prefixes in turn, and split at the first '/'; ("", "") when there is
      none. */
  function ParseGitHubRepo(gitRepo: string): (r: (string, string))
    ensures !Contains(r.0, "/")
  {
    var s := Trimmed(gitRepo);
    match IndexOf(s, "/")
    case Some(i) =>
      BeforeFirstNotContains(s, "/", i);
      (s[..i], s[i + 1..])
    case None => ("", "")
  }

  /** The forms of a repository reference parseGitHubRepo accepts. */
  datatype RepoForm = Https | Http | Ssh | Bare

  function FormPrefix(f: RepoForm): string
  {
    match f
    case Https => HttpsPrefix
    case Http => HttpPrefix
    case Ssh => SshPrefix
    case Bare => ""
  }

  /** A repository reference written in one of the accepted forms. */
  function RepoRef(f: RepoForm, owner: string, repo: string, dotGit: bool): string
  {
    FormPrefix(f) + owner + "/" + repo + (if dotGit then ".git" else "")
  }

  /** A prefix that has a ':' with no '/' before it cannot start
      owner + "/" + ... when the owner has neither character. */
  lemma NotColonPrefix(p: string, j: nat, owner: string, rest: string)
    requires j < |p| && p[j] == ':'
    requires forall k :: 0 <= k < j ==> p[k] != '/'
    requires !Contains(owner, ":") && !Contains(owner, "/")
    ensures !(p <= owner + "/" + rest)
  {
    var s := owner + "/" + rest;
    if j < |owner| {
      NotContainsCharAt(owner, ':');
      assert s[j] != p[j];
    } else {
      assert s[|owner|] != p[|owner|];
    }
  }

  /** None of the three prefixes starts owner + "/" + repo. */
  lemma NoKnownPrefix(owner: string, repo: string)
    requires !Contains(owner, ":") && !Contains(owner, "/")
    ensures !(HttpsPrefix <= owner + "/" + repo)
    ensures !(HttpPrefix <= owner + "/" + repo)
    ensures !(SshPrefix <= owner + "/" + repo)
  {
    NotColonPrefix(HttpsPrefix, 5, owner, repo);
    NotColonPrefix(HttpPrefix, 4, owner, repo);
    NotColonPrefix(SshPrefix, 14, owner, repo);
  }

  /** The first '/' of owner + "/" + repo is the one after the owner. */
  lemma SplitAtOwner(owner: string, repo: string)
    requires !Contains(owner, "/")
    ensures IndexOf(owner + "/" + repo, "/") == Some(|owner|)
  {
    var s := owner + "/" + repo;
    assert OccursAt(s, "/", |owner|) by {
      assert s[|owner|..|owner| + 1] == "/";
    }
    forall j | 0 <= j < |owner| ensures !OccursAt(s, "/", j) {
      if OccursAt(s, "/", j) {
        assert s[j..j + 1] == owner[j..j + 1];
        ContainsWitness(owner, "/", j);
      }
    }
  }

  /** The prefix trimming of parseGitHubRepo strips exactly the form's
      prefix from a body that none of the prefixes starts. */
  lemma TrimFormPrefix(f: RepoForm, owner: string, repo: string)
    requires !Contains(owner, ":") && !Contains(owner, "/")
    ensures TrimPrefix(TrimPrefix(TrimPrefix(FormPrefix(f) + owner + "/" + repo, HttpsPrefix), HttpPrefix), SshPrefix)
            == owner + "/" + repo
  {
    var body := owner + "/" + repo;
    NoKnownPrefix(owner, repo);
    var x := FormPrefix(f) + owner + "/" + repo;
    assert x == FormPrefix(f) + body;
    match f
    case Https =>
      assert HttpsPrefix <= x;
      assert x[|HttpsPrefix|..] == body;
    case Http =>
      assert x[4] != HttpsPrefix[4];
      assert HttpPrefix <= x;
      assert x[|HttpPrefix|..] == body;
    case Ssh =>
      assert x[0] != HttpsPrefix[0];
      assert x[0] != HttpPrefix[0];
      assert SshPrefix <= x;
      assert x[|SshPrefix|..] == body;
    case Bare =>
      assert x == body;
  }

  /** Dropping ".git" from a reference leaves the reference without it. */
  lemma TrimDotGit(pre: string, repo: string, dotGit: bool)
    requires !dotGit ==> !HasSuffix(repo, ".git")
    ensures TrimSuffix(pre + "/" + repo + (if dotGit then ".git" else ""), ".git") == pre + "/" + repo
  {
    var y := pre + "/" + repo;
    var x := y + (if dotGit then ".git" else "");
    if dotGit {
      assert HasSuffix(x, ".git");
      assert x[..|x| - 4] == y;
    } else {
      assert x == y;
      assert !HasSuffix(x, ".git") by {
        if |repo| >= 4 {
          assert x[|x| - 4..] == repo[|repo| - 4..];
        } else if |x| >= 4 {
          var i := |x| - 1 - |repo|;
          assert x[i] == '/';
          assert x[|x| - 4..][i - (|x| - 4)] == '/';
          assert forall k :: 0 <= k < 4 ==> ".git"[k] != '/';
        }
      }
    }
  }

  /** The trimmed reference is the body of the repository reference. */
  function Trimmed(gitRepo: string): string
  {
    TrimPrefix(TrimPrefix(TrimPrefix(TrimSuffix(gitRepo, ".git"), HttpsPrefix), HttpPrefix), SshPrefix)
  }

  lemma ParseTrimmed(gitRepo: string, owner: string, repo: string)
    requires !Contains(owner, "/")
    requires Trimmed(gitRepo) == owner + "/" + repo
    ensures ParseGitHubRepo(gitRepo) == (owner, repo)
  {
    var body := owner + "/" + repo;
    SplitAtOwner(owner, repo);
    assert body[..|owner|] == owner;
    assert body[|owner| + 1..] == repo;
  }

  lemma TrimmedRepoRef(f: RepoForm, owner: string, repo: string, dotGit: bool)
    requires !Contains(owner, ":") && !Contains(owner, "/")
    requires !dotGit ==> !HasSuffix(repo, ".git")
    ensures Trimmed(RepoRef(f, owner, repo, dotGit)) == owner + "/" + repo
  {
    TrimDotGit(FormPrefix(f) + owner, repo, dotGit);
    TrimFormPrefix(f, owner, repo);
  }

  /** The accepted forms round-trip: an owner without '/' and ':' and any
      repository name come back out (the name must not itself end in ".git"
      when the reference has no ".git" suffix). */
  lemma ParseRepoRoundTrip(f: RepoForm, owner: string, repo: string, dotGit: bool)
    requires !Contains(owner, ":") && !Contains(owner, "/")
    requires !dotGit ==> !HasSuffix(repo, ".git")
    ensures ParseGitHubRepo(RepoRef(f, owner, repo, dotGit)) == (owner, repo)
  {
    TrimmedRepoRef(f, owner, repo, dotGit);
    ParseTrimmed(RepoRef(f, owner, repo, dotGit), owner, repo);
  }

  /** Without any '/' left after the prefixes there is no owner or repo. */
  lemma ParseRepoNoSlash(gitRepo: string)
    requires !Contains(gitRepo, "/")
    ensures ParseGitHubRepo(gitRepo) == ("", "")
  {
    var s0 := TrimSuffix(gitRepo, ".git");
    NotContainsSlice(gitRepo, "/", 0, |s0|);
    assert !Contains(s0, "/");
    assert !(HttpsPrefix <= s0) by {
      if HttpsPrefix <= s0 {
        assert s0[6..7] == HttpsPrefix[6..7];
        ContainsWitness(s0, "/", 6);
      }
    }
    assert !(HttpPrefix <= s0) by {
      if HttpPrefix <= s0 {
        assert s0[5..6] == HttpPrefix[5..6];
        ContainsWitness(s0, "/", 5);
      }
    }
    if SshPrefix <= s0 {
      NotContainsSlice(s0, "/", |SshPrefix|, |s0|);
      assert s0[|SshPrefix|..|s0|] == s0[|SshPrefix|..];
    }
  }

  // ---------------------------------------------------------------------
  // Paths
  // ---------------------------------------------------------------------

  /** toForwardSlash: every '\' becomes '/'. */
  function ToForwardSlash(p: string): string
  {
    ReplaceChar(p, '\\', "/")
  }

  /** Character by character: backslashes become slashes, nothing else
      changes, and the length stays the same. */
  lemma {:induction false} ToForwardSlashChars(p: string)
    ensures |ToForwardSlash(p)| == |p|
    ensures forall k :: 0 <= k < |p| ==>
              ToForwardSlash(p)[k] == (if p[k] == '\\' then '/' else p[k])
    decreases |p|
  {
    if |p| > 0 {
      ToForwardSlashChars(p[1..]);
    }
  }

  /** The result has no backslash, and a second pass changes nothing. */
  lemma ToForwardSlashFacts(p: string)
    ensures forall k :: 0 <= k < |ToForwardSlash(p)| ==> ToForwardSlash(p)[k] != '\\'
    ensures ToForwardSlash(ToForwardSlash(p)) == ToForwardSlash(p)
  {
    var q := ToForwardSlash(p);
    ToForwardSlashChars(p);
    ToForwardSlashChars(q);
  }

  newtype Byte = b: int | 0 <= b < 256

  /** The UTF-8 encoding of one character. */
  function Utf8Bytes(c: char): (r: seq<Byte>)
    ensures |r| == Utf8Len(c)
  {
    var n := c as int;
    if n < 0x80 then [n as Byte]
    else if n < 0x800 then [(0xC0 + n / 64) as Byte, (0x80 + n % 64) as Byte]
    else if n < 0x10000 then [(0xE0 + n / 4096) as Byte, (0x80 + n / 64 % 64) as Byte, (0x80 + n % 64) as Byte]
    else [(0xF0 + n / 262144) as Byte, (0x80 + n / 4096 % 64) as Byte, (0x80 + n / 64 % 64) as Byte, (0x80 + n % 64) as Byte]
  }

  function Utf8(s: string): seq<Byte>
    decreases |s|
  {
    if |s| == 0 then [] else Utf8Bytes(s[0]) + Utf8(s[1..])
  }

  /** The characters url.PathEscape leaves alone in a path segment: ASCII
      letters and digits, "-_.~", and "$&+:=@". Everything else, '/'
      included, is percent-encoded byte by byte. */
  predicate IsSegmentSafe(c: char)
  {
    ('a' <= c <= 'z') || ('A' <= c <= 'Z') || ('0' <= c <= '9')
    || c == '-' || c == '_' || c == '.' || c == '~'
    || c == '$' || c == '&' || c == '+' || c == ':' || c == '=' || c == '@'
  }

  function UpperHex(d: nat): char
    requires d < 16
  {
    "0123456789ABCDEF"[d]
  }

  /** "%XX" for one byte, upper-case hexadecimal. */
  function PercentByte(b: Byte): string
  {
    ['%', UpperHex(b as nat / 16), UpperHex(b as nat % 16)]
  }

  function PercentBytes(bs: seq<Byte>): string
    decreases |bs|
  {
    if |bs| == 0 then "" else PercentByte(bs[0]) + PercentBytes(bs[1..])
  }

  function EscapeChar(c: char): string
  {
    if IsSegmentSafe(c) then [c] else PercentBytes(Utf8Bytes(c))
  }

  /** url.PathEscape. */
  function PathEscape(s: string): string
    decreases |s|
  {
    if |s| == 0 then "" else EscapeChar(s[0]) + PathEscape(s[1..])
  }

  /** Characters an escaped segment is made of. */
  predicate IsEscapedChar(c: char)
  {
    IsSegmentSafe(c) || c == '%'
  }

  lemma PercentBytesChars(bs: seq<Byte>)
    ensures forall k :: 0 <= k < |PercentBytes(bs)| ==> IsEscapedChar(PercentBytes(bs)[k])
    decreases |bs|
  {
    if |bs| > 0 {
      PercentBytesChars(bs[1..]);
      var t := PercentBytes(bs);
      assert t == PercentByte(bs[0]) + PercentBytes(bs[1..]);
    }
  }

  /** An escaped segment consists only of safe characters and '%'; in
      particular it has no '/'. */
  lemma {:induction false} PathEscapeChars(s: string)
    ensures forall k :: 0 <= k < |PathEscape(s)| ==> IsEscapedChar(PathEscape(s)[k])
    ensures !Contains(PathEscape(s), "/")
    decreases |s|
  {
    if |s| > 0 {
      PathEscapeChars(s[1..]);
      PercentBytesChars(Utf8Bytes(s[0]));
      var e := EscapeChar(s[0]);
      assert forall k :: 0 <= k < |e| ==> IsEscapedChar(e[k]);
    }
    NotContainsChar(PathEscape(s), '/');
  }

  /** A segment of safe characters is left as it is. */
  lemma {:induction false} PathEscapeSafe(s: string)
    requires forall k :: 0 <= k < |s| ==> IsSegmentSafe(s[k])
    ensures PathEscape(s) == s
    decreases |s|
  {
    if |s| > 0 {
      PathEscapeSafe(s[1..]);
      assert s == [s[0]] + s[1..];
    }
  }

  function HexValue(c: char): Option<nat>
  {
    if '0' <= c <= '9' then Some(c as nat - '0' as nat)
    else if 'A' <= c <= 'F' then Some(c as nat - 'A' as nat + 10)
    else if 'a' <= c <= 'f' then Some(c as nat - 'a' as nat + 10)
    else None
  }

  /** The decoding direction: "%XX" gives one byte, any other ASCII
      character its own byte; anything else is malformed. */
  function PathUnescape(t: string): (r: Option<seq<Byte>>)
    decreases |t|
  {
    if |t| == 0 then Some([])
    else if t[0] == '%' then
      if |t| < 3 then None
      else match (HexValue(t[1]), HexValue(t[2]))
        case (Some(h), Some(l)) =>
          if h < 16 && l < 16 then
            match PathUnescape(t[3..])
            case Some(rest) => Some([(h * 16 + l) as Byte] + rest)
            case None => None
          else None
        case _ => None
    else if t[0] as int < 0x80 then
      match PathUnescape(t[1..])
      case Some(rest) => Some([t[0] as int as Byte] + rest)
      case None => None
    else None
  }

  lemma UpperHexValue(d: nat)
    requires d < 16
    ensures HexValue(UpperHex(d)) == Some(d)
  {
  }

  lemma UnescapePercentByte(b: Byte, t: string, rest: seq<Byte>)
    requires PathUnescape(t) == Some(rest)
    ensures PathUnescape(PercentByte(b) + t) == Some([b] + rest)
  {
    var u := PercentByte(b) + t;
    UpperHexValue(b as nat / 16);
    UpperHexValue(b as nat % 16);
    assert u[0] == '%' && u[1] == UpperHex(b as nat / 16) && u[2] == UpperHex(b as nat % 16);
    assert u[3..] == t;
  }

  lemma {:induction false} UnescapePercentBytes(bs: seq<Byte>, t: string, rest: seq<Byte>)
    requires PathUnescape(t) == Some(rest)
    ensures PathUnescape(PercentBytes(bs) + t) == Some(bs + rest)
    decreases |bs|
  {
    if |bs| > 0 {
      var tail := PercentBytes(bs[1..]);
      UnescapePercentBytes(bs[1..], t, rest);
      SeqAppendAssoc(PercentByte(bs[0]), tail, t);
      UnescapePercentByte(bs[0], tail + t, bs[1..] + rest);
      SeqAppendAssoc([bs[0]], bs[1..], rest);
      ConsSplit(bs);
    } else {
      assert PercentBytes(bs) + t == t;
      assert bs + rest == rest;
    }
  }

  lemma UnescapeEscapeChar(c: char, t: string, rest: seq<Byte>)
    requires PathUnescape(t) == Some(rest)
    ensures PathUnescape(EscapeChar(c) + t) == Some(Utf8Bytes(c) + rest)
  {
    if IsSegmentSafe(c) {
      var u := [c] + t;
      assert u[1..] == t;
    } else {
      UnescapePercentBytes(Utf8Bytes(c), t, rest);
    }
  }

  /** PathEscape is undone by decoding: the escaped segment decodes to the
      UTF-8 bytes of the original. */
  lemma {:induction false} PathEscapeRoundTrip(s: string)
    ensures PathUnescape(PathEscape(s)) == Some(Utf8(s))
    decreases |s|
  {
    if |s| > 0 {
      PathEscapeRoundTrip(s[1..]);
      UnescapeEscapeChar(s[0], PathEscape(s[1..]), Utf8(s[1..]));
    }
  }

  function EscapeAll(parts: seq<string>): (r: seq<string>)
    ensures |r| == |parts|
    ensures forall k :: 0 <= k < |parts| ==> r[k] == PathEscape(parts[k])
  {
    seq(|parts|, k requires 0 <= k < |parts| => PathEscape(parts[k]))
  }

  /** Texts that are the escapes of the pieces, position by position, are
      the escaped pieces. */
  lemma EscapedEach(a: seq<string>, pieces: seq<string>)
    requires |a| == |pieces|
    requires forall k :: 0 <= k < |a| ==> a[k] == PathEscape(pieces[k])
    ensures a == EscapeAll(pieces)
  {
    SameElements(a, EscapeAll(pieces));
  }

  /** The loop of encodePathSegments: every part is replaced by its
      escape, in place. */
  method EscapeInPlace(parts: array<string>)
    modifies parts
    ensures forall k :: 0 <= k < parts.Length ==> parts[k] == PathEscape(old(parts[k]))
  {
    for i := 0 to parts.Length
      invariant forall k :: 0 <= k < i ==> parts[k] == PathEscape(old(parts[k]))
      invariant forall k :: i <= k < parts.Length ==> parts[k] == old(parts[k])
    {
      parts[i] := PathEscape(parts[i]);
    }
  }

  /** encodePathSegments: split at '/', escape every part in place, join
      with '/' again. */
  method EncodePathSegments(filePath: string) returns (r: string)
    ensures r == Join(EscapeAll(Split(filePath, "/")), "/")
  {
    var pieces := Split(filePath, "/");
    var parts := new string[|pieces|](k requires 0 <= k < |pieces| => pieces[k]);
    EscapeInPlace(parts);
    EscapedEach(parts[..], pieces);
    r := Join(parts[..], "/");
  }

  /** The encoded path has the same segments, each escaped on its own, and
      so exactly as many '/' separators as the original. */
  lemma EncodedPathSegments(filePath: string)
    ensures Split(Join(EscapeAll(Split(filePath, "/")), "/"), "/") == EscapeAll(Split(filePath, "/"))
    ensures CountChar(Join(EscapeAll(Split(filePath, "/")), "/"), '/') == CountChar(filePath, '/')
  {
    var parts := EscapeAll(Split(filePath, "/"));
    forall k | 0 <= k < |parts| ensures !Contains(parts[k], "/") {
      PathEscapeChars(Split(filePath, "/")[k]);
    }
    SplitJoinChar(parts, "/");
    SplitCountChar(Join(parts, "/"), '/');
    SplitCountChar(filePath, '/');
  }

  // ---------------------------------------------------------------------
  // The publisher
  // ---------------------------------------------------------------------

  /** The configuration a GitHubPublisher carries; it never changes after
      construction. */
  datatype Publisher = Publisher(contentDir: string, token: string, owner: string, repo: string, branch: string)

  /** NewGitHubPublisher: owner and repo from the repository reference, the
      branch "main" unless one is configured; the token is the value of
      GITHUB_TOKEN, passed in. */
  function NewGitHubPublisher(gitRepo: string, gitBranch: string, contentDir: string, token: string): (p: Publisher)
    ensures (p.owner, p.repo) == ParseGitHubRepo(gitRepo)
    ensures gitBranch == "" ==> p.branch == "main"
    ensures gitBranch != "" ==> p.branch == gitBranch
    ensures p.token == token && p.contentDir == contentDir
  {
    Publisher(contentDir, token, ParseGitHubRepo(gitRepo).0, ParseGitHubRepo(gitRepo).1,
              if gitBranch == "" then "main" else gitBranch)
  }

  predicate IsAvailable(p: Publisher)
  {
    p.token != "" && p.owner != "" && p.repo != ""
  }

  /** A publisher built from a token and a repository reference in any
      accepted form, with non-empty owner and name, is available; one built
      from a reference without '/' or without a token never is. */
  lemma AvailableFromRepoRef(f: RepoForm, owner: string, repo: string, dotGit: bool,
                             gitBranch: string, contentDir: string, token: string)
    requires !Contains(owner, ":") && !Contains(owner, "/")
    requires !dotGit ==> !HasSuffix(repo, ".git")
    ensures IsAvailable(NewGitHubPublisher(RepoRef(f, owner, repo, dotGit), gitBranch, contentDir, token))
            <==> token != "" && owner != "" && repo != ""
  {
    ParseRepoRoundTrip(f, owner, repo, dotGit);
  }

  lemma UnavailableWithoutSlash(gitRepo: string, gitBranch: string, contentDir: string, token: string)
    requires !Contains(gitRepo, "/")
    ensures !IsAvailable(NewGitHubPublisher(gitRepo, gitBranch, contentDir, token))
  {
    ParseRepoNoSlash(gitRepo);
  }

  const NotConfigured := "GitHub publisher not configured (GITHUB_TOKEN not set)"

  datatype TreeEntry = TreeEntry(path: string, mode: string, kind: string, content: string)

  /** The REST requests the publisher makes. */
  datatype Request =
    | GetContents(path: string, branch: string)
    | PutContents(path: string, message: string, content: string, branch: string, sha: string)
    | GetRef(branch: string)
    | GetCommit(sha: string)
    | CreateTree(baseTree: string, entries: seq<TreeEntry>)
    | CreateCommit(message: string, tree: string, parents: seq<string>)
    | UpdateRef(branch: string, sha: string)

  /** What a request comes back with: a failed request (transport error or
      an HTTP status of 400 and above), a body that does not decode, or the
      SHA the decoded body carries. */
  datatype Response = Failed(msg: string) | Unparsable(msg: string) | Sha(sha: string)

  datatype TreeFile = TreeFile(path: string, content: string)

  /** One tree entry per file: a regular file blob with its content. */
  function Entries(files: seq<TreeFile>): (r: seq<TreeEntry>)
    ensures |r| == |files|
    ensures forall k :: 0 <= k < |files| ==>
              r[k] == TreeEntry(files[k].path, "100644", "blob", files[k].content)
  {
    seq(|files|, k requires 0 <= k < |files| => TreeEntry(files[k].path, "100644", "blob", files[k].content))
  }

  /** The error a failed step reports, "<step>: ..." or "parse <what>: ...". */
  function StepError(step: string, what: string, r: Response): string
    requires !r.Sha?
  {
    if r.Failed? then step + ": " + r.msg else "parse " + what + ": " + r.msg
  }

  /** The five-step protocol of commitMultipleFiles, as a relation between
      the responses and what was sent and returned: get the branch ref, get
      its commit, create a tree over the commit's tree, create a commit with
      the ref's commit as parent, move the ref; each request is sent only
      when every earlier one succeeded, and the first failure is the error. */
  predicate FollowsProtocol(p: Publisher, files: seq<TreeFile>, message: string, api: Request -> Response,
                            err: Option<string>, sent: seq<Request>)
  {
    && 1 <= |sent| <= 5
    && sent[0] == GetRef(p.branch)
    && (|sent| >= 2 ==> api(sent[0]).Sha? && sent[1] == GetCommit(api(sent[0]).sha))
    && (|sent| >= 3 ==> api(sent[1]).Sha? && sent[2] == CreateTree(api(sent[1]).sha, Entries(files)))
    && (|sent| >= 4 ==> api(sent[2]).Sha? && sent[3] == CreateCommit(message, api(sent[2]).sha, [api(sent[0]).sha]))
    && (|sent| == 5 ==> api(sent[3]).Sha? && sent[4] == UpdateRef(p.branch, api(sent[3]).sha))
    && (|sent| < 5 ==> !api(sent[|sent| - 1]).Sha?)
    && (|sent| == 1 ==> err == Some(StepError("get ref", "ref", api(sent[0]))))
    && (|sent| == 2 ==> err == Some(StepError("get commit", "commit", api(sent[1]))))
    && (|sent| == 3 ==> err == Some(StepError("create tree", "tree", api(sent[2]))))
    && (|sent| == 4 ==> err == Some(StepError("create commit", "commit", api(sent[3]))))
    && (|sent| == 5 ==> err == (if api(sent[4]).Failed? then Some("update ref: " + api(sent[4]).msg) else None))
  }

  /** commitMultipleFiles. */
  method CommitMultipleFiles(p: Publisher, files: seq<TreeFile>, message: string, api: Request -> Response)
    returns (err: Option<string>, sent: seq<Request>)
    ensures FollowsProtocol(p, files, message, api, err, sent)
  {
    var getRef := GetRef(p.branch);
    sent := [getRef];
    var ref := api(getRef);
    if !ref.Sha? {
      return Some(StepError("get ref", "ref", ref)), sent;
    }
    var latestCommit := ref.sha;
    var getCommit := GetCommit(latestCommit);
    sent := sent + [getCommit];
    var commit := api(getCommit);
    if !commit.Sha? {
      return Some(StepError("get commit", "commit", commit)), sent;
    }
    var baseTree := commit.sha;
    var entries: seq<TreeEntry> := [];
    for i := 0 to |files|
      invariant entries == Entries(files[..i])
    {
      entries := entries + [TreeEntry(files[i].path, "100644", "blob", files[i].content)];
    }
    WholePrefix(files);
    var createTree := CreateTree(baseTree, entries);
    sent := sent + [createTree];
    var tree := api(createTree);
    if !tree.Sha? {
      return Some(StepError("create tree", "tree", tree)), sent;
    }
    var createCommit := CreateCommit(message, tree.sha, [latestCommit]);
    sent := sent + [createCommit];
    var newCommit := api(createCommit);
    if !newCommit.Sha? {
      return Some(StepError("create commit", "commit", newCommit)), sent;
    }
    var updateRef := UpdateRef(p.branch, newCommit.sha);
    sent := sent + [updateRef];
    var updated := api(updateRef);
    if updated.Failed? {
      return Some("update ref: " + updated.msg), sent;
    }
    err := None;
  }

  /** The protocol fixes the outcome: whatever satisfies it for the same
      responses sent the same requests and returned the same error. */
  lemma ProtocolDeterminate(p: Publisher, files: seq<TreeFile>, message: string, api: Request -> Response,
                            err1: Option<string>, sent1: seq<Request>, err2: Option<string>, sent2: seq<Request>)
    requires FollowsProtocol(p, files, message, api, err1, sent1)
    requires FollowsProtocol(p, files, message, api, err2, sent2)
    ensures sent1 == sent2 && err1 == err2
  {
    var n := if |sent1| < |sent2| then |sent1| else |sent2|;
    assert forall k :: 0 <= k < n ==> sent1[k] == sent2[k];
    assert |sent1| == |sent2|;
  }

  /** The branch ref moves only after all four earlier steps succeeded, and
      the publication succeeds only if it moved. */
  lemma RefMovesLast(p: Publisher, files: seq<TreeFile>, message: string, api: Request -> Response,
                     err: Option<string>, sent: seq<Request>)
    requires FollowsProtocol(p, files, message, api, err, sent)
    ensures err.None? ==> |sent| == 5 && sent[4].UpdateRef? && !api(sent[4]).Failed?
    ensures forall k :: 0 <= k < |sent| && sent[k].UpdateRef? ==>
              k == 4 && forall j :: 0 <= j < 4 ==> api(sent[j]).Sha?
  {
  }

  /** The files of PublishMultiple: one per present article, in order, at
      its forward-slash path with its formatted markdown. */
  function TreeFiles(p: Publisher, articles: seq<Option<Article>>): seq<TreeFile>
    decreases |articles|
  {
    if |articles| == 0 then []
    else
      var rest := TreeFiles(p, articles[..|articles| - 1]);
      match articles[|articles| - 1]
      case None => rest
      case Some(a) => rest + [FileOf(p, a)]
  }

  /** The file an article becomes: its forward-slash path under the
      content directory, holding its formatted markdown. */
  function FileOf(p: Publisher, a: Article): (f: TreeFile)
    ensures forall j :: 0 <= j < |f.path| ==> f.path[j] != '\\'
  {
    ToForwardSlashFacts(Formatter.GetFilePath(a, p.contentDir));
    TreeFile(ToForwardSlash(Formatter.GetFilePath(a, p.contentDir)), Formatter.Markdown(a))
  }

  /** The present articles of the list, in order. */
  function Present(articles: seq<Option<Article>>): (r: seq<Article>)
    ensures |r| <= |articles|
    ensures forall a :: a in r <==> Some(a) in articles
    decreases |articles|
  {
    if |articles| == 0 then []
    else
      var init := articles[..|articles| - 1];
      assert articles == init + [articles[|articles| - 1]];
      Present(init) + (if articles[|articles| - 1].Some? then [articles[|articles| - 1].value] else [])
  }

  /** Absent articles are skipped: the k-th file belongs to the k-th
      present article, at its forward-slash path under the content
      directory and holding its markdown; no path holds a backslash. */
  lemma {:induction false} TreeFilesShape(p: Publisher, articles: seq<Option<Article>>)
    ensures |TreeFiles(p, articles)| == |Present(articles)|
    ensures forall k :: 0 <= k < |TreeFiles(p, articles)| ==> TreeFiles(p, articles)[k] == FileOf(p, Present(articles)[k])
    ensures forall k :: 0 <= k < |TreeFiles(p, articles)| ==>
              forall j :: 0 <= j < |TreeFiles(p, articles)[k].path| ==> TreeFiles(p, articles)[k].path[j] != '\\'
    decreases |articles|
  {
    if |articles| > 0 {
      var init := articles[..|articles| - 1];
      TreeFilesShape(p, init);
      var files, present := TreeFiles(p, init), Present(init);
      match articles[|articles| - 1]
      case None =>
        assert TreeFiles(p, articles) == files;
        assert Present(articles) == present;
      case Some(a) =>
        assert TreeFiles(p, articles) == files + [FileOf(p, a)];
        assert Present(articles) == present + [a];
        FilesSnoc(p, files, present, a);
    }
  }

  lemma FilesSnoc(p: Publisher, files: seq<TreeFile>, present: seq<Article>, a: Article)
    requires |files| == |present|
    requires forall k :: 0 <= k < |files| ==> files[k] == FileOf(p, present[k])
    ensures forall k :: 0 <= k < |files| + 1 ==> (files + [FileOf(p, a)])[k] == FileOf(p, (present + [a])[k])
  {
  }



  function BatchMessage(n: nat): string
  {
    "Add " + NatToString(n) + " new articles"
  }

  /** PublishMultiple: not configured is an error before any request; an
      empty list is no error and no request; otherwise one commit carrying a
      file per present article, its message counting every entry of the
      list, absent ones included. */
  method PublishMultiple(p: Publisher, articles: seq<Option<Article>>, api: Request -> Response)
    returns (err: Option<string>, sent: seq<Request>)
    ensures !IsAvailable(p) ==> err == Some(NotConfigured) && sent == []
    ensures IsAvailable(p) && |articles| == 0 ==> err.None? && sent == []
    ensures IsAvailable(p) && |articles| > 0 ==>
              FollowsProtocol(p, TreeFiles(p, articles), BatchMessage(|articles|), api, err, sent)
  {
    if !IsAvailable(p) {
      return Some(NotConfigured), [];
    }
    if |articles| == 0 {
      return None, [];
    }
    var files: seq<TreeFile> := [];
    for i := 0 to |articles|
      invariant files == TreeFiles(p, articles[..i])
    {
      PrefixStep(articles, i);
      if articles[i].None? {
        continue;
      }
      var a := articles[i].value;
      var content := Formatter.Format(a);
      var filePath := ToForwardSlash(Formatter.GetFilePath(a, p.contentDir));
      files := files + [TreeFile(filePath, content)];
    }
    WholePrefix(articles);
    err, sent := CommitMultipleFiles(p, files, BatchMessage(|articles|), api);
  }

  /** Publish: a single article through the contents API. A missing
      article, then a publisher that is not configured, are errors before any
      request; otherwise the file's current SHA is looked up (a failed or
      undecodable lookup means a new file) and the file is written. */
  method Publish(p: Publisher, article: Option<Article>, api: Request -> Response)
    returns (err: Option<string>, sent: seq<Request>)
    ensures article.None? ==> err == Some("article cannot be nil") && sent == []
    ensures article.Some? && !IsAvailable(p) ==> err == Some(NotConfigured) && sent == []
    ensures article.Some? && IsAvailable(p) ==>
              var a := article.value;
              var path := ToForwardSlash(Formatter.GetFilePath(a, p.contentDir));
              var encoded := Join(EscapeAll(Split(path, "/")), "/");
              var lookup := api(GetContents(encoded, p.branch));
              var put := PutContents(encoded, "Add article: " + Formatter.DisplayTitle(a), Formatter.Markdown(a),
                                     p.branch, if lookup.Sha? then lookup.sha else "");
              && sent == [GetContents(encoded, p.branch), put]
              && err == (if api(put).Failed? then Some("failed to push " + path + ": " + api(put).msg) else None)
  {
    if article.None? {
      return Some("article cannot be nil"), [];
    }
    if !IsAvailable(p) {
      return Some(NotConfigured), [];
    }
    var a := article.value;
    var content := Formatter.Format(a);
    var filePath := ToForwardSlash(Formatter.GetFilePath(a, p.contentDir));
    var message := "Add article: " + a.titleRU;
    if a.titleRU == "" {
      message := "Add article: " + a.title;
    }
    err, sent := PutFile(p, filePath, content, message, api);
    if err.Some? {
      err := Some("failed to push " + filePath + ": " + err.value);
    }
  }

  /** putFile: look up the existing file's SHA, then write with it (an empty
      SHA is left out of the request). */
  method PutFile(p: Publisher, filePath: string, content: string, message: string, api: Request -> Response)
    returns (err: Option<string>, sent: seq<Request>)
    ensures var encoded := Join(EscapeAll(Split(filePath, "/")), "/");
            var lookup := api(GetContents(encoded, p.branch));
            var put := PutContents(encoded, message, content, p.branch, if lookup.Sha? then lookup.sha else "");
            && sent == [GetContents(encoded, p.branch), put]
            && err == (if api(put).Failed? then Some(api(put).msg) else None)
  {
    var encoded := EncodePathSegments(filePath);
    var get := GetContents(encoded, p.branch);
    var existing := "";
    var lookup := api(get);
    if lookup.Sha? {
      existing := lookup.sha;
    }
    var put := PutContents(encoded, message, content, p.branch, existing);
    sent := [get, put];
    var written := api(put);
    err := if written.Failed? then Some(written.msg) else None;
  }
}
