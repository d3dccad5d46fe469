/** The GitHub Discussions tools of the agents
    (agents/tools/github_discussions.py): request headers, the GraphQL
    payload and its error rule, the category filter and text of
    list_discussions, and the input checks and category lookup of
    create_discussion_comment and create_discussion. Each GraphQL exchange
    is an input; the calls a tool makes are recorded in order. */
module Discussions {
  import opened StrUtil

  /** A raised exception: ValueError, or any other kind. */
  datatype Failure = ValueError(msg: string) | OtherError(msg: string)

  /** A value, or the exception raised instead. */
  datatype Outcome<T> = Done(value: T) | Raised(failure: Failure)

  const TokenMissing := "GITHUB_TOKEN environment variable is not set"

  // ---------------------------------------------------------------------
  // _get_headers and _graphql_query
  // ---------------------------------------------------------------------

  /** _get_headers, from the GITHUB_TOKEN environment variable. */
  function Headers(token: string): (r: Outcome<seq<(string, string)>>)
    ensures r.Raised? <==> token == ""
    ensures r.Raised? ==> r.failure == ValueError(TokenMissing)
    ensures r.Done? ==> ("Authorization", "Bearer " + token) in r.value
  {
    if token == "" then Raised(ValueError(TokenMissing))
    else Done([("Authorization", "Bearer " + token), ("Content-Type", "application/json")])
  }

  datatype VarValue = Str(s: string) | Int(i: int)

  /** The JSON body of a GraphQL request. */
  datatype Payload = Payload(query: string, variables: Option<map<string, VarValue>>)

  function MakePayload(query: string, variables: map<string, VarValue>): (p: Payload)
    ensures p.query == query
    ensures p.variables.Some? <==> |variables| > 0
    ensures p.variables.Some? ==> p.variables.value == variables
  {
    if |variables| > 0 then Payload(query, Some(variables)) else Payload(query, None)
  }

  /** The HTTP answer to a GraphQL request: its status, the "errors" member
      if present, and the "data" member. */
  datatype Reply<T> = Reply(status: nat, errors: Option<string>, data: T)

  /** _graphql_query: the payload, then the headers (no request without a
      token), then the status check (raise_for_status rejects every status
      outside 200-299, redirects included), then the "errors" rule. The second
      component lists the payloads sent. */
  function GraphqlQuery<T>(query: string, variables: map<string, VarValue>, token: string,
                           post: Payload -> Reply<T>): (Outcome<T>, seq<Payload>)
  {
    var payload := MakePayload(query, variables);
    match Headers(token)
    case Raised(f) => (Raised(f), [])
    case Done(_) =>
      var reply := post(payload);
      if reply.status < 200 || reply.status >= 300 then (Raised(OtherError("HTTP status " + NatToString(reply.status))), [payload])
      else if reply.errors.Some? then (Raised(OtherError("GraphQL errors: " + reply.errors.value)), [payload])
      else (Done(reply.data), [payload])
  }

  /** Without a token nothing is sent; otherwise exactly one payload is
      sent, carrying variables only when there are some; a status outside
      200-299 is raised; a successful answer with "errors" is raised even
      when it has data. */
  lemma GraphqlQueryFacts<T>(query: string, variables: map<string, VarValue>, token: string, post: Payload -> Reply<T>)
    ensures var (r, sent) := GraphqlQuery(query, variables, token, post);
      && (token == "" ==> sent == [] && r == Raised(ValueError(TokenMissing)))
      && (token != "" ==> sent == [MakePayload(query, variables)])
      && (token != "" && !(200 <= post(MakePayload(query, variables)).status < 300) ==>
            r == Raised(OtherError("HTTP status " + NatToString(post(MakePayload(query, variables)).status))))
      && (token != "" && 200 <= post(MakePayload(query, variables)).status < 300
          && post(MakePayload(query, variables)).errors.Some? ==>
            r == Raised(OtherError("GraphQL errors: " + post(MakePayload(query, variables)).errors.value)))
      && (r.Done? ==>
            && 200 <= post(MakePayload(query, variables)).status < 300
            && post(MakePayload(query, variables)).errors.None?
            && r.value == post(MakePayload(query, variables)).data)
  {
  }

  // ---------------------------------------------------------------------
  // Repositories
  // ---------------------------------------------------------------------

  /** `owner, name = repo.split("/")`: exactly two pieces, else ValueError. */
  function SplitRepo(repo: string): (r: Outcome<(string, string)>)
    ensures r.Done? <==> |Split(repo, "/")| == 2
    ensures r.Done? ==> r.value.0 + "/" + r.value.1 == repo
  {
    var parts := Split(repo, "/");
    if |parts| == 2 then
      JoinSplit(repo, "/");
      Done((parts[0], parts[1]))
    else Raised(ValueError("wrong number of values to unpack"))
  }

  // ---------------------------------------------------------------------
  // list_discussions
  // ---------------------------------------------------------------------

  datatype DiscussionNode = DiscussionNode(
    number: int, title: string, body: Option<string>, author: Option<string>,
    createdAt: string, commentCount: int, category: string, url: string)

  /** Category names compare case-insensitively. */
  predicate SameCategory(a: string, b: string)
  {
    ToLower(a) == ToLower(b)
  }

  /** The discussions of the category, in their order; no filter for an
      empty category. */
  function InCategory(ds: seq<DiscussionNode>, category: string): seq<DiscussionNode>
  {
    if category == "" || |ds| == 0 then ds
    else if SameCategory(ds[|ds| - 1].category, category) then InCategory(ds[..|ds| - 1], category) + [ds[|ds| - 1]]
    else InCategory(ds[..|ds| - 1], category)
  }

  /** Exactly the discussions of the category are kept, and in order: the
      kept list is the input with the others removed. */
  lemma {:induction false} InCategoryMembers(ds: seq<DiscussionNode>, category: string)
    requires category != ""
    ensures var r := InCategory(ds, category);
      && (forall d :: d in r <==> d in ds && SameCategory(d.category, category))
      && |r| <= |ds|
    decreases |ds|
  {
    if |ds| > 0 {
      InCategoryMembers(ds[..|ds| - 1], category);
      SnocSplit(ds);
    }
  }

  /** The filter distributes over concatenation: it keeps the order of
      the discussions it lets through. */
  lemma {:induction false} InCategoryConcat(a: seq<DiscussionNode>, b: seq<DiscussionNode>, category: string)
    ensures InCategory(a + b, category) == InCategory(a, category) + InCategory(b, category)
    decreases |b|
  {
    if category == "" {
    } else if |b| > 0 {
      var init := b[..|b| - 1];
      InCategoryConcat(a, init, category);
      SnocSplit(b);
      SeqAppendAssoc(a, init, [b[|b| - 1]]);
      assert (a + b)[..|a + b| - 1] == a + init;
      assert (a + b)[|a + b| - 1] == b[|b| - 1];
    } else {
      assert a + b == a;
    }
  }

  /** One discussion is kept exactly when no category is asked for or its
      category matches; with InCategoryConcat this fixes the result for
      every list. */
  lemma InCategorySingle(d: DiscussionNode, category: string)
    ensures InCategory([d], category) == if category == "" || SameCategory(d.category, category) then [d] else []
  {
    assert [d][..0] == [];
  }

  function ListHeader(repo: string, category: string): string
  {
    "=== GitHub Discussions (" + repo + ") — " + category + " ===\n\n"
  }

  function NoneFound(category: string): string
  {
    "No discussions found in category '" + category + "'"
  }

  /** The text block of one discussion; the body is cut to 200 characters. */
  function Entry(d: DiscussionNode): string
  {
    "#" + IntToString(d.number) + ": " + d.title + "\n"
    + "  Author: " + (if d.author.Some? then d.author.value else "unknown") + "\n"
    + "  Created: " + d.createdAt + "\n"
    + "  Comments: " + IntToString(d.commentCount) + "\n"
    + "  URL: " + d.url + "\n"
    + (if d.body.Some? && d.body.value != "" then "  Body: " + Take(d.body.value, 200) + "...\n" else "")
    + "\n"
  }

  function Entries(ds: seq<DiscussionNode>): string
  {
    if |ds| == 0 then "" else Entries(ds[..|ds| - 1]) + Entry(ds[|ds| - 1])
  }

  lemma EntriesStep(ds: seq<DiscussionNode>, i: nat)
    requires i < |ds|
    ensures Entries(ds[..i + 1]) == Entries(ds[..i]) + Entry(ds[i])
  {
    PrefixStep(ds, i);
  }

  /** The loop that builds the listing. */
  method FormatListing(repo: string, category: string, ds: seq<DiscussionNode>) returns (result: string)
    ensures result == ListHeader(repo, category) + Entries(ds)
  {
    result := ListHeader(repo, category);
    var i := 0;
    while i < |ds|
      invariant 0 <= i <= |ds|
      invariant result == ListHeader(repo, category) + Entries(ds[..i])
    {
      var entry := Entry(ds[i]);
      EntriesStep(ds, i);
      AppendAssoc(ListHeader(repo, category), Entries(ds[..i]), entry);
      result := result + entry;
      i := i + 1;
    }
    WholePrefix(ds);
  }

  /** list_discussions, given what the query returned: the error texts, the
      "none found" text, or the listing. A bad repository name is raised. */
  function ListDiscussions(repo: string, category: string, fetched: Outcome<seq<DiscussionNode>>): Outcome<string>
  {
    match SplitRepo(repo)
    case Raised(f) => Raised(f)
    case Done(_) =>
      match fetched
      case Raised(ValueError(m)) => Done("Error: " + m + " — Set GITHUB_TOKEN to use this tool.")
      case Raised(OtherError(m)) => Done("Error listing discussions: " + m)
      case Done(ds) =>
        var kept := InCategory(ds, category);
        if |kept| == 0 then Done(NoneFound(category))
        else Done(ListHeader(repo, category) + Entries(kept))
  }

  /** The "none found" text comes exactly when no discussion is of the
      category; otherwise the listing opens with its header. */
  lemma ListDiscussionsFacts(repo: string, category: string, ds: seq<DiscussionNode>)
    requires SplitRepo(repo).Done?
    ensures var r := ListDiscussions(repo, category, Done(ds));
      && r.Done?
      && (r.value == NoneFound(category) <==> |InCategory(ds, category)| == 0)
      && (|InCategory(ds, category)| > 0 ==> ListHeader(repo, category) <= r.value)
  {
    var r := ListDiscussions(repo, category, Done(ds));
    if |InCategory(ds, category)| > 0 {
      assert r.value[0] == '=';
      assert NoneFound(category)[0] == 'N';
    }
  }

  // ---------------------------------------------------------------------
  // Writing: comments and new discussions
  // ---------------------------------------------------------------------

  datatype Category = Category(id: string, name: string)

  /** The GraphQL calls the writing tools make. */
  datatype Call =
    | DiscussionIdQuery(owner: string, name: string, number: int)
    | AddComment(discussionId: string, body: string)
    | CategoriesQuery(owner: string, name: string)
    | RepoIdQuery(owner: string, name: string)
    | CreateDiscussion(repoId: string, categoryId: string, title: string, body: string)

  /** The answers of the GraphQL exchanges, each the data the tool reads or
      the exception raised. */
  datatype Api = Api(
    discussionId: (string, string, int) -> Outcome<string>,
    addComment: (string, string) -> Outcome<Option<string>>,
    categories: (string, string) -> Outcome<seq<Category>>,
    repoId: (string, string) -> Outcome<string>,
    createDiscussion: (string, string, string, string) -> Outcome<(int, string)>)

  predicate Blank(s: string)
  {
    Strip(s) == ""
  }

  /** create_discussion_comment. */
  method CreateDiscussionComment(repo: string, number: int, body: string, api: Api)
    returns (result: Outcome<string>, calls: seq<Call>)
    ensures Blank(body) ==> result == Done("Error: comment_body cannot be empty") && calls == []
    ensures !Blank(body) && SplitRepo(repo).Raised? ==> result.Raised? && calls == []
    ensures !Blank(body) && SplitRepo(repo).Done? ==>
      var (owner, name) := SplitRepo(repo).value;
      && 1 <= |calls| <= 2
      && calls[0] == DiscussionIdQuery(owner, name, number)
      && (|calls| == 2 <==> api.discussionId(owner, name, number).Done?)
      && (|calls| == 2 ==> calls[1] == AddComment(api.discussionId(owner, name, number).value, body))
      && CommentOutcome(owner, name, number, body, api, result)
  {
    calls := [];
    if Blank(body) {
      return Done("Error: comment_body cannot be empty"), calls;
    }
    var split := SplitRepo(repo);
    if split.Raised? {
      return Raised(split.failure), calls;
    }
    var (owner, name) := split.value;
    calls := calls + [DiscussionIdQuery(owner, name, number)];
    var id := api.discussionId(owner, name, number);
    if id.Raised? {
      return Done(CaughtText(id.failure, "Error posting comment: ")), calls;
    }
    calls := calls + [AddComment(id.value, body)];
    var posted := api.addComment(id.value, body);
    if posted.Raised? {
      return Done(CaughtText(posted.failure, "Error posting comment: ")), calls;
    }
    var url := if posted.value.Some? then posted.value.value else "N/A";
    result := Done("Comment posted successfully! URL: " + url);
  }

  /** What create_discussion_comment returns once the body is not blank and
      the repository splits: the caught text of a failed id query or of a
      failed post, otherwise the comment's URL, "N/A" when the answer has
      none. */
  predicate CommentOutcome(owner: string, name: string, number: int, body: string, api: Api, result: Outcome<string>)
  {
    match api.discussionId(owner, name, number)
    case Raised(f) => result == Done(CaughtText(f, "Error posting comment: "))
    case Done(id) =>
      match api.addComment(id, body)
      case Raised(f) => result == Done(CaughtText(f, "Error posting comment: "))
      case Done(url) =>
        result == Done("Comment posted successfully! URL: " + (if url.Some? then url.value else "N/A"))
  }

  /** The text of a caught exception: "Error: " for ValueError, the tool's
      own prefix for any other. */
  function CaughtText(f: Failure, otherPrefix: string): string
  {
    match f
    case ValueError(m) => "Error: " + m
    case OtherError(m) => otherPrefix + m
  }

  /** Index j holds the first category whose name matches. */
  predicate FirstMatchAt(categories: seq<Category>, category: string, j: int)
  {
    && 0 <= j < |categories|
    && SameCategory(categories[j].name, category)
    && forall k :: 0 <= k < j ==> !SameCategory(categories[k].name, category)
  }

  predicate NoMatch(categories: seq<Category>, category: string)
  {
    forall k :: 0 <= k < |categories| ==> !SameCategory(categories[k].name, category)
  }

  /** The loop with `break` that looks the category up by name. */
  method FindCategory(categories: seq<Category>, category: string) returns (found: Option<nat>)
    ensures found.Some? ==> FirstMatchAt(categories, category, found.value)
    ensures found.None? <==> NoMatch(categories, category)
  {
    found := None;
    var i := 0;
    while i < |categories|
      invariant 0 <= i <= |categories|
      invariant forall k :: 0 <= k < i ==> !SameCategory(categories[k].name, category)
    {
      if SameCategory(categories[i].name, category) {
        found := Some(i);
        return;
      }
      i := i + 1;
    }
  }

  /** Python's repr of a list of strings (names without quotes). */
  function NameList(names: seq<string>): string
  {
    "[" + Join(Quoted(names), ", ") + "]"
  }

  function Quoted(names: seq<string>): (r: seq<string>)
    ensures |r| == |names|
  {
    if |names| == 0 then [] else ["'" + names[0] + "'"] + Quoted(names[1..])
  }

  function Names(categories: seq<Category>): (r: seq<string>)
    ensures |r| == |categories|
    ensures forall k :: 0 <= k < |r| ==> r[k] == categories[k].name
  {
    if |categories| == 0 then [] else [categories[0].name] + Names(categories[1..])
  }

  predicate IsCreate(c: Call)
  {
    c.CreateDiscussion?
  }

  /** Every create request among the calls is the last call, carries the
      given title and body, and uses the id of the first category whose
      name matches. */
  predicate CreatesOnlyInMatch(calls: seq<Call>, cats: seq<Category>, category: string, title: string, body: string)
  {
    forall k :: 0 <= k < |calls| && IsCreate(calls[k]) ==>
      && k == |calls| - 1
      && calls[k].title == title && calls[k].body == body
      && exists j :: 0 <= j < |cats| && FirstMatchAt(cats, category, j) && cats[j].id == calls[k].categoryId
  }

  /** The answer when no category matches by name. */
  function NotFoundText(category: string, cats: seq<Category>): (r: string)
    ensures |r| > |category|
  {
    "Category '" + category + "' not found. Available: " + NameList(Names(cats))
  }

  /** What the try block of create_discussion does with the answers `api`
      gives: the categories query comes first and a failure there is the
      whole answer; with no match, or a first match whose id is empty, the
      answer lists the available categories; otherwise the repository id
      is asked for next, and once it answers the discussion is created in
      the first matching category with the given title and body. Every
      failure is caught and reported with the same prefix, and success
      reports the new number and URL. */
  predicate CreateOutcome(owner: string, name: string, title: string, body: string, category: string,
                          api: Api, result: Outcome<string>, calls: seq<Call>)
  {
    var cats := api.categories(owner, name);
    && 1 <= |calls| <= 3 && calls[0] == CategoriesQuery(owner, name)
    && (cats.Raised? ==>
          |calls| == 1 && result == Done(CaughtText(cats.failure, "Error creating discussion: ")))
    && (cats.Done? && NoMatch(cats.value, category) ==>
          |calls| == 1 && result == Done(NotFoundText(category, cats.value)))
    && (cats.Done? ==> CreatesOnlyInMatch(calls, cats.value, category, title, body))
    && (cats.Done? ==> forall j :: 0 <= j < |cats.value| && FirstMatchAt(cats.value, category, j) ==>
          CreateAfterMatch(owner, name, title, body, category, cats.value, cats.value[j].id, api, result, calls))
  }

  /** The rest of create_discussion once the first matching category is
      known to have id `id`. */
  predicate CreateAfterMatch(owner: string, name: string, title: string, body: string, category: string,
                             cats: seq<Category>, id: string, api: Api, result: Outcome<string>, calls: seq<Call>)
  {
    && (id == "" ==> |calls| == 1 && result == Done(NotFoundText(category, cats)))
    && (id != "" ==>
          && 2 <= |calls| && calls[1] == RepoIdQuery(owner, name)
          && match api.repoId(owner, name)
             case Raised(f) => |calls| == 2 && result == Done(CaughtText(f, "Error creating discussion: "))
             case Done(rid) =>
               && |calls| == 3 && calls[2] == CreateDiscussion(rid, id, title, body)
               && match api.createDiscussion(rid, id, title, body)
                  case Raised(f) => result == Done(CaughtText(f, "Error creating discussion: "))
                  case Done(created) =>
                    result == Done("Discussion created: #" + IntToString(created.0) + " — " + created.1))
  }

  /** create_discussion: blank input is refused before any request; the
      category is the first one matching by name; with no match (or an
      empty id) the answer names the available categories and nothing is
      created; otherwise the discussion is created in that category. */
  method CreateDiscussionTool(repo: string, title: string, body: string, category: string, api: Api)
    returns (result: Outcome<string>, calls: seq<Call>)
    ensures Blank(title) || Blank(body) ==> result == Done("Error: title and body cannot be empty") && calls == []
    ensures !Blank(title) && !Blank(body) && SplitRepo(repo).Raised? ==> result.Raised? && calls == []
    ensures !Blank(title) && !Blank(body) && SplitRepo(repo).Done? ==>
      var (owner, name) := SplitRepo(repo).value;
      CreateOutcome(owner, name, title, body, category, api, result, calls)
  {
    calls := [];
    if Blank(title) || Blank(body) {
      return Done("Error: title and body cannot be empty"), calls;
    }
    var split := SplitRepo(repo);
    if split.Raised? {
      return Raised(split.failure), calls;
    }
    var (owner, name) := split.value;
    result, calls := CreateInCategory(owner, name, title, body, category, api);
  }

  /** The requests create_discussion makes once the first matching
      category is known to have the non-empty id `id`. */
  method CreateInMatch(owner: string, name: string, title: string, body: string, category: string,
                       cats: seq<Category>, id: string, api: Api)
    returns (result: Outcome<string>, calls: seq<Call>)
    requires id != ""
    ensures CreateAfterMatch(owner, name, title, body, category, cats, id, api, result, calls)
    ensures calls[0] == CategoriesQuery(owner, name)
    ensures forall k :: 0 <= k < |calls| && IsCreate(calls[k]) ==> k == 2
  {
    calls := [CategoriesQuery(owner, name), RepoIdQuery(owner, name)];
    var repoId := api.repoId(owner, name);
    if repoId.Raised? {
      return Done(CaughtText(repoId.failure, "Error creating discussion: ")), calls;
    }
    calls := calls + [CreateDiscussion(repoId.value, id, title, body)];
    var created := api.createDiscussion(repoId.value, id, title, body);
    if created.Raised? {
      return Done(CaughtText(created.failure, "Error creating discussion: ")), calls;
    }
    result := Done("Discussion created: #" + IntToString(created.value.0) + " — " + created.value.1);
  }

  /** The try block of create_discussion: look the category up, then ask
      for the repository id, then create the discussion; a failure of any
      request is caught and reported. */
  method CreateInCategory(owner: string, name: string, title: string, body: string, category: string, api: Api)
    returns (result: Outcome<string>, calls: seq<Call>)
    ensures CreateOutcome(owner, name, title, body, category, api, result, calls)
  {
    calls := [CategoriesQuery(owner, name)];
    var cats := api.categories(owner, name);
    if cats.Raised? {
      return Done(CaughtText(cats.failure, "Error creating discussion: ")), calls;
    }
    var categories := cats.value;
    var found := FindCategory(categories, category);
    if found.Some? {
      forall j | 0 <= j < |categories| && FirstMatchAt(categories, category, j)
        ensures j == found.value
      {
      }
    }
    if found.None? || categories[found.value].id == "" {
      return Done(NotFoundText(category, categories)), calls;
    }
    result, calls := CreateInMatch(owner, name, title, body, category, categories, categories[found.value].id, api);
  }
}
