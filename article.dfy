/** The news article record of the aggregator, its lifecycle predicates and
    its storage conversions (internal/models/article.go). */
module Models {
  import opened StrUtil

  /** A calendar instant as Go's layouts print it. */
  datatype Time = Time(year: int, month: nat, day: nat, hour: nat, minute: nat, second: nat)

  /** Go's zero time.Time, 0001-01-01 00:00:00. */
  const ZeroTime := Time(1, 1, 1, 0, 0, 0)

  /** database/sql's NullTime. */
  datatype NullTime = NullTime(time: Time, valid: bool)

  /** One article. `translatedAt` is Go's *time.Time (None is nil). */
  datatype Article = Article(
    id: int,
    sourceURL: string,
    sourceSite: string,
    title: string,
    titleRU: string,
    description: string,
    content: string,
    contentRU: string,
    author: string,
    category: string,
    tags: seq<string>,
    imageURL: string,
    publishedAt: Time,
    fetchedAt: Time,
    translatedAt: Option<Time>,
    publishedToMkDocs: bool,
    slug: string)

  // ---------------------------------------------------------------------
  // Tags as a JSON array of strings
  // ---------------------------------------------------------------------

  function HexDigit(d: nat): char
    requires d < 16
  {
    if d < 10 then ('0' as int + d) as char else ('a' as int + d - 10) as char
  }

  /** The escape encoding/json gives one character inside a string literal
      (HTML-safe escaping of <, > and &, as json.Marshal does by default). */
  function JsonEscapeChar(c: char): (r: string)
    ensures |r| >= 1
  {
    if c == '"' then "\\\""
    else if c == '\\' then "\\\\"
    else if c == '\n' then "\\n"
    else if c == '\r' then "\\r"
    else if c == '\t' then "\\t"
    else if c == '\U{08}' then "\\b"
    else if c == '\U{0C}' then "\\f"
    else if c as int < 0x20 || c == '<' || c == '>' || c == '&' then
      "\\u00" + [HexDigit(c as int / 16), HexDigit(c as int % 16)]
    else if c == '\U{2028}' then "\\u2028"
    else if c == '\U{2029}' then "\\u2029"
    else [c]
  }

  function JsonEscape(s: string): string
    decreases |s|
  {
    if |s| == 0 then "" else JsonEscapeChar(s[0]) + JsonEscape(s[1..])
  }

  /** json.Marshal of one string. */
  function JsonString(s: string): (r: string)
    ensures |r| >= 2 && r[0] == '"'
  {
    "\"" + JsonEscape(s) + "\""
  }

  function JsonStrings(t: seq<string>): seq<string>
    decreases |t|
  {
    if |t| == 0 then [] else [JsonString(t[0])] + JsonStrings(t[1..])
  }

  /** json.Marshal of a non-nil []string. */
  function MarshalStrings(t: seq<string>): string
  {
    "[" + Join(JsonStrings(t), ",") + "]"
  }

  /** Article.TagsJSON: "[]" for no tags, otherwise the JSON array.
      A non-empty tag list never encodes to "" or to "[]". */
  function TagsJSON(a: Article): (r: string)
    ensures |a.tags| == 0 <==> r == "[]"
    ensures r != ""
  {
    if |a.tags| == 0 then "[]"
    else
      var m := MarshalStrings(a.tags);
      assert JsonStrings(a.tags)[0] == JsonString(a.tags[0]);
      assert Join(JsonStrings(a.tags), ",")[0] == '"' by {
        if |a.tags| > 1 {
          assert Join(JsonStrings(a.tags), ",") == JsonString(a.tags[0]) + "," + Join(JsonStrings(a.tags)[1..], ",");
        }
      }
      assert m[1] == '"';
      m
  }

  /** Article.ParseTags: "" and "[]" give no tags; any other text is handed
      to the JSON decoder `unmarshal`, whose answer is the new tag list
      (which may be a partly filled list when the decoder stops on a
      mismatched element), or None when it leaves the tags untouched.
      Nothing but the tags changes. */
  function ParseTags(a: Article, jsonStr: string, unmarshal: string -> Option<seq<string>>): (r: Article)
    ensures r.(tags := a.tags) == a
    ensures jsonStr == "" || jsonStr == "[]" ==> r.tags == []
  {
    if jsonStr == "" || jsonStr == "[]" then a.(tags := [])
    else match unmarshal(jsonStr)
      case Some(t) => a.(tags := t)
      case None => a
  }

  /** Storing the tags and reading them back yields the same tags, provided
      the JSON decoder inverts the encoder on this list. */
  lemma TagsRoundTrip(a: Article, b: Article, unmarshal: string -> Option<seq<string>>)
    requires |a.tags| > 0 ==> unmarshal(MarshalStrings(a.tags)) == Some(a.tags)
    ensures ParseTags(b, TagsJSON(a), unmarshal).tags == a.tags
  {
  }

  // ---------------------------------------------------------------------
  // NullTime conversions
  // ---------------------------------------------------------------------

  /** NullTimeToPtr: a valid NullTime becomes its time, an invalid one nil. */
  function NullTimeToPtr(nt: NullTime): (r: Option<Time>)
    ensures r.Some? <==> nt.valid
    ensures r.Some? ==> r.value == nt.time
  {
    if nt.valid then Some(nt.time) else None
  }

  /** PtrToNullTime: nil becomes an invalid NullTime (zero time), a present
      time a valid NullTime holding it. */
  function PtrToNullTime(t: Option<Time>): (r: NullTime)
    ensures r.valid <==> t.Some?
    ensures t.Some? ==> r.time == t.value
    ensures t.None? ==> r.time == ZeroTime
  {
    match t
    case Some(x) => NullTime(x, true)
    case None => NullTime(ZeroTime, false)
  }

  /** The two conversions are inverse: every optional time survives the round
      trip, and so does every NullTime whose invalid form carries the zero
      time (the only form PtrToNullTime produces). */
  lemma NullTimeRoundTrip(t: Option<Time>, nt: NullTime)
    ensures NullTimeToPtr(PtrToNullTime(t)) == t
    ensures nt.valid || nt.time == ZeroTime ==> PtrToNullTime(NullTimeToPtr(nt)) == nt
  {
  }

  // ---------------------------------------------------------------------
  // Lifecycle predicates
  // ---------------------------------------------------------------------

  predicate IsTranslated(a: Article)
  {
    a.translatedAt.Some? && a.contentRU != ""
  }

  predicate IsPublished(a: Article)
  {
    a.publishedToMkDocs
  }

  predicate NeedsTranslation(a: Article)
  {
    a.content != "" && a.contentRU == ""
  }

  predicate NeedsPublishing(a: Article)
  {
    IsTranslated(a) && !IsPublished(a)
  }

  /** An article never both needs translation and counts as translated, and
      one that needs publishing does not need translation; needing
      publishing is exactly "translated and not yet published". */
  lemma LifecycleExclusive(a: Article)
    ensures !(NeedsTranslation(a) && IsTranslated(a))
    ensures NeedsPublishing(a) ==> !NeedsTranslation(a)
    ensures NeedsPublishing(a) <==> a.translatedAt.Some? && a.contentRU != "" && !a.publishedToMkDocs
  {
  }
}
