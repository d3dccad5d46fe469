/** Text primitives shared by the Go aggregator and the Python agents.
    Strings are sequences of Unicode scalar values; where Go compares `len(s)`
    (a byte count) with a constant, ByteLen gives the UTF-8 length. */
module StrUtil {

  datatype Option<T> = None | Some(value: T)

  /** An operation that either yields a value or fails with a message. */
  datatype Result<T> = Ok(value: T) | Err(msg: string)

  // ---------------------------------------------------------------------
  // Whitespace
  // ---------------------------------------------------------------------

  /** Go's unicode.IsSpace, used by strings.TrimSpace. */
  predicate IsGoSpace(c: char)
  {
    c == ' ' || c == '\t' || c == '\n' || c == '\r' || c == '\U{0B}' || c == '\U{0C}'
    || c == '\U{85}' || c == '\U{A0}' || c == '\U{1680}'
    || ('\U{2000}' <= c <= '\U{200A}')
    || c == '\U{2028}' || c == '\U{2029}' || c == '\U{202F}' || c == '\U{205F}' || c == '\U{3000}'
  }

  /** Python's str.isspace for one character: Go's set plus the four
      information separators U+001C..U+001F. */
  predicate IsPySpace(c: char)
  {
    IsGoSpace(c) || ('\U{1C}' <= c <= '\U{1F}')
  }

  predicate AllSpace(s: string, ws: char -> bool)
  {
    forall i :: 0 <= i < |s| ==> ws(s[i])
  }

  function TrimLeft(s: string, ws: char -> bool): (r: string)
    ensures |r| <= |s| && r == s[|s| - |r|..]
    ensures AllSpace(s[..|s| - |r|], ws)
    ensures |r| > 0 ==> !ws(r[0])
    decreases |s|
  {
    if |s| > 0 && ws(s[0]) then
      var r := TrimLeft(s[1..], ws);
      assert s[1..][..|s| - 1 - |r|] == s[1..|s| - |r|];
      r
    else s
  }

  function TrimRight(s: string, ws: char -> bool): (r: string)
    ensures |r| <= |s| && r == s[..|r|]
    ensures AllSpace(s[|r|..], ws)
    ensures |r| > 0 ==> !ws(r[|r| - 1])
    decreases |s|
  {
    if |s| > 0 && ws(s[|s| - 1]) then TrimRight(s[..|s| - 1], ws) else s
  }

  /** Removes leading and trailing characters satisfying `ws`. */
  function Trim(s: string, ws: char -> bool): string
  {
    TrimRight(TrimLeft(s, ws), ws)
  }

  /** Go's strings.TrimSpace. */
  function TrimSpace(s: string): string
  {
    Trim(s, IsGoSpace)
  }

  /** Python's str.strip() with no argument. */
  function Strip(s: string): string
  {
    Trim(s, IsPySpace)
  }

  /** A trimmed string neither starts nor ends with a space character, and
      it is the middle of `s` with only space characters cut on either side. */
  lemma TrimShape(s: string, ws: char -> bool)
    ensures var r := Trim(s, ws);
      |r| > 0 ==> !ws(r[0]) && !ws(r[|r| - 1])
    ensures exists a, b :: 0 <= a <= b <= |s| && Trim(s, ws) == s[a..b]
              && AllSpace(s[..a], ws) && AllSpace(s[b..], ws)
  {
    var l := TrimLeft(s, ws);
    var r := TrimRight(l, ws);
    if |r| > 0 {
      assert r[0] == l[0];
    }
    var a, b := TrimBounds(s, ws);
  }

  /** Where the trimmed middle of `s` starts and ends. */
  lemma TrimBounds(s: string, ws: char -> bool) returns (a: nat, b: nat)
    ensures a <= b <= |s| && Trim(s, ws) == s[a..b]
    ensures AllSpace(s[..a], ws) && AllSpace(s[b..], ws)
  {
    var l := TrimLeft(s, ws);
    var r := TrimRight(l, ws);
    a, b := |s| - |l|, |s| - |l| + |r|;
    assert s[a..b] == l[..|r|];
    assert s[b..] == l[|r|..];
  }

  /** Trimming twice trims nothing more. */
  lemma TrimIdempotent(s: string, ws: char -> bool)
    ensures Trim(Trim(s, ws), ws) == Trim(s, ws)
  {
    var r := Trim(s, ws);
    TrimShape(s, ws);
    if |r| > 0 {
      assert TrimLeft(r, ws) == r;
      assert TrimRight(r, ws) == r;
    }
  }

  /** A string that is already trimmed is its own trim. */
  lemma TrimOfTrimmed(s: string, ws: char -> bool)
    requires |s| > 0 ==> !ws(s[0]) && !ws(s[|s| - 1])
    ensures Trim(s, ws) == s
  {
  }

  /** Trimming a string made only of space characters gives "". */
  lemma TrimAllSpace(s: string, ws: char -> bool)
    requires AllSpace(s, ws)
    ensures Trim(s, ws) == ""
  {
    TrimShape(s, ws);
  }

  // ---------------------------------------------------------------------
  // Case folding
  // ---------------------------------------------------------------------

  /** Lower-casing of one character: ASCII A-Z and the basic Cyrillic
      capitals U+0400..U+042F (the alphabets the system's texts use). */
  function LowerChar(c: char): (d: char)
    ensures 'A' <= c <= 'Z' ==> d as int == c as int + 32
    ensures !('A' <= c <= 'Z') && !('\U{400}' <= c <= '\U{42F}') ==> d == c
  {
    if 'A' <= c <= 'Z' then (c as int + 32) as char
    else if '\U{410}' <= c <= '\U{42F}' then (c as int + 32) as char
    else if '\U{400}' <= c <= '\U{40F}' then (c as int + 80) as char
    else c
  }

  predicate IsUpper(c: char)
  {
    ('A' <= c <= 'Z') || ('\U{400}' <= c <= '\U{42F}')
  }

  function ToLower(s: string): (r: string)
    ensures |r| == |s|
    ensures forall i :: 0 <= i < |s| ==> r[i] == LowerChar(s[i])
    ensures forall i :: 0 <= i < |s| ==> !IsUpper(r[i])
  {
    seq(|s|, i requires 0 <= i < |s| => LowerChar(s[i]))
  }

  /** Lower-casing is idempotent: a lower-cased text has no capitals left. */
  lemma ToLowerIdempotent(s: string)
    ensures ToLower(ToLower(s)) == ToLower(s)
  {
  }

  lemma ToLowerConcat(a: string, b: string)
    ensures ToLower(a + b) == ToLower(a) + ToLower(b)
  {
  }

  // ---------------------------------------------------------------------
  // Substrings
  // ---------------------------------------------------------------------

  /** `sub` occurs in `s` starting at index `i`. */
  predicate OccursAt(s: string, sub: string, i: int)
  {
    0 <= i && i + |sub| <= |s| && s[i..i + |sub|] == sub
  }

  /** The first index at which `sub` occurs in `s` (Python's str.find,
      Go's strings.Index), or None. */
  function IndexOf(s: string, sub: string): (r: Option<nat>)
    ensures r.Some? ==> OccursAt(s, sub, r.value)
    ensures forall j :: 0 <= j && (r.None? || j < r.value) ==> !OccursAt(s, sub, j)
    decreases |s|
  {
    if sub <= s then Some(0)
    else if |s| == 0 then None
    else
      var r := IndexOf(s[1..], sub);
      assert forall j :: 1 <= j && OccursAt(s, sub, j) ==> OccursAt(s[1..], sub, j - 1) by {
        forall j | 1 <= j && OccursAt(s, sub, j) ensures OccursAt(s[1..], sub, j - 1) {
          assert s[1..][j - 1..j - 1 + |sub|] == s[j..j + |sub|];
        }
      }
      match r
      case None => None
      case Some(i) =>
        assert s[1..][i..i + |sub|] == s[i + 1..i + 1 + |sub|];
        Some(i + 1)
  }

  /** Python's `sub in s`, Go's strings.Contains. */
  predicate Contains(s: string, sub: string)
  {
    IndexOf(s, sub).Some?
  }

  lemma ContainsWitness(s: string, sub: string, i: int)
    requires OccursAt(s, sub, i)
    ensures Contains(s, sub)
  {
  }

  /** Contains of a concatenation: an occurrence in either part counts. */
  lemma ContainsConcatLeft(a: string, b: string, sub: string)
    requires Contains(a, sub)
    ensures Contains(a + b, sub)
  {
    var i := IndexOf(a, sub).value;
    SliceOfConcat(a, b, i, i + |sub|);
    ContainsWitness(a + b, sub, i);
  }

  lemma ContainsConcatRight(a: string, b: string, sub: string)
    requires Contains(b, sub)
    ensures Contains(a + b, sub)
  {
    var i := IndexOf(b, sub).value;
    SliceOfConcat(a, b, |a| + i, |a| + i + |sub|);
    ContainsWitness(a + b, sub, |a| + i);
  }

  /** A slice of a concatenation that lies within one of the parts. */
  lemma SliceOfConcat<T>(a: seq<T>, b: seq<T>, i: nat, j: nat)
    requires i <= j <= |a + b|
    ensures j <= |a| ==> (a + b)[i..j] == a[i..j]
    ensures |a| <= i ==> (a + b)[i..j] == b[i - |a|..j - |a|]
  {
  }

  /** Whatever comes before the first occurrence of `sub` does not contain it. */
  lemma BeforeFirstNotContains(s: string, sub: string, i: nat)
    requires |sub| > 0 && IndexOf(s, sub) == Some(i)
    ensures !Contains(s[..i], sub)
  {
    var t := s[..i];
    forall j | 0 <= j ensures !OccursAt(t, sub, j) {
      if j + |sub| <= i {
        assert t[j..j + |sub|] == s[j..j + |sub|];
        assert !OccursAt(s, sub, j);
      }
    }
    NoOccurrence(t, sub);
  }

  /** A text in which `sub` occurs nowhere does not contain it. */
  lemma NoOccurrence(t: string, sub: string)
    requires forall j :: 0 <= j ==> !OccursAt(t, sub, j)
    ensures !Contains(t, sub)
  {
  }


  /** An occurrence inside a slice is an occurrence in the whole text. */
  lemma ContainsSlice(s: string, sub: string, a: int, b: int)
    requires 0 <= a <= b <= |s| && Contains(s[a..b], sub)
    ensures Contains(s, sub)
  {
    var i := IndexOf(s[a..b], sub).value;
    assert OccursAt(s[a..b], sub, i);
    forall k | 0 <= k < |sub| ensures s[a + i + k] == sub[k] {
      assert s[a..b][i..i + |sub|][k] == sub[k];
    }
    assert s[a + i..a + i + |sub|] == sub;
    ContainsWitness(s, sub, a + i);
  }

  /** Trimming cannot create an occurrence of a text. */
  lemma TrimNotContains(s: string, ws: char -> bool, sub: string)
    requires !Contains(s, sub)
    ensures !Contains(Trim(s, ws), sub)
  {
    TrimShape(s, ws);
    var a, b :| 0 <= a <= b <= |s| && Trim(s, ws) == s[a..b];
    if Contains(s[a..b], sub) {
      ContainsSlice(s, sub, a, b);
    }
  }

  /** A character of the text is an occurrence of the one-character text. */
  lemma CharContains(s: string, k: int)
    requires 0 <= k < |s|
    ensures Contains(s, [s[k]])
  {
    ContainsWitness(s, [s[k]], k);
  }

  /** A text none of whose characters is `c` does not contain [c]. */
  lemma NotContainsChar(s: string, c: char)
    requires forall k :: 0 <= k < |s| ==> s[k] != c
    ensures !Contains(s, [c])
  {
    forall j | 0 <= j ensures !OccursAt(s, [c], j) {
      if j + 1 <= |s| {
        assert s[j..j + 1][0] == s[j];
      }
    }
  }

  lemma PrefixOfConcat(p: string, x: string, y: string)
    requires p <= x
    ensures p <= x + y
  {
    assert (x + y)[..|p|] == x[..|p|];
  }

  lemma PrefixTransitive(p: string, q: string, s: string)
    requires p <= q && q <= s
    ensures p <= s
  {
    assert s[..|p|] == q[..|p|];
  }

  lemma SeqAppendAssoc<T>(x: seq<T>, y: seq<T>, z: seq<T>)
    ensures x + (y + z) == x + y + z
  {
  }

  /** Two sequences that agree position by position are equal. */
  lemma SameElements<T>(a: seq<T>, b: seq<T>)
    requires |a| == |b|
    requires forall k :: 0 <= k < |a| ==> a[k] == b[k]
    ensures a == b
  {
  }

  /** A prefix agrees with the whole sequence position by position. */
  lemma PrefixElements<T>(s: seq<T>, p: seq<T>)
    requires p <= s
    ensures forall k :: 0 <= k < |p| ==> p[k] == s[k]
  {
  }

  /** The prefix one longer extends the prefix by the next element. */
  lemma PrefixStep<T>(s: seq<T>, i: nat)
    requires i < |s|
    ensures s[..i + 1][..i] == s[..i] && s[..i + 1][i] == s[i]
    ensures s[..i + 1] == s[..i] + [s[i]]
  {
  }

  lemma WholePrefix<T>(s: seq<T>)
    ensures s[..|s|] == s
  {
  }

  /** A non-empty sequence is its prefix followed by its last element. */
  lemma SnocSplit<T>(s: seq<T>)
    requires |s| > 0
    ensures s == s[..|s| - 1] + [s[|s| - 1]]
  {
  }

  /** Dropping the head of a non-empty sequence commutes with adding at the end. */
  lemma TailOfSnoc<T>(s: seq<T>, x: T)
    requires |s| > 0
    ensures (s + [x])[0] == s[0] && (s + [x])[1..] == s[1..] + [x]
  {
  }

  lemma ConsSplit<T>(s: seq<T>)
    requires |s| > 0
    ensures [s[0]] + s[1..] == s
  {
  }

  lemma AppendAssoc(x: string, y: string, z: string)
    ensures x + (y + z) == x + y + z
  {
  }

  function HasPrefix(s: string, prefix: string): bool
  {
    prefix <= s
  }

  function HasSuffix(s: string, suffix: string): bool
  {
    |suffix| <= |s| && s[|s| - |suffix|..] == suffix
  }

  /** Go's strings.TrimPrefix. */
  function TrimPrefix(s: string, prefix: string): (r: string)
    ensures prefix <= s ==> s == prefix + r
    ensures !(prefix <= s) ==> r == s
  {
    if prefix <= s then s[|prefix|..] else s
  }

  /** Go's strings.TrimSuffix. */
  function TrimSuffix(s: string, suffix: string): (r: string)
    ensures HasSuffix(s, suffix) ==> s == r + suffix
    ensures !HasSuffix(s, suffix) ==> r == s
  {
    if HasSuffix(s, suffix) then s[..|s| - |suffix|] else s
  }

  /** Replace every occurrence of the character `c` by the text `rep`
      (Go's strings.ReplaceAll when the old text is one character). */
  function ReplaceChar(s: string, c: char, rep: string): (r: string)
    decreases |s|
  {
    if |s| == 0 then ""
    else (if s[0] == c then rep else [s[0]]) + ReplaceChar(s[1..], c, rep)
  }

  lemma ReplaceCharConcat(a: string, b: string, c: char, rep: string)
    ensures ReplaceChar(a + b, c, rep) == ReplaceChar(a, c, rep) + ReplaceChar(b, c, rep)
    decreases |a|
  {
    if |a| > 0 {
      assert (a + b)[1..] == a[1..] + b;
      ReplaceCharConcat(a[1..], b, c, rep);
    } else {
      assert a + b == b;
    }
  }

  /** Count of the occurrences of a character. */
  function CountChar(s: string, c: char): nat
    decreases |s|
  {
    if |s| == 0 then 0 else (if s[0] == c then 1 else 0) + CountChar(s[1..], c)
  }

  lemma CountCharConcat(a: string, b: string, c: char)
    ensures CountChar(a + b, c) == CountChar(a, c) + CountChar(b, c)
    decreases |a|
  {
    if |a| > 0 {
      assert (a + b)[1..] == a[1..] + b;
      CountCharConcat(a[1..], b, c);
    } else {
      assert a + b == b;
    }
  }

  // ---------------------------------------------------------------------
  // Split and join
  // ---------------------------------------------------------------------

  /** Go's strings.Split and Python's str.split with a non-empty separator:
      the pieces between consecutive occurrences of `sep`, left to right. */
  function Split(s: string, sep: string): (r: seq<string>)
    requires |sep| > 0
    ensures |r| >= 1
    decreases |s|
  {
    match IndexOf(s, sep)
    case None => [s]
    case Some(i) => [s[..i]] + Split(s[i + |sep|..], sep)
  }

  /** Go's strings.Join and Python's sep.join. */
  function Join(parts: seq<string>, sep: string): string
    decreases |parts|
  {
    if |parts| == 0 then ""
    else if |parts| == 1 then parts[0]
    else parts[0] + sep + Join(parts[1..], sep)
  }

  /** Splitting and re-joining with the same separator gives back the text. */
  lemma {:induction false} JoinSplit(s: string, sep: string)
    requires |sep| > 0
    ensures Join(Split(s, sep), sep) == s
    decreases |s|
  {
    var r := IndexOf(s, sep);
    if r.Some? {
      var i := r.value;
      var rest := s[i + |sep|..];
      var tail := Split(rest, sep);
      JoinSplit(rest, sep);
      var parts := [s[..i]] + tail;
      assert Split(s, sep) == parts;
      assert parts[1..] == tail;
      assert Join(parts, sep) == s[..i] + sep + rest;
      assert s == s[..i] + s[i..i + |sep|] + rest;
    }
  }

  /** The blank line that separates paragraphs. */
  const BlankLine := "\n\n"

  /** A paragraph without a blank line that does not end in a newline is
      followed by its separator at exactly its own length. */
  lemma IndexOfBlankLine(p: string, rest: string)
    requires !Contains(p, BlankLine) && (|p| > 0 ==> p[|p| - 1] != '\n')
    ensures IndexOf(p + BlankLine + rest, BlankLine) == Some(|p|)
  {
    var s := p + BlankLine + rest;
    assert OccursAt(s, BlankLine, |p|) by {
      assert s[|p|..|p| + 2] == BlankLine;
    }
    forall j | 0 <= j < |p| ensures !OccursAt(s, BlankLine, j) {
      if j + 2 <= |p| {
        assert s[j..j + 2] == p[j..j + 2];
        assert !OccursAt(p, BlankLine, j);
      } else {
        assert s[j..j + 2][0] == s[j] == p[|p| - 1] != '\n';
      }
    }
  }

  /** Paragraphs joined with blank lines split back into themselves when
      none holds a blank line or ends in a newline. */
  lemma {:induction false} SplitJoinBlankLine(ps: seq<string>)
    requires |ps| >= 1
    requires forall k :: 0 <= k < |ps| ==> !Contains(ps[k], BlankLine) && (|ps[k]| > 0 ==> ps[k][|ps[k]| - 1] != '\n')
    ensures Split(Join(ps, BlankLine), BlankLine) == ps
    decreases |ps|
  {
    if |ps| == 1 {
      assert Join(ps, BlankLine) == ps[0];
      SplitNoSep(ps[0], BlankLine);
    } else {
      var rest := Join(ps[1..], BlankLine);
      assert Join(ps, BlankLine) == ps[0] + BlankLine + rest;
      IndexOfBlankLine(ps[0], rest);
      var s := ps[0] + BlankLine + rest;
      assert s[|ps[0]| + 2..] == rest;
      assert s[..|ps[0]|] == ps[0];
      SplitJoinBlankLine(ps[1..]);
      assert Split(s, BlankLine) == [s[..|ps[0]|]] + Split(s[|ps[0]| + |BlankLine|..], BlankLine);
      assert Split(s, BlankLine) == [ps[0]] + ps[1..];
    }
  }

  /** Splitting on a one-character separator distributes over a separator
      placed between two texts. */
  lemma {:induction false} SplitAroundSep(x: string, y: string, sep: string)
    requires |sep| == 1
    ensures Split(x + sep + y, sep) == Split(x, sep) + Split(y, sep)
    decreases |x|
  {
    var s := x + sep + y;
    SeqAppendAssoc(x, sep, y);
    match IndexOf(x, sep)
    case None =>
      IndexOfAfterFree(x, sep, y);
      ConcatSlices(x, sep + y, |x|);
      assert s[|x| + |sep|..] == y;
      assert Split(s, sep) == [x] + Split(y, sep);
    case Some(i) =>
      IndexOfConcatLeft(x, sep + y, sep);
      var rest := x[i + |sep|..];
      ConcatSlices(x, sep + y, i);
      ConcatSlices(x, sep + y, i + |sep|);
      SeqAppendAssoc(rest, sep, y);
      assert Split(s, sep) == [x[..i]] + Split(rest + sep + y, sep);
      SplitAroundSep(rest, y, sep);
      assert Split(x, sep) == [x[..i]] + Split(rest, sep);
      SeqAppendAssoc([x[..i]], Split(rest, sep), Split(y, sep));
  }

  /** Slices of a concatenation at a point of the first part. */
  lemma ConcatSlices<T>(a: seq<T>, b: seq<T>, k: nat)
    requires k <= |a|
    ensures (a + b)[..k] == a[..k] && (a + b)[k..] == a[k..] + b
    ensures k == |a| ==> (a + b)[..k] == a && (a + b)[k..] == b
  {
  }

  /** When `x` holds no `sep`, the first `sep` of `x + sep + y` is the one
      after `x`. */
  lemma IndexOfAfterFree(x: string, sep: string, y: string)
    requires |sep| == 1 && IndexOf(x, sep).None?
    ensures IndexOf(x + (sep + y), sep) == Some(|x|)
  {
    var s := x + (sep + y);
    assert s[|x|..|x| + 1] == sep;
    forall j | 0 <= j < |x| ensures !OccursAt(s, sep, j) {
      assert !OccursAt(x, sep, j);
      assert s[j..j + 1] == x[j..j + 1];
    }
    FirstOccurrence(s, sep, |x|);
  }

  /** An occurrence with none before it is the one IndexOf finds. */
  lemma FirstOccurrence(s: string, sub: string, i: nat)
    requires OccursAt(s, sub, i)
    requires forall j :: 0 <= j < i ==> !OccursAt(s, sub, j)
    ensures IndexOf(s, sub) == Some(i)
  {
    var r := IndexOf(s, sub);
    assert r.Some? && r.value <= i;
    assert OccursAt(s, sub, r.value);
  }

  /** The first occurrence inside `x` stays the first in `x + t`. */
  lemma IndexOfConcatLeft(x: string, t: string, sub: string)
    requires IndexOf(x, sub).Some?
    ensures IndexOf(x + t, sub) == IndexOf(x, sub)
  {
    var i := IndexOf(x, sub).value;
    var s := x + t;
    assert s[i..i + |sub|] == x[i..i + |sub|];
    forall j | 0 <= j < i ensures !OccursAt(s, sub, j) {
      assert !OccursAt(x, sub, j);
      assert s[j..j + |sub|] == x[j..j + |sub|];
    }
    FirstOccurrence(s, sub, i);
  }

  /** Joining texts free of a one-character separator and splitting again
      gives back the texts. */
  lemma {:induction false} SplitJoinChar(ps: seq<string>, sep: string)
    requires |sep| == 1 && |ps| >= 1
    requires forall k :: 0 <= k < |ps| ==> !Contains(ps[k], sep)
    ensures Split(Join(ps, sep), sep) == ps
    decreases |ps|
  {
    SplitNoSep(ps[0], sep);
    if |ps| > 1 {
      SplitAroundSep(ps[0], Join(ps[1..], sep), sep);
      SplitJoinChar(ps[1..], sep);
    }
  }

  /** A text without the character counts none of it. */
  lemma {:induction false} CountCharFree(s: string, c: char)
    requires !Contains(s, [c])
    ensures CountChar(s, c) == 0
    decreases |s|
  {
    if |s| > 0 {
      CharContains(s, 0);
      if Contains(s[1..], [c]) {
        ContainsSlice(s, [c], 1, |s|);
      }
      CountCharFree(s[1..], c);
    }
  }

  /** Joining texts free of a character with that character counts one per
      gap between them. */
  lemma {:induction false} CountCharJoin(ps: seq<string>, c: char)
    requires |ps| >= 1
    requires forall k :: 0 <= k < |ps| ==> !Contains(ps[k], [c])
    ensures CountChar(Join(ps, [c]), c) == |ps| - 1
    decreases |ps|
  {
    CountCharFree(ps[0], c);
    if |ps| > 1 {
      CountCharJoin(ps[1..], c);
      CountCharConcat(ps[0], [c], c);
      CountCharConcat(ps[0] + [c], Join(ps[1..], [c]), c);
    }
  }

  /** Splitting on a character gives one piece more than there are
      occurrences of it. */
  lemma SplitCountChar(s: string, c: char)
    ensures |Split(s, [c])| == CountChar(s, c) + 1
  {
    JoinSplit(s, [c]);
    SplitPiecesFreeAt(s, [c]);
    CountCharJoin(Split(s, [c]), c);
  }

  /** A slice of a text without `sub` has none either. */
  lemma NotContainsSlice(s: string, sub: string, a: int, b: int)
    requires 0 <= a <= b <= |s| && !Contains(s, sub)
    ensures !Contains(s[a..b], sub)
  {
    if Contains(s[a..b], sub) {
      ContainsSlice(s, sub, a, b);
    }
  }

  /** A text without the character has it at no position. */
  lemma NotContainsCharAt(s: string, c: char)
    requires !Contains(s, [c])
    ensures forall k :: 0 <= k < |s| ==> s[k] != c
  {
    forall k | 0 <= k < |s| ensures s[k] != c {
      CharContains(s, k);
    }
  }

  /** No piece of a split contains the separator. */
  lemma {:induction false} SplitPiecesFree(s: string, sep: string)
    requires |sep| > 0
    ensures forall p :: p in Split(s, sep) ==> !Contains(p, sep)
    decreases |s|
  {
    var found, head, rest := SplitCase(s, sep);
    if found {
      SplitPiecesFree(rest, sep);
      FreeCons(head, Split(rest, sep), sep);
    }
  }

  /** The first step of Split: either no separator, or a separator-free
      first piece followed by the split of what comes after the separator. */
  lemma SplitCase(s: string, sep: string) returns (found: bool, head: string, rest: string)
    requires |sep| > 0
    ensures !found ==> Split(s, sep) == [s] && !Contains(s, sep)
    ensures found ==> |rest| < |s| && !Contains(head, sep)
                      && Split(s, sep) == [head] + Split(rest, sep)
  {
    var r := IndexOf(s, sep);
    found := r.Some?;
    if found {
      var i := r.value;
      head, rest := s[..i], s[i + |sep|..];
      assert !Contains(head, sep) by {
        BeforeFirstNotContains(s, sep, i);
      }
      SplitSome(s, sep, i);
    } else {
      head, rest := s, "";
    }
  }

  /** Split at a found separator: the text before it, then the split of
      the rest. */
  lemma {:induction false} SplitSome(s: string, sep: string, i: nat)
    requires |sep| > 0 && IndexOf(s, sep) == Some(i)
    ensures Split(s, sep) == [s[..i]] + Split(s[i + |sep|..], sep)
  {
    var tail := Split(s[i + |sep|..], sep);
    var whole := Split(s, sep);
    assert whole == [s[..i]] + tail;
  }

  lemma FreeCons(h: string, t: seq<string>, sep: string)
    requires !Contains(h, sep) && forall p :: p in t ==> !Contains(p, sep)
    ensures forall p :: p in [h] + t ==> !Contains(p, sep)
  {
  }

  /** A text without the separator splits into itself alone. */
  lemma SplitNoSep(s: string, sep: string)
    requires |sep| > 0 && !Contains(s, sep)
    ensures Split(s, sep) == [s]
  {
  }

  /** The number of pieces is one more than the number of separators
      found; in particular a text that contains `sep` splits into at least two. */
  lemma SplitContains(s: string, sep: string)
    requires |sep| > 0 && Contains(s, sep)
    ensures |Split(s, sep)| >= 2
  {
  }

  /** Python's s.split(sep, 2) (at most three pieces, the last holding the
      rest of the text). */
  function Split3(s: string, sep: string): (r: seq<string>)
    requires |sep| > 0
    ensures 1 <= |r| <= 3
    ensures |r| >= 2 <==> Contains(s, sep)
  {
    match IndexOf(s, sep)
    case None => [s]
    case Some(i) =>
      var rest := s[i + |sep|..];
      match IndexOf(rest, sep)
      case None => [s[..i], rest]
      case Some(j) => [s[..i], rest[..j], rest[j + |sep|..]]
  }

  // ---------------------------------------------------------------------
  // Trim-and-filter over lines
  // ---------------------------------------------------------------------

  /** The trimmed form (Go's TrimSpace) of each text whose trimmed form
      passes `keep`, in input order: the shape of the Go loops that trim
      each piece and append the ones they accept. */
  function KeepTrimmed(ps: seq<string>, keep: string -> bool): (r: seq<string>)
    ensures |r| <= |ps|
    ensures forall k :: 0 <= k < |r| ==> keep(r[k]) && TrimSpace(r[k]) == r[k]
    decreases |ps|
  {
    if |ps| == 0 then []
    else
      var init := KeepTrimmed(ps[..|ps| - 1], keep);
      var p := TrimSpace(ps[|ps| - 1]);
      TrimIdempotent(ps[|ps| - 1], IsGoSpace);
      if keep(p) then init + [p] else init
  }

  /** One more text at the end adds its trim when that passes. */
  lemma KeepTrimmedSnoc(ps: seq<string>, x: string, keep: string -> bool)
    ensures KeepTrimmed(ps + [x], keep)
            == KeepTrimmed(ps, keep) + (if keep(TrimSpace(x)) then [TrimSpace(x)] else [])
  {
    assert (ps + [x])[..|ps + [x]| - 1] == ps;
  }

  /** The step of KeepTrimmedConcat: the law for `init` extends to `init + [x]`. */
  lemma KeepTrimmedConcatStep(a: seq<string>, init: seq<string>, x: string, keep: string -> bool)
    requires KeepTrimmed(a + init, keep) == KeepTrimmed(a, keep) + KeepTrimmed(init, keep)
    ensures KeepTrimmed(a + (init + [x]), keep) == KeepTrimmed(a, keep) + KeepTrimmed(init + [x], keep)
  {
    var last := if keep(TrimSpace(x)) then [TrimSpace(x)] else [];
    SeqAppendAssoc(a, init, [x]);
    KeepTrimmedSnoc(a + init, x, keep);
    KeepTrimmedSnoc(init, x, keep);
    SeqAppendAssoc(KeepTrimmed(a, keep), KeepTrimmed(init, keep), last);
  }

  /** Filtering distributes over concatenation, so what is kept stays in
      input order. */
  lemma {:induction false} KeepTrimmedConcat(a: seq<string>, b: seq<string>, keep: string -> bool)
    ensures KeepTrimmed(a + b, keep) == KeepTrimmed(a, keep) + KeepTrimmed(b, keep)
    decreases |b|
  {
    if |b| == 0 {
      assert a + b == a;
    } else {
      var init := b[..|b| - 1];
      assert b == init + [b[|b| - 1]];
      KeepTrimmedConcat(a, init, keep);
      KeepTrimmedConcatStep(a, init, b[|b| - 1], keep);
    }
  }

  /** Every output is the trim of an input, and every input whose trim
      passes the filter appears in the output. */
  lemma {:induction false} KeepTrimmedMembers(ps: seq<string>, keep: string -> bool)
    ensures forall q :: q in KeepTrimmed(ps, keep) ==> exists p :: p in ps && TrimSpace(p) == q
    ensures forall p :: p in ps && keep(TrimSpace(p)) ==> TrimSpace(p) in KeepTrimmed(ps, keep)
    decreases |ps|
  {
    if |ps| > 0 {
      var init := ps[..|ps| - 1];
      KeepTrimmedMembers(init, keep);
      SnocSplit(ps);
      forall q | q in KeepTrimmed(ps, keep) ensures exists p :: p in ps && TrimSpace(p) == q {
        if q in KeepTrimmed(init, keep) {
          var p :| p in init && TrimSpace(p) == q;
          assert p in ps;
        } else {
          assert TrimSpace(ps[|ps| - 1]) == q;
        }
      }
    }
  }

  /** Texts that are already trimmed and all pass the filter are kept as
      they are. */
  lemma {:induction false} KeepTrimmedFixpoint(ps: seq<string>, keep: string -> bool)
    requires forall k :: 0 <= k < |ps| ==> keep(ps[k]) && TrimSpace(ps[k]) == ps[k]
    ensures KeepTrimmed(ps, keep) == ps
    decreases |ps|
  {
    if |ps| > 0 {
      var init, x := ps[..|ps| - 1], ps[|ps| - 1];
      KeepTrimmedFixpoint(init, keep);
      SnocSplit(ps);
      KeepTrimmedSnoc(init, x, keep);
    }
  }

  /** Texts free of `sub` stay free of it. */
  lemma {:induction false} KeepTrimmedNotContains(ps: seq<string>, keep: string -> bool, sub: string)
    requires forall k :: 0 <= k < |ps| ==> !Contains(ps[k], sub)
    ensures forall k :: 0 <= k < |KeepTrimmed(ps, keep)| ==> !Contains(KeepTrimmed(ps, keep)[k], sub)
    decreases |ps|
  {
    if |ps| > 0 {
      KeepTrimmedNotContains(ps[..|ps| - 1], keep, sub);
      TrimNotContains(ps[|ps| - 1], IsGoSpace, sub);
    }
  }

  /** A prefix of texts that all avoid a pattern avoids it too. */
  lemma PrefixNotContains(f: seq<string>, ps: seq<string>, sub: string)
    requires ps <= f
    requires forall k :: 0 <= k < |f| ==> !Contains(f[k], sub)
    ensures forall k :: 0 <= k < |ps| ==> !Contains(ps[k], sub)
  {
    PrefixElements(f, ps);
  }

  /** Texts without newlines hold no blank line and do not end in one. */
  lemma NoNewlinesNoBlankLines(ps: seq<string>)
    requires forall k :: 0 <= k < |ps| ==> !Contains(ps[k], "\n")
    ensures forall k :: 0 <= k < |ps| ==> !Contains(ps[k], BlankLine) && (|ps[k]| > 0 ==> ps[k][|ps[k]| - 1] != '\n')
  {
    forall k | 0 <= k < |ps|
      ensures !Contains(ps[k], BlankLine) && (|ps[k]| > 0 ==> ps[k][|ps[k]| - 1] != '\n')
    {
      NoNewlineNoBlankLine(ps[k]);
    }
  }

  /** Kept lines of a newline split hold no blank line and do not end in a
      newline, whatever the filter. */
  lemma KeepTrimmedSeparable(lines: seq<string>, keep: string -> bool, ps: seq<string>)
    requires forall k :: 0 <= k < |lines| ==> !Contains(lines[k], "\n")
    requires ps <= KeepTrimmed(lines, keep)
    ensures forall k :: 0 <= k < |ps| ==> !Contains(ps[k], BlankLine) && (|ps[k]| > 0 ==> ps[k][|ps[k]| - 1] != '\n')
  {
    KeepTrimmedNotContains(lines, keep, "\n");
    PrefixNotContains(KeepTrimmed(lines, keep), ps, "\n");
    NoNewlinesNoBlankLines(ps);
  }

  /** Any prefix of the kept lines of a text consists of kept, trimmed
      lines; joined by blank lines it splits back into the same lines. */
  lemma KeptLinesRejoin(text: string, keep: string -> bool, ps: seq<string>)
    requires ps <= KeepTrimmed(Split(text, "\n"), keep)
    ensures forall k :: 0 <= k < |ps| ==> keep(ps[k]) && TrimSpace(ps[k]) == ps[k]
    ensures |ps| == 0 ==> Join(ps, BlankLine) == ""
    ensures |ps| >= 1 ==> Split(Join(ps, BlankLine), BlankLine) == ps
  {
    PrefixElements(KeepTrimmed(Split(text, "\n"), keep), ps);
    if |ps| >= 1 {
      SplitPiecesFreeAt(text, "\n");
      KeepTrimmedSeparable(Split(text, "\n"), keep, ps);
      SplitJoinBlankLine(ps);
    }
  }

  /** A text without newlines holds no blank line and does not end in one. */
  lemma NoNewlineNoBlankLine(p: string)
    requires !Contains(p, "\n")
    ensures !Contains(p, BlankLine) && (|p| > 0 ==> p[|p| - 1] != '\n')
  {
    if Contains(p, BlankLine) {
      var i := IndexOf(p, BlankLine).value;
      assert OccursAt(p, BlankLine, i);
      assert p[i..i + 1] == "\n";
      ContainsWitness(p, "\n", i);
    }
    if |p| > 0 && p[|p| - 1] == '\n' {
      CharContains(p, |p| - 1);
    }
  }

  /** The pieces of a split are free of the separator (indexed form). */
  lemma SplitPiecesFreeAt(s: string, sep: string)
    requires |sep| > 0
    ensures forall k :: 0 <= k < |Split(s, sep)| ==> !Contains(Split(s, sep)[k], sep)
  {
    SplitPiecesFree(s, sep);
    var ps := Split(s, sep);
    forall k | 0 <= k < |ps| ensures !Contains(ps[k], sep) {
      assert ps[k] in ps;
    }
  }

  // ---------------------------------------------------------------------
  // Lengths and numbers
  // ---------------------------------------------------------------------

  /** Number of bytes of one character in UTF-8. */
  function Utf8Len(c: char): (n: nat)
    ensures 1 <= n <= 4
    ensures (c as int < 128) <==> n == 1
  {
    if c as int < 0x80 then 1
    else if c as int < 0x800 then 2
    else if c as int < 0x10000 then 3
    else 4
  }

  /** Go's len(s): the UTF-8 byte length of the text. */
  function ByteLen(s: string): (n: nat)
    ensures n >= |s|
    decreases |s|
  {
    if |s| == 0 then 0 else Utf8Len(s[0]) + ByteLen(s[1..])
  }

  lemma ByteLenConcat(a: string, b: string)
    ensures ByteLen(a + b) == ByteLen(a) + ByteLen(b)
    decreases |a|
  {
    if |a| > 0 {
      assert (a + b)[1..] == a[1..] + b;
      ByteLenConcat(a[1..], b);
    } else {
      assert a + b == b;
    }
  }

  function DigitChar(d: nat): char
    requires d < 10
  {
    ('0' as int + d) as char
  }

  /** Decimal digits of a natural number, without leading zeros. */
  function NatToString(n: nat): (r: string)
    ensures |r| >= 1
    ensures forall i :: 0 <= i < |r| ==> '0' <= r[i] <= '9'
    decreases n
  {
    if n < 10 then [DigitChar(n)] else NatToString(n / 10) + [DigitChar(n % 10)]
  }

  /** Go's %d and Python's str() of an integer. */
  function IntToString(n: int): string
  {
    if n < 0 then "-" + NatToString(-n) else NatToString(n)
  }

  /** Decimal digits left-padded with zeros to at least `width` characters. */
  function PadNat(n: nat, width: nat): (r: string)
    ensures |r| >= width
    ensures forall i :: 0 <= i < |r| ==> '0' <= r[i] <= '9'
    decreases width
  {
    var d := NatToString(n);
    if |d| >= width then d else "0" + PadNat(n, width - 1)
  }

  function Min(a: int, b: int): int
  {
    if a < b then a else b
  }

  /** Python slicing s[:n] for n >= 0. */
  function Take<T>(s: seq<T>, n: nat): (r: seq<T>)
    ensures |r| == Min(n, |s|)
    ensures r <= s
  {
    if n < |s| then s[..n] else s
  }

  /** No element occurs twice. */
  predicate NoDup<T(==)>(s: seq<T>)
  {
    forall i, j :: 0 <= i < j < |s| ==> s[i] != s[j]
  }

  /** The input without repeats, each element kept at its first occurrence
      (uniqueStrings of the scraper; `list(set(links))` of the site reader). */
  function Dedup(s: seq<string>): (r: seq<string>)
    ensures NoDup(r)
    ensures forall x :: x in r <==> x in s
    ensures |r| <= |s|
    decreases |s|
  {
    if |s| == 0 then []
    else
      var d := Dedup(s[..|s| - 1]);
      SnocSplit(s);
      if s[|s| - 1] in d then d else d + [s[|s| - 1]]
  }

  /** The first occurrence of a character found by IndexOf holds it and
      has no earlier copy of it before it. */
  lemma FirstCharAt(s: string, c: char, i: nat)
    requires IndexOf(s, [c]) == Some(i)
    ensures i < |s| && s[i] == c
    ensures forall k :: 0 <= k < i ==> s[k] != c
  {
    CharOccursAt(s, c, i);
    forall k | 0 <= k < i
      ensures s[k] != c
    {
      CharOccursAt(s, c, k);
    }
  }

  /** A one-character text occurs exactly where that character stands. */
  lemma CharOccursAt(s: string, c: char, k: nat)
    ensures OccursAt(s, [c], k) <==> k < |s| && s[k] == c
  {
    if k < |s| {
      assert s[k..k + 1] == [s[k]];
    }
  }
}
