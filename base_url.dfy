/** `sanitizeBaseUrl`, which cleans the `S3_PUBLIC_BASE_URL` environment value.
    The backend has three copies: the ones in `routes/groups.ts` and `index.ts`
    strip runs of quotes, the one in `utils/storage.ts` strips one quote at
    each end. Each copy is modelled as written and, because all three strip
    quotes before trimming the blank left by a cut-off comment, also in a
    corrected form that trims first (`SanitizeBaseUrl`,
    `SanitizeStorageBaseUrl`), which the rest of the model uses. */
module BaseUrl {
  import opened Common

  predicate IsQuote(c: char) {
    c == '"' || c == '\''
  }

  /** `v.replace(/^["']+/, '')` */
  function DropLeadingQuotes(s: string): (r: string)
    ensures |r| <= |s| && r == s[|s| - |r|..]
    ensures r != [] ==> !IsQuote(r[0])
    ensures forall i :: 0 <= i < |s| - |r| ==> IsQuote(s[i])
  {
    if s != [] && IsQuote(s[0]) then DropLeadingQuotes(s[1..]) else s
  }

  /** `v.replace(/["']+$/, '')` */
  function DropTrailingQuotes(s: string): (r: string)
    ensures |r| <= |s| && r == s[..|r|]
    ensures r != [] ==> !IsQuote(r[|r| - 1])
    ensures forall i :: |r| <= i < |s| ==> IsQuote(s[i])
  {
    if s != [] && IsQuote(s[|s| - 1]) then DropTrailingQuotes(s[..|s| - 1]) else s
  }

  /** `v.replace(/^['"]/g, '')`: the anchor lets the pattern match once. */
  function DropOneLeadingQuote(s: string): string {
    if s != [] && IsQuote(s[0]) then s[1..] else s
  }

  /** `v.replace(/['"]$/g, '')` */
  function DropOneTrailingQuote(s: string): string {
    if s != [] && IsQuote(s[|s| - 1]) then s[..|s| - 1] else s
  }

  /** Everything before the first `;`, then everything before the first `#`. */
  function CutComment(v: string): (r: string)
    ensures ';' !in r && '#' !in r
    ensures |r| <= |v| && r == v[..|r|]
  {
    TakeUntil(TakeUntil(v, ';'), '#')
  }

  /** ASCII letters lower-cased, which is how a `/i` pattern without the `u`
      flag compares the ASCII letters of `http`: no other character
      canonicalises to one of them. */
  function LowerAscii(c: char): char {
    if 'A' <= c <= 'Z' then (c as int + 32) as char else c
  }

  predicate PrefixIgnoringCase(s: string, lit: string) {
    |lit| <= |s| && forall j :: 0 <= j < |lit| ==> LowerAscii(s[j]) == lit[j]
  }

  /** Length of the `http://` or `https://` (in any case) that starts `v`,
      0 when there is none. */
  function SchemeLength(v: string): (k: nat)
    ensures k == 0 || k == 7 || k == 8
    ensures k <= |v|
  {
    if PrefixIgnoringCase(v, "https://") then 8
    else if PrefixIgnoringCase(v, "http://") then 7
    else 0
  }

  /** `/^https?:\/\/[^\/]+(\/.*)?$/i.test(v)`: a scheme, a non-empty host
      without `/`, then either nothing or a `/` and a path in which `.` has to
      match every character, so one without line terminators. */
  predicate HasHttpShape(v: string) {
    var k := SchemeLength(v);
    k > 0
    && var rest := v[k..];
    var host := TakeUntil(rest, '/');
    |host| > 0 && forall i :: |host| <= i < |rest| ==> !IsLineTerminator(rest[i])
  }

  /** `v.replace(/\/+$/, '')` */
  function DropTrailingSlashes(s: string): (r: string)
    ensures |r| <= |s| && r == s[..|r|]
    ensures r != [] ==> r[|r| - 1] != '/'
    ensures forall i :: |r| <= i < |s| ==> s[i] == '/'
  {
    if s != [] && s[|s| - 1] == '/' then DropTrailingSlashes(s[..|s| - 1]) else s
  }

  /** What every copy returns: a URL with an `http(s)://` scheme, a host,
      no `;` or `#`, and no trailing `/`. */
  predicate IsSanitized(u: string) {
    var k := SchemeLength(u);
    k > 0 && |u| > k && u[|u| - 1] != '/' && ';' !in u && '#' !in u
  }

  /** The shape test and the trailing-slash removal that every copy ends with,
      then `v || undefined`. */
  function Finish(v: string): (r: Option<string>)
    requires ';' !in v && '#' !in v
    ensures r.Some? ==> IsSanitized(r.value)
    ensures r.Some? ==> |r.value| <= |v| && r.value == v[..|r.value|]
    ensures r.Some? <==> HasHttpShape(v)
  {
    if !HasHttpShape(v) then None
    else
      var w := DropTrailingSlashes(v);
      FinishKeepsHost(v);
      if w == "" then None else Some(w)
  }

  lemma FinishKeepsHost(v: string)
    requires HasHttpShape(v)
    ensures |DropTrailingSlashes(v)| > SchemeLength(v)
    ensures SchemeLength(DropTrailingSlashes(v)) == SchemeLength(v)
  {
    var k := SchemeLength(v);
    var rest := v[k..];
    var w := DropTrailingSlashes(v);
    assert rest[0] == v[k] && rest[0] != '/';
    assert |w| > k;
    assert w[..k] == v[..k];
    assert forall j :: 0 <= j < k ==> w[j] == v[j];
  }

  /** A slice of a string without `;` and `#` has none either. */
  lemma SliceKeepsOut(v: string, a: int, b: int)
    requires ';' !in v && '#' !in v
    requires 0 <= a <= b <= |v|
    ensures ';' !in v[a..b] && '#' !in v[a..b]
  {
    forall i | 0 <= i < b - a ensures v[a..b][i] != ';' && v[a..b][i] != '#' {
      assert v[a..b][i] == v[a + i];
    }
  }

  /** Leading and trailing quote runs stripped, then trimmed: the tail of
      the groups.ts / index.ts copies, applied to the comment-free value. */
  function UnquoteRuns(v: string): (r: string)
    requires ';' !in v && '#' !in v
    ensures ';' !in r && '#' !in r
  {
    var a := DropLeadingQuotes(v);
    var b := DropTrailingQuotes(a);
    var c := Trim(b);
    SliceKeepsOut(v, |v| - |a|, |v|);
    SliceKeepsOut(a, 0, |b|);
    SliceKeepsOut(b, |b| - |TrimStart(b)|, |b|);
    SliceKeepsOut(TrimStart(b), 0, |c|);
    c
  }

  /** The storage.ts tail: one quote off each end, then trimmed. */
  function UnquoteOnce(v: string): (r: string)
    requires ';' !in v && '#' !in v
    ensures ';' !in r && '#' !in r
  {
    var a := DropOneLeadingQuote(v);
    var b := DropOneTrailingQuote(a);
    var c := Trim(b);
    SliceKeepsOut(v, if a == v then 0 else 1, |v|);
    SliceKeepsOut(a, 0, |b|);
    SliceKeepsOut(b, |b| - |TrimStart(b)|, |b|);
    SliceKeepsOut(TrimStart(b), 0, |c|);
    c
  }

  /** `sanitizeBaseUrl` of routes/groups.ts and index.ts, as written. */
  function SanitizeBaseUrlAsWritten(raw: Option<string>): (r: Option<string>)
    ensures !Truthy(raw) ==> r.None?
    ensures r.Some? ==> IsSanitized(r.value)
  {
    if !Truthy(raw) then None
    else Finish(UnquoteRuns(CutComment(Trim(raw.value))))
  }

  /** `sanitizeBaseUrl` of utils/storage.ts, as written. */
  function SanitizeStorageBaseUrlAsWritten(raw: Option<string>): (r: Option<string>)
    ensures !Truthy(raw) ==> r.None?
    ensures r.Some? ==> IsSanitized(r.value)
  {
    if !Truthy(raw) then None
    else Finish(UnquoteOnce(CutComment(Trim(raw.value))))
  }

  /** The comment-free value with the blank before the comment trimmed away,
      so that a closing quote is really at the end when quotes are stripped. */
  function CutCommentTrimmed(v: string): (r: string)
    ensures ';' !in r && '#' !in r
  {
    var c := CutComment(v);
    SliceKeepsOut(c, |c| - |TrimStart(c)|, |c|);
    SliceKeepsOut(TrimStart(c), 0, |Trim(c)|);
    Trim(c)
  }

  /** Corrected groups.ts / index.ts copy: empty input gives nothing;
      the value is cut at the first `;` and then at the first `#`, trimmed,
      freed of leading and trailing quote runs, trimmed and checked for
      `http(s)://host[/path]` ignoring case; trailing slashes go. */
  function SanitizeBaseUrl(raw: Option<string>): (r: Option<string>)
    ensures !Truthy(raw) ==> r.None?
    ensures r.Some? ==> IsSanitized(r.value)
  {
    if !Truthy(raw) then None
    else Finish(UnquoteRuns(CutCommentTrimmed(Trim(raw.value))))
  }

  /** Corrected storage.ts copy: as `SanitizeBaseUrl`, but only one quote
      is stripped at each end. */
  function SanitizeStorageBaseUrl(raw: Option<string>): (r: Option<string>)
    ensures !Truthy(raw) ==> r.None?
    ensures r.Some? ==> IsSanitized(r.value)
  {
    if !Truthy(raw) then None
    else Finish(UnquoteOnce(CutCommentTrimmed(Trim(raw.value))))
  }

  /** A URL as every copy returns it, which in addition neither ends in
      white space or a quote nor has line terminators in its path. */
  predicate IsCleanUrl(u: string) {
    HasHttpShape(u) && IsSanitized(u) && !IsJsWhitespace(u[|u| - 1]) && !IsQuote(u[|u| - 1])
  }

  /** What the quote and comment handling looks at: the two ends of the
      value and whether it holds a `;` or `#`. */
  predicate PlainEnds(u: string) {
    |u| >= 8 && !IsJsWhitespace(u[0]) && !IsQuote(u[0]) && u[0] != '/'
    && !IsJsWhitespace(u[|u| - 1]) && !IsQuote(u[|u| - 1]) && u[|u| - 1] != '/'
    && ';' !in u && '#' !in u
  }

  lemma CleanUrlEnds(u: string)
    requires IsCleanUrl(u)
    ensures PlainEnds(u)
  {
    assert LowerAscii(u[0]) == 'h';
  }

  lemma PlainUnquoted(u: string)
    requires PlainEnds(u)
    ensures UnquoteRuns(u) == u && UnquoteOnce(u) == u
  {
    assert DropLeadingQuotes(u) == u;
    assert DropTrailingQuotes(u) == u;
    assert DropOneLeadingQuote(u) == u;
    assert DropOneTrailingQuote(u) == u;
    TrimKeepsTrimmed(u);
  }

  lemma PlainCut(u: string)
    requires PlainEnds(u)
    ensures CutComment(Trim(u)) == u && CutCommentTrimmed(Trim(u)) == u
  {
    TrimKeepsTrimmed(u);
    assert CutComment(u) == u;
  }

  lemma CleanUrlFinished(u: string)
    requires IsCleanUrl(u)
    ensures Finish(u) == Some(u)
  {
    assert DropTrailingSlashes(u) == u;
  }

  /** A URL that is already clean comes back unchanged from every copy. */
  lemma CleanUrlIsKept(u: string)
    requires IsCleanUrl(u)
    ensures SanitizeBaseUrl(Some(u)) == Some(u)
    ensures SanitizeStorageBaseUrl(Some(u)) == Some(u)
    ensures SanitizeBaseUrlAsWritten(Some(u)) == Some(u)
    ensures SanitizeStorageBaseUrlAsWritten(Some(u)) == Some(u)
  {
    CleanUrlEnds(u);
    PlainCut(u);
    PlainUnquoted(u);
    CleanUrlFinished(u);
  }

  /** The scheme is read from the first eight characters only. */
  lemma SchemeOfExtension(u: string, x: string)
    requires |u| >= 8
    ensures SchemeLength(u + x) == SchemeLength(u)
  {
    assert forall j :: 0 <= j < 8 ==> (u + x)[j] == u[j];
  }

  lemma HostOfExtension(rest: string, c: char)
    requires c != '/'
    ensures |TakeUntil(rest + [c], '/')| >= |TakeUntil(rest, '/')|
    ensures |TakeUntil(rest + [c], '/')| < |rest| ==> TakeUntil(rest + [c], '/') == TakeUntil(rest, '/')
  {
    var host := TakeUntil(rest, '/');
    if |host| < |rest| {
      var after := rest[|host| + 1..];
      assert rest == host + [rest[|host|]] + after;
      assert rest + [c] == host + ['/'] + (after + [c]);
      TakeUntilStopsAtSep(host, after + [c], '/');
    } else {
      assert '/' !in rest + [c];
    }
  }

  /** Appending a character that is neither `/` nor a line terminator keeps
      the `http(s)://host[/path]` shape. */
  lemma ShapeExtends(u: string, c: char)
    requires HasHttpShape(u) && |u| >= 8
    requires c != '/' && !IsLineTerminator(c)
    ensures HasHttpShape(u + [c])
  {
    var k := SchemeLength(u);
    SchemeOfExtension(u, [c]);
    var rest := u[k..];
    assert (u + [c])[k..] == rest + [c];
    HostOfExtension(rest, c);
  }

  lemma ConcatKeepsOut(a: string, b: string)
    requires ';' !in a && '#' !in a && ';' !in b && '#' !in b
    ensures ';' !in a + b && '#' !in a + b
  {
  }

  lemma LeadingQuoteDropped(q: char, s: string)
    requires IsQuote(q)
    ensures DropLeadingQuotes([q] + s) == DropLeadingQuotes(s)
  {
    assert ([q] + s)[1..] == s;
  }

  lemma TrailingQuoteDropped(s: string, q: char)
    requires IsQuote(q)
    ensures DropTrailingQuotes(s + [q]) == DropTrailingQuotes(s)
  {
    assert (s + [q])[..|s|] == s;
  }

  /** Quote runs around a value that neither starts nor ends with a quote. */
  lemma QuotePairRuns(u: string, q: char)
    requires PlainEnds(u) && IsQuote(q)
    ensures DropTrailingQuotes(DropLeadingQuotes([q, q] + u + [q, q])) == u
  {
    var inner := u + [q, q];
    assert [q, q] + u + [q, q] == [q] + ([q] + inner);
    LeadingQuoteDropped(q, [q] + inner);
    LeadingQuoteDropped(q, inner);
    assert inner[0] == u[0];
    assert DropLeadingQuotes(inner) == inner;
    assert inner == (u + [q]) + [q];
    TrailingQuoteDropped(u + [q], q);
    TrailingQuoteDropped(u, q);
    assert DropTrailingQuotes(u) == u;
  }

  lemma QuotePairFree(u: string, q: char)
    requires PlainEnds(u) && IsQuote(q)
    ensures ';' !in [q, q] + u + [q, q] && '#' !in [q, q] + u + [q, q]
    ensures ';' !in [q] + u + [q] && '#' !in [q] + u + [q]
  {
    ConcatKeepsOut([q, q], u);
    ConcatKeepsOut([q, q] + u, [q, q]);
    ConcatKeepsOut([q], u);
    ConcatKeepsOut([q] + u, [q]);
  }

  lemma DoubledQuotesRuns(u: string, q: char)
    requires PlainEnds(u) && IsQuote(q)
    ensures ';' !in [q, q] + u + [q, q] && '#' !in [q, q] + u + [q, q]
    ensures UnquoteRuns([q, q] + u + [q, q]) == u
  {
    QuotePairFree(u, q);
    QuotePairRuns(u, q);
    TrimKeepsTrimmed(u);
  }

  lemma DoubledQuotesOnce(u: string, q: char)
    requires PlainEnds(u) && IsQuote(q)
    ensures ';' !in [q, q] + u + [q, q] && '#' !in [q, q] + u + [q, q]
    ensures UnquoteOnce([q, q] + u + [q, q]) == [q] + u + [q]
  {
    QuotePairFree(u, q);
    var raw := [q, q] + u + [q, q];
    var once := [q] + u + [q];
    var a := raw[1..];
    assert a == once + [q];
    assert DropOneLeadingQuote(raw) == a;
    assert a[..|a| - 1] == once;
    assert DropOneTrailingQuote(a) == once;
    TrimKeepsTrimmed(once);
  }

  lemma DoubledQuotesCut(u: string, q: char)
    requires PlainEnds(u) && IsQuote(q)
    ensures CutComment(Trim([q, q] + u + [q, q])) == [q, q] + u + [q, q]
    ensures CutCommentTrimmed(Trim([q, q] + u + [q, q])) == [q, q] + u + [q, q]
  {
    var raw := [q, q] + u + [q, q];
    QuotePairFree(u, q);
    assert CutComment(raw) == raw;
    TrimKeepsTrimmed(raw);
  }

  lemma SingleQuotedRejected(u: string, q: char)
    requires PlainEnds(u) && IsQuote(q)
    ensures ';' !in [q] + u + [q] && '#' !in [q] + u + [q]
    ensures Finish([q] + u + [q]) == None
  {
    QuotePairFree(u, q);
    assert SchemeLength([q] + u + [q]) == 0 by {
      assert LowerAscii(([q] + u + [q])[0]) != 'h';
    }
  }

  /** Each copy on a non-empty value, step by step: the cut value `cut`, the
      unquoted value `bare`, and the result `r`. */
  lemma SanitizeFrom(raw: string, cut: string, bare: string, r: Option<string>)
    requires raw != "" && CutCommentTrimmed(Trim(raw)) == cut
    requires UnquoteRuns(cut) == bare && Finish(bare) == r
    ensures SanitizeBaseUrl(Some(raw)) == r
  {
  }

  lemma SanitizeAsWrittenFrom(raw: string, cut: string, bare: string, r: Option<string>)
    requires raw != "" && CutComment(Trim(raw)) == cut
    requires UnquoteRuns(cut) == bare && Finish(bare) == r
    ensures SanitizeBaseUrlAsWritten(Some(raw)) == r
  {
  }

  lemma SanitizeStorageFrom(raw: string, cut: string, bare: string, r: Option<string>)
    requires raw != "" && CutCommentTrimmed(Trim(raw)) == cut
    requires UnquoteOnce(cut) == bare && Finish(bare) == r
    ensures SanitizeStorageBaseUrl(Some(raw)) == r
  {
  }

  lemma SanitizeStorageAsWrittenFrom(raw: string, cut: string, bare: string, r: Option<string>)
    requires raw != "" && CutComment(Trim(raw)) == cut
    requires UnquoteOnce(cut) == bare && Finish(bare) == r
    ensures SanitizeStorageBaseUrlAsWritten(Some(raw)) == r
  {
  }

  /** Where the copies differ: a clean URL with two quotes at each end comes
      back bare from the copies in routes/groups.ts and index.ts. */
  lemma DoubledQuotesStripped(u: string, q: char)
    requires IsCleanUrl(u) && IsQuote(q)
    ensures SanitizeBaseUrl(Some([q, q] + u + [q, q])) == Some(u)
    ensures SanitizeBaseUrlAsWritten(Some([q, q] + u + [q, q])) == Some(u)
  {
    var raw := [q, q] + u + [q, q];
    assert CutCommentTrimmed(Trim(raw)) == raw && CutComment(Trim(raw)) == raw
      && UnquoteRuns(raw) == u && Finish(u) == Some(u) by {
      CleanUrlEnds(u);
      DoubledQuotesCut(u, q);
      DoubledQuotesRuns(u, q);
      CleanUrlFinished(u);
    }
    SanitizeFrom(raw, raw, u, Some(u));
    SanitizeAsWrittenFrom(raw, raw, u, Some(u));
  }

  /** The utils/storage.ts copy leaves one quote at each end of the same value
      and then rejects it. */
  lemma DoubledQuotesRejectedByStorage(u: string, q: char)
    requires IsCleanUrl(u) && IsQuote(q)
    ensures SanitizeStorageBaseUrl(Some([q, q] + u + [q, q])) == None
    ensures SanitizeStorageBaseUrlAsWritten(Some([q, q] + u + [q, q])) == None
  {
    var raw := [q, q] + u + [q, q];
    assert CutCommentTrimmed(Trim(raw)) == raw && CutComment(Trim(raw)) == raw
      && UnquoteOnce(raw) == [q] + u + [q] && Finish([q] + u + [q]) == None by {
      CleanUrlEnds(u);
      DoubledQuotesCut(u, q);
      DoubledQuotesOnce(u, q);
      SingleQuotedRejected(u, q);
    }
    SanitizeStorageFrom(raw, raw, [q] + u + [q], None);
    SanitizeStorageAsWrittenFrom(raw, raw, [q] + u + [q], None);
  }

  predicate IsCommentMark(m: char) {
    m == ';' || m == '#'
  }

  /** Cutting at the first `;` and then at the first `#` drops a comment that
      starts with either. */
  lemma CommentDropped(v: string, m: char, comment: string)
    requires ';' !in v && '#' !in v && IsCommentMark(m)
    ensures CutComment(v + [m] + comment) == v
  {
    if m == ';' {
      TakeUntilStopsAtSep(v, comment, ';');
    } else {
      var t := TakeUntil(comment, ';');
      assert v + [m] + comment == (v + [m]) + comment;
      TakeUntilSkips(v + [m], comment, ';');
      TakeUntilStopsAtSep(v, t, '#');
    }
  }

  lemma BlankTrimmed(w: string, b: char)
    requires w != [] && !IsJsWhitespace(w[0]) && !IsJsWhitespace(w[|w| - 1])
    requires IsJsWhitespace(b)
    ensures TrimStart(w + [b]) == w + [b]
    ensures Trim(w + [b]) == w
  {
    var x := w + [b];
    assert x[0] == w[0];
    assert x[..|x| - 1] == w;
    assert TrimEnd(x) == TrimEnd(w);
    TrimKeepsTrimmed(w);
  }

  /** A value followed by a blank and a comment: the cut keeps the blank,
      the corrected cut trims it. */
  lemma CutAfterBlank(w: string, b: char, m: char, comment: string)
    requires w != [] && !IsJsWhitespace(w[0]) && !IsJsWhitespace(w[|w| - 1])
    requires ';' !in w && '#' !in w
    requires IsJsWhitespace(b) && IsCommentMark(m)
    requires comment == [] || !IsJsWhitespace(comment[|comment| - 1])
    ensures CutComment(Trim(w + [b, m] + comment)) == w + [b]
    ensures CutCommentTrimmed(Trim(w + [b, m] + comment)) == w
  {
    var raw := w + [b, m] + comment;
    assert raw == (w + [b]) + [m] + comment;
    assert raw[0] == w[0];
    assert raw[|raw| - 1] == if comment == [] then m else comment[|comment| - 1];
    TrimKeepsTrimmed(raw);
    ConcatKeepsOut(w, [b]);
    CommentDropped(w + [b], m, comment);
    BlankTrimmed(w, b);
  }

  lemma QuotedParts(u: string, q: char)
    requires PlainEnds(u) && IsQuote(q)
    ensures var w := [q] + u + [q]; w != [] && !IsJsWhitespace(w[0]) && !IsJsWhitespace(w[|w| - 1])
    ensures ';' !in [q] + u + [q] && '#' !in [q] + u + [q]
  {
    QuotePairFree(u, q);
  }

  /** `<q>u<q><b>`: the leading quote goes, the trailing blank stops the
      trailing-quote strip, and the trim then leaves the closing quote. */
  lemma QuotedBlankLeading(u: string, q: char, b: char)
    requires PlainEnds(u) && IsQuote(q) && IsJsWhitespace(b)
    ensures ';' !in [q] + u + [q, b] && '#' !in [q] + u + [q, b]
    ensures DropLeadingQuotes([q] + u + [q, b]) == u + [q, b]
    ensures DropOneLeadingQuote([q] + u + [q, b]) == u + [q, b]
  {
    var cut := [q] + u + [q, b];
    var tail := u + [q, b];
    assert ';' !in cut && '#' !in cut by {
      QuotedParts(u, q);
      ConcatKeepsOut([q] + u + [q], [b]);
      assert cut == ([q] + u + [q]) + [b];
    }
    assert cut == [q] + tail;
    LeadingQuoteDropped(q, tail);
    assert tail[0] == u[0];
  }

  lemma QuotedBlankTrailing(u: string, q: char, b: char)
    requires PlainEnds(u) && IsQuote(q) && IsJsWhitespace(b)
    ensures DropTrailingQuotes(u + [q, b]) == u + [q, b]
    ensures DropOneTrailingQuote(u + [q, b]) == u + [q, b]
    ensures Trim(u + [q, b]) == u + [q]
  {
    var tail := u + [q, b];
    assert DropTrailingQuotes(tail) == tail && DropOneTrailingQuote(tail) == tail by {
      assert tail[|tail| - 1] == b;
    }
    assert Trim(tail) == u + [q] by {
      assert tail == (u + [q]) + [b];
      BlankTrimmed(u + [q], b);
    }
  }

  /** `<q>u<q><b>`: the leading quote goes, the trailing blank stops the
      trailing-quote strip, and the trim then leaves the closing quote. */
  lemma QuotedBlankUnquoted(u: string, q: char, b: char)
    requires PlainEnds(u) && IsQuote(q) && IsJsWhitespace(b)
    ensures ';' !in [q] + u + [q, b] && '#' !in [q] + u + [q, b]
    ensures UnquoteRuns([q] + u + [q, b]) == u + [q]
    ensures UnquoteOnce([q] + u + [q, b]) == u + [q]
  {
    QuotedBlankLeading(u, q, b);
    QuotedBlankTrailing(u, q, b);
    UnquoteFrom([q] + u + [q, b], u + [q, b], u + [q, b], u + [q]);
  }

  /** Both unquoting tails, from their steps. */
  lemma UnquoteFrom(v: string, a: string, b: string, c: string)
    requires ';' !in v && '#' !in v
    requires DropLeadingQuotes(v) == a && DropOneLeadingQuote(v) == a
    requires DropTrailingQuotes(a) == b && DropOneTrailingQuote(a) == b
    requires Trim(b) == c
    ensures UnquoteRuns(v) == c && UnquoteOnce(v) == c
  {
  }

  lemma QuotedUnquoted(u: string, q: char)
    requires PlainEnds(u) && IsQuote(q)
    ensures ';' !in [q] + u + [q] && '#' !in [q] + u + [q]
    ensures UnquoteRuns([q] + u + [q]) == u
    ensures UnquoteOnce([q] + u + [q]) == u
  {
    QuotedParts(u, q);
    var quoted := [q] + u + [q];
    var tail := u + [q];
    assert quoted == [q] + tail;
    LeadingQuoteDropped(q, tail);
    assert tail[0] == u[0];
    assert DropLeadingQuotes(tail) == tail;
    TrailingQuoteDropped(u, q);
    assert DropTrailingQuotes(u) == u;
    TrimKeepsTrimmed(u);
    assert DropOneLeadingQuote(quoted) == tail;
    assert tail[..|tail| - 1] == u;
    assert DropOneTrailingQuote(tail) == u;
  }

  lemma QuotedUrlFinished(u: string, q: char)
    requires IsCleanUrl(u) && IsQuote(q)
    ensures ';' !in u + [q] && '#' !in u + [q]
    ensures Finish(u + [q]) == Some(u + [q])
  {
    CleanUrlEnds(u);
    ConcatKeepsOut(u, [q]);
    ShapeExtends(u, q);
    assert DropTrailingSlashes(u + [q]) == u + [q];
  }

  lemma QuotedCommentCut(u: string, q: char, b: char, m: char, comment: string)
    requires PlainEnds(u) && IsQuote(q) && IsJsWhitespace(b) && IsCommentMark(m)
    requires comment == [] || !IsJsWhitespace(comment[|comment| - 1])
    ensures CutComment(Trim([q] + u + [q, b, m] + comment)) == [q] + u + [q, b]
    ensures CutCommentTrimmed(Trim([q] + u + [q, b, m] + comment)) == [q] + u + [q]
  {
    var quoted := [q] + u + [q];
    assert quoted + [b, m] + comment == [q] + u + [q, b, m] + comment;
    assert quoted + [b] == [q] + u + [q, b];
    assert CutComment(Trim(quoted + [b, m] + comment)) == quoted + [b]
      && CutCommentTrimmed(Trim(quoted + [b, m] + comment)) == quoted by {
      QuotedParts(u, q);
      CutAfterBlank(quoted, b, m, comment);
    }
  }

  /** Finding: in every copy as written, a quoted clean URL followed by white
      space and a comment keeps its closing quote, because that white space
      is trimmed only after the quotes are stripped; the corrected copies
      return the bare URL. */
  lemma QuoteBeforeCommentSurvives(u: string, q: char, b: char, m: char, comment: string)
    requires IsCleanUrl(u) && IsQuote(q) && IsJsWhitespace(b) && IsCommentMark(m)
    requires comment == [] || !IsJsWhitespace(comment[|comment| - 1])
    ensures SanitizeBaseUrlAsWritten(Some([q] + u + [q, b, m] + comment)) == Some(u + [q])
    ensures SanitizeStorageBaseUrlAsWritten(Some([q] + u + [q, b, m] + comment)) == Some(u + [q])
    ensures SanitizeBaseUrl(Some([q] + u + [q, b, m] + comment)) == Some(u)
    ensures SanitizeStorageBaseUrl(Some([q] + u + [q, b, m] + comment)) == Some(u)
  {
    var raw := [q] + u + [q, b, m] + comment;
    var quoted := [q] + u + [q];
    var cut := [q] + u + [q, b];
    assert CutComment(Trim(raw)) == cut && CutCommentTrimmed(Trim(raw)) == quoted by {
      CleanUrlEnds(u);
      QuotedCommentCut(u, q, b, m, comment);
    }
    assert UnquoteRuns(cut) == u + [q] && UnquoteOnce(cut) == u + [q]
      && Finish(u + [q]) == Some(u + [q]) by {
      CleanUrlEnds(u);
      QuotedBlankUnquoted(u, q, b);
      QuotedUrlFinished(u, q);
    }
    assert UnquoteRuns(quoted) == u && UnquoteOnce(quoted) == u && Finish(u) == Some(u) by {
      CleanUrlEnds(u);
      QuotedUnquoted(u, q);
      CleanUrlFinished(u);
    }
    SanitizeAsWrittenFrom(raw, cut, u + [q], Some(u + [q]));
    SanitizeStorageAsWrittenFrom(raw, cut, u + [q], Some(u + [q]));
    SanitizeFrom(raw, quoted, u, Some(u));
    SanitizeStorageFrom(raw, quoted, u, Some(u));
  }

  /** The trimmed value, cut at its comment, does not end in a blank. */
  predicate NoBlankBeforeComment(raw: string) {
    var c := CutComment(Trim(raw));
    c == [] || !IsJsWhitespace(c[|c| - 1])
  }

  /** The correction only matters when a blank precedes the cut-off comment:
      otherwise each corrected copy returns what the copy as written does. */
  lemma CorrectionAgreesWithoutBlankBeforeComment(raw: string)
    requires NoBlankBeforeComment(raw)
    ensures SanitizeBaseUrl(Some(raw)) == SanitizeBaseUrlAsWritten(Some(raw))
    ensures SanitizeStorageBaseUrl(Some(raw)) == SanitizeStorageBaseUrlAsWritten(Some(raw))
  {
    var t := Trim(raw);
    var c := CutComment(t);
    if c != [] {
      assert c[0] == t[0];
      assert !IsJsWhitespace(t[0]);
    }
    TrimKeepsTrimmed(c);
    assert CutCommentTrimmed(t) == c;
  }
}
