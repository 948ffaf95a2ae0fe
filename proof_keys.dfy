/** The object keys under which proof photos are stored, and the two helpers
    that decide what goes into them: `contentTypeToExt`, which is the same in
    routes/groups.ts, routes/proofs.ts and index.ts, and `parseDataUrl` of
    routes/groups.ts, of which only the reported media type is modelled. */
module ProofKeys {
  import opened Common
  import opened UriEncoding

  /** `contentTypeToExt(ct)`: tested by substring in the order png, webp,
      heic or heif, gif; jpg when none of them occurs. */
  function ContentTypeToExt(ct: string): (ext: string)
    ensures ext in {"png", "webp", "heic", "gif", "jpg"}
    ensures ext == "png" <==> Contains(ct, "png")
    ensures ext == "webp" <==> !Contains(ct, "png") && Contains(ct, "webp")
    ensures ext == "heic" <==>
      !Contains(ct, "png") && !Contains(ct, "webp") && (Contains(ct, "heic") || Contains(ct, "heif"))
    ensures ext == "jpg" <==>
      !Contains(ct, "png") && !Contains(ct, "webp") && !Contains(ct, "heic")
      && !Contains(ct, "heif") && !Contains(ct, "gif")
  {
    if Contains(ct, "png") then "png"
    else if Contains(ct, "webp") then "webp"
    else if Contains(ct, "heic") || Contains(ct, "heif") then "heic"
    else if Contains(ct, "gif") then "gif"
    else "jpg"
  }

  /** No extension contains a `/`, so it stays inside the last key segment. */
  lemma ExtHasNoSlash(ct: string)
    ensures '/' !in ContentTypeToExt(ct)
  {
    var ext := ContentTypeToExt(ct);
    if ext == "png" {
    } else if ext == "webp" {
    } else if ext == "heic" {
    } else if ext == "gif" {
    } else {
      assert ext == "jpg";
    }
  }

  /** A string none of whose positions starts `t` does not contain `t`. */
  lemma {:induction false} NotContained(s: string, t: string)
    requires forall i :: 0 <= i <= |s| ==> !StartsWith(s[i..], t)
    ensures !Contains(s, t)
    decreases |s|
  {
    assert !StartsWith(s[0..], t);
    assert s[0..] == s;
    if |s| > 0 {
      forall i | 0 <= i <= |s[1..]| ensures !StartsWith(s[1..][i..], t) {
        assert s[1..][i..] == s[i + 1..];
      }
      NotContained(s[1..], t);
    }
  }

  /** A string in which the first character of `t` never occurs does not
      contain `t`. */
  lemma NoFirstChar(s: string, t: string)
    requires t != [] && t[0] !in s
    ensures !Contains(s, t)
  {
    forall i | 0 <= i <= |s| ensures !StartsWith(s[i..], t) {
      if i < |s| {
        assert s[i..][0] == s[i];
      }
    }
    NotContained(s, t);
  }

  /** A string in which the first two characters of `t` are never adjacent
      does not contain `t`. */
  lemma NoFirstPair(s: string, t: string)
    requires |t| >= 2
    requires forall i :: 0 <= i < |s| - 1 ==> !(s[i] == t[0] && s[i + 1] == t[1])
    ensures !Contains(s, t)
  {
    forall i | 0 <= i <= |s| ensures !StartsWith(s[i..], t) {
      if i < |s| - 1 {
        assert s[i..][0] == s[i] && s[i..][1] == s[i + 1];
      }
    }
    NotContained(s, t);
  }

  /** The content type submitted photos default to. */
  predicate IsImageJpeg(s: string) {
    s == "image/jpeg"
  }

  /** The content type index.ts gives a file without a MIME type. */
  predicate IsOctetStream(s: string) {
    s == "application/octet-stream"
  }

  lemma JpegLacksPng(s: string) requires IsImageJpeg(s) ensures !Contains(s, "png") {
    NoFirstPair(s, "png");
  }

  lemma JpegLacksWebp(s: string) requires IsImageJpeg(s) ensures !Contains(s, "webp") {
    assert 'w' !in s;
    NoFirstChar(s, "webp");
  }

  lemma JpegLacksHeic(s: string) requires IsImageJpeg(s) ensures !Contains(s, "heic") {
    assert 'h' !in s;
    NoFirstChar(s, "heic");
  }

  lemma JpegLacksHeif(s: string) requires IsImageJpeg(s) ensures !Contains(s, "heif") {
    assert 'h' !in s;
    NoFirstChar(s, "heif");
  }

  lemma JpegLacksGif(s: string) requires IsImageJpeg(s) ensures !Contains(s, "gif") {
    NoFirstPair(s, "gif");
  }

  /** `image/jpeg`, the default of routes/proofs.ts and routes/groups.ts,
      gives jpg. */
  lemma ImageJpegGivesJpg(s: string)
    requires IsImageJpeg(s)
    ensures ContentTypeToExt(s) == "jpg"
  {
    JpegLacksPng(s);
    JpegLacksWebp(s);
    JpegLacksHeic(s);
    JpegLacksHeif(s);
    JpegLacksGif(s);
  }

  lemma OctetLacksPng(s: string) requires IsOctetStream(s) ensures !Contains(s, "png") {
    NoFirstPair(s, "png");
  }

  lemma OctetLacksWebp(s: string) requires IsOctetStream(s) ensures !Contains(s, "webp") {
    assert 'w' !in s;
    NoFirstChar(s, "webp");
  }

  lemma OctetLacksHeic(s: string) requires IsOctetStream(s) ensures !Contains(s, "heic") {
    assert 'h' !in s;
    NoFirstChar(s, "heic");
  }

  lemma OctetLacksHeif(s: string) requires IsOctetStream(s) ensures !Contains(s, "heif") {
    assert 'h' !in s;
    NoFirstChar(s, "heif");
  }

  lemma OctetLacksGif(s: string) requires IsOctetStream(s) ensures !Contains(s, "gif") {
    assert 'g' !in s;
    NoFirstChar(s, "gif");
  }

  /** `application/octet-stream`, the default of index.ts, gives jpg. */
  lemma OctetStreamGivesJpg(s: string)
    requires IsOctetStream(s)
    ensures ContentTypeToExt(s) == "jpg"
  {
    OctetLacksPng(s);
    OctetLacksWebp(s);
    OctetLacksHeic(s);
    OctetLacksHeif(s);
    OctetLacksGif(s);
  }

  /** `${Date.now()}.${ext}`: the file name part of a key. */
  function FileName(ts: nat, ext: string): (r: string)
    ensures '/' !in ext ==> '/' !in r
  {
    NatToString(ts) + "." + ext
  }

  /** routes/proofs.ts and index.ts: `proofs/${user}/${goal}/${ts}.${ext}`. */
  function ProofKey(user: string, goal: string, ts: nat, ext: string): string {
    "proofs/" + user + "/" + goal + "/" + FileName(ts, ext)
  }

  /** routes/groups.ts `submitProof`: `group-proofs/${group}/${user}/${ts}.${ext}`. */
  function GroupProofKey(group: string, user: string, ts: nat, ext: string): string {
    "group-proofs/" + group + "/" + user + "/" + FileName(ts, ext)
  }

  /** Four `/`-free pieces joined by `/` split back into the same four. */
  lemma SplitFour(a: string, b: string, c: string, d: string)
    requires '/' !in a && '/' !in b && '/' !in c && '/' !in d
    ensures Split(a + "/" + b + "/" + c + "/" + d, '/') == [a, b, c, d]
  {
    assert Join([a, b, c, d], '/') == a + "/" + b + "/" + c + "/" + d by {
      JoinCons(c, [d], '/');
      assert [c, d] == [c] + [d];
      JoinCons(b, [c, d], '/');
      assert [b, c, d] == [b] + [c, d];
      JoinCons(a, [b, c, d], '/');
      assert [a, b, c, d] == [a] + [b, c, d];
    }
    SplitJoin([a, b, c, d], '/');
  }

  /** A proof key names its user, its goal and its file name as the
      `/`-separated segments after `proofs`, as long as the ids have no `/`. */
  lemma ProofKeySegments(user: string, goal: string, ts: nat, ext: string)
    requires '/' !in user && '/' !in goal && '/' !in ext
    ensures Split(ProofKey(user, goal, ts, ext), '/') == ["proofs", user, goal, FileName(ts, ext)]
  {
    assert ProofKey(user, goal, ts, ext) == "proofs" + "/" + user + "/" + goal + "/" + FileName(ts, ext);
    SplitFour("proofs", user, goal, FileName(ts, ext));
  }

  /** The same for a group proof key. */
  lemma GroupProofKeySegments(group: string, user: string, ts: nat, ext: string)
    requires '/' !in group && '/' !in user && '/' !in ext
    ensures Split(GroupProofKey(group, user, ts, ext), '/') == ["group-proofs", group, user, FileName(ts, ext)]
  {
    assert GroupProofKey(group, user, ts, ext) == "group-proofs" + "/" + group + "/" + user + "/" + FileName(ts, ext);
    SplitFour("group-proofs", group, user, FileName(ts, ext));
  }

  predicate NoLineTerminator(s: string) {
    forall i :: 0 <= i < |s| ==> !IsLineTerminator(s[i])
  }

  /** The content type `parseDataUrl` reports. `/^data:([^;]+);base64,(.*)$/`
      matches when the text is `data:`, a non-empty media type without `;`,
      `;base64,` and a payload without line terminators (`.` does not match
      them and `$` is the end of the text); the media type is then reported,
      and `image/jpeg` otherwise. */
  function DataUrlContentType(d: string): (ct: string)
    ensures ct != [] && ';' !in ct
  {
    if StartsWith(d, "data:") then
      var rest := d[5..];
      var mime := TakeUntil(rest, ';');
      if mime != [] && StartsWith(rest[|mime|..], ";base64,") && NoLineTerminator(rest[|mime| + 8..])
      then mime
      else "image/jpeg"
    else "image/jpeg"
  }

  /** The match of `parseDataUrl`'s pattern, given its pieces. */
  lemma DataUrlMatch(d: string, mime: string)
    requires StartsWith(d, "data:") && TakeUntil(d[5..], ';') == mime && mime != []
    requires StartsWith(d[5 + |mime|..], ";base64,") && NoLineTerminator(d[5 + |mime| + 8..])
    ensures DataUrlContentType(d) == mime
  {
    assert d[5..][|mime|..] == d[5 + |mime|..];
    assert d[5..][|mime| + 8..] == d[5 + |mime| + 8..];
  }

  /** A well-formed base64 data URL reports exactly the media type it was
      built with. */
  lemma DataUrlRoundTrip(mime: string, payload: string)
    requires mime != [] && ';' !in mime && NoLineTerminator(payload)
    ensures DataUrlContentType("data:" + mime + ";base64," + payload) == mime
  {
    var d := "data:" + mime + ";base64," + payload;
    assert StartsWith(d, "data:") && d[5..] == mime + [';'] + ("base64," + payload) by {
      assert d[..5] == "data:";
    }
    assert TakeUntil(d[5..], ';') == mime by {
      TakeUntilStopsAtSep(mime, "base64," + payload, ';');
    }
    assert d[5 + |mime|..] == ";base64," + payload && d[5 + |mime| + 8..] == payload;
    DataUrlMatch(d, mime);
  }

  /** Anything that does not start with `data:` is reported as `image/jpeg`. */
  lemma NotDataUrlIsJpeg(d: string)
    requires !StartsWith(d, "data:")
    ensures DataUrlContentType(d) == "image/jpeg"
  {
  }

  /** A line terminator at least eight places after a `;` that follows
      `data:` lies in what `(.*)$` would have to match. */
  lemma LineBreakAfterSemicolon(d: string, k: int, i: int)
    requires 5 <= k && k + 8 <= i < |d| && d[k] == ';' && IsLineTerminator(d[i])
    ensures DataUrlContentType(d) == "image/jpeg"
  {
    if StartsWith(d, "data:") {
      var rest := d[5..];
      var m := TakeUntil(rest, ';');
      assert rest[k - 5] == ';';
      assert |m| <= k - 5;
      if m != [] && StartsWith(rest[|m|..], ";base64,") {
        var p := rest[|m| + 8..];
        assert p[i - 5 - |m| - 8] == d[i];
      }
    }
  }

  /** A data URL whose payload runs over a line break is reported as
      `image/jpeg`, whatever its media type says. */
  lemma LineBreakInPayloadIsJpeg(mime: string, payload: string)
    requires !NoLineTerminator(payload)
    ensures DataUrlContentType("data:" + mime + ";base64," + payload) == "image/jpeg"
  {
    var d := "data:" + mime + ";base64," + payload;
    var j :| 0 <= j < |payload| && IsLineTerminator(payload[j]);
    var k := 5 + |mime|;
    assert d[k] == ';' && d[k + 8 + j] == payload[j] by {
      assert d == "data:" + mime + ";base64," + payload;
    }
    LineBreakAfterSemicolon(d, k, k + 8 + j);
  }
}
