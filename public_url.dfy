/** Where a stored photo can be fetched from, and how an upload to the bucket
    is set up: `buildPublicUrl` of routes/groups.ts and of index.ts, and the
    configuration, client cache, `createPresignedUploadUrl` and
    `buildDefaultPublicUrl` of utils/storage.ts. The environment is a value;
    the signing itself and the network calls of the S3 client are not part of
    this model. */
module PublicUrl {
  import opened Common
  import opened UriEncoding
  import opened BaseUrl

  /** The storage environment variables; `None` is an unset variable. */
  datatype Env = Env(
    publicBaseUrl: Option<string>,
    region: Option<string>,
    bucket: Option<string>,
    endpoint: Option<string>,
    forcePathStyle: Option<string>,
    s3AccessKeyId: Option<string>,
    awsAccessKeyId: Option<string>,
    s3SecretAccessKey: Option<string>,
    awsSecretAccessKey: Option<string>)

  const DefaultRegion: string := "us-east-2"
  const DefaultBucket: string := "rootine"

  /** The bucket every upload writes to: `S3_BUCKET || 'rootine'`. */
  function UploadBucket(env: Env): (b: string)
    ensures b != []
  {
    OrElse(env.bucket, DefaultBucket)
  }

  /** `s.replace(/\/$/, '')`: at most one trailing slash removed. */
  function DropOneTrailingSlash(s: string): (r: string)
    ensures r == s || r + "/" == s
    ensures r == s <==> s == [] || s[|s| - 1] != '/'
  {
    if s != [] && s[|s| - 1] == '/' then s[..|s| - 1] else s
  }

  /** `v.toLowerCase() === 'true'`. No character outside ASCII lower-cases
      to one of the letters of `true`, so comparing ASCII letters without
      case is the whole test. */
  predicate IsTrueIgnoringCase(s: string) {
    |s| == 4 && PrefixIgnoringCase(s, "true")
  }

  /** `(S3_FORCE_PATH_STYLE || 'false').toLowerCase() === 'true'` */
  function ForcePathStyle(v: Option<string>): (b: bool)
    ensures b <==> v.Some? && IsTrueIgnoringCase(v.value)
  {
    IsTrueIgnoringCase(OrElse(v, "false"))
  }

  /** `https://${bucket}.s3.${region}.amazonaws.com/${encodeURIComponentPath(key)}` */
  function VirtualHostedUrl(bucket: string, region: string, key: string): string {
    "https://" + VirtualHost(bucket, region) + "/" + EncodeURIComponentPath(key)
  }

  /** `${bucket}.s3.${region}.amazonaws.com` */
  function VirtualHost(bucket: string, region: string): (host: string)
    ensures '/' !in bucket && '/' !in region ==> '/' !in host
  {
    bucket + ".s3." + region + ".amazonaws.com"
  }

  /** `${endpoint.replace(/\/$/, '')}/${bucket}/${encodeURIComponentPath(key)}` */
  function PathStyleUrl(endpoint: string, bucket: string, key: string): string {
    DropOneTrailingSlash(endpoint) + "/" + bucket + "/" + EncodeURIComponentPath(key)
  }

  /** `${base.replace(/\/$/, '')}/${key}`: the key is not percent-encoded. */
  function PublicBaseJoin(base: string, key: string): string {
    DropOneTrailingSlash(base) + "/" + key
  }

  /** The choice every copy of `buildPublicUrl` makes once the base URL is
      sanitised and the bucket is known: a usable public base comes first,
      then any non-empty `S3_ENDPOINT` (whatever its scheme, and in path
      style whatever `S3_FORCE_PATH_STYLE` says), then the AWS
      virtual-hosted URL in `S3_REGION || 'us-east-2'`. */
  function ChooseUrl(publicBase: Option<string>, env: Env, bucket: string, key: string): (r: string)
    ensures Truthy(publicBase) ==> r == PublicBaseJoin(publicBase.value, key)
    ensures !Truthy(publicBase) && Truthy(env.endpoint) ==> r == PathStyleUrl(env.endpoint.value, bucket, key)
    ensures !Truthy(publicBase) && !Truthy(env.endpoint) ==>
      r == VirtualHostedUrl(bucket, OrElse(env.region, DefaultRegion), key)
  {
    var region := OrElse(env.region, DefaultRegion);
    if Truthy(publicBase) then PublicBaseJoin(publicBase.value, key)
    else if Truthy(env.endpoint) then
      if ForcePathStyle(env.forcePathStyle) then PathStyleUrl(env.endpoint.value, bucket, key)
      else PathStyleUrl(env.endpoint.value, bucket, key)
    else VirtualHostedUrl(bucket, region, key)
  }

  /** `buildPublicUrl` of routes/groups.ts with the corrected sanitiser: the
      bucket and region default as for the upload. */
  function BuildPublicUrl(env: Env, key: string): (r: string)
    ensures Truthy(SanitizeBaseUrl(env.publicBaseUrl)) ==>
      r == PublicBaseJoin(SanitizeBaseUrl(env.publicBaseUrl).value, key)
    ensures !Truthy(SanitizeBaseUrl(env.publicBaseUrl)) && Truthy(env.endpoint) ==>
      r == PathStyleUrl(env.endpoint.value, UploadBucket(env), key)
    ensures !Truthy(SanitizeBaseUrl(env.publicBaseUrl)) && !Truthy(env.endpoint) ==>
      r == VirtualHostedUrl(UploadBucket(env), OrElse(env.region, DefaultRegion), key)
  {
    ChooseUrl(SanitizeBaseUrl(env.publicBaseUrl), env, UploadBucket(env), key)
  }

  /** `buildPublicUrl` of routes/groups.ts as written: it differs from the
      corrected builder only where the two sanitisers do. */
  function BuildPublicUrlAsWritten(env: Env, key: string): (r: string)
    ensures Truthy(SanitizeBaseUrlAsWritten(env.publicBaseUrl)) ==>
      r == PublicBaseJoin(SanitizeBaseUrlAsWritten(env.publicBaseUrl).value, key)
    ensures !Truthy(SanitizeBaseUrlAsWritten(env.publicBaseUrl)) && Truthy(env.endpoint) ==>
      r == PathStyleUrl(env.endpoint.value, UploadBucket(env), key)
    ensures !Truthy(SanitizeBaseUrlAsWritten(env.publicBaseUrl)) && !Truthy(env.endpoint) ==>
      r == VirtualHostedUrl(UploadBucket(env), OrElse(env.region, DefaultRegion), key)
    ensures SanitizeBaseUrlAsWritten(env.publicBaseUrl) == SanitizeBaseUrl(env.publicBaseUrl) ==>
      r == BuildPublicUrl(env, key)
  {
    ChooseUrl(SanitizeBaseUrlAsWritten(env.publicBaseUrl), env, UploadBucket(env), key)
  }

  /** A template literal's rendering of a possibly-undefined string. */
  function TemplateText(v: Option<string>): string {
    if v.Some? then v.value else "undefined"
  }

  /** `buildPublicUrl` of index.ts as written: the groups.ts copy, except
      that the bucket is `process.env.S3_BUCKET!`, which has no default. */
  function BuildPublicUrlIndexAsWritten(env: Env, key: string): (r: string)
    ensures env.bucket.Some? && env.bucket.value != [] ==> r == BuildPublicUrlAsWritten(env, key)
    ensures Truthy(SanitizeBaseUrlAsWritten(env.publicBaseUrl)) ==> r == BuildPublicUrlAsWritten(env, key)
  {
    ChooseUrl(SanitizeBaseUrlAsWritten(env.publicBaseUrl), env, TemplateText(env.bucket), key)
  }

  /** What utils/storage.ts loads as written: the corrected configuration
      but for the public base, which goes through the storage copy of
      `sanitizeBaseUrl` as written. */
  function LoadStorageConfigAsWritten(env: Env): (c: StorageConfig)
    ensures c.publicBaseUrl == SanitizeStorageBaseUrlAsWritten(env.publicBaseUrl)
    ensures c.(publicBaseUrl := SanitizeStorageBaseUrl(env.publicBaseUrl)) == LoadStorageConfig(env)
  {
    LoadStorageConfig(env).(publicBaseUrl := SanitizeStorageBaseUrlAsWritten(env.publicBaseUrl))
  }

  /** A quoted base URL with a blank before its comment: every builder as
      written keeps the closing quote in the URL it records, the corrected
      ones drop it. */
  lemma QuotedBaseUrlKeepsQuote(env: Env, key: string, u: string, q: char, b: char, m: char, comment: string)
    requires IsCleanUrl(u) && IsQuote(q) && IsJsWhitespace(b) && IsCommentMark(m)
    requires comment == [] || !IsJsWhitespace(comment[|comment| - 1])
    requires env.publicBaseUrl == Some([q] + u + [q, b, m] + comment)
    ensures BuildPublicUrlAsWritten(env, key) == u + [q] + "/" + key
    ensures BuildPublicUrlIndexAsWritten(env, key) == u + [q] + "/" + key
    ensures FileUrl(LoadStorageConfigAsWritten(env), key) == u + [q] + "/" + key
    ensures BuildPublicUrl(env, key) == u + "/" + key
    ensures FileUrl(LoadStorageConfig(env), key) == u + "/" + key
  {
    QuoteBeforeCommentSurvives(u, q, b, m, comment);
    PublicBaseJoinSanitized(u + [q], key);
    PublicBaseJoinSanitized(u, key);
  }

  /** Off the quote-before-comment case the builders as written record the
      URL the corrected ones do. */
  lemma AsWrittenAgreesWithoutBlankBeforeComment(env: Env, key: string)
    requires env.publicBaseUrl.Some? && NoBlankBeforeComment(env.publicBaseUrl.value)
    ensures BuildPublicUrlAsWritten(env, key) == BuildPublicUrl(env, key)
    ensures FileUrl(LoadStorageConfigAsWritten(env), key) == FileUrl(LoadStorageConfig(env), key)
  {
    CorrectionAgreesWithoutBlankBeforeComment(env.publicBaseUrl.value);
  }

  /** With `S3_BUCKET` unset, index.ts uploads the photo to the `rootine`
      bucket but records a URL on a host named after the bucket `undefined`. */
  lemma UnsetBucketNamesUndefined(env: Env, key: string)
    requires env.bucket.None? && !Truthy(env.endpoint)
    requires !Truthy(SanitizeBaseUrlAsWritten(env.publicBaseUrl))
    ensures UploadBucket(env) == "rootine"
    ensures BuildPublicUrlIndexAsWritten(env, key) == VirtualHostedUrl("undefined", OrElse(env.region, DefaultRegion), key)
    ensures BuildPublicUrlIndexAsWritten(env, key) != VirtualHostedUrl(UploadBucket(env), OrElse(env.region, DefaultRegion), key)
  {
    var region := OrElse(env.region, DefaultRegion);
    var written := VirtualHostedUrl("undefined", region, key);
    var intended := VirtualHostedUrl("rootine", region, key);
    assert written[8] == 'u' && intended[8] == 'r';
  }

  /** The URL the routes record names the bucket the photo was uploaded to,
      whichever of the endpoint and the AWS form is chosen. */
  lemma UrlNamesUploadBucket(env: Env, key: string)
    requires !Truthy(SanitizeBaseUrl(env.publicBaseUrl))
    ensures Truthy(env.endpoint) ==>
      BuildPublicUrl(env, key) == DropOneTrailingSlash(env.endpoint.value) + "/" + UploadBucket(env) + "/" + EncodeURIComponentPath(key)
    ensures !Truthy(env.endpoint) ==>
      BuildPublicUrl(env, key) == "https://" + VirtualHost(UploadBucket(env), OrElse(env.region, DefaultRegion)) + "/" + EncodeURIComponentPath(key)
  {
  }

  /** A sanitised base URL never ends in `/`, so the public-base form is the
      base, one `/` and the raw key. */
  lemma PublicBaseJoinSanitized(u: string, key: string)
    requires IsSanitized(u)
    ensures PublicBaseJoin(u, key) == u + "/" + key
  {
  }

  /** The virtual-hosted URL parses back: its host is the bucket's S3 host
      in the region, and what follows the host's `/` is the encoded key,
      which has as many `/`-separated segments as the key. */
  lemma VirtualHostedUrlParts(bucket: string, region: string, key: string)
    requires '/' !in bucket && '/' !in region
    ensures var u := VirtualHostedUrl(bucket, region, key);
      var host := VirtualHost(bucket, region);
      StartsWith(u, "https://") && TakeUntil(u[8..], '/') == host
      && u[8 + |host| + 1..] == EncodeURIComponentPath(key)
      && |Split(u[8 + |host| + 1..], '/')| == |Split(key, '/')|
  {
    var u := VirtualHostedUrl(bucket, region, key);
    var host := VirtualHost(bucket, region);
    var path := EncodeURIComponentPath(key);
    assert u[8..] == host + ['/'] + path && StartsWith(u, "https://") by {
      assert u == "https://" + host + "/" + path;
    }
    assert TakeUntil(u[8..], '/') == host by {
      TakeUntilStopsAtSep(host, path, '/');
    }
    assert u[8 + |host| + 1..] == path by {
      assert u[8..][|host| + 1..] == path;
    }
    EncodePathSegments(key);
  }

  /** The path-style URL ends in the bucket and the encoded key, and a
      single `/` separates the endpoint from the bucket unless the endpoint
      itself ends in `//`. */
  lemma PathStyleUrlParts(endpoint: string, bucket: string, key: string)
    requires |endpoint| < 2 || endpoint[|endpoint| - 2..] != "//"
    ensures var base := DropOneTrailingSlash(endpoint);
      PathStyleUrl(endpoint, bucket, key) == base + "/" + bucket + "/" + EncodeURIComponentPath(key)
      && (base == [] || base[|base| - 1] != '/')
  {
    var base := DropOneTrailingSlash(endpoint);
    if base != [] && base != endpoint {
      assert base + "/" == endpoint;
      assert endpoint[|endpoint| - 2..] == [base[|base| - 1], '/'];
    }
  }

  /** What utils/storage.ts reads from the environment when it loads. */
  datatype StorageConfig = StorageConfig(
    region: string,
    bucket: string,
    endpoint: Option<string>,
    accessKeyId: string,
    secretAccessKey: string,
    forcePathStyle: bool,
    publicBaseUrl: Option<string>)

  /** `/^https?:\/\//.test(v)`, which is case-sensitive. */
  predicate HasHttpScheme(v: string) {
    StartsWith(v, "http://") || StartsWith(v, "https://")
  }

  /** The module-level constants of utils/storage.ts: region and bucket with
      their defaults, an endpoint only when it starts with `http://` or
      `https://`, the `S3_` credentials before the `AWS_` ones, and the
      public base URL through the storage copy of `sanitizeBaseUrl`. */
  function LoadStorageConfig(env: Env): (c: StorageConfig)
    ensures c.region != [] && c.bucket == UploadBucket(env)
    ensures c.endpoint.Some? <==> Truthy(env.endpoint) && HasHttpScheme(env.endpoint.value)
    ensures c.endpoint.Some? ==> c.endpoint == env.endpoint
    ensures c.accessKeyId == [] <==> !Truthy(env.s3AccessKeyId) && !Truthy(env.awsAccessKeyId)
    ensures c.secretAccessKey == [] <==> !Truthy(env.s3SecretAccessKey) && !Truthy(env.awsSecretAccessKey)
    ensures c.forcePathStyle == ForcePathStyle(env.forcePathStyle)
    ensures c.publicBaseUrl == SanitizeStorageBaseUrl(env.publicBaseUrl)
  {
    var endpointEnv := if Truthy(env.endpoint) then env.endpoint else None;
    StorageConfig(
      OrElse(env.region, DefaultRegion),
      OrElse(env.bucket, DefaultBucket),
      if endpointEnv.Some? && HasHttpScheme(endpointEnv.value) then endpointEnv else None,
      OrElse(env.s3AccessKeyId, OrElse(env.awsAccessKeyId, "")),
      OrElse(env.s3SecretAccessKey, OrElse(env.awsSecretAccessKey, "")),
      ForcePathStyle(env.forcePathStyle),
      SanitizeStorageBaseUrl(env.publicBaseUrl))
  }

  /** `buildDefaultPublicUrl`: a custom endpoint gives the path-style URL
      whether or not path style is asked for; otherwise the AWS
      virtual-hosted URL. */
  function BuildDefaultPublicUrl(bucketName: string, regionName: string, customEndpoint: Option<string>,
                                 pathStyle: bool, key: string): (r: string)
    ensures Truthy(customEndpoint) ==> r == PathStyleUrl(customEndpoint.value, bucketName, key)
    ensures !Truthy(customEndpoint) ==> r == VirtualHostedUrl(bucketName, regionName, key)
  {
    if Truthy(customEndpoint) then
      if pathStyle then PathStyleUrl(customEndpoint.value, bucketName, key)
      else PathStyleUrl(customEndpoint.value, bucketName, key)
    else VirtualHostedUrl(bucketName, regionName, key)
  }

  /** The `fileUrl` of `createPresignedUploadUrl`. */
  function FileUrl(c: StorageConfig, key: string): (r: string)
    ensures Truthy(c.publicBaseUrl) ==> |r| > |key| && r[|r| - |key| - 1..] == "/" + key
    ensures !Truthy(c.publicBaseUrl) && Truthy(c.endpoint) ==>
      r == PathStyleUrl(c.endpoint.value, c.bucket, key)
    ensures !Truthy(c.publicBaseUrl) && !Truthy(c.endpoint) ==>
      StartsWith(r, "https://" + VirtualHost(c.bucket, c.region) + "/")
  {
    if Truthy(c.publicBaseUrl) then
      var base := DropOneTrailingSlash(c.publicBaseUrl.value);
      assert PublicBaseJoin(c.publicBaseUrl.value, key) == base + ("/" + key);
      PublicBaseJoin(c.publicBaseUrl.value, key)
    else
      var r := BuildDefaultPublicUrl(c.bucket, c.region, c.endpoint, c.forcePathStyle, key);
      assert !Truthy(c.endpoint) ==>
        r == ("https://" + VirtualHost(c.bucket, c.region) + "/") + EncodeURIComponentPath(key);
      r
  }

  /** A public base URL that survives sanitising wins, followed by `/` and
      the unencoded key; the other forms never depend on path style. */
  lemma FileUrlChoice(env: Env, key: string)
    ensures var c := LoadStorageConfig(env);
      var base := SanitizeStorageBaseUrl(env.publicBaseUrl);
      (base.Some? ==> FileUrl(c, key) == base.value + "/" + key)
      && (base.None? && c.endpoint.Some? ==> FileUrl(c, key) == PathStyleUrl(env.endpoint.value, UploadBucket(env), key))
      && (base.None? && c.endpoint.None? ==> FileUrl(c, key) == VirtualHostedUrl(UploadBucket(env), c.region, key))
  {
    var base := SanitizeStorageBaseUrl(env.publicBaseUrl);
    if base.Some? {
      assert base.value != [] by {
        assert IsSanitized(base.value);
      }
      PublicBaseJoinSanitized(base.value, key);
    }
  }

  /** The routes and utils/storage.ts give the same URL for a key as long
      as both copies of `sanitizeBaseUrl` agree on the public base and the
      endpoint, if set, starts with `http://` or `https://`. */
  lemma RoutesAgreeWithStorage(env: Env, key: string)
    requires SanitizeBaseUrl(env.publicBaseUrl) == SanitizeStorageBaseUrl(env.publicBaseUrl)
    requires Truthy(env.endpoint) ==> HasHttpScheme(env.endpoint.value)
    ensures BuildPublicUrl(env, key) == FileUrl(LoadStorageConfig(env), key)
  {
    var base := SanitizeBaseUrl(env.publicBaseUrl);
    if base.Some? {
      assert IsSanitized(base.value);
    }
  }

  /** An endpoint without an `http(s)://` scheme is used by the routes but
      ignored by utils/storage.ts, which falls back to the AWS host. */
  lemma SchemelessEndpointDiverges(env: Env, key: string)
    requires Truthy(env.endpoint) && !HasHttpScheme(env.endpoint.value)
    requires SanitizeBaseUrl(env.publicBaseUrl).None? && SanitizeStorageBaseUrl(env.publicBaseUrl).None?
    ensures BuildPublicUrl(env, key) == PathStyleUrl(env.endpoint.value, UploadBucket(env), key)
    ensures FileUrl(LoadStorageConfig(env), key) == VirtualHostedUrl(UploadBucket(env), OrElse(env.region, DefaultRegion), key)
  {
  }

  /** The headers the client must send with the presigned upload. */
  function PresignHeaders(contentType: Option<string>): (h: seq<(string, string)>)
    ensures |h| >= 1 && h[|h| - 1] == ("x-amz-acl", "public-read")
    ensures Truthy(contentType) ==> |h| == 2 && h[0] == ("Content-Type", contentType.value)
    ensures !Truthy(contentType) ==> |h| == 1
  {
    (if Truthy(contentType) then [("Content-Type", contentType.value)] else [])
    + [("x-amz-acl", "public-read")]
  }

  /** `params.expiresInSeconds || 60 * 5`: zero and a missing value are falsy. */
  function ExpiresIn(e: Option<int>): (s: int)
    ensures s != 0
    ensures e.Some? && e.value != 0 ==> s == e.value
  {
    if e.Some? && e.value != 0 then e.value else 300
  }

  /** What `createPresignedUploadUrl` asks the signer for and returns,
      besides the signed URL itself. */
  datatype PresignedUpload = PresignedUpload(
    bucket: string,
    key: string,
    contentType: string,
    acl: string,
    expiresIn: int,
    headers: seq<(string, string)>,
    fileUrl: string)

  function Presign(c: StorageConfig, key: string, contentType: Option<string>, expires: Option<int>): (p: PresignedUpload)
    ensures p.bucket == c.bucket && p.key == key && p.acl == "public-read"
    ensures Truthy(contentType) ==> p.contentType == contentType.value
    ensures !Truthy(contentType) ==> p.contentType == "application/octet-stream"
    ensures p.expiresIn != 0 && p.headers == PresignHeaders(contentType) && p.fileUrl == FileUrl(c, key)
  {
    PresignedUpload(c.bucket, key, OrElse(contentType, "application/octet-stream"), "public-read",
                    ExpiresIn(expires), PresignHeaders(contentType), FileUrl(c, key))
  }

  /** An S3 client is made of the region and the credentials; the endpoint
      and path style are not passed to it. */
  datatype S3Client = S3Client(region: string, accessKeyId: string, secretAccessKey: string)

  /** What `getS3Client` does when nothing is cached: a client, or the error
      it throws (a plain `Error`, which reaches a caller as an internal
      server error). */
  function NewClient(c: StorageConfig): (r: Result<S3Client>)
    ensures r.Ok? <==> c.bucket != [] && c.accessKeyId != [] && c.secretAccessKey != []
    ensures r.Ok? ==> r.value.region == c.region && r.value.accessKeyId == c.accessKeyId
                      && r.value.secretAccessKey == c.secretAccessKey
    ensures r.Err? ==> r.code == InternalServerError
  {
    if c.bucket == [] then Err(InternalServerError)
    else if c.accessKeyId == [] || c.secretAccessKey == [] then Err(InternalServerError)
    else Ok(S3Client(c.region, c.accessKeyId, c.secretAccessKey))
  }

  /** The bucket always has its default, so only the credentials decide
      whether a client can be made. */
  lemma ClientNeedsCredentials(env: Env)
    ensures NewClient(LoadStorageConfig(env)).Ok? <==>
      (Truthy(env.s3AccessKeyId) || Truthy(env.awsAccessKeyId))
      && (Truthy(env.s3SecretAccessKey) || Truthy(env.awsSecretAccessKey))
  {
  }

  /** Whether `getS3Client` gives a client in this environment rather than
      throwing. */
  predicate ClientAvailable(env: Env) {
    NewClient(LoadStorageConfig(env)).Ok?
  }

  /** utils/storage.ts as loaded: its configuration and the `_client` cache. */
  class Storage {
    const config: StorageConfig
    var client: Option<S3Client>

    /** A cached client is the one the configuration makes. */
    predicate Valid()
      reads this
    {
      client.Some? ==> NewClient(config) == Ok(client.value)
    }

    constructor(env: Env)
      ensures config == LoadStorageConfig(env) && client == None
      ensures Valid()
    {
      var c := LoadStorageConfig(env);
      config := c;
      client := None;
    }

    /** `getS3Client`: the cached client if there is one, otherwise a new
        one, which is cached; the errors leave the cache empty. */
    method GetS3Client() returns (r: Result<S3Client>)
      requires Valid()
      modifies this
      ensures Valid()
      ensures r == NewClient(config)
      ensures old(client).Some? ==> client == old(client)
      ensures old(client).None? ==> client == (if r.Ok? then Some(r.value) else None)
    {
      if client.Some? {
        return Ok(client.value);
      }
      r := NewClient(config);
      if r.Ok? {
        client := Some(r.value);
      }
    }

    /** `createPresignedUploadUrl` less the signing: it fails exactly when
        no client can be made, and otherwise returns the upload request,
        headers and file URL for the key. */
    method CreatePresignedUploadUrl(key: string, contentType: Option<string>, expiresInSeconds: Option<int>)
      returns (r: Result<PresignedUpload>)
      requires Valid()
      modifies this
      ensures Valid()
      ensures r.Err? <==> NewClient(config).Err?
      ensures r.Err? ==> r.code == InternalServerError
      ensures r.Ok? ==> r.value == Presign(config, key, contentType, expiresInSeconds)
      ensures old(client).Some? ==> client == old(client)
      ensures old(client).None? ==> client == (if r.Ok? then Some(NewClient(config).value) else None)
    {
      var c := GetS3Client();
      if c.Err? {
        return Err(c.code);
      }
      r := Ok(Presign(config, key, contentType, expiresInSeconds));
    }
  }
}
