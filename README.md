# Rootine habit tracker: a Dafny model of its core

Rootine is a habit-tracking app. A user keeps goals (called habits in the
backend's tables) and proves each day's progress with a photo. Coins are
earned for proofs and spent on flowers for a small garden. Users can form
groups with a six-letter join code. When all members of a group have sent
the day's photo, every member gets a coin award that grows with the size of
the group.

This project models the parts of the backend and frontend that decide what
is stored and what is answered:

- **Groups** (`packages/backend/src/routes/groups.ts`):
  - the join code and `createGroup` with its retry loop;
  - `joinGroup`;
  - the group detail with its day-by-day streak;
  - the gate of `submitProof`;
  - the daily coin award.
- **Flowers** (`packages/backend/src/routes/flowers.ts`): buying, moving, signing and deleting flowers, each as one database transaction.
- **Personal proofs**:
  - `getProofs` and `createUploadUrl` (`packages/backend/src/routes/proofs.ts`);
  - the multipart upload handler of `packages/backend/src/index.ts`.
- **Storage URLs** (the helpers in `utils/storage.ts`, `index.ts` and `groups.ts`):
  - `sanitizeBaseUrl`, in its two copies;
  - `encodeURIComponent` / `encodeURIComponentPath`;
  - `buildPublicUrl` / `buildDefaultPublicUrl`;
  - the presigned-upload headers;
  - the cached S3 client.
- **Client state** (`AppStateProvider.tsx`): the reducers `addGoal`, `removeGoal`, `addProof` and `purchaseFlower`.

How the source maps onto the model:

- **Database tables** are values: `Groups.Tables`, `Flowers.FlowerTables` and `Proofs.ProofTables`.
- **Each route or transaction** is a function from the old tables to an answer and the new tables (`AwardStep`, `SubmitStep`, `PurchaseStep`, `MoveStep`, `CreateUploadStep`, `FinishStep`, …). The lemmas about these functions state what the source promises.
- **Classes hold the tables as fields** (`Groups.GroupStore`, `Flowers.FlowerStore`, `Proofs.ProofStore`, `PublicUrl.Storage`, `Proofs.UploadSession`). Each method is proved to move the state exactly as its step function says.
- **Loops in the source are methods with loops**:
  - the six-character code and the five retries of `createGroup`;
  - the streak count;
  - the free-slot search of the client's `purchaseFlower`.
- **Inputs from outside are parameters**:
  - `Date.now()` and `CURRENT_DATE`;
  - `Math.random()` draws;
  - the generated ids;
  - the AI verifier's verdict;
  - whether the S3 upload or a transaction threw;
  - the environment variables.
- **JavaScript truthiness** of an optional string is `Common.Truthy`: set and non-empty.

Modules:

- **`Common`**: options and results, tRPC error codes, and JavaScript string helpers (`trim`, `indexOf`-based cuts, `toUpperCase`, `String(n)`).
- **`UriEncoding`**: `encodeURIComponent` byte by byte over UTF-8, plus `split` / `join` on `/`.
- **`BaseUrl`**: both copies of `sanitizeBaseUrl`, as written and corrected.
- **`ProofKeys`**: `contentTypeToExt`, `parseDataUrl`'s content type, and the storage key formats.
- **`PublicUrl`**: the public URL of a stored object, the storage configuration and the S3 client cache.
- **`Groups`**, **`Flowers`**, **`Proofs`** and **`AppState`**: the routes and the client reducers.

## Model

| member | source | states |
|---|---|---|
| `Common.TakeUntil` | packages/backend/src/index.ts:152-155 | The cut at the first separator is the longest prefix without it. The separator follows it if there was one. |
| `Common.TakeUntilSkips` | packages/backend/src/index.ts:152-155 | Cutting at the first separator skips a prefix that does not contain it. |
| `Common.TrimStart` | packages/backend/src/index.ts:151 | `trim()` at the front drops exactly the leading JavaScript whitespace. |
| `Common.TrimEnd` | packages/backend/src/index.ts:151 | `trim()` at the back drops exactly the trailing JavaScript whitespace. |
| `Common.TrimKeepsTrimmed` | packages/backend/src/index.ts:156 | `trim()` leaves a string alone when it does not begin or end in whitespace. |
| `Common.ToUpperCase` | packages/backend/src/routes/groups.ts:40 | `toUpperCase()` replaces each character by its upper case, which can be longer (`ß` gives `SS`), so the result is never shorter. Text whose characters are their own upper case is unchanged. |
| `Common.ToUpperCaseAppend` | packages/backend/src/routes/groups.ts:40 | Upper-casing distributes over concatenation. |
| `Common.ToUpperCaseCharwise` | packages/backend/src/routes/groups.ts:40 | Text whose every character upper-cases to one character becomes exactly those characters. |
| `Common.SharpSLengthens` | packages/backend/src/routes/groups.ts:40 | `"straße".toUpperCase()` is `"STRASSE"`, one character longer. |
| `Common.NatToString` | packages/backend/src/routes/proofs.ts:17 | `String(id)` is a non-empty string of digits, one digit long exactly for ids below 10. |
| `UriEncoding.Utf8` | packages/backend/src/index.ts:145 | A code point encodes as 1 to 4 bytes, all below 256. It is one byte exactly for ASCII. |
| `UriEncoding.Escape` | packages/backend/src/index.ts:145 | A byte becomes `%` and two hex digits. |
| `UriEncoding.EncodeChar` | packages/backend/src/index.ts:145 | An unreserved character is kept. Any other character becomes 1 to 4 `%XX` escapes. Either way only encoded-safe characters come out. |
| `UriEncoding.EncodeURIComponent` | packages/backend/src/index.ts:145 | The encoding never contains `/`. It is never shorter than its input, and it has the same length exactly when every character is unreserved. |
| `UriEncoding.EncodeUnreservedIsIdentity` | packages/backend/src/index.ts:145 | A segment of unreserved characters encodes to itself. |
| `UriEncoding.Split` | packages/backend/src/index.ts:144 | `split('/')` gives at least one part, and no part contains the separator. |
| `UriEncoding.JoinSplit` | packages/backend/src/index.ts:144-146 | Joining the parts of a split gives back the string. |
| `UriEncoding.SplitJoin` | packages/backend/src/index.ts:144-146 | Splitting the join of separator-free parts gives back the parts. |
| `UriEncoding.SplitCount` | packages/backend/src/index.ts:144 | The number of parts is the number of separators plus one. |
| `UriEncoding.EncodeSegments` | packages/backend/src/index.ts:145 | Each path segment is encoded on its own, and the count of segments is kept. |
| `UriEncoding.EncodePathSegments` | packages/backend/src/index.ts:142-147 | The encoded path's segments are the encodings of the original segments, and the number of `/` is kept. |
| `UriEncoding.EncodePlainPathIsIdentity` | packages/backend/src/utils/storage.ts:98-103 | A key made of unreserved characters and `/` is left as it is by `encodeURIComponentPath`. |
| `BaseUrl.DropLeadingQuotes` | packages/backend/src/index.ts:156 | `replace(/^["']+/, '')` removes exactly the leading run of quotes. |
| `BaseUrl.DropTrailingQuotes` | packages/backend/src/index.ts:156 | `replace(/["']+$/, '')` removes exactly the trailing run of quotes. |
| `BaseUrl.CutComment` | packages/backend/src/index.ts:152-155 | The result is a prefix of the value containing neither `;` nor `#`. |
| `BaseUrl.SchemeLength` | packages/backend/src/index.ts:158 | The `http://` or `https://` prefix, matched ignoring case, is 7 or 8 characters long, or absent. |
| `BaseUrl.DropTrailingSlashes` | packages/backend/src/index.ts:160 | `replace(/\/+$/, '')` removes exactly the trailing run of `/`. |
| `BaseUrl.Finish` | packages/backend/src/index.ts:158-161 | A result exists exactly when the value has the `https?://host[/path]` shape. The result is a prefix of the value, sanitised (scheme, host, no trailing `/`). |
| `BaseUrl.FinishKeepsHost` | packages/backend/src/index.ts:158-160 | Removing the trailing slashes never eats into the scheme or the host. |
| `BaseUrl.UnquoteRuns` | packages/backend/src/index.ts:156 | Removing the quote runs and trimming keeps the value free of comment marks. |
| `BaseUrl.UnquoteOnce` | packages/backend/src/utils/storage.ts:90 | Removing one quote at each end and trimming keeps the value free of comment marks. |
| `BaseUrl.SanitizeBaseUrlAsWritten` | packages/backend/src/index.ts:149-162 | The `index.ts` / `groups.ts` copy as written. Unset or empty gives none. Any result is a sanitised URL. |
| `BaseUrl.SanitizeStorageBaseUrlAsWritten` | packages/backend/src/utils/storage.ts:81-96 | The `storage.ts` copy as written, which removes only one quote per end. Unset or empty gives none. Any result is sanitised. |
| `BaseUrl.CutCommentTrimmed` | packages/backend/src/index.ts:151-156 | The comment cut followed by a trim: free of comment marks. |
| `BaseUrl.SanitizeBaseUrl` | packages/backend/src/routes/groups.ts:265-276 | The corrected `index.ts` / `groups.ts` copy. Unset or empty gives none. Any result is a sanitised URL. |
| `BaseUrl.SanitizeStorageBaseUrl` | packages/backend/src/utils/storage.ts:81-96 | The corrected storage copy. Unset or empty gives none. Any result is a sanitised URL. |
| `BaseUrl.CleanUrlIsKept` | packages/backend/src/index.ts:149-162 | Every copy, as written or corrected, returns a clean `https?://host/path` URL unchanged. |
| `BaseUrl.DoubledQuotesStripped` | packages/backend/src/index.ts:156 | A URL wrapped in two quotes on each side comes out bare from the `index.ts` copy. |
| `BaseUrl.DoubledQuotesRejectedByStorage` | packages/backend/src/utils/storage.ts:90-92 | The storage copy leaves a quote on each side of such a URL, so the URL is rejected. |
| `BaseUrl.SingleQuotedRejected` | packages/backend/src/index.ts:158 | A URL still wrapped in quotes fails the shape test. |
| `BaseUrl.CommentDropped` | packages/backend/src/index.ts:152-155 | Everything from the first `;` or `#` on is removed. |
| `BaseUrl.QuoteBeforeCommentSurvives` | packages/backend/src/index.ts:151-156 | For `'url' ;comment`, both copies as written keep the closing quote in the URL. The corrected copies return the bare URL. |
| `BaseUrl.CorrectionAgreesWithoutBlankBeforeComment` | packages/backend/src/index.ts:151-156 | When no blank precedes the comment mark, the corrections agree with the code as written. |
| `ProofKeys.ContentTypeToExt` | packages/backend/src/routes/proofs.ts:42-48 | The extension is the first of png, webp, heic (for `heic` or `heif`) and gif whose name the content type contains, and `jpg` otherwise. The conditions are stated both ways. |
| `ProofKeys.ExtHasNoSlash` | packages/backend/src/routes/groups.ts:227-233 | No extension contains `/`. |
| `ProofKeys.ImageJpegGivesJpg` | packages/backend/src/routes/proofs.ts:29 | The `image/jpeg` fallback gives `jpg`. |
| `ProofKeys.OctetStreamGivesJpg` | packages/backend/src/index.ts:53-54 | The `application/octet-stream` fallback gives `jpg`. |
| `ProofKeys.FileName` | packages/backend/src/routes/proofs.ts:30 | The `<timestamp>.<ext>` file name has no `/` when the extension has none. |
| `ProofKeys.SplitFour` | packages/backend/src/routes/proofs.ts:30 | Four `/`-free parts joined by `/` split back into the four parts. |
| `ProofKeys.ProofKeySegments` | packages/backend/src/routes/proofs.ts:30 | `proofs/<user>/<goal>/<ts>.<ext>` has exactly these four segments when user and goal have no `/`. |
| `ProofKeys.GroupProofKeySegments` | packages/backend/src/routes/groups.ts:192 | `group-proofs/<group>/<user>/<ts>.<ext>` has exactly these four segments. |
| `ProofKeys.DataUrlContentType` | packages/backend/src/routes/groups.ts:235-242 | The content type `parseDataUrl` reports is non-empty and contains no `;`. |
| `ProofKeys.DataUrlRoundTrip` | packages/backend/src/routes/groups.ts:236-241 | `data:<mime>;base64,<payload>` gives back `<mime>` for any `;`-free mime and any one-line payload. |
| `ProofKeys.NotDataUrlIsJpeg` | packages/backend/src/routes/groups.ts:237-238 | Anything that does not start with `data:` is taken as `image/jpeg`. |
| `ProofKeys.LineBreakInPayloadIsJpeg` | packages/backend/src/routes/groups.ts:236-238 | A line break in the payload defeats the match (`.` does not match it), so the type falls back to `image/jpeg`. |
| `PublicUrl.UploadBucket` | packages/backend/src/routes/groups.ts:209 | The bucket written to is `S3_BUCKET` or `rootine`, never empty. |
| `PublicUrl.DropOneTrailingSlash` | packages/backend/src/routes/groups.ts:250-253 | `replace(/\/$/, '')` removes one trailing `/` and nothing else. |
| `PublicUrl.ForcePathStyle` | packages/backend/src/routes/groups.ts:249 | The flag is on exactly when the variable is `true`, ignoring case. |
| `PublicUrl.VirtualHost` | packages/backend/src/routes/groups.ts:255 | The `<bucket>.s3.<region>.amazonaws.com` host has no `/` when bucket and region have none. |
| `PublicUrl.ChooseUrl` | packages/backend/src/routes/groups.ts:244-256 | Once the base is sanitised: a usable public base wins. Otherwise the endpoint is used, in path style whatever the flag says. Otherwise the AWS virtual-hosted URL is used. |
| `PublicUrl.BuildPublicUrl` | packages/backend/src/routes/groups.ts:244-256 | Corrected form (Findings row 1): the choice of `ChooseUrl` on the corrected sanitiser's base, with the bucket and region defaults. |
| `PublicUrl.BuildPublicUrlAsWritten` | packages/backend/src/routes/groups.ts:244-256 | As written: the same choice on the base of `sanitizeBaseUrl` as written. It equals the corrected URL whenever the two sanitisers agree. |
| `PublicUrl.BuildPublicUrlIndexAsWritten` | packages/backend/src/index.ts:127-140 | As written, the sanitiser included. The `index.ts` copy equals the `groups.ts` copy as written whenever `S3_BUCKET` is set and non-empty, or a public base is used. |
| `PublicUrl.LoadStorageConfigAsWritten` | packages/backend/src/utils/storage.ts:5-12 | As written: the configuration of `LoadStorageConfig`, except that the public base goes through the storage sanitiser as written. |
| `PublicUrl.QuotedBaseUrlKeepsQuote` | packages/backend/src/routes/groups.ts:244-276 | For `'url' ;comment`, the URL that `groups.ts`, `index.ts` and `storage.ts` record as written is `url'/key`, with the quote kept. The corrected forms record `url/key`. |
| `PublicUrl.AsWrittenAgreesWithoutBlankBeforeComment` | packages/backend/src/utils/storage.ts:81-96 | When no blank comes before a comment mark, the routes' URL and the storage `fileUrl` as written equal the corrected ones. |
| `PublicUrl.UnsetBucketNamesUndefined` | packages/backend/src/index.ts:130 | With `S3_BUCKET` unset, the `index.ts` URL names the bucket `undefined`, while the upload went to `rootine`. |
| `PublicUrl.UrlNamesUploadBucket` | packages/backend/src/routes/groups.ts:247-255 | Without a public base, the corrected URL names the bucket the object was uploaded to. |
| `PublicUrl.PublicBaseJoinSanitized` | packages/backend/src/routes/groups.ts:250 | On a sanitised base the trailing-slash removal does nothing: the URL is `base/key`. |
| `PublicUrl.VirtualHostedUrlParts` | packages/backend/src/routes/groups.ts:255 | The virtual-hosted URL is `https://`, then the host up to the first `/`, then the encoded key with as many segments as the key. |
| `PublicUrl.PathStyleUrlParts` | packages/backend/src/utils/storage.ts:70-75 | The path-style URL is the endpoint without one trailing `/`, then `/bucket/`, then the encoded key. |
| `PublicUrl.LoadStorageConfig` | packages/backend/src/utils/storage.ts:5-12 | Corrected form (Findings row 1). Region and bucket defaults. The endpoint is kept only with an `http(s)://` scheme. Credentials come from the `S3_` variables, else the `AWS_` ones. The public base goes through the corrected storage sanitiser. |
| `PublicUrl.BuildDefaultPublicUrl` | packages/backend/src/utils/storage.ts:63-79 | An endpoint gives the path-style URL whatever the flag says. No endpoint gives the virtual-hosted URL. |
| `PublicUrl.FileUrl` | packages/backend/src/utils/storage.ts:47-49 | With a public base, the URL ends in `/` and the unencoded key. Otherwise an endpoint gives the path-style URL, and no endpoint gives the bucket's AWS host. |
| `PublicUrl.FileUrlChoice` | packages/backend/src/utils/storage.ts:47-49 | Corrected form (Findings row 1): `fileUrl` is the sanitised base plus `/` and the unencoded key, or else the default URL built from the loaded configuration. |
| `PublicUrl.RoutesAgreeWithStorage` | packages/backend/src/utils/storage.ts:47-49 | Corrected form (Findings row 1): the routes and the storage module give the same URL when both corrected sanitisers agree and the endpoint, if set, has an http(s) scheme. |
| `PublicUrl.SchemelessEndpointDiverges` | packages/backend/src/utils/storage.ts:8 | An endpoint without a scheme is used by the routes but dropped by the storage module, so the two URLs differ in form. |
| `PublicUrl.PresignHeaders` | packages/backend/src/utils/storage.ts:51-54 | The headers always end with `x-amz-acl: public-read`. `Content-Type` comes first exactly when a content type was given. |
| `PublicUrl.ExpiresIn` | packages/backend/src/utils/storage.ts:45 | The given lifetime is used unless it is missing or 0, which gives 300 seconds. |
| `PublicUrl.Presign` | packages/backend/src/utils/storage.ts:39-56 | The request names the configured bucket, the key and `public-read`. Its content type is the given one, else `application/octet-stream`. The lifetime is never 0. The headers are `PresignHeaders` and the file URL is `FileUrl`. |
| `PublicUrl.NewClient` | packages/backend/src/utils/storage.ts:16-30 | A client is made exactly when the bucket and both credentials are non-empty, with those credentials and the region. Otherwise the result is an internal error. |
| `PublicUrl.ClientNeedsCredentials` | packages/backend/src/utils/storage.ts:9-10 | Since the bucket has a default, only the credentials decide whether a client can be made. |
| `PublicUrl.Storage.constructor` | packages/backend/src/utils/storage.ts:5-14 | The module loads its configuration from the environment with an empty client cache. |
| `PublicUrl.Storage.GetS3Client` | packages/backend/src/utils/storage.ts:16-30 | The result is `NewClient(config)`. A cached client is kept, and a new client is cached only on success. |
| `PublicUrl.Storage.CreatePresignedUploadUrl` | packages/backend/src/utils/storage.ts:32-61 | Fails, with an internal error, exactly when no client can be made. Otherwise it returns the presigned upload: key, headers, `fileUrl` and expiry. A cached client is kept. With an empty cache, the new client is cached exactly on success. |
| `Groups.MembersOfDef` | packages/backend/src/routes/groups.ts:286-287 | A user is a member of the group exactly when the membership row exists. |
| `Groups.ProofCountAppend` | packages/backend/src/routes/groups.ts:179-185 | Appending a proof raises the day's count for its sender by one and leaves every other count alone. |
| `Groups.ProofCountZero` | packages/backend/src/routes/groups.ts:291-301 | A count of zero means no proof row of that member, group and day. |
| `Groups.Credit` | packages/backend/src/routes/groups.ts:310 | `COALESCE(coin, 0) + award` for the listed users. Every other balance is untouched and no user is added. |
| `Groups.PerMemberAward` | packages/backend/src/routes/groups.ts:303-305 | The per-member award is at least 5 coins per member of the group. |
| `Groups.PerMemberAwardIsRounded` | packages/backend/src/routes/groups.ts:303-305 | The integer formula equals `Math.round(5 * (1.5 * (n - 1) + 1))`. |
| `Groups.PerMemberAwardValues` | packages/backend/src/routes/groups.ts:303-305 | The award is 5, 13, 20 and 28 for 1 to 4 members. It is at least 5 per member and grows with the group. |
| `Groups.AwardStep` | packages/backend/src/routes/groups.ts:278-321 | The award never touches groups, memberships or proofs, and adds no user. When it changes anything, the day had no distribution, the transaction succeeded, the group has members who all submitted, and exactly the per-member amount is recorded for the day. |
| `Groups.AwardIdempotent` | packages/backend/src/routes/groups.ts:282-283 | A recorded distribution for the day stops the award, so a second award after a successful one changes nothing. |
| `Groups.AwardWithholds` | packages/backend/src/routes/groups.ts:289-317 | No members, no proof from some member, or a failed transaction: nothing is recorded and no balance changes. |
| `Groups.MissingProofBlocksAward` | packages/backend/src/routes/groups.ts:291-301 | One member without a proof that day blocks the award. |
| `Groups.AwardPays` | packages/backend/src/routes/groups.ts:303-311 | A successful award records one distribution of the per-member amount and credits it to every member and nobody else. |
| `Groups.AwardIsLocal` | packages/backend/src/routes/groups.ts:278-321 | The award adds at most the one distribution, keeps the others and never lowers a balance. |
| `Groups.MembersWithProof` | packages/backend/src/routes/groups.ts:89-111 | The members counted on a day are members of the group. |
| `Groups.PerDayRows` | packages/backend/src/routes/groups.ts:89-111 | At most 181 rows (`generate_series(0, 180)`), one per day counting back from today, and all 181 when the group has members. |
| `Groups.CompleteDay` | packages/backend/src/routes/groups.ts:117-121 | A day row is complete exactly when every member sent a proof that day. |
| `Groups.Streak` | packages/backend/src/routes/groups.ts:117-121 | The loop counts the leading complete rows: every row before the streak is complete, and the next one is not. |
| `Groups.StreakMeaning` | packages/backend/src/routes/groups.ts:89-121 | The streak is the number of consecutive days, up to 181 and ending today, on which every member submitted. A group without members has streak 0. |
| `Groups.PhotosOf` | packages/backend/src/routes/groups.ts:124-132 | At most 100 photos (`LIMIT 100`). |
| `Groups.NewestFirst` | packages/backend/src/routes/groups.ts:124-132 | The user's photos in the group, newest first, never more than the rows there are. |
| `Groups.SubmitKeySegments` | packages/backend/src/routes/groups.ts:190-192 | The group proof key splits into `group-proofs`, the group, the user and the file name. |
| `Groups.SubmitStep` | packages/backend/src/routes/groups.ts:170-224 | Corrected URL form (Findings row 1). Every error leaves the tables unchanged. Groups and memberships never change. An accepted proof is answered with its key and adds exactly one proof row. |
| `Groups.SubmitGate` | packages/backend/src/routes/groups.ts:170-224 | The checks come in the source's order with their error codes: membership, daily quota, verification, then `getS3Client` (INTERNAL_SERVER_ERROR without credentials). Every error leaves the tables unchanged. Success happens exactly when all checks pass, a client can be made and the upload succeeds. |
| `Groups.SubmitAccepted` | packages/backend/src/routes/groups.ts:190-221 | Corrected URL form (Findings row 1). With a client available, an accepted proof is stored under its key's public URL. It becomes the sender's one proof of the day, and groups and memberships stay as they were. |
| `Groups.AwardKeepsWellFormed` | packages/backend/src/routes/groups.ts:307-317 | The award keeps the tables well-formed: memberships and proofs name existing groups, and there is at most one proof per member and day. |
| `Groups.SubmitKeepsWellFormed` | packages/backend/src/routes/groups.ts:170-224 | Submitting a proof keeps the tables well-formed. |
| `Groups.NormalizeCode` | packages/backend/src/routes/groups.ts:40 | `trim().toUpperCase()` is empty exactly when the typed code is blank. |
| `Groups.FindCode` | packages/backend/src/routes/groups.ts:41-42 | A group is found exactly when some group has the code. The one found has it, and no earlier group (in insertion order) has it. |
| `Groups.JoinStep` | packages/backend/src/routes/groups.ts:37-46 | Joining changes only memberships. An error is NOT_FOUND and leaves the tables unchanged. |
| `Groups.JoinByCode` | packages/backend/src/routes/groups.ts:41-45 | NOT_FOUND exactly when no group has the code, with the tables unchanged. Otherwise the group found has the code and exactly the joiner's membership of it is added. |
| `Groups.JoinIsIdempotent` | packages/backend/src/routes/groups.ts:37-46 | An unknown code gives NOT_FOUND and changes nothing. A known one adds exactly the joiner's membership of that group. Joining twice equals joining once. |
| `Groups.JoinKeepsWellFormed` | packages/backend/src/routes/groups.ts:44 | Joining keeps the tables well-formed. |
| `Groups.AddMemberKeepsWellFormed` | packages/backend/src/routes/groups.ts:33 | Adding a membership of an existing group keeps the tables well-formed. |
| `Groups.AlphabetChars` | packages/backend/src/routes/groups.ts:8 | The alphabet has 32 characters, all upper-case letters or digits. |
| `Groups.Pick` | packages/backend/src/routes/groups.ts:11 | `Math.floor(r * 32)` for `r` in [0, 1) is a valid index. |
| `Groups.CodeOf` | packages/backend/src/routes/groups.ts:7-14 | A code is six characters, each the alphabet letter its draw picks. |
| `Groups.GenerateGroupCode` | packages/backend/src/routes/groups.ts:7-14 | The loop builds exactly `CodeOf(draws)`. |
| `Groups.CodeSurvivesNormalization` | packages/backend/src/routes/groups.ts:40 | A generated code is unchanged by `trim().toUpperCase()`. |
| `Groups.JoinFinds` | packages/backend/src/routes/groups.ts:40-45 | A code that normalises to an existing group's code joins. |
| `Groups.CreatedCodeJoins` | packages/backend/src/routes/groups.ts:21-45 | Typing a stored generated code joins a group with that code. It is the group that stored it unless an earlier group has the same code (possible with the unchecked sixth candidate). |
| `Groups.TypedVariantJoins` | packages/backend/src/routes/groups.ts:37-45 | A code typed in lower case, or with the long `ſ` for `S`, joins the group that stored the code. |
| `Groups.LongSJoins` | packages/backend/src/routes/groups.ts:40-43 | `abcdeſ` joins the group with code `ABCDES`. |
| `Groups.CreateStep` | packages/backend/src/routes/groups.ts:28-33 | The new group gets the next id and is appended. Only the creator's membership is added, and proofs, distributions and balances are kept. |
| `Groups.CreatorIsOnlyMember` | packages/backend/src/routes/groups.ts:28-33 | A new group's only member is its creator, and the tables stay well-formed. |
| `Groups.GroupStore.constructor` | packages/backend/src/routes/groups.ts:16 | The tables start empty, with the given balances. |
| `Groups.GroupStore.ChooseCode` | packages/backend/src/routes/groups.ts:21-26 | The code chosen is one of the six candidates: the first of the first five not yet taken, else the sixth, which is not checked. |
| `Groups.GroupStore.CreateGroup` | packages/backend/src/routes/groups.ts:17-35 | The code is one of the six candidates: the first of the first five not already in use, or else the sixth. It is well-shaped. The tables move as `CreateStep` says. |
| `Groups.GroupStore.JoinGroup` | packages/backend/src/routes/groups.ts:37-46 | The tables and answer are `JoinStep`'s. |
| `Groups.GroupStore.JoinByNormalizedCode` | packages/backend/src/routes/groups.ts:41-45 | The lookup and insert on a normalised code are those of `JoinByCode`. |
| `Groups.GroupStore.Award` | packages/backend/src/routes/groups.ts:278-321 | The tables move as `AwardStep` says. |
| `Groups.GroupStore.SubmitProof` | packages/backend/src/routes/groups.ts:170-224 | The tables and answer are `SubmitStep`'s (corrected URL form). |
| `Groups.GroupStore.GroupDetail` | packages/backend/src/routes/groups.ts:69-161 | Checks: UNAUTHORIZED for a non-member, NOT_FOUND for a missing group. On success it returns `uploadedToday` (true exactly when the caller sent today's proof), the streak in the sense of `StreakMeaning`, the caller's photos, and `doneToday`. `doneToday` is keyed by exactly the members with a user row (the `JOIN auth.user` at line 140) and is true exactly for those who submitted today. |
| `Flowers.DefaultImage` | packages/backend/src/routes/flowers.ts:41 | Only image signs and tall images start with an image, the placeholder URL. |
| `Flowers.PurchaseStep` | packages/backend/src/routes/flowers.ts:21-54 | Corrected lookup (Findings row 2). Errors roll back. A success is for a priced id and stores one flower under the next id. |
| `Flowers.PurchaseAtPrice` | packages/backend/src/routes/flowers.ts:27-54 | Success exactly when the balance exists and covers the price. The price is deducted, it never leaves a balance negative, and the flower is the caller's at the given position. Errors roll back. |
| `Flowers.PurchaseAsWrittenStep` | packages/backend/src/routes/flowers.ts:21-54 | As written. Errors roll back. An inherited name never gets BAD_REQUEST and never succeeds. |
| `Flowers.LookupAsWritten` | packages/backend/src/routes/flowers.ts:21-22 | `PRICE_MAP[id]` is missing exactly for names that are neither own keys nor inherited keys. Own keys give their price. |
| `Flowers.ConstructorIsInherited` | packages/backend/src/routes/flowers.ts:21-22 | `constructor` is not an own key of `PRICE_MAP` but is inherited. |
| `Flowers.InheritedKeyEscapesBadRequest` | packages/backend/src/routes/flowers.ts:21-37 | As written, buying `constructor` with a balance ends in an internal error instead of BAD_REQUEST. The corrected lookup gives BAD_REQUEST. |
| `Flowers.PurchaseAgreesOnOwnNames` | packages/backend/src/routes/flowers.ts:21-54 | For every name that is not inherited, the corrected purchase equals the one as written. |
| `Flowers.PurchaseRejectsUnknownId` | packages/backend/src/routes/flowers.ts:21-24 | An id outside the price table gives BAD_REQUEST and changes nothing. |
| `Flowers.PurchaseErrors` | packages/backend/src/routes/flowers.ts:21-51 | Corrected lookup (Findings row 2). BAD_REQUEST, UNAUTHORIZED, FORBIDDEN and success each happen exactly under their conditions, in order. Every error rolls back. |
| `Flowers.PurchasePays` | packages/backend/src/routes/flowers.ts:39-45 | A purchase charges exactly the price (the balance stays non-negative) and touches no other balance. It inserts exactly one new flower with the caller, the id as name and kind, the default image and the position. |
| `Flowers.PurchaseImage` | packages/backend/src/routes/flowers.ts:41-45 | A bought flower has the placeholder image exactly when it is an image kind. |
| `Flowers.MoveBounds` | packages/backend/src/routes/flowers.ts:86-93 | Targets off the 8×8 grid after flooring give BAD_REQUEST. An accepted target is the floored pair, on the grid. |
| `Flowers.MoveStep` | packages/backend/src/routes/flowers.ts:81-119 | Errors roll back. No flower is added or removed, and balances and ids are kept. |
| `Flowers.MoveErrors` | packages/backend/src/routes/flowers.ts:96-112 | NOT_FOUND, UNAUTHORIZED and occupied-pot BAD_REQUEST come in order. Success happens exactly for the owner moving to a free pot. Errors change nothing. |
| `Flowers.MoveChangesOnlyPosition` | packages/backend/src/routes/flowers.ts:114-118 | A move changes only that flower's position. |
| `Flowers.MoveKeepsPotsDistinct` | packages/backend/src/routes/flowers.ts:106-118 | Moving keeps each user's flowers in distinct pots. |
| `Flowers.PurchaseCanStackPots` | packages/backend/src/routes/flowers.ts:39-45 | Buying onto an occupied pot succeeds and leaves two of the user's flowers in one pot. |
| `Flowers.SetSignImageStep` | packages/backend/src/routes/flowers.ts:57-76 | Errors roll back. No flower is added or removed, and balances and ids are kept. |
| `Flowers.DeleteStep` | packages/backend/src/routes/flowers.ts:124-131 | Errors roll back. No flower is added, and balances and ids are kept. |
| `Flowers.SetSignImageChecks` | packages/backend/src/routes/flowers.ts:57-76 | NOT_FOUND, UNAUTHORIZED, and BAD_REQUEST for a kind that is not an image, in order. Success sets exactly that flower's image. |
| `Flowers.DeleteRemovesExactly` | packages/backend/src/routes/flowers.ts:124-131 | Deleting someone else's or a missing flower is UNAUTHORIZED and changes nothing. Otherwise exactly that flower is removed. |
| `Flowers.StepsKeepIdsBelowNext` | packages/backend/src/routes/flowers.ts:27-131 | Every operation keeps all flower ids below the next serial id. |
| `Flowers.SignAndDeleteKeepPotsDistinct` | packages/backend/src/routes/flowers.ts:57-131 | Signing and deleting keep pots distinct. |
| `Flowers.FlowerStore.constructor` | packages/backend/src/routes/flowers.ts:26 | No flowers, the given balances, serial ids from 0. |
| `Flowers.FlowerStore.PurchaseFlower` | packages/backend/src/routes/flowers.ts:27-54 | The tables and answer are `PurchaseStep`'s (corrected lookup). |
| `Flowers.FlowerStore.MoveFlower` | packages/backend/src/routes/flowers.ts:81-119 | The tables and answer are `MoveStep`'s. |
| `Flowers.FlowerStore.SetSignImage` | packages/backend/src/routes/flowers.ts:57-76 | The tables and answer are `SetSignImageStep`'s. |
| `Flowers.FlowerStore.DeleteFlower` | packages/backend/src/routes/flowers.ts:124-131 | The tables and answer are `DeleteStep`'s. |
| `AppState.InitialState` | packages/frontend/src/components/AppStateProvider/AppStateProvider.tsx:48-65 | A saved state is used as it is. Otherwise the result is 20 coins, one default goal without proofs, and no garden. |
| `AppState.AddGoal` | packages/frontend/src/components/AppStateProvider/AppStateProvider.tsx:81-94 | One goal without proofs is appended. Everything else is kept. |
| `AppState.WithoutGoal` | packages/frontend/src/components/AppStateProvider/AppStateProvider.tsx:96-101 | The filter keeps exactly the goals with another id. |
| `AppState.WithoutGoalAppend` | packages/frontend/src/components/AppStateProvider/AppStateProvider.tsx:96-101 | The filter keeps the order: it distributes over concatenation. |
| `AppState.WithoutAbsentGoal` | packages/frontend/src/components/AppStateProvider/AppStateProvider.tsx:96-101 | Filtering out an id no goal has changes nothing. |
| `AppState.RemoveGoal` | packages/frontend/src/components/AppStateProvider/AppStateProvider.tsx:96-101 | No goal with the id remains. Coins and garden are kept. |
| `AppState.RemoveGoalIdempotent` | packages/frontend/src/components/AppStateProvider/AppStateProvider.tsx:96-101 | Removing twice is removing once. |
| `AppState.RemoveUndoesAdd` | packages/frontend/src/components/AppStateProvider/AppStateProvider.tsx:81-101 | Removing a goal just added under a fresh id restores the state. |
| `AppState.PrependCapped` | packages/frontend/src/components/AppStateProvider/AppStateProvider.tsx:113 | The new proof comes first, followed by the older ones. The length is capped at 30. |
| `AppState.AddProof` | packages/frontend/src/components/AppStateProvider/AppStateProvider.tsx:103-115 | Adds 5 coins even when no goal matches. The proof is put in front of each matching goal's proofs, and the other goals are untouched. |
| `AppState.AddProofKeepsCap` | packages/frontend/src/components/AppStateProvider/AppStateProvider.tsx:103-115 | No goal ever holds more than 30 proofs, and the newest proof is the added one. |
| `AppState.ReducersKeepCap` | packages/frontend/src/components/AppStateProvider/AppStateProvider.tsx:81-101 | Adding and removing goals keep the cap. |
| `AppState.SmallestFreeIsUnique` | packages/frontend/src/components/AppStateProvider/AppStateProvider.tsx:120-122 | The smallest free slot is unique. |
| `AppState.Range` | packages/frontend/src/components/AppStateProvider/AppStateProvider.tsx:120-122 | The slots below `n`. |
| `AppState.RangeSize` | packages/frontend/src/components/AppStateProvider/AppStateProvider.tsx:120-122 | There are `n` slots below `n`, which makes the slot search terminate. |
| `AppState.PurchaseFlower` | packages/frontend/src/components/AppStateProvider/AppStateProvider.tsx:117-138 | Nothing changes below the cost. Otherwise the cost is paid and one item is appended in the smallest slot not in use. |
| `AppState.PurchaseKeepsSlotsDistinct` | packages/frontend/src/components/AppStateProvider/AppStateProvider.tsx:117-138 | Buying keeps every item in its own slot. |
| `Proofs.ViewOf` | packages/backend/src/routes/proofs.ts:16-21 | A row is shown with its goal, image and time copied and its id as a decimal string. |
| `Proofs.NewestFirst` | packages/backend/src/routes/proofs.ts:14-21 | Only the goal's proofs are listed, no more than there are rows. |
| `Proofs.GetProofs` | packages/backend/src/routes/proofs.ts:9-22 | UNAUTHORIZED exactly when the caller does not own the goal. Otherwise only that goal's proofs are returned. |
| `Proofs.NewestFirstFromTable` | packages/backend/src/routes/proofs.ts:14-21 | Every listed proof is the view of a stored row of that goal. |
| `Proofs.NewestFirstBounded` | packages/backend/src/routes/proofs.ts:14 | No listed proof is newer than the newest row. |
| `Proofs.NewestFirstIsComplete` | packages/backend/src/routes/proofs.ts:14 | Every proof of the goal is listed. When rows were inserted in time order, the list is newest first. |
| `Proofs.MissingContentTypeIsJpeg` | packages/backend/src/routes/proofs.ts:29-30 | Without a content type, the upload is `image/jpeg` and the key ends in `.jpg`. |
| `Proofs.UploadKeySegments` | packages/backend/src/routes/proofs.ts:30 | The upload key splits into `proofs`, the user, the goal and the file name. |
| `Proofs.UploadPresign` | packages/backend/src/routes/proofs.ts:31 | The presign fails, with INTERNAL_SERVER_ERROR, exactly when no client can be made. Otherwise it is for the key, the configured bucket and the upload's content type, with the storage `fileUrl`. |
| `Proofs.RecordTicket` | packages/backend/src/routes/proofs.ts:31-38 | A failed presign is INTERNAL_SERVER_ERROR and changes nothing. Otherwise the ticket carries the key, headers and file URL, and one stub row with the next id is appended. |
| `Proofs.CreateUploadStep` | packages/backend/src/routes/proofs.ts:23-39 | Corrected public base (Findings row 1). Errors change nothing, habits are never changed, and a caller who does not own the goal gets INTERNAL_SERVER_ERROR. |
| `Proofs.CreateUploadOutcomes` | packages/backend/src/routes/proofs.ts:23-39 | Every failure is INTERNAL_SERVER_ERROR and changes nothing, even the ownership check, which the catch converts. Success happens exactly for the owner with a client available. It returns the key, the storage `fileUrl` and the headers, and appends one stub row pointing at `fileUrl`. |
| `Proofs.StreamContentType` | packages/backend/src/index.ts:53 | The stream's content type is never empty (`application/octet-stream` by default). |
| `Proofs.OnFieldStep` | packages/backend/src/index.ts:48-50 | A `goalId` field sets the goal id, and any other field changes nothing. The upload key and content type are never touched. |
| `Proofs.OnFileStep` | packages/backend/src/index.ts:52-71 | A file sets the upload key and keeps the goal id. |
| `Proofs.Rejection` | packages/backend/src/index.ts:73-91 | There is no rejection exactly when the goal id is set, the caller owns it, a file came and its upload completed. |
| `Proofs.FinishOrder` | packages/backend/src/index.ts:75-91 | The checks answer in the source's order: 400 missing goal, 401, 400 no file, 500. None of them is 200. |
| `Proofs.FinishStep` | packages/backend/src/index.ts:73-92 | Habits are never changed. The upload is accepted exactly when nothing rejects it. A rejection is answered and changes nothing. An acceptance answers the uploaded key and adds one row. |
| `Proofs.FinishAccepts` | packages/backend/src/index.ts:73-92 | The answer is 200 exactly when every check passes. Any other answer leaves the proofs table unchanged. |
| `Proofs.FinishRecords` | packages/backend/src/index.ts:84-87 | On success the answer is the public URL of the key and the key, and exactly one proof row with that URL is appended. |
| `Proofs.KeyNamesGoalSentFirst` | packages/backend/src/index.ts:48-55 | A goal id sent before the file names the goal in the key. One sent after the file leaves `unknown` in the key, although the row is stored under the goal. |
| `Proofs.UntypedFileIsJpg` | packages/backend/src/index.ts:53-55 | A file without a MIME type is stored with a `.jpg` key. |
| `Proofs.UploadSession.constructor` | packages/backend/src/index.ts:41-46 | A session starts with no goal, no upload and no content type. |
| `Proofs.UploadSession.OnField` | packages/backend/src/index.ts:48-50 | The session moves as `OnFieldStep` says. Only `goalId` is recorded. |
| `Proofs.UploadSession.OnFile` | packages/backend/src/index.ts:52-71 | The session moves as `OnFileStep` says. |
| `Proofs.ProofStore.constructor` | packages/backend/src/routes/proofs.ts:8 | The store starts with the given habits, no proofs, and the storage module. |
| `Proofs.ProofStore.GetProofsOf` | packages/backend/src/routes/proofs.ts:9-22 | The answer is `GetProofs` of the current tables. Nothing changes. |
| `Proofs.ProofStore.CreateUploadUrl` | packages/backend/src/routes/proofs.ts:23-39 | Answer and tables are `CreateUploadStep`'s, on the storage module's configuration. |
| `Proofs.ProofStore.RecordUpload` | packages/backend/src/routes/proofs.ts:31-38 | Answer and tables are `RecordTicket`'s. |
| `Proofs.ProofStore.Insert` | packages/backend/src/routes/proofs.ts:33 | One row with the next serial id is appended. |
| `Proofs.ProofStore.FinishUpload` | packages/backend/src/index.ts:73-92 | Answer and tables are `FinishStep`'s. |

## Left out

- **Not modelled:**
  - 3D garden rendering, audio and all presentation components;
  - authentication and session lookup (`index.ts` lines 37-41, tRPC's `protectedProcedure`): the caller's id is a parameter;
  - zod input validation: inputs are taken as validated;
  - `localStorage`: the saved state is an `Option` parameter of `InitialState`.
- **The AI image verifier and the S3 transport are results passed in:**
  - `verifyImageWithAI` is the `verified` flag;
  - `s3.send`, `Upload.done()` and the busboy stream are the `uploaded` / `uploadOk` flags (`getS3Client` itself is modelled: `PublicUrl.ClientAvailable`);
  - the signed URL itself is left out, since `getSignedUrl` is a foreign call;
  - the streaming `Upload` parameters (part size, queue size) and the busboy `error` callback (`index.ts` lines 94-97) are left out.
- **Database semantics:**
  - SQL dates are an integer day;
  - `CURRENT_DATE` and `Date.now()` are parameters;
  - `new Date(...).toISOString()` keeps the stored integer time;
  - `ORDER BY created_at DESC` is reverse insertion order, and ties are not modelled;
  - `ON CONFLICT DO NOTHING` on `group_proofs` is an append (the table has no unique key in view);
  - a failed query other than the award's transaction is not modelled.
- **Group award:** the `rowCount < memberCount` check at `groups.ts` line 299 cannot fail when queries run one at a time, so it is absorbed into `AllSubmitted`. The `23505` unique-violation branch is the `txFails` flag.
- **Group code:** the sixth candidate in `createGroup` is never checked for uniqueness. This is modelled (`Groups.GroupStore.ChooseCode`), but the insert's unique violation in that case is not.
- **Group ids** are natural numbers (positions in the `groups` table). String ids and `String(...)` conversions are dropped.
- **Flowers:**
  - coordinates are reals: `NaN`, `Infinity` and non-numeric input are not representable;
  - `modifyFlower` is not modelled.
- **Upload handler:** the `S3_BUCKET` value given to `Upload` is not modelled, because the actual write is an oracle.
- **Storage:**
  - the S3 client is built from region and credentials only, as in the source; endpoint and path style are never given to it;
  - `groups.ts` sends the raw `S3_ENDPOINT` to the routes' URL builder, while `storage.ts` keeps it only with a scheme (`PublicUrl.SchemelessEndpointDiverges`).
- **Public-base branch:** the key is not encoded when a public base URL is used. This is modelled as in the source (`PublicUrl.FileUrlChoice`).
- `Proofs.ProofStore.FinishUpload`: it takes the public-URL builder as a parameter. `index.ts` passes its own `buildPublicUrl`, which is `PublicUrl.BuildPublicUrlIndexAsWritten(env, ·)` as written and `PublicUrl.BuildPublicUrl(env, ·)` once corrected. The method's contract therefore does not name the URL itself.
- `Proofs.UploadSession.OnFile`: a `getS3Client` that throws for want of credentials inside the `file` callback (`index.ts` line 56) is not modelled. What the client then sees depends on how busboy reports an exception thrown by a listener, which is not part of this model. The `uploadOk` flag of `FinishStep` covers only a failed upload.
- **Corrected forms used by the rest of the model.** The members below compute the corrected behaviour of the Findings rows, not the code as written. Each line names the member that models the code as written.
- `PublicUrl.BuildPublicUrl`: it uses the corrected `sanitizeBaseUrl`. `groups.ts` as written is `PublicUrl.BuildPublicUrlAsWritten`, which gives `url'/key` for `'url' ;comment` (`PublicUrl.QuotedBaseUrlKeepsQuote`). Off that case the two agree (`PublicUrl.AsWrittenAgreesWithoutBlankBeforeComment`).
- `PublicUrl.LoadStorageConfig`: its public base uses the corrected storage sanitiser. `storage.ts` as written is `PublicUrl.LoadStorageConfigAsWritten`.
- `PublicUrl.Storage.constructor`: it loads `LoadStorageConfig`, the corrected configuration, so every `fileUrl` the model returns is the corrected one.
- `PublicUrl.FileUrlChoice`: it is stated over the corrected configuration. As written, `FileUrl(LoadStorageConfigAsWritten(env), key)` keeps the quote for `'url' ;comment`.
- `PublicUrl.RoutesAgreeWithStorage`: its premise and conclusion are over the corrected sanitisers and builders. The copies as written are related only through `PublicUrl.QuotedBaseUrlKeepsQuote` and `PublicUrl.AsWrittenAgreesWithoutBlankBeforeComment`.
- `Groups.SubmitStep`: the proof row records `PublicUrl.BuildPublicUrl`, the corrected URL. As written `groups.ts` records `PublicUrl.BuildPublicUrlAsWritten`. `getS3Client`'s cache is not consulted: a client is cached only when one can be made, so the outcome is `PublicUrl.ClientAvailable(env)` either way.
- `Groups.SubmitAccepted`: the URL it states is the corrected one, as for `Groups.SubmitStep`.
- `Groups.GroupStore.SubmitProof`: it implements `Groups.SubmitStep`, so it records the corrected URL.
- `Proofs.CreateUploadStep`: its `fileUrl` comes from the corrected storage configuration. As written it is `FileUrl(LoadStorageConfigAsWritten(env), key)`.
- `Flowers.PurchaseStep`: it looks up own keys only. `flowers.ts` as written is `Flowers.PurchaseAsWrittenStep`, which gives INTERNAL_SERVER_ERROR, not BAD_REQUEST, for a name inherited from `Object.prototype` (`Flowers.InheritedKeyEscapesBadRequest`). The two agree on every other name (`Flowers.PurchaseAgreesOnOwnNames`).
- `Flowers.PurchaseErrors`: it is stated for `Flowers.PurchaseStep`, the corrected lookup.
- `Flowers.FlowerStore.PurchaseFlower`: it implements `Flowers.PurchaseStep`, the corrected lookup.
- `Common.ToUpperCase`: only the characters whose upper case holds an ASCII letter are mapped: ASCII letters, `ı`, `ſ`, and the multi-character mappings of Unicode's SpecialCasing.txt that produce ASCII letters. Every other character is kept, while `toUpperCase` maps many of them to other non-ASCII characters. No such character's upper case contains a character of the code alphabet, so whether a typed code finds a group is decided as in the source.
- `Proofs.ProofStore.CreateUploadUrl`: the signed `url` field is not returned, since it comes from `getSignedUrl`. The returned ticket holds the key, the headers and `fileUrl`.
- `UriEncoding.Utf8`: lone surrogates, for which `encodeURIComponent` throws `URIError`, are not representable, because Dafny characters are Unicode scalar values.

## Findings

| source | as written | input that shows it | evidently intended | confidence | as-written member | corrected member |
|---|---|---|---|---|---|---|
| packages/backend/src/index.ts:151-156 | The quotes are removed before the trim, and the comment cut leaves the blank before `;` or `#`. | `S3_PUBLIC_BASE_URL='https://cdn.example.com' ;comment` gives `https://cdn.example.com'`, with the quote kept (same in `groups.ts` and `storage.ts`). | Trim after the comment cut, so that the wrapping quotes are removed. | not executed; derived from the proved lemma | `BaseUrl.QuoteBeforeCommentSurvives` | `BaseUrl.SanitizeBaseUrl` |
| packages/backend/src/routes/flowers.ts:21-22 | `PRICE_MAP[input.flowerId] == null` is false for names inherited from `Object.prototype`. | `flowerId = "constructor"` passes the check. The price is then a function, which the update cannot use, so the answer is an internal error instead of BAD_REQUEST. | Look up own keys only, so that every unknown name is BAD_REQUEST. | not executed; derived from JavaScript property lookup | `Flowers.InheritedKeyEscapesBadRequest` | `Flowers.PurchaseRejectsUnknownId` |
| packages/backend/src/index.ts:130 | `const bucket = process.env.S3_BUCKET!` has no default. | With `S3_BUCKET` unset and no public base or endpoint, the URL is `https://undefined.s3.us-east-2.amazonaws.com/...`, while the object went to bucket `rootine`. | Default the bucket to `rootine`, as `groups.ts` line 247 does. | not executed; derived from the proved lemma | `PublicUrl.UnsetBucketNamesUndefined` | `PublicUrl.UrlNamesUploadBucket` |
