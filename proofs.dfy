/** The personal proof routes of routes/proofs.ts and the multipart upload
    handler of index.ts over an abstract `habits` table (habit id to owner)
    and `proofs` table. The table rows are kept in insertion order, which is
    also their `created_at` order. The clock, the outcome of the streamed
    upload and the signing of URLs are parameters or left out. */
module Proofs {
  import opened Common
  import opened UriEncoding
  import opened ProofKeys
  import opened PublicUrl

  datatype ProofRow = ProofRow(id: nat, habitId: string, imageDataUrl: string, createdAt: int)

  /** What `getProofs` returns for a row; the timestamp stays a number. */
  datatype ProofView = ProofView(id: string, goalId: string, imageDataUrl: string, createdAt: int)

  datatype ProofTables = ProofTables(habits: map<string, UserId>, proofs: seq<ProofRow>, nextId: nat)

  /** The caller owns the habit: a missing habit has no owner, and
      `ctx.user.id !== undefined` then rejects. */
  predicate OwnsHabit(t: ProofTables, u: UserId, habitId: string) {
    habitId in t.habits && t.habits[habitId] == u
  }

  function ViewOf(r: ProofRow): (v: ProofView)
    ensures v.goalId == r.habitId && v.imageDataUrl == r.imageDataUrl && v.createdAt == r.createdAt
  {
    ProofView(NatToString(r.id), r.habitId, r.imageDataUrl, r.createdAt)
  }

  /** The habit's rows, newest first: the table walked from its end. */
  function NewestFirst(ps: seq<ProofRow>, habitId: string): (r: seq<ProofView>)
    ensures |r| <= |ps|
    ensures forall i :: 0 <= i < |r| ==> r[i].goalId == habitId
  {
    if ps == [] then []
    else
      var last := ps[|ps| - 1];
      (if last.habitId == habitId then [ViewOf(last)] else []) + NewestFirst(ps[..|ps| - 1], habitId)
  }

  /** `getProofs`: UNAUTHORIZED unless the caller owns the habit, otherwise
      the habit's proofs newest first. */
  function GetProofs(t: ProofTables, u: UserId, habitId: string): (r: Result<seq<ProofView>>)
    ensures r.Err? <==> !OwnsHabit(t, u, habitId)
    ensures r.Err? ==> r.code == Unauthorized
    ensures r.Ok? ==> forall i :: 0 <= i < |r.value| ==> r.value[i].goalId == habitId
  {
    if !OwnsHabit(t, u, habitId) then Err(Unauthorized)
    else Ok(NewestFirst(t.proofs, habitId))
  }

  /** The number of the habit's rows. */
  function CountFor(ps: seq<ProofRow>, habitId: string): nat {
    if ps == [] then 0
    else CountFor(ps[..|ps| - 1], habitId) + (if ps[|ps| - 1].habitId == habitId then 1 else 0)
  }

  /** The rows are in `created_at` order. */
  predicate Chronological(ps: seq<ProofRow>) {
    forall i, j :: 0 <= i < j < |ps| ==> ps[i].createdAt <= ps[j].createdAt
  }

  predicate NewestFirstOrder(vs: seq<ProofView>) {
    forall i, j :: 0 <= i < j < |vs| ==> vs[i].createdAt >= vs[j].createdAt
  }

  /** Every view `getProofs` returns is the view of one of the habit's rows. */
  lemma {:induction false} NewestFirstFromTable(ps: seq<ProofRow>, habitId: string)
    ensures forall v :: v in NewestFirst(ps, habitId) ==>
      exists row :: row in ps && row.habitId == habitId && v == ViewOf(row)
    decreases |ps|
  {
    if ps != [] {
      var init := ps[..|ps| - 1];
      var last := ps[|ps| - 1];
      NewestFirstFromTable(init, habitId);
      var head: seq<ProofView> := if last.habitId == habitId then [ViewOf(last)] else [];
      assert NewestFirst(ps, habitId) == head + NewestFirst(init, habitId);
      forall v | v in NewestFirst(ps, habitId)
        ensures exists row :: row in ps && row.habitId == habitId && v == ViewOf(row)
      {
        if v in head {
          assert last in ps;
        } else {
          var row :| row in init && row.habitId == habitId && v == ViewOf(row);
          assert row in ps;
        }
      }
    }
  }

  /** Every view comes from a row of the table, the whole table up to a
      time bound: no view is newer than the table's last row. */
  lemma {:induction false} NewestFirstBounded(ps: seq<ProofRow>, habitId: string, bound: int)
    requires forall i :: 0 <= i < |ps| ==> ps[i].createdAt <= bound
    ensures forall i :: 0 <= i < |NewestFirst(ps, habitId)| ==> NewestFirst(ps, habitId)[i].createdAt <= bound
    decreases |ps|
  {
    if ps != [] {
      NewestFirstBounded(ps[..|ps| - 1], habitId, bound);
    }
  }

  /** `getProofs` returns every row of the habit, once each, and in a
      chronological table newest first. */
  lemma {:induction false} NewestFirstIsComplete(ps: seq<ProofRow>, habitId: string)
    ensures |NewestFirst(ps, habitId)| == CountFor(ps, habitId)
    ensures Chronological(ps) ==> NewestFirstOrder(NewestFirst(ps, habitId))
    decreases |ps|
  {
    if ps != [] {
      var init := ps[..|ps| - 1];
      var last := ps[|ps| - 1];
      NewestFirstIsComplete(init, habitId);
      if Chronological(ps) {
        assert Chronological(init);
        NewestFirstBounded(init, habitId, last.createdAt);
        var head: seq<ProofView> := if last.habitId == habitId then [ViewOf(last)] else [];
        var rest := NewestFirst(init, habitId);
        assert NewestFirst(ps, habitId) == head + rest;
        forall i, j | 0 <= i < j < |head + rest|
          ensures (head + rest)[i].createdAt >= (head + rest)[j].createdAt
        {
          if i < |head| {
            assert (head + rest)[j] == rest[j - |head|];
          } else {
            assert (head + rest)[i] == rest[i - |head|] && (head + rest)[j] == rest[j - |head|];
          }
        }
      }
    }
  }

  /** What `createUploadUrl` returns, less the signed URL itself. */
  datatype UploadTicket = UploadTicket(headers: seq<(string, string)>, key: string, fileUrl: string)

  /** The content type `createUploadUrl` presigns for: `contentType || 'image/jpeg'`. */
  function UploadContentType(contentType: Option<string>): string {
    OrElse(contentType, "image/jpeg")
  }

  /** The key `createUploadUrl` stores the photo under. */
  function UploadKey(u: UserId, habitId: string, now: nat, contentType: Option<string>): string {
    ProofKey(u, habitId, now, ContentTypeToExt(UploadContentType(contentType)))
  }

  /** A missing content type is presigned as image/jpeg and named `.jpg`. */
  lemma MissingContentTypeIsJpeg(u: UserId, habitId: string, now: nat, contentType: Option<string>)
    requires !Truthy(contentType)
    ensures IsImageJpeg(UploadContentType(contentType))
    ensures UploadKey(u, habitId, now, contentType) == ProofKey(u, habitId, now, "jpg")
  {
    ImageJpegGivesJpg(UploadContentType(contentType));
  }

  /** The key's segments name the user, the habit and the timestamped file. */
  lemma UploadKeySegments(u: UserId, habitId: string, now: nat, contentType: Option<string>)
    requires '/' !in u && '/' !in habitId
    ensures Split(UploadKey(u, habitId, now, contentType), '/') ==
      ["proofs", u, habitId, FileName(now, ContentTypeToExt(UploadContentType(contentType)))]
  {
    var ext := ContentTypeToExt(UploadContentType(contentType));
    ExtHasNoSlash(UploadContentType(contentType));
    ProofKeySegments(u, habitId, now, ext);
  }

  /** What `createPresignedUploadUrl` gives `createUploadUrl` for a key: the
      error thrown when no client can be made, or the upload request. */
  function UploadPresign(config: StorageConfig, key: string, contentType: Option<string>): (r: Result<PresignedUpload>)
    ensures r.Err? <==> NewClient(config).Err?
    ensures r.Err? ==> r.code == InternalServerError
    ensures r.Ok? ==> r.value.key == key && r.value.bucket == config.bucket
                      && r.value.contentType == UploadContentType(contentType)
                      && r.value.fileUrl == FileUrl(config, key)
  {
    if NewClient(config).Err? then Err(InternalServerError)
    else Ok(Presign(config, key, Some(UploadContentType(contentType)), None))
  }

  /** The end of `createUploadUrl`: a failed presign is an internal error
      and changes nothing; otherwise a stub row pointing at the file URL is
      inserted and returned with the headers and the key. */
  function RecordTicket(t: ProofTables, habitId: string, key: string, p: Result<PresignedUpload>, now: nat)
    : (o: (Result<UploadTicket>, ProofTables))
    ensures o.0.Err? <==> p.Err?
    ensures o.0.Err? ==> o.0.code == InternalServerError && o.1 == t
    ensures o.0.Ok? ==> o.0.value.key == key && o.0.value.fileUrl == p.value.fileUrl
                        && o.0.value.headers == p.value.headers
                        && o.1.habits == t.habits && o.1.nextId == t.nextId + 1
                        && o.1.proofs == t.proofs + [ProofRow(t.nextId, habitId, p.value.fileUrl, now)]
  {
    if p.Err? then (Err(InternalServerError), t)
    else
      (Ok(UploadTicket(p.value.headers, key, p.value.fileUrl)),
       t.(proofs := t.proofs + [ProofRow(t.nextId, habitId, p.value.fileUrl, now)], nextId := t.nextId + 1))
  }

  /** `createUploadUrl`: every failure, the ownership check included, is
      reported as INTERNAL_SERVER_ERROR and leaves the table unchanged. */
  function CreateUploadStep(t: ProofTables, config: StorageConfig, u: UserId, habitId: string,
                            contentType: Option<string>, now: nat): (o: (Result<UploadTicket>, ProofTables))
    ensures o.0.Err? ==> o.1 == t
    ensures o.1.habits == t.habits
    ensures !OwnsHabit(t, u, habitId) ==> o.0 == Err(InternalServerError)
  {
    if !OwnsHabit(t, u, habitId) then (Err(InternalServerError), t)
    else
      var key := UploadKey(u, habitId, now, contentType);
      RecordTicket(t, habitId, key, UploadPresign(config, key, contentType), now)
  }

  /** The outcomes of `createUploadUrl`: its only error code, the gate
      before any insert, and on success exactly one new row for the habit
      whose image is the returned file URL; the headers always carry the
      content type, image/jpeg when none was given. */
  lemma CreateUploadOutcomes(t: ProofTables, config: StorageConfig, u: UserId, habitId: string,
                             contentType: Option<string>, now: nat)
    ensures var (r, t1) := CreateUploadStep(t, config, u, habitId, contentType, now);
      (r.Err? ==> r.code == InternalServerError && t1 == t)
      && (!OwnsHabit(t, u, habitId) ==> r.Err?)
      && (r.Ok? <==> OwnsHabit(t, u, habitId) && NewClient(config).Ok?)
      && (r.Ok? ==>
            r.value.key == UploadKey(u, habitId, now, contentType)
            && r.value.fileUrl == FileUrl(config, r.value.key)
            && r.value.headers == [("Content-Type", UploadContentType(contentType)), ("x-amz-acl", "public-read")]
            && t1.proofs == t.proofs + [ProofRow(t.nextId, habitId, r.value.fileUrl, now)]
            && t1.habits == t.habits)
  {
    var (r, t1) := CreateUploadStep(t, config, u, habitId, contentType, now);
    if r.Ok? {
      var h := PresignHeaders(Some(UploadContentType(contentType)));
      assert Truthy(Some(UploadContentType(contentType)));
      assert h == [h[0], h[1]];
    }
  }

  /** The busboy callbacks' state: the `goalId` field, the key of the
      started upload, and its content type. */
  datatype Session = Session(goalId: Option<string>, uploadKey: Option<string>, contentType: Option<string>)

  /** The `field` callback. */
  function OnFieldStep(s: Session, name: string, value: string): (r: Session)
    ensures r.uploadKey == s.uploadKey && r.contentType == s.contentType
    ensures name == "goalId" ==> r.goalId == Some(value)
    ensures name != "goalId" ==> r == s
  {
    if name == "goalId" then s.(goalId := Some(value)) else s
  }

  /** The goal segment of a key: a goal id not yet received is `unknown`. */
  function GoalSegment(goalId: Option<string>): string {
    if goalId.Some? then goalId.value else "unknown"
  }

  /** The type of a streamed file: `info.mimeType || 'application/octet-stream'`. */
  function StreamContentType(mimeType: string): (ct: string)
    ensures ct != []
  {
    if mimeType == "" then "application/octet-stream" else mimeType
  }

  /** The `file` callback: it starts the upload under a key built from the
      goal id received so far. */
  function OnFileStep(s: Session, userId: UserId, mimeType: string, now: nat): (r: Session)
    ensures r.goalId == s.goalId && r.uploadKey.Some?
  {
    var ct := StreamContentType(mimeType);
    s.(contentType := Some(ct),
       uploadKey := Some(ProofKey(userId, GoalSegment(s.goalId), now, ContentTypeToExt(ct))))
  }

  /** The `finish` callback's answers. */
  datatype UploadResponse = MissingGoalId | NotOwner | NoFile | UploadFailed | Uploaded(url: string, key: string)

  function Status(r: UploadResponse): int {
    match r
    case MissingGoalId => 400
    case NotOwner => 401
    case NoFile => 400
    case UploadFailed => 500
    case Uploaded(_, _) => 200
  }

  /** The checks of the `finish` callback in their order: 400 without a
      goal id, 401 unless the caller owns the goal, 400 without a file, and
      500 when the upload failed; `None` when all of them pass. */
  function Rejection(t: ProofTables, s: Session, userId: UserId, uploadOk: bool): (r: Option<UploadResponse>)
    ensures r.None? <==> Truthy(s.goalId) && OwnsHabit(t, userId, s.goalId.value) && s.uploadKey.Some? && uploadOk
  {
    if !Truthy(s.goalId) then Some(MissingGoalId)
    else if !OwnsHabit(t, userId, s.goalId.value) then Some(NotOwner)
    else if s.uploadKey.None? then Some(NoFile)
    else if !uploadOk then Some(UploadFailed)
    else None
  }

  /** The `finish` callback: a rejection leaves the table alone; otherwise
      a row for the goal whose image is the public URL of the uploaded key.
      `publicUrl` is the URL builder, `buildPublicUrl` in the handler. */
  function FinishStep(t: ProofTables, s: Session, userId: UserId, uploadOk: bool, publicUrl: string -> string, now: nat)
    : (o: (UploadResponse, ProofTables))
    ensures o.1.habits == t.habits
    ensures o.0.Uploaded? <==> Rejection(t, s, userId, uploadOk).None?
    ensures !o.0.Uploaded? ==> o == (Rejection(t, s, userId, uploadOk).value, t)
    ensures o.0.Uploaded? ==> o.0.key == s.uploadKey.value && |o.1.proofs| == |t.proofs| + 1
  {
    var rejection := Rejection(t, s, userId, uploadOk);
    if rejection.Some? then (rejection.value, t)
    else
      var url := publicUrl(s.uploadKey.value);
      (Uploaded(url, s.uploadKey.value),
       t.(proofs := t.proofs + [ProofRow(t.nextId, s.goalId.value, url, now)], nextId := t.nextId + 1))
  }

  /** The order of the `finish` checks: each one decides only when those
      before it passed, and none of them answers 200. */
  lemma FinishOrder(t: ProofTables, s: Session, userId: UserId, uploadOk: bool)
    ensures !Truthy(s.goalId) ==> Rejection(t, s, userId, uploadOk) == Some(MissingGoalId)
    ensures Truthy(s.goalId) && !OwnsHabit(t, userId, s.goalId.value) ==>
      Rejection(t, s, userId, uploadOk) == Some(NotOwner)
    ensures Truthy(s.goalId) && OwnsHabit(t, userId, s.goalId.value) && s.uploadKey.None? ==>
      Rejection(t, s, userId, uploadOk) == Some(NoFile)
    ensures Truthy(s.goalId) && OwnsHabit(t, userId, s.goalId.value) && s.uploadKey.Some? && !uploadOk ==>
      Rejection(t, s, userId, uploadOk) == Some(UploadFailed)
    ensures Rejection(t, s, userId, uploadOk).Some? ==> Status(Rejection(t, s, userId, uploadOk).value) != 200
  {
  }

  /** The upload is answered with 200 exactly when every check passes, and
      any other answer leaves the table as it was. */
  lemma FinishAccepts(t: ProofTables, s: Session, userId: UserId, uploadOk: bool, publicUrl: string -> string, now: nat)
    ensures Status(FinishStep(t, s, userId, uploadOk, publicUrl, now).0) == 200 <==>
      Truthy(s.goalId) && OwnsHabit(t, userId, s.goalId.value) && s.uploadKey.Some? && uploadOk
    ensures Status(FinishStep(t, s, userId, uploadOk, publicUrl, now).0) != 200 ==>
      FinishStep(t, s, userId, uploadOk, publicUrl, now).1 == t
  {
    var rejection := Rejection(t, s, userId, uploadOk);
    if rejection.Some? {
      FinishOrder(t, s, userId, uploadOk);
      assert FinishStep(t, s, userId, uploadOk, publicUrl, now) == (rejection.value, t);
    } else {
      FinishRecords(t, s, userId, uploadOk, publicUrl, now);
    }
  }

  /** An accepted upload answers with the uploaded key and its public URL,
      and adds exactly one row: for the goal, holding that URL. */
  lemma FinishRecords(t: ProofTables, s: Session, userId: UserId, uploadOk: bool, publicUrl: string -> string, now: nat)
    requires Truthy(s.goalId) && OwnsHabit(t, userId, s.goalId.value) && s.uploadKey.Some? && uploadOk
    ensures var url := publicUrl(s.uploadKey.value);
      FinishStep(t, s, userId, uploadOk, publicUrl, now) ==
        (Uploaded(url, s.uploadKey.value),
         ProofTables(t.habits, t.proofs + [ProofRow(t.nextId, s.goalId.value, url, now)], t.nextId + 1))
  {
  }

  /** With the goal id sent before the file, the key names that goal and the
      right extension; sent after it, the key names `unknown` although the
      row is recorded for the goal. */
  lemma KeyNamesGoalSentFirst(userId: UserId, goalId: string, mimeType: string, now: nat)
    ensures var s := OnFileStep(OnFieldStep(Session(None, None, None), "goalId", goalId), userId, mimeType, now);
      s.uploadKey == Some(ProofKey(userId, goalId, now, ContentTypeToExt(StreamContentType(mimeType))))
    ensures var s := OnFieldStep(OnFileStep(Session(None, None, None), userId, mimeType, now), "goalId", goalId);
      s.goalId == Some(goalId)
      && s.uploadKey == Some(ProofKey(userId, "unknown", now, ContentTypeToExt(StreamContentType(mimeType))))
  {
  }

  /** A file without a type is stored as `.jpg`. */
  lemma UntypedFileIsJpg(s: Session, userId: UserId, now: nat)
    ensures OnFileStep(s, userId, "", now).uploadKey == Some(ProofKey(userId, GoalSegment(s.goalId), now, "jpg"))
  {
    var ct := StreamContentType("");
    assert IsOctetStream(ct);
    OctetStreamGivesJpg(ct);
  }

  /** The busboy callbacks' variables. */
  class UploadSession {
    const userId: UserId
    var goalId: Option<string>
    var uploadKey: Option<string>
    var contentType: Option<string>

    function State(): Session
      reads this
    {
      Session(goalId, uploadKey, contentType)
    }

    constructor(userId: UserId)
      ensures this.userId == userId && State() == Session(None, None, None)
    {
      this.userId := userId;
      goalId := None;
      uploadKey := None;
      contentType := None;
    }

    method OnField(name: string, value: string)
      modifies this
      ensures State() == OnFieldStep(old(State()), name, value)
    {
      if name == "goalId" {
        goalId := Some(value);
      }
    }

    method OnFile(mimeType: string, now: nat)
      modifies this
      ensures State() == OnFileStep(old(State()), userId, mimeType, now)
    {
      var ct := StreamContentType(mimeType);
      contentType := Some(ct);
      var ext := ContentTypeToExt(ct);
      uploadKey := Some(ProofKey(userId, GoalSegment(goalId), now, ext));
    }
  }

  /** The two tables as fields, and the storage module's state. */
  class ProofStore {
    var habits: map<string, UserId>
    var proofs: seq<ProofRow>
    var nextId: nat
    const storage: Storage

    function State(): ProofTables
      reads this
    {
      ProofTables(habits, proofs, nextId)
    }

    predicate Valid()
      reads this, storage
    {
      storage.Valid()
    }

    constructor(habits: map<string, UserId>, storage: Storage)
      requires storage.Valid()
      ensures State() == ProofTables(habits, [], 0) && this.storage == storage && Valid()
    {
      this.habits := habits;
      this.proofs := [];
      this.nextId := 0;
      this.storage := storage;
    }

    /** `getProofs`: it changes nothing. */
    method GetProofsOf(u: UserId, habitId: string) returns (r: Result<seq<ProofView>>)
      ensures r == GetProofs(State(), u, habitId)
    {
      if !OwnsHabit(State(), u, habitId) {
        return Err(Unauthorized);
      }
      r := Ok(NewestFirst(proofs, habitId));
    }

    /** `createUploadUrl`. */
    method CreateUploadUrl(u: UserId, habitId: string, contentType: Option<string>, now: nat)
      returns (r: Result<UploadTicket>)
      requires Valid()
      modifies this, storage
      ensures Valid()
      ensures (r, State()) == CreateUploadStep(old(State()), storage.config, u, habitId, contentType, now)
    {
      if !OwnsHabit(State(), u, habitId) {
        return Err(InternalServerError);
      }
      var key := UploadKey(u, habitId, now, contentType);
      var p := storage.CreatePresignedUploadUrl(key, Some(UploadContentType(contentType)), None);
      assert p == UploadPresign(storage.config, key, contentType);
      r := RecordUpload(habitId, key, p, now);
    }

    /** The rest of `createUploadUrl` once the presign has answered. */
    method RecordUpload(habitId: string, key: string, p: Result<PresignedUpload>, now: nat)
      returns (r: Result<UploadTicket>)
      modifies this
      ensures (r, State()) == RecordTicket(old(State()), habitId, key, p, now)
    {
      if p.Err? {
        return Err(InternalServerError);
      }
      ghost var t0 := State();
      Insert(habitId, p.value.fileUrl, now);
      r := Ok(UploadTicket(p.value.headers, key, p.value.fileUrl));
      ghost var t1 := t0.(proofs := t0.proofs + [ProofRow(t0.nextId, habitId, p.value.fileUrl, now)], nextId := t0.nextId + 1);
      assert State() == t1;
    }

    /** `INSERT INTO proofs (habit_id, image_data_url)`: one row, with the
        next id. */
    method Insert(habitId: string, imageUrl: string, now: nat)
      modifies this
      ensures State() == old(State()).(proofs := old(proofs) + [ProofRow(old(nextId), habitId, imageUrl, now)],
                                       nextId := old(nextId) + 1)
    {
      proofs := proofs + [ProofRow(nextId, habitId, imageUrl, now)];
      nextId := nextId + 1;
    }

    /** The `finish` callback of the upload route, with the URL builder of
        the handler as `publicUrl`. */
    method FinishUpload(session: UploadSession, uploadOk: bool, publicUrl: string -> string, now: nat)
      returns (r: UploadResponse)
      modifies this
      ensures (r, State()) == FinishStep(old(State()), session.State(), session.userId, uploadOk, publicUrl, now)
    {
      var goalId := session.goalId;
      if !Truthy(goalId) {
        return MissingGoalId;
      }
      if !OwnsHabit(State(), session.userId, goalId.value) {
        return NotOwner;
      }
      if session.uploadKey.None? {
        return NoFile;
      }
      if !uploadOk {
        return UploadFailed;
      }
      var key := session.uploadKey.value;
      var url := publicUrl(key);
      ghost var t0 := State();
      assert Rejection(t0, session.State(), session.userId, uploadOk).None?;
      Insert(goalId.value, url, now);
      r := Uploaded(url, key);
      ghost var t1 := t0.(proofs := t0.proofs + [ProofRow(t0.nextId, goalId.value, url, now)], nextId := t0.nextId + 1);
      assert State() == t1;
      assert FinishStep(t0, session.State(), session.userId, uploadOk, publicUrl, now) == (r, t1);
    }
  }
}
