/** The group routes of routes/groups.ts over an abstract database: groups,
    memberships, group proofs, the per-day coin distributions and the users'
    coin balances. The tables are a value (`Tables`) with one specification
    function per procedure; the class `GroupStore` holds them as fields and
    its methods are proved against those functions. "Today" is a day number
    passed in, as are the AI verdict, the outcome of the upload and of the
    award transaction, `Date.now()` and the `Math.random()` draws. */
module Groups {
  import opened Common
  import opened ProofKeys
  import opened UriEncoding
  import opened PublicUrl

  /** Group ids are handed out in order, as a serial column does. */
  type GroupId = nat
  type Day = int

  datatype Group = Group(code: string, createdBy: UserId, name: string, description: string)

  datatype GroupProof = GroupProof(group: GroupId, user: UserId, day: Day, imageUrl: string)

  /** The rows the group routes read and write. A group's id is its index in
      `groups`; `coins` is the nullable `coin` column of `auth.user`. */
  datatype Tables = Tables(
    groups: seq<Group>,
    members: set<(GroupId, UserId)>,
    proofs: seq<GroupProof>,
    distributions: map<(GroupId, Day), int>,
    coins: map<UserId, Option<int>>)

  const DailyRequired: nat := 1
  const BaseReward: int := 5
  const StreakDays: nat := 181

  function MembersOf(t: Tables, g: GroupId): set<UserId> {
    set m | m in t.members && m.0 == g :: m.1
  }

  lemma MembersOfDef(t: Tables, g: GroupId, u: UserId)
    ensures u in MembersOf(t, g) <==> (g, u) in t.members
  {
    if (g, u) in t.members {
      assert (g, u).1 == u;
    }
  }

  /** The number of proofs by `u` for group `g` on day `d`. */
  function ProofCount(ps: seq<GroupProof>, g: GroupId, u: UserId, d: Day): nat {
    if ps == [] then 0
    else
      var p := ps[|ps| - 1];
      ProofCount(ps[..|ps| - 1], g, u, d) + (if p.group == g && p.user == u && p.day == d then 1 else 0)
  }

  lemma ProofCountAppend(ps: seq<GroupProof>, p: GroupProof, g: GroupId, u: UserId, d: Day)
    ensures ProofCount(ps + [p], g, u, d)
      == ProofCount(ps, g, u, d) + (if p.group == g && p.user == u && p.day == d then 1 else 0)
  {
    assert (ps + [p])[..|ps|] == ps;
  }

  /** No proof in `ps` is by `u` for `g` on `d` exactly when the count is 0. */
  lemma {:induction false} ProofCountZero(ps: seq<GroupProof>, g: GroupId, u: UserId, d: Day)
    ensures ProofCount(ps, g, u, d) == 0 <==>
      forall i :: 0 <= i < |ps| ==> !(ps[i].group == g && ps[i].user == u && ps[i].day == d)
    decreases |ps|
  {
    if ps != [] {
      var init := ps[..|ps| - 1];
      ProofCountZero(init, g, u, d);
      assert forall i :: 0 <= i < |init| ==> init[i] == ps[i];
    }
  }

  /** Every member of `g` has at least `DailyRequired` proofs on day `d`. */
  predicate AllSubmitted(t: Tables, g: GroupId, d: Day) {
    forall u :: u in MembersOf(t, g) ==> ProofCount(t.proofs, g, u, d) >= DailyRequired
  }

  /** `COALESCE(coin, 0)` */
  function CoinOf(c: Option<int>): int {
    if c.Some? then c.value else 0
  }

  /** `UPDATE auth.user SET coin = COALESCE(coin, 0) + amount WHERE id = ANY(ids)` */
  function Credit(coins: map<UserId, Option<int>>, ids: set<UserId>, amount: int): (r: map<UserId, Option<int>>)
    ensures r.Keys == coins.Keys
    ensures forall u :: u in coins && u in ids ==> r[u] == Some(CoinOf(coins[u]) + amount)
    ensures forall u :: u in coins && u !in ids ==> r[u] == coins[u]
  {
    map u | u in coins :: if u in ids then Some(CoinOf(coins[u]) + amount) else coins[u]
  }

  /** The per-member award for a group of `n` members:
      `Math.round(5 * (1.5 * (n - 1) + 1))`, stated in integers. */
  function PerMemberAward(n: nat): (r: int)
    requires n >= 1
    ensures r >= BaseReward * n
  {
    (15 * n - 4) / 2
  }

  /** `Math.round` of a non-negative number: halves round up. */
  function RoundHalfUp(x: real): int {
    (x + 0.5).Floor
  }

  /** The integer formula is the floating-point one of the source, whose
      values for at most a few thousand members are exact in binary. */
  lemma PerMemberAwardIsRounded(n: nat)
    requires n >= 1
    ensures PerMemberAward(n) == RoundHalfUp(BaseReward as real * (1.5 * (n - 1) as real + 1.0))
  {
    var x := BaseReward as real * (1.5 * (n - 1) as real + 1.0);
    var k := PerMemberAward(n);
    assert x + 0.5 == (15 * n - 4) as real / 2.0;
    assert 2 * k <= 15 * n - 4 < 2 * k + 2;
    assert k as real <= x + 0.5 < k as real + 1.0;
  }

  /** The first values of the award, and its growth with the group. */
  lemma PerMemberAwardValues(n: nat)
    requires n >= 1
    ensures PerMemberAward(1) == 5 && PerMemberAward(2) == 13
    ensures PerMemberAward(3) == 20 && PerMemberAward(4) == 28
    ensures PerMemberAward(n) >= BaseReward * n
    ensures PerMemberAward(n + 1) > PerMemberAward(n)
  {
  }

  /** `awardGroupCoinsIfAllGroupMembersSubmittedToday` for group `g` on day
      `today`. It does nothing when the day's distribution exists, when the
      group has no members, or when a member has no proof that day; otherwise
      the transaction records the distribution and credits every member, or,
      when it fails (`txFails`), is rolled back. No error leaves it. */
  function AwardStep(t: Tables, g: GroupId, today: Day, txFails: bool): (r: Tables)
    ensures r.groups == t.groups && r.members == t.members && r.proofs == t.proofs
    ensures r.coins.Keys == t.coins.Keys
    ensures r != t ==> (g, today) !in t.distributions && !txFails && |MembersOf(t, g)| >= 1
                       && AllSubmitted(t, g, today)
                       && r.distributions == t.distributions[(g, today) := PerMemberAward(|MembersOf(t, g)|)]
  {
    if (g, today) in t.distributions then t
    else
      var ms := MembersOf(t, g);
      if |ms| == 0 then t
      else if !AllSubmitted(t, g, today) then t
      else if txFails then t
      else
        var amount := PerMemberAward(|ms|);
        t.(distributions := t.distributions[(g, today) := amount],
           coins := Credit(t.coins, ms, amount))
  }

  /** The award changes nothing when the day's distribution is recorded:
      after a successful award a second one is a no-op. */
  lemma AwardIdempotent(t: Tables, g: GroupId, today: Day, txFails: bool, again: bool)
    ensures (g, today) in t.distributions ==> AwardStep(t, g, today, txFails) == t
    ensures var t1 := AwardStep(t, g, today, txFails);
      (g, today) in t1.distributions ==> AwardStep(t1, g, today, again) == t1
  {
  }

  /** With no members, with a member who has not submitted, or with a failed
      transaction, nothing is recorded and no balance changes. */
  lemma AwardWithholds(t: Tables, g: GroupId, today: Day, txFails: bool)
    requires |MembersOf(t, g)| == 0 || !AllSubmitted(t, g, today) || txFails
    ensures AwardStep(t, g, today, txFails) == t
  {
  }

  /** A member without a proof today blocks the award. */
  lemma MissingProofBlocksAward(t: Tables, g: GroupId, today: Day, u: UserId, txFails: bool)
    requires (g, u) in t.members
    requires forall i :: 0 <= i < |t.proofs| ==>
      !(t.proofs[i].group == g && t.proofs[i].user == u && t.proofs[i].day == today)
    ensures AwardStep(t, g, today, txFails) == t
  {
    MembersOfDef(t, g, u);
    ProofCountZero(t.proofs, g, u, today);
    assert !AllSubmitted(t, g, today);
  }

  /** A successful award records exactly one distribution, of the per-member
      amount, credits that amount to every member (a null balance counting as
      0) and leaves everything else as it was. */
  lemma AwardPays(t: Tables, g: GroupId, today: Day)
    requires (g, today) !in t.distributions
    requires |MembersOf(t, g)| >= 1 && AllSubmitted(t, g, today)
    ensures var t1 := AwardStep(t, g, today, false);
      var amount := PerMemberAward(|MembersOf(t, g)|);
      t1.distributions == t.distributions[(g, today) := amount]
      && t1.coins.Keys == t.coins.Keys
      && (forall u :: u in t.coins && (g, u) in t.members ==> t1.coins[u] == Some(CoinOf(t.coins[u]) + amount))
      && (forall u :: u in t.coins && (g, u) !in t.members ==> t1.coins[u] == t.coins[u])
      && t1.groups == t.groups && t1.members == t.members && t1.proofs == t.proofs
  {
    forall u | u in t.coins
      ensures u in MembersOf(t, g) <==> (g, u) in t.members
    {
      MembersOfDef(t, g, u);
    }
  }

  /** The award for one group and day leaves every other distribution, and
      every balance, where it was or higher. */
  lemma AwardIsLocal(t: Tables, g: GroupId, today: Day, txFails: bool)
    ensures var t1 := AwardStep(t, g, today, txFails);
      t1.distributions.Keys == t.distributions.Keys + (t1.distributions.Keys - t.distributions.Keys)
      && (t1.distributions.Keys - t.distributions.Keys) <= {(g, today)}
      && (forall k :: k in t.distributions ==> k in t1.distributions && t1.distributions[k] == t.distributions[k])
      && (forall u :: u in t.coins ==> u in t1.coins && CoinOf(t1.coins[u]) >= CoinOf(t.coins[u]))
  {
    var t1 := AwardStep(t, g, today, txFails);
    if t1 != t {
      var ms := MembersOf(t, g);
      assert |ms| >= 1;
      var amount := PerMemberAward(|ms|);
      assert amount >= 5;
    }
  }

  /** One row of the per-day query in `groupDetail`. */
  datatype DayRow = DayRow(day: Day, membersWithProof: nat, totalMembers: nat)

  predicate Complete(row: DayRow) {
    row.membersWithProof >= row.totalMembers && row.totalMembers > 0
  }

  /** The members of `g` with a proof on day `d`. */
  function MembersWithProof(t: Tables, g: GroupId, d: Day): (s: set<UserId>)
    ensures s <= MembersOf(t, g)
  {
    set u | u in MembersOf(t, g) && ProofCount(t.proofs, g, u, d) >= DailyRequired
  }

  /** The per-day query: one row per day from today back 180 days, newest
      first. It cross-joins the days with the members, so a group without
      members yields no rows at all. */
  function PerDayRows(t: Tables, g: GroupId, today: Day): (rows: seq<DayRow>)
    ensures |rows| <= StreakDays
    ensures |MembersOf(t, g)| > 0 ==> |rows| == StreakDays
    ensures forall i :: 0 <= i < |rows| ==> rows[i].day == today - i
  {
    if |MembersOf(t, g)| == 0 then []
    else
      seq(StreakDays, i requires 0 <= i < StreakDays =>
        DayRow(today - i, |MembersWithProof(t, g, today - i)|, |MembersOf(t, g)|))
  }

  /** A subset at least as large as its superset is the whole set. */
  lemma SubsetAsLarge<T>(a: set<T>, b: set<T>)
    requires a <= b && |a| >= |b|
    ensures a == b
  {
    if a != b {
      var x :| x in b && x !in a;
      assert a <= b - {x};
      SubsetCard(a, b - {x});
    }
  }

  /** A day of the query is complete exactly when the group has members and
      all of them submitted that day. */
  lemma CompleteDay(t: Tables, g: GroupId, today: Day, i: nat)
    requires i < |PerDayRows(t, g, today)|
    ensures Complete(PerDayRows(t, g, today)[i]) <==>
      |MembersOf(t, g)| > 0 && AllSubmitted(t, g, today - i)
  {
    var d := today - i;
    var s := MembersWithProof(t, g, d);
    var ms := MembersOf(t, g);
    assert PerDayRows(t, g, today)[i] == DayRow(d, |s|, |ms|);
    if |s| >= |ms| {
      SubsetAsLarge(s, ms);
      assert forall u :: u in ms ==> u in s;
    }
    if AllSubmitted(t, g, d) {
      assert ms <= s;
      SubsetCard(ms, s);
    }
  }

  /** The streak loop of `groupDetail`: count rows from the first while they
      are complete. */
  method Streak(rows: seq<DayRow>) returns (streak: nat)
    ensures streak <= |rows|
    ensures forall i :: 0 <= i < streak ==> Complete(rows[i])
    ensures streak < |rows| ==> !Complete(rows[streak])
  {
    streak := 0;
    while streak < |rows|
      invariant streak <= |rows|
      invariant forall i :: 0 <= i < streak ==> Complete(rows[i])
    {
      if !Complete(rows[streak]) {
        break;
      }
      streak := streak + 1;
    }
  }

  /** What a streak over the query counts: consecutive fully submitted days
      ending today, at most 181 of them, stopping at the first day a member
      missed. */
  lemma StreakMeaning(t: Tables, g: GroupId, today: Day, streak: nat)
    requires streak <= |PerDayRows(t, g, today)|
    requires forall i :: 0 <= i < streak ==> Complete(PerDayRows(t, g, today)[i])
    requires streak < |PerDayRows(t, g, today)| ==> !Complete(PerDayRows(t, g, today)[streak])
    ensures streak <= StreakDays
    ensures forall d :: today - streak < d <= today ==> AllSubmitted(t, g, d)
    ensures streak < StreakDays ==> |MembersOf(t, g)| == 0 || !AllSubmitted(t, g, today - streak)
    ensures |MembersOf(t, g)| == 0 ==> streak == 0
  {
    forall d | today - streak < d <= today ensures AllSubmitted(t, g, d) {
      CompleteDay(t, g, today, today - d);
    }
    if streak < StreakDays && |MembersOf(t, g)| > 0 {
      CompleteDay(t, g, today, streak);
    }
  }

  /** What `groupDetail` returns, less display names and timestamps. */
  datatype Detail = Detail(
    group: Group,
    uploadedToday: bool,
    streak: nat,
    photos: seq<string>,
    doneToday: map<UserId, bool>)

  /** The image URLs of `u`'s proofs in `g`, newest first, at most 100. */
  function PhotosOf(ps: seq<GroupProof>, g: GroupId, u: UserId): (r: seq<string>)
    ensures |r| <= 100
  {
    var all := NewestFirst(ps, g, u);
    if |all| <= 100 then all else all[..100]
  }

  function NewestFirst(ps: seq<GroupProof>, g: GroupId, u: UserId): (r: seq<string>)
    ensures |r| <= |ps|
  {
    if ps == [] then []
    else
      var p := ps[|ps| - 1];
      (if p.group == g && p.user == u then [p.imageUrl] else []) + NewestFirst(ps[..|ps| - 1], g, u)
  }

  /** Everything about a group and the table rows that belong to it is
      well-formed: memberships and proofs name existing groups, and no one
      has more than the daily quota of proofs in a group on one day. */
  predicate WellFormed(t: Tables) {
    (forall m :: m in t.members ==> m.0 < |t.groups|)
    && (forall i :: 0 <= i < |t.proofs| ==> t.proofs[i].group < |t.groups|)
    && (forall i, j :: 0 <= i < j < |t.proofs| ==>
          !(t.proofs[i].group == t.proofs[j].group && t.proofs[i].user == t.proofs[j].user
            && t.proofs[i].day == t.proofs[j].day))
  }

  /** `submitProof`'s result. */
  datatype Submitted = Submitted(url: string, key: string)

  datatype Outcome<T> = Outcome(result: Result<T>, tables: Tables)

  /** The object key of a group proof: the photo's extension comes from
      the content type of its data URL. */
  function SubmitKey(g: GroupId, u: UserId, now: nat, dataUrl: string): string {
    GroupProofKey(NatToString(g), u, now, ContentTypeToExt(DataUrlContentType(dataUrl)))
  }

  /** The key's path segments name the group, the sender and the file. */
  lemma SubmitKeySegments(g: GroupId, u: UserId, now: nat, dataUrl: string)
    requires '/' !in u
    ensures Split(SubmitKey(g, u, now, dataUrl), '/') ==
      ["group-proofs", NatToString(g), u, FileName(now, ContentTypeToExt(DataUrlContentType(dataUrl)))]
  {
    var ext := ContentTypeToExt(DataUrlContentType(dataUrl));
    assert '/' !in NatToString(g);
    assert '/' !in ext;
    GroupProofKeySegments(NatToString(g), u, now, ext);
  }

  /** `submitProof` by `u` for group `g`. It rejects, before anything is
      written: a non-member (UNAUTHORIZED), a member who already has the day's
      proof (BAD_REQUEST), and a photo the verifier turns down (BAD_REQUEST);
      a `getS3Client` that throws for want of credentials and an upload that
      throws are internal errors. Otherwise it records the proof under the
      public URL of its key and runs the award. */
  function SubmitStep(t: Tables, g: GroupId, u: UserId, today: Day, dataUrl: string, verified: bool,
                      uploaded: bool, now: nat, env: Env, txFails: bool): (o: Outcome<Submitted>)
    ensures o.result.Err? ==> o.tables == t
    ensures o.tables.groups == t.groups && o.tables.members == t.members
    ensures o.result.Ok? ==> o.result.value.key == SubmitKey(g, u, now, dataUrl)
                             && |o.tables.proofs| == |t.proofs| + 1
  {
    if (g, u) !in t.members then Outcome(Err(Unauthorized), t)
    else if ProofCount(t.proofs, g, u, today) >= DailyRequired then Outcome(Err(BadRequest), t)
    else
      var key := SubmitKey(g, u, now, dataUrl);
      if !verified then Outcome(Err(BadRequest), t)
      else if !ClientAvailable(env) || !uploaded then Outcome(Err(InternalServerError), t)
      else
        var url := BuildPublicUrl(env, key);
        var t1 := t.(proofs := t.proofs + [GroupProof(g, u, today, url)]);
        Outcome(Ok(Submitted(url, key)), AwardStep(t1, g, today, txFails))
  }

  /** The gate of `submitProof`, in order: membership, then the daily
      quota, then verification; each rejection leaves the tables as they
      were. */
  lemma SubmitGate(t: Tables, g: GroupId, u: UserId, today: Day, dataUrl: string, verified: bool,
                   uploaded: bool, now: nat, env: Env, txFails: bool)
    ensures var o := SubmitStep(t, g, u, today, dataUrl, verified, uploaded, now, env, txFails);
      ((g, u) !in t.members ==> o == Outcome(Err(Unauthorized), t))
      && ((g, u) in t.members && ProofCount(t.proofs, g, u, today) >= 1 ==> o == Outcome(Err(BadRequest), t))
      && ((g, u) in t.members && ProofCount(t.proofs, g, u, today) == 0 && !verified ==> o == Outcome(Err(BadRequest), t))
      && (o.result.Err? ==> o.tables == t)
      && ((g, u) in t.members && ProofCount(t.proofs, g, u, today) == 0 && verified && !ClientAvailable(env)
          ==> o == Outcome(Err(InternalServerError), t))
      && (o.result.Ok? <==> (g, u) in t.members && ProofCount(t.proofs, g, u, today) == 0 && verified
                            && ClientAvailable(env) && uploaded)
  {
  }

  /** An accepted proof is the sender's only proof of the day in the group,
      stored under its public URL and key; the award may then credit coins
      but leaves groups, memberships and proofs alone. */
  lemma SubmitAccepted(t: Tables, g: GroupId, u: UserId, today: Day, dataUrl: string,
                       now: nat, env: Env, txFails: bool)
    requires (g, u) in t.members && ProofCount(t.proofs, g, u, today) == 0
    requires ClientAvailable(env)
    ensures var o := SubmitStep(t, g, u, today, dataUrl, true, true, now, env, txFails);
      o.result.Ok?
      && o.result.value.key == SubmitKey(g, u, now, dataUrl)
      && o.result.value.url == BuildPublicUrl(env, o.result.value.key)
      && o.tables.proofs == t.proofs + [GroupProof(g, u, today, o.result.value.url)]
      && ProofCount(o.tables.proofs, g, u, today) == 1
      && o.tables.groups == t.groups && o.tables.members == t.members
  {
    var key := SubmitKey(g, u, now, dataUrl);
    var url := BuildPublicUrl(env, key);
    ProofCountAppend(t.proofs, GroupProof(g, u, today, url), g, u, today);
  }

  /** The award keeps the tables well-formed: it writes no group rows. */
  lemma AwardKeepsWellFormed(t: Tables, g: GroupId, today: Day, txFails: bool)
    requires WellFormed(t)
    ensures WellFormed(AwardStep(t, g, today, txFails))
  {
  }

  /** `submitProof` keeps the tables well-formed, so the daily quota of one
      proof per member and day holds in every reachable state. */
  lemma SubmitKeepsWellFormed(t: Tables, g: GroupId, u: UserId, today: Day, dataUrl: string, verified: bool,
                              uploaded: bool, now: nat, env: Env, txFails: bool)
    requires WellFormed(t)
    ensures WellFormed(SubmitStep(t, g, u, today, dataUrl, verified, uploaded, now, env, txFails).tables)
  {
    var o := SubmitStep(t, g, u, today, dataUrl, verified, uploaded, now, env, txFails);
    if o.result.Ok? {
      var p := GroupProof(g, u, today, o.result.value.url);
      var t1 := t.(proofs := t.proofs + [p]);
      assert (g, u) in t.members;
      ProofCountZero(t.proofs, g, u, today);
      assert WellFormed(t1) by {
        forall i, j | 0 <= i < j < |t1.proofs|
          ensures !(t1.proofs[i].group == t1.proofs[j].group && t1.proofs[i].user == t1.proofs[j].user
                    && t1.proofs[i].day == t1.proofs[j].day)
        {
          if j == |t.proofs| {
            assert t1.proofs[i] == t.proofs[i];
          } else {
            assert t1.proofs[i] == t.proofs[i] && t1.proofs[j] == t.proofs[j];
          }
        }
      }
      AwardKeepsWellFormed(t1, g, today, txFails);
    }
  }

  /** `joinGroup`'s normalisation of the typed code. */
  function NormalizeCode(code: string): (r: string)
    ensures r == [] <==> Trim(code) == []
  {
    ToUpperCase(Trim(code))
  }

  /** The id of the first group with the code, if any. */
  function FindCode(groups: seq<Group>, code: string): (r: Option<GroupId>)
    ensures r.Some? ==> r.value < |groups| && groups[r.value].code == code
    ensures r.Some? ==> forall i :: 0 <= i < r.value ==> groups[i].code != code
    ensures r.None? <==> forall i :: 0 <= i < |groups| ==> groups[i].code != code
  {
    if groups == [] then None
    else if groups[0].code == code then Some(0)
    else
      var r := FindCode(groups[1..], code);
      if r.Some? then Some(r.value + 1) else None
  }

  /** `joinGroup`: NOT_FOUND for an unknown code, otherwise the membership is
      inserted unless it exists. */
  function JoinStep(t: Tables, u: UserId, code: string): (o: Outcome<GroupId>)
    ensures o.tables.groups == t.groups && o.tables.proofs == t.proofs && o.tables.coins == t.coins
    ensures o.tables.distributions == t.distributions
    ensures o.result.Err? ==> o.result == Err(NotFound) && o.tables == t
  {
    JoinByCode(t, u, NormalizeCode(code))
  }

  /** The lookup and insert of `joinGroup` once the code is normalised. */
  function JoinByCode(t: Tables, u: UserId, code: string): (o: Outcome<GroupId>)
    ensures o.result.Err? <==> forall i :: 0 <= i < |t.groups| ==> t.groups[i].code != code
    ensures o.result.Err? ==> o.result == Err(NotFound) && o.tables == t
    ensures o.result.Ok? ==> o.result.value < |t.groups| && t.groups[o.result.value].code == code
                             && o.tables == t.(members := t.members + {(o.result.value, u)})
  {
    var g := FindCode(t.groups, code);
    if g.None? then Outcome(Err(NotFound), t)
    else Outcome(Ok(g.value), t.(members := t.members + {(g.value, u)}))
  }

  /** Joining leaves membership a set: joining again changes nothing, and
      only the joiner's membership of the found group is added. */
  lemma JoinIsIdempotent(t: Tables, u: UserId, code: string)
    ensures var o := JoinStep(t, u, code);
      (o.result.Err? <==> forall i :: 0 <= i < |t.groups| ==> t.groups[i].code != NormalizeCode(code))
      && (o.result.Err? ==> o.result.code == NotFound && o.tables == t)
      && (o.result.Ok? ==> t.groups[o.result.value].code == NormalizeCode(code)
                           && o.tables.members == t.members + {(o.result.value, u)})
      && JoinStep(o.tables, u, code) == o
  {
  }

  /** `joinGroup` keeps the tables well-formed. */
  lemma JoinKeepsWellFormed(t: Tables, u: UserId, code: string)
    requires WellFormed(t)
    ensures WellFormed(JoinStep(t, u, code).tables)
  {
    var found := FindCode(t.groups, NormalizeCode(code));
    if found.Some? {
      assert JoinStep(t, u, code).tables == t.(members := t.members + {(found.value, u)});
      AddMemberKeepsWellFormed(t, found.value, u);
    }
  }

  lemma AddMemberKeepsWellFormed(t: Tables, g: GroupId, u: UserId)
    requires WellFormed(t) && g < |t.groups|
    ensures WellFormed(t.(members := t.members + {(g, u)}))
  {
  }

  const Alphabet: string := "ABCDEFGHJKLMNPQRSTUVWXYZ23456789"

  /** A character of the code alphabet: the capital letters but I and O,
      and the digits 2 to 9. */
  predicate IsCodeChar(c: char) {
    ('A' <= c <= 'Z' && c != 'I' && c != 'O') || ('2' <= c <= '9')
  }

  lemma AlphabetChars()
    ensures |Alphabet| == 32
    ensures forall i :: 0 <= i < 32 ==> IsCodeChar(Alphabet[i])
  {
  }

  /** The alphabet index `Math.floor(r * 32)` picks for a draw `r` in [0, 1). */
  function Pick(r: real): (k: nat)
    requires 0.0 <= r < 1.0
    ensures k < 32
  {
    (r * 32.0).Floor
  }

  predicate ValidDraws(draws: seq<real>) {
    forall i :: 0 <= i < |draws| ==> 0.0 <= draws[i] < 1.0
  }

  /** The code that six draws make. */
  function CodeOf(draws: seq<real>): (code: string)
    requires |draws| == 6 && ValidDraws(draws)
    ensures |code| == 6
    ensures forall i :: 0 <= i < 6 ==> code[i] == Alphabet[Pick(draws[i])] && IsCodeChar(code[i])
  {
    AlphabetChars();
    seq(6, i requires 0 <= i < 6 => Alphabet[Pick(draws[i])])
  }

  /** `generateGroupCode`: six characters appended one at a time. */
  method GenerateGroupCode(draws: seq<real>) returns (code: string)
    requires |draws| == 6 && ValidDraws(draws)
    ensures code == CodeOf(draws)
  {
    code := "";
    for i := 0 to 6
      invariant |code| == i
      invariant forall j :: 0 <= j < i ==> code[j] == Alphabet[Pick(draws[j])]
    {
      code := code + [Alphabet[Pick(draws[i])]];
    }
  }

  predicate IsGroupCode(code: string) {
    |code| == 6 && forall i :: 0 <= i < 6 ==> IsCodeChar(code[i])
  }

  /** A generated code survives `joinGroup`'s trimming and upper-casing,
      so typing it back finds the group. */
  lemma CodeSurvivesNormalization(code: string)
    requires IsGroupCode(code)
    ensures NormalizeCode(code) == code
  {
    assert !IsJsWhitespace(code[0]) && !IsJsWhitespace(code[5]);
    TrimKeepsTrimmed(code);
    assert forall i :: 0 <= i < |code| ==> UpperOf(code[i]) == [code[i]];
  }

  /** A code that normalises to a stored code finds a group. */
  lemma JoinFinds(t: Tables, u: UserId, code: string, g: GroupId)
    requires g < |t.groups| && t.groups[g].code == NormalizeCode(code)
    ensures JoinStep(t, u, code).result.Ok?
  {
    assert FindCode(t.groups, NormalizeCode(code)).Some?;
  }

  /** Typing the code `createGroup` stored joins a group with that code,
      and the group that stored it when no earlier group shares it. */
  lemma CreatedCodeJoins(t: Tables, u: UserId, g: GroupId)
    requires g < |t.groups| && IsGroupCode(t.groups[g].code)
    ensures var o := JoinStep(t, u, t.groups[g].code);
      o.result.Ok? && t.groups[o.result.value].code == t.groups[g].code
      && ((forall i :: 0 <= i < g ==> t.groups[i].code != t.groups[g].code) ==> o.result.value == g)
  {
    var code := t.groups[g].code;
    assert t.groups[g].code == NormalizeCode(code) by {
      CodeSurvivesNormalization(code);
    }
    JoinFinds(t, u, code, g);
  }

  /** A code typed in lower case, or with the long s standing for `S`,
      joins the group that stored the code. */
  lemma TypedVariantJoins(t: Tables, u: UserId, g: GroupId, typed: string)
    requires g < |t.groups| && IsGroupCode(t.groups[g].code)
    requires |typed| == 6
    requires forall i :: 0 <= i < 6 ==> UpperOf(typed[i]) == [t.groups[g].code[i]]
    ensures JoinStep(t, u, typed).result.Ok?
  {
    var code := t.groups[g].code;
    assert !IsJsWhitespace(typed[0]) && !IsJsWhitespace(typed[5]) by {
      assert UpperOf(typed[0]) == [code[0]] && UpperOf(typed[5]) == [code[5]];
    }
    TrimKeepsTrimmed(typed);
    ToUpperCaseCharwise(typed, code);
    JoinFinds(t, u, typed, g);
  }

  /** `abcdeſ` joins the group whose code is `ABCDES`, as `toUpperCase`
      maps the long s to `S`. */
  lemma LongSJoins(t: Tables, u: UserId, g: GroupId)
    requires g < |t.groups| && t.groups[g].code == "ABCDES"
    ensures JoinStep(t, u, "abcde\U{017F}").result.Ok?
  {
    TypedVariantJoins(t, u, g, "abcde\U{017F}");
  }

  /** The codes already in use. */
  function Codes(groups: seq<Group>): set<string> {
    set i | 0 <= i < |groups| :: groups[i].code
  }

  /** `createGroup` with the chosen code: the group is appended and its
      creator becomes a member.  */
  function CreateStep(t: Tables, u: UserId, name: string, description: string, code: string): (o: Outcome<GroupId>)
    ensures o.result == Ok(|t.groups|)
    ensures o.tables.groups == t.groups + [Group(code, u, name, description)]
    ensures o.tables.members == t.members + {(|t.groups|, u)}
    ensures o.tables.proofs == t.proofs && o.tables.distributions == t.distributions && o.tables.coins == t.coins
  {
    var g := |t.groups|;
    Outcome(Ok(g), t.(groups := t.groups + [Group(code, u, name, description)],
                      members := t.members + {(g, u)}))
  }

  /** In a well-formed state the new group's only member is its creator,
      and the state stays well-formed. */
  lemma CreatorIsOnlyMember(t: Tables, u: UserId, name: string, description: string, code: string)
    requires WellFormed(t)
    ensures var o := CreateStep(t, u, name, description, code);
      MembersOf(o.tables, |t.groups|) == {u} && WellFormed(o.tables)
  {
    var o := CreateStep(t, u, name, description, code);
    var g := |t.groups|;
    forall v ensures v in MembersOf(o.tables, g) <==> v == u {
      MembersOfDef(o.tables, g, v);
    }
  }

  /** The routes' tables as fields. */
  class GroupStore {
    var groups: seq<Group>
    var members: set<(GroupId, UserId)>
    var proofs: seq<GroupProof>
    var distributions: map<(GroupId, Day), int>
    var coins: map<UserId, Option<int>>

    function State(): Tables
      reads this
    {
      Tables(groups, members, proofs, distributions, coins)
    }

    constructor(coins: map<UserId, Option<int>>)
      ensures State() == Tables([], {}, [], map[], coins)
    {
      this.groups := [];
      this.members := {};
      this.proofs := [];
      this.distributions := map[];
      this.coins := coins;
    }

    /** The code-uniqueness loop of `createGroup`: the first code is
        generated, then up to five times it is looked up and replaced by a
        new one if it is taken. The sixth code is never looked up. */
    method ChooseCode(draws: seq<seq<real>>) returns (code: string)
      requires |draws| == 6 && forall k :: 0 <= k < 6 ==> |draws[k]| == 6 && ValidDraws(draws[k])
      ensures exists k :: 0 <= k < 6 && code == CodeOf(draws[k])
      ensures forall k :: 0 <= k < 5 && CodeOf(draws[k]) !in Codes(groups)
                && (forall j :: 0 <= j < k ==> CodeOf(draws[j]) in Codes(groups))
                ==> code == CodeOf(draws[k])
      ensures (forall k :: 0 <= k < 5 ==> CodeOf(draws[k]) in Codes(groups)) ==> code == CodeOf(draws[5])
    {
      code := GenerateGroupCode(draws[0]);
      var i := 0;
      while i < 5
        invariant 0 <= i <= 5
        invariant code == CodeOf(draws[i])
        invariant forall j :: 0 <= j < i ==> CodeOf(draws[j]) in Codes(groups)
      {
        if code !in Codes(groups) {
          break;
        }
        code := GenerateGroupCode(draws[i + 1]);
        i := i + 1;
      }
    }

    /** `createGroup`: choose the code, insert the group, add the creator. */
    method CreateGroup(u: UserId, name: string, description: string, draws: seq<seq<real>>)
      returns (g: GroupId, code: string)
      requires |draws| == 6 && forall k :: 0 <= k < 6 ==> |draws[k]| == 6 && ValidDraws(draws[k])
      modifies this
      ensures exists k :: 0 <= k < 6 && code == CodeOf(draws[k])
      ensures forall k :: 0 <= k < 5 && CodeOf(draws[k]) !in Codes(old(groups))
                && (forall j :: 0 <= j < k ==> CodeOf(draws[j]) in Codes(old(groups)))
                ==> code == CodeOf(draws[k])
      ensures (forall k :: 0 <= k < 5 ==> CodeOf(draws[k]) in Codes(old(groups))) ==> code == CodeOf(draws[5])
      ensures IsGroupCode(code)
      ensures Outcome(Ok(g), State()) == CreateStep(old(State()), u, name, description, code)
    {
      code := ChooseCode(draws);
      g := |groups|;
      groups := groups + [Group(code, u, name, description)];
      members := members + {(g, u)};
    }

    /** `joinGroup`. */
    method JoinGroup(u: UserId, rawCode: string) returns (r: Result<GroupId>)
      modifies this
      ensures Outcome(r, State()) == JoinStep(old(State()), u, rawCode)
    {
      var code := NormalizeCode(rawCode);
      r := JoinByNormalizedCode(u, code);
    }

    method JoinByNormalizedCode(u: UserId, code: string) returns (r: Result<GroupId>)
      modifies this
      ensures Outcome(r, State()) == JoinByCode(old(State()), u, code)
    {
      var found := FindCode(groups, code);
      if found.None? {
        return Err(NotFound);
      }
      members := members + {(found.value, u)};
      r := Ok(found.value);
    }

    /** `awardGroupCoinsIfAllGroupMembersSubmittedToday`. */
    method Award(g: GroupId, today: Day, txFails: bool)
      modifies this
      ensures State() == AwardStep(old(State()), g, today, txFails)
    {
      if (g, today) in distributions {
        return;
      }
      var ms := MembersOf(State(), g);
      if |ms| == 0 {
        return;
      }
      if !AllSubmitted(State(), g, today) {
        return;
      }
      if txFails {
        return;
      }
      var amount := PerMemberAward(|ms|);
      distributions := distributions[(g, today) := amount];
      coins := Credit(coins, ms, amount);
    }

    /** `submitProof`. */
    method SubmitProof(g: GroupId, u: UserId, today: Day, dataUrl: string, verified: bool,
                       uploaded: bool, now: nat, env: Env, txFails: bool)
      returns (r: Result<Submitted>)
      modifies this
      ensures Outcome(r, State()) == SubmitStep(old(State()), g, u, today, dataUrl, verified, uploaded, now, env, txFails)
    {
      if (g, u) !in members {
        return Err(Unauthorized);
      }
      if ProofCount(proofs, g, u, today) >= DailyRequired {
        return Err(BadRequest);
      }
      var key := SubmitKey(g, u, now, dataUrl);
      if !verified {
        return Err(BadRequest);
      }
      if !ClientAvailable(env) || !uploaded {
        return Err(InternalServerError);
      }
      var url := BuildPublicUrl(env, key);
      proofs := proofs + [GroupProof(g, u, today, url)];
      Award(g, today, txFails);
      r := Ok(Submitted(url, key));
    }

    /** `groupDetail` for user `u`: UNAUTHORIZED for a non-member, NOT_FOUND
        for a missing group, otherwise the group, whether `u` uploaded today,
        the streak, `u`'s photos newest first and which members with a
        user row (the JOIN on `auth.user`) are done today. */
    method GroupDetail(g: GroupId, u: UserId, today: Day) returns (r: Result<Detail>)
      ensures (g, u) !in members ==> r == Err(Unauthorized)
      ensures (g, u) in members && g >= |groups| ==> r == Err(NotFound)
      ensures r.Ok? ==> (g, u) in members && g < |groups| && r.value.group == groups[g]
      ensures r.Ok? ==> (r.value.uploadedToday <==> ProofCount(proofs, g, u, today) > 0)
      ensures r.Ok? ==> r.value.streak <= StreakDays
      ensures r.Ok? ==> forall d :: today - r.value.streak < d <= today ==> AllSubmitted(State(), g, d)
      ensures r.Ok? && r.value.streak < StreakDays ==> !AllSubmitted(State(), g, today - r.value.streak)
      ensures r.Ok? ==> r.value.photos == PhotosOf(proofs, g, u)
      ensures r.Ok? ==> r.value.doneToday.Keys == MembersOf(State(), g) * coins.Keys
      ensures r.Ok? ==> forall v :: v in r.value.doneToday ==>
                          (r.value.doneToday[v] <==> ProofCount(proofs, g, v, today) > 0)
    {
      if (g, u) !in members {
        return Err(Unauthorized);
      }
      if g >= |groups| {
        return Err(NotFound);
      }
      var t := State();
      var uploadedToday := ProofCount(proofs, g, u, today) > 0;
      var rows := PerDayRows(t, g, today);
      var streak := Streak(rows);
      StreakMeaning(t, g, today, streak);
      assert u in MembersOf(t, g) by {
        MembersOfDef(t, g, u);
      }
      var done := map v | v in MembersOf(t, g) && v in coins :: ProofCount(proofs, g, v, today) > 0;
      r := Ok(Detail(groups[g], uploadedToday, streak, PhotosOf(proofs, g, u), done));
    }
  }
}
