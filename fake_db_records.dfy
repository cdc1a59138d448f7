/** The record shapes `FakeDB` builds and the record tests its lookups use,
    with the invariants of its relationship collections. */
module DbRecords {
  import opened JsValues
  import opened JsArrays

  /** The persisted blob: collection name to its ordered records. */
  type DB = map<string, seq<Doc>>

  /** The top-level keys `init` seeds; no operation ever removes one. */
  const Collections: set<string> := {
    "users", "startups", "offers", "groups", "messages", "candidacies",
    "savedOffers", "joinRequests", "startupConnections", "reports", "posts"
  }

  /** Why a promise is rejected. */
  datatype Error =
    | DocumentNotFound
    | UserNotFound
    | EmailNotConfirmed
    | EmailInUse
    | RequestExists
    | RequestNotFound
    | TypeError  // a JavaScript exception thrown before the blob is written back

  function Message(e: Error): string
  {
    match e
    case DocumentNotFound => "Document non trouvé"
    case UserNotFound => "Utilisateur non trouvé"
    case EmailNotConfirmed => "Veuillez confirmer votre email avant de vous connecter"
    case EmailInUse => "Cet email est déjà utilisé"
    case RequestExists => "Une demande de connexion existe déjà"
    case RequestNotFound => "Demande non trouvée"
    case TypeError => "TypeError"
  }

  /** A settled promise: resolved with a value or rejected with a reason. */
  datatype Result<T> = Ok(value: T) | Err(error: Error)

  // ---------------------------------------------------------------------
  // Record tests, as the `find`/`findIndex`/`filter` callbacks write them.

  /** `d.id === id`: the generic operations key every collection on `id`. */
  function IdIs(id: string): Doc -> bool
  {
    (d: Doc) => FieldIs(d, "id", id)
  }

  /** `u.uid === uid`: user records carry `uid`, not `id`. */
  function UidIs(uid: string): Doc -> bool
  {
    (u: Doc) => FieldIs(u, "uid", uid)
  }

  /** `u.email === email` for a string `email`. */
  function EmailIs(email: string): Doc -> bool
  {
    (u: Doc) => FieldIs(u, "email", email)
  }

  /** `u.email === userProfile.email`. */
  function SameEmailAs(profile: Doc): Doc -> bool
  {
    (u: Doc) => SameValue(Field(u, "email"), Field(profile, "email"))
  }

  /** Some user already has the profile's email, by `===`. */
  predicate EmailTaken(users: seq<Doc>, profile: Doc)
  {
    exists i :: 0 <= i < |users| && SameValue(Field(users[i], "email"), Field(profile, "email"))
  }

  /** No two users share an email, by `===`. Only registration checks it. */
  ghost predicate UniqueEmails(users: seq<Doc>)
  {
    forall i, j :: 0 <= i < j < |users| ==> !SameValue(Field(users[i], "email"), Field(users[j], "email"))
  }

  // ---------------------------------------------------------------------
  // Registration.

  /** `'user' + Date.now()`. */
  function GeneratedUid(now: nat): (uid: string)
    ensures |uid| >= 5 && uid[..4] == "user"
    ensures forall i :: 4 <= i < |uid| ==> IsDigit(uid[i])
  {
    "user" + DecimalString(now)
  }

  /** Users registered at different clock readings get different uids. */
  lemma GeneratedUidInjective(m: nat, n: nat)
    requires GeneratedUid(m) == GeneratedUid(n)
    ensures m == n
  {
    assert GeneratedUid(m)[4..] == DecimalString(m);
    assert GeneratedUid(n)[4..] == DecimalString(n);
    DecimalStringInjective(m, n);
  }

  /** `{ uid: 'user' + now, ...userProfile, emailVerified: true, createdAt: now }`. */
  function NewUser(profile: Doc, now: nat): (u: Doc)
    ensures Field(u, "emailVerified") == Some(Bool(true)) && Field(u, "createdAt") == Some(Num(now))
    ensures "uid" in u && ("uid" !in profile ==> u["uid"] == Str(GeneratedUid(now)))
    ensures u.Keys == profile.Keys + {"uid", "emailVerified", "createdAt"}
    ensures forall k :: k in profile && k != "emailVerified" && k != "createdAt" ==> u[k] == profile[k]
  {
    (map["uid" := Str(GeneratedUid(now))] + profile)["emailVerified" := Bool(true)]["createdAt" := Num(now)]
  }

  /** `newUser.role === 'startuper' && newUser.startupId`. */
  predicate JoinsStartup(user: Doc)
  {
    FieldIs(user, "role", "startuper") && Truthy(Field(user, "startupId"))
  }

  /** The startup a registering user is added to: the first whose `id` is
      `===` the user's `startupId`, or -1 (also when the user joins none). */
  function StartupIndexFor(startups: seq<Doc>, user: Doc): (i: int)
    ensures -1 <= i < |startups|
    ensures i >= 0 ==> JoinsStartup(user) && SameValue(Field(startups[i], "id"), Field(user, "startupId"))
    ensures i >= 0 ==> forall j :: 0 <= j < i ==> !SameValue(Field(startups[j], "id"), Field(user, "startupId"))
    ensures JoinsStartup(user) && i == -1 ==>
      forall j :: 0 <= j < |startups| ==> !SameValue(Field(startups[j], "id"), Field(user, "startupId"))
  {
    if JoinsStartup(user)
    then FindIndex(startups, (s: Doc) => SameValue(Field(s, "id"), Field(user, "startupId")))
    else -1
  }

  /** `members.push` can run: the field is falsy (and replaced by `[]`) or an array. */
  predicate MembersPushable(startup: Doc)
  {
    !Truthy(Field(startup, "members")) || startup["members"].Arr?
  }

  /** The member list a push starts from. */
  function MemberList(startup: Doc): seq<Value>
    requires MembersPushable(startup)
  {
    if Truthy(Field(startup, "members")) then startup["members"].items else []
  }

  /** `x || fallback` on a field. */
  function OrElse(v: Option<Value>, fallback: Value): (r: Value)
    ensures Truthy(v) ==> r == v.value
    ensures !Truthy(v) ==> r == fallback
  {
    if Truthy(v) then v.value else fallback
  }

  /** `x || y` is truthy exactly when `x` or `y` is: a stored membership's
      `role` is never falsy, since "Membre" is truthy. */
  lemma OrElseTruthy(v: Option<Value>, fallback: Value)
    ensures Truthy(Some(OrElse(v, fallback))) <==> Truthy(v) || Truthy(Some(fallback))
  {
  }

  /** The membership object `register` pushes: `{ userId, name, role, isFounder,
      joinedAt }`. A `name` of `undefined` does not survive `JSON.stringify`. */
  function Membership(user: Doc, now: nat): (m: Doc)
    requires "uid" in user
    ensures Field(m, "userId") == Some(user["uid"]) && Field(m, "joinedAt") == Some(Num(now))
    ensures Field(m, "role") == Some(OrElse(Field(user, "jobTitle"), Str("Membre")))
    ensures Field(m, "isFounder") == Some(OrElse(Field(user, "isFounder"), Bool(false)))
    ensures "name" in m <==> "displayName" in user
    ensures "name" in m ==> m["name"] == user["displayName"]
  {
    var m := map[
      "userId" := user["uid"],
      "role" := OrElse(Field(user, "jobTitle"), Str("Membre")),
      "isFounder" := OrElse(Field(user, "isFounder"), Bool(false)),
      "joinedAt" := Num(now)];
    if "displayName" in user then m["name" := user["displayName"]] else m
  }

  /** The startup after one member object is pushed onto its `members`. */
  function WithMember(startup: Doc, member: Doc): (s: Doc)
    requires MembersPushable(startup)
    ensures MembersPushable(s) && MemberList(s) == MemberList(startup) + [Obj(member)]
    ensures forall k :: k in startup && k != "members" ==> k in s && s[k] == startup[k]
  {
    startup["members" := Arr(MemberList(startup) + [Obj(member)])]
  }

  /** The startups after `register` adds a new user: unchanged when the user
      joins no listed startup, the chosen startup with one more membership
      record otherwise, and `None` when `push` throws on its `members`. */
  function JoinStartup(startups: seq<Doc>, user: Doc, now: nat): (r: Option<seq<Doc>>)
    requires "uid" in user
    ensures var i := StartupIndexFor(startups, user);
      && (r.None? <==> i >= 0 && !MembersPushable(startups[i]))
      && (r.Some? && i == -1 ==> r.value == startups)
      && (r.Some? && i >= 0 ==>
            && |r.value| == |startups|
            && MembersPushable(startups[i]) && MembersPushable(r.value[i])
            && MemberList(r.value[i]) == MemberList(startups[i]) + [Obj(Membership(user, now))]
            && (forall k :: k in startups[i] && k != "members" ==> k in r.value[i] && r.value[i][k] == startups[i][k])
            && forall j :: 0 <= j < |startups| && j != i ==> r.value[j] == startups[j])
  {
    var i := StartupIndexFor(startups, user);
    if i == -1 then Some(startups)
    else if !MembersPushable(startups[i]) then None
    else Some(startups[i := WithMember(startups[i], Membership(user, now))])
  }

  // ---------------------------------------------------------------------
  // Sector groups.

  /** `g.type === 'sector' && g.sector === sector`. */
  function SectorGroupTest(sector: string): Doc -> bool
  {
    (g: Doc) => FieldIs(g, "type", "sector") && FieldIs(g, "sector", sector)
  }

  function SectorGroupIndex(groups: seq<Doc>, sector: string): int
  {
    FindIndex(groups, SectorGroupTest(sector))
  }

  /** The group `joinGroup` creates, before the user is pushed. */
  function NewSectorGroup(sector: string, now: nat): (g: Doc)
    ensures SectorGroupTest(sector)(g)
    ensures Field(g, "members") == Some(Arr([])) && Field(g, "createdAt") == Some(Num(now))
    ensures g.Keys == {"id", "name", "type", "sector", "members", "createdAt"}
  {
    map[
      "id" := Str("g" + DecimalString(now)),
      "name" := Str("Secteur : " + sector),
      "type" := Str("sector"),
      "sector" := Str(sector),
      "members" := Arr([]),
      "createdAt" := Num(now)]
  }

  /** `members.includes(userId)` can run: arrays and strings have `includes`. */
  predicate CanTestMembers(v: Option<Value>)
  {
    v.Some? && (v.value.Arr? || v.value.Str?)
  }

  /** `members.includes(userId)`: array membership, or for a string a
      substring test. */
  predicate Includes(v: Value, userId: string)
  {
    match v
    case Arr(items) => Str(userId) in items
    case Str(s) => IsSubstring(userId, s)
    case _ => false
  }

  /** What `includes` tests: an array holds the id as an element; a string
      holds it as a substring. */
  lemma IncludesMeaning(v: Value, userId: string)
    requires CanTestMembers(Some(v))
    ensures v.Arr? ==> (Includes(v, userId) <==> exists j :: 0 <= j < |v.items| && v.items[j] == Str(userId))
    ensures v.Str? ==> (Includes(v, userId) <==> exists i :: OccursAt(userId, v.s, i))
  {
    if v.Str? {
      IsSubstringAt(userId, v.s);
    }
  }

  /** Pushing the id onto an array makes `includes` find it, and keeps every
      id it found before. */
  lemma IncludesAfterPush(items: seq<Value>, userId: string, other: string)
    ensures Includes(Arr(items + [Str(userId)]), userId)
    ensures Includes(Arr(items), other) ==> Includes(Arr(items + [Str(userId)]), other)
  {
    assert (items + [Str(userId)])[|items|] == Str(userId);
  }

  /** The first sector group for `sector` lists `userId` among its members. */
  predicate Joined(groups: seq<Doc>, userId: string, sector: string)
  {
    var i := SectorGroupIndex(groups, sector);
    i >= 0 && CanTestMembers(Field(groups[i], "members")) && Includes(groups[i]["members"], userId)
  }

  // ---------------------------------------------------------------------
  // Saved offers.

  /** `s.userId === userId && s.offerId === offerId`. */
  predicate IsSavedPair(s: Doc, userId: string, offerId: string)
  {
    FieldIs(s, "userId", userId) && FieldIs(s, "offerId", offerId)
  }

  function NotSavedPair(userId: string, offerId: string): Doc -> bool
  {
    (s: Doc) => !IsSavedPair(s, userId, offerId)
  }

  predicate IsSaved(saved: seq<Doc>, userId: string, offerId: string)
  {
    exists i :: 0 <= i < |saved| && IsSavedPair(saved[i], userId, offerId)
  }

  function SavedRecord(userId: string, offerId: string, now: nat): (s: Doc)
    ensures IsSavedPair(s, userId, offerId)
  {
    map["userId" := Str(userId), "offerId" := Str(offerId), "savedAt" := Num(now)]
  }

  /** `saved.map(s => s.offerId)` over the user's saved pairs. */
  function OfferIdsSavedBy(saved: seq<Doc>, userId: string): (ids: seq<Option<Value>>)
    ensures forall k :: k in ids <==> exists s :: s in saved && FieldIs(s, "userId", userId) && Field(s, "offerId") == k
  {
    if saved == [] then []
    else
      var rest := OfferIdsSavedBy(saved[1..], userId);
      assert forall s :: s in saved <==> s == saved[0] || s in saved[1..];
      if FieldIs(saved[0], "userId", userId) then [Field(saved[0], "offerId")] + rest else rest
  }

  /** `offerIds.includes(o.id)`. */
  function IdAmong(ids: seq<Option<Value>>): Doc -> bool
  {
    (o: Doc) => exists k :: k in ids && SameValue(k, Field(o, "id"))
  }

  /** The user has a saved pair naming the offer's id. */
  predicate SavedBy(saved: seq<Doc>, userId: string, offer: Doc)
  {
    exists s :: s in saved && FieldIs(s, "userId", userId) && SameValue(Field(s, "offerId"), Field(offer, "id"))
  }

  // ---------------------------------------------------------------------
  // Startup connection requests.

  /** The request joins startups `a` and `b`, in either direction. */
  predicate Links(c: Doc, a: string, b: string)
  {
    (FieldIs(c, "fromStartupId", a) && FieldIs(c, "toStartupId", b)) ||
    (FieldIs(c, "fromStartupId", b) && FieldIs(c, "toStartupId", a))
  }

  function LinksTest(a: string, b: string): Doc -> bool
  {
    (c: Doc) => Links(c, a, b)
  }

  predicate RequestBetween(conns: seq<Doc>, a: string, b: string)
  {
    exists i :: 0 <= i < |conns| && Links(conns[i], a, b)
  }

  /** Two requests join the same unordered pair of endpoints. */
  predicate SamePair(c: Doc, d: Doc)
  {
    var (cf, ct) := (Field(c, "fromStartupId"), Field(c, "toStartupId"));
    var (df, dt) := (Field(d, "fromStartupId"), Field(d, "toStartupId"));
    (cf == df && ct == dt) || (cf == dt && ct == df)
  }

  /** At most one request per unordered pair of startups. */
  ghost predicate OneRequestPerPair(conns: seq<Doc>)
  {
    forall i, j :: 0 <= i < j < |conns| ==> !SamePair(conns[i], conns[j])
  }

  /** The request `sendConnectionRequest` stores (`message || ''`). */
  function ConnectionRequest(fromStartupId: string, toStartupId: string, message: Option<Value>, now: nat): (r: Doc)
    ensures Links(r, fromStartupId, toStartupId) && FieldIs(r, "status", "pending")
  {
    map[
      "id" := Str("sc" + DecimalString(now)),
      "fromStartupId" := Str(fromStartupId),
      "toStartupId" := Str(toStartupId),
      "message" := OrElse(message, Str("")),
      "status" := Str("pending"),
      "createdAt" := Num(now)]
  }

  /** `request.status = status; request.respondedAt = now`. */
  function Responded(request: Doc, status: string, now: nat): (r: Doc)
    ensures FieldIs(r, "status", status) && Field(r, "respondedAt") == Some(Num(now))
    ensures SamePair(r, request) && SamePair(request, r)
    ensures forall k :: k in request && k != "status" && k != "respondedAt" ==> k in r && r[k] == request[k]
  {
    request["status" := Str(status)]["respondedAt" := Num(now)]
  }

  function ConnectedTest(startupId: string): Doc -> bool
  {
    (c: Doc) => (FieldIs(c, "fromStartupId", startupId) || FieldIs(c, "toStartupId", startupId))
                && FieldIs(c, "status", "accepted")
  }

  function IncomingPendingTest(startupId: string): Doc -> bool
  {
    (c: Doc) => FieldIs(c, "toStartupId", startupId) && FieldIs(c, "status", "pending")
  }

  function OutgoingTest(startupId: string): Doc -> bool
  {
    (c: Doc) => FieldIs(c, "fromStartupId", startupId)
  }

  // ---------------------------------------------------------------------
  // Lemmas.

  /** A request for a pair no stored request joins keeps the pairs unique. */
  lemma AppendKeepsOneRequestPerPair(conns: seq<Doc>, r: Doc, a: string, b: string)
    requires OneRequestPerPair(conns)
    requires !RequestBetween(conns, a, b)
    requires Links(r, a, b)
    ensures OneRequestPerPair(conns + [r])
  {
    var t := conns + [r];
    forall i, j | 0 <= i < j < |t| ensures !SamePair(t[i], t[j]) {
      if j == |conns| {
        assert !Links(conns[i], a, b);
      }
    }
  }

  /** Rewriting one request without touching its endpoints keeps the pairs unique. */
  lemma ReplaceKeepsOneRequestPerPair(conns: seq<Doc>, i: nat, r: Doc)
    requires OneRequestPerPair(conns)
    requires i < |conns|
    requires Field(r, "fromStartupId") == Field(conns[i], "fromStartupId")
    requires Field(r, "toStartupId") == Field(conns[i], "toStartupId")
    ensures OneRequestPerPair(conns[i := r])
  {
    var t := conns[i := r];
    forall j, k | 0 <= j < k < |t| ensures !SamePair(t[j], t[k]) {
      assert !SamePair(conns[j], conns[k]);
    }
  }

  /** Under the invariant, a pair has at most one request: `find` on either
      direction of the pair meets the same record. */
  lemma OneRequestPerPairUnique(conns: seq<Doc>, a: string, b: string, i: nat, j: nat)
    requires OneRequestPerPair(conns)
    requires i < |conns| && j < |conns|
    requires Links(conns[i], a, b) && Links(conns[j], a, b)
    ensures i == j
  {
    if i < j {
      assert SamePair(conns[i], conns[j]);
    } else if j < i {
      assert SamePair(conns[j], conns[i]);
    }
  }

  /** A user whose email differs from every stored one keeps emails unique. */
  lemma AppendKeepsUniqueEmails(users: seq<Doc>, u: Doc)
    requires UniqueEmails(users)
    requires forall i :: 0 <= i < |users| ==> !SameValue(Field(users[i], "email"), Field(u, "email"))
    ensures UniqueEmails(users + [u])
  {
    var t := users + [u];
    forall i, j | 0 <= i < j < |t| ensures !SameValue(Field(t[i], "email"), Field(t[j], "email")) {
      if j == |users| {
        assert t[i] == users[i] && t[j] == u;
      } else {
        assert t[i] == users[i] && t[j] == users[j];
      }
    }
  }

  /** Replacing the element `findIndex` lands on by one that still passes the
      test leaves `findIndex` where it was. */
  lemma {:induction false} FindIndexReplace<T>(s: seq<T>, i: nat, x: T, p: T -> bool)
    requires FindIndex(s, p) == i && i < |s|
    requires p(x)
    ensures FindIndex(s[i := x], p) == i
  {
    if i > 0 {
      assert s[i := x][1..] == s[1..][i - 1 := x];
      FindIndexReplace(s[1..], i - 1, x, p);
    }
  }

  /** A group appended after every other group fails the test is the one
      `joinGroup` finds from then on. */
  lemma NewGroupIsFound(groups: seq<Doc>, userId: string, sector: string, now: nat)
    requires SectorGroupIndex(groups, sector) == -1
    ensures var g := NewSectorGroup(sector, now)["members" := Arr([Str(userId)])];
      SectorGroupIndex(groups + [g], sector) == |groups| && Joined(groups + [g], userId, sector)
  {
    var g := NewSectorGroup(sector, now)["members" := Arr([Str(userId)])];
    FindIndexAppend(groups, g, SectorGroupTest(sector));
  }
}
