/** `FakeDB`: the mock backend. Every call reads the whole blob, changes a copy
    and writes it all back, so each call is one transition of `data`; a call
    that is rejected, or that throws before the write, leaves `data` as it was. */
module FakeDatabase {
  import opened JsValues
  import opened JsArrays
  import opened DbRecords

  class FakeDB {
    var data: DB

    /** The seeded collections are present; nothing removes a key. */
    ghost predicate Valid()
      reads this
    {
      Collections <= data.Keys
    }

    /** The store over the blob `init` left in storage. */
    constructor (stored: DB)
      requires Collections <= stored.Keys
      ensures Valid() && data == stored
    {
      data := stored;
    }

    // -------------------------------------------------------------------
    // Generic collection access.

    /** `getCollection(name, filter)`: a missing collection reads as `[]`. */
    function GetCollection(name: string, filter: Option<Doc -> bool>): (r: seq<Doc>)
      reads this
      ensures name !in data ==> r == []
      ensures name in data && filter.None? ==> r == data[name]
      ensures name in data && filter.Some? ==> Subsequence(r, data[name])
      ensures name in data && filter.Some? ==>
        forall d :: d in r <==> d in data[name] && filter.value(d)
    {
      if name !in data then []
      else if filter.None? then data[name]
      else Filter(data[name], filter.value)
    }

    /** `getDoc(name, id)`: the first record whose `id` is `id`, if any. */
    function GetDoc(name: string, id: string): (r: Option<Doc>)
      reads this
      ensures r.None? <==> name !in data || forall i :: 0 <= i < |data[name]| ==> !FieldIs(data[name][i], "id", id)
      ensures r.Some? ==> name in data && exists i :: IsFirst(data[name], i, IdIs(id)) && data[name][i] == r.value
    {
      if name !in data then None
      else
        var i := FindIndex(data[name], IdIs(id));
        if i == -1 then None else Some(data[name][i])
    }

    /** `addDoc(name, doc)`: appends `doc` with `id` set to the generated id,
        creating the collection when it is missing. */
    method AddDoc(name: string, doc: Doc, now: nat) returns (newDoc: Doc)
      requires Valid()
      modifies this
      ensures Valid()
      ensures newDoc == doc["id" := GeneratedId(name, now)]
      ensures var before := if name in old(data) then old(data)[name] else [];
        data == old(data)[name := before + [newDoc]]
      ensures name != [] && (name !in old(data) || FindIndex(old(data)[name], IdIs([name[0]] + DecimalString(now))) == -1) ==>
        GetDoc(name, [name[0]] + DecimalString(now)) == Some(newDoc)
    ensures name != [] && name in old(data) && FindIndex(old(data)[name], IdIs([name[0]] + DecimalString(now))) >= 0 ==>
        GetDoc(name, [name[0]] + DecimalString(now)) == old(GetDoc(name, [name[0]] + DecimalString(now)))
    {
      newDoc := doc["id" := GeneratedId(name, now)];
      var d := data;
      if name !in d {
        d := d[name := []];
      }
      d := d[name := d[name] + [newDoc]];
      data := d;
      if name != [] {
        var before := if name in old(data) then old(data)[name] else [];
        var id := [name[0]] + DecimalString(now);
        if FindIndex(before, IdIs(id)) == -1 {
          FindIndexAppend(before, newDoc, IdIs(id));
        } else {
          FindIndexAppendKeeps(before, newDoc, IdIs(id));
        }
      }
    }

    /** `collectionName[0] + Date.now()`. For an empty name that is `NaN`,
        which `JSON.stringify` writes as `null`. */
    static function GeneratedId(name: string, now: nat): (v: Value)
      ensures v == Null <==> name == []
      ensures v.Str? ==> |v.s| >= 2 && v.s[0] == name[0] && forall i :: 1 <= i < |v.s| ==> IsDigit(v.s[i])
    {
      if name == [] then Null else Str([name[0]] + DecimalString(now))
    }

    /** `updateDoc(name, id, updates)`: the first record with that `id`
        becomes `{ ...record, ...updates }`. */
    method UpdateDoc(name: string, id: string, updates: Doc) returns (res: Result<Doc>)
      requires Valid()
      modifies this
      ensures Valid()
      ensures name !in old(data) ==> res == Err(TypeError) && data == old(data)
      ensures name in old(data) ==>
        var coll := old(data)[name];
        var i := FindIndex(coll, IdIs(id));
        && (i == -1 ==>
        res == Err(DocumentNotFound) && data == old(data))
        && (i >= 0 ==> res == Ok(coll[i] + updates) && data == old(data)[name := coll[i := res.value]])
      ensures res.Ok? ==> forall k :: k in updates ==> k in res.value && res.value[k] == updates[k]
    {
      if name !in data {
        // `data[collectionName]?.findIndex(...)` is `undefined`, which is not -1;
        // indexing `undefined` then throws.
        return Err(TypeError);
      }
      var coll := data[name];
      var i := FindIndex(coll, IdIs(id));
      if i == -1 {
        return Err(DocumentNotFound);
      }
      var merged := coll[i] + updates;
      data := data[name := coll[i := merged]];
      res := Ok(merged);
    }

    /** `deleteDoc(name, id)`: splices out the first record with that `id`. */
    method DeleteDoc(name: string, id: string) returns (res: Result<()>)
      requires Valid()
      modifies this
      ensures Valid()
      ensures name !in old(data) ==> res == Err(TypeError) && data == old(data)
      ensures name in old(data) ==>
        var coll := old(data)[name];
        var i := FindIndex(coll, IdIs(id));
        && (i == -1 ==>
        res == Err(DocumentNotFound) && data == old(data))
        && (i >= 0 ==> res == Ok(()) && data == old(data)[name := coll[..i] + coll[i + 1..]])
      ensures res.Ok? ==>
        && |data[name]| == |old(data)[name]| - 1
        && |Filter(data[name], IdIs(id))| == |Filter(old(data)[name], IdIs(id))| - 1
      ensures res.Ok? && |Filter(old(data)[name], IdIs(id))| == 1 ==> FindIndex(data[name], IdIs(id)) == -1
    {
      if name !in data {
        return Err(TypeError);
      }
      var coll := data[name];
      var i := FindIndex(coll, IdIs(id));
      if i == -1 {
        return Err(DocumentNotFound);
      }
      var rest := coll[..i] + coll[i + 1..];
      RemoveAtCount(coll, i, IdIs(id));
      data := data[name := rest];
      assert data[name] == rest;
      res := Ok(());
    }

    // -------------------------------------------------------------------
    // Authentication.

    /** `login(email, password)`: the password is not looked at. */
    function Login(email: string, password: string): (r: Result<Doc>)
      reads this
      requires Valid()
      ensures r.Err? ==> r.error == UserNotFound || r.error == EmailNotConfirmed
      ensures r == Err(UserNotFound) <==>
        forall i :: 0 <= i < |data["users"]| ==> !FieldIs(data["users"][i], "email", email)
      ensures r == Err(EmailNotConfirmed) <==>
        exists i :: IsFirst(data["users"], i, EmailIs(email)) && !Truthy(Field(data["users"][i], "emailVerified"))
      ensures r.Ok? <==>
        exists i :: IsFirst(data["users"], i, EmailIs(email)) && Truthy(Field(data["users"][i], "emailVerified"))
      ensures r.Ok? ==> exists i :: IsFirst(data["users"], i, EmailIs(email)) && data["users"][i] == r.value
    {
      var users := data["users"];
      var i := FindIndex(users, EmailIs(email));
      FindIndexIsFirst(users, EmailIs(email));
      if i == -1 then Err(UserNotFound)
      else if !Truthy(Field(users[i], "emailVerified")) then Err(EmailNotConfirmed)
      else Ok(users[i])
    }

    /** `register(userProfile)`. */
    method Register(profile: Doc, now: nat) returns (res: Result<Doc>)
      requires Valid()
      modifies this
      ensures Valid()
      ensures EmailTaken(old(data)["users"], profile) ==> res == Err(EmailInUse) && data == old(data)
      ensures !EmailTaken(old(data)["users"], profile) ==>
        var u := NewUser(profile, now);
        var startups := JoinStartup(old(data)["startups"], u, now);
        && (startups.None? ==> res == Err(TypeError) && data == old(data))
        && (startups.Some? ==>
              res == Ok(u) && data == old(data)["users" := old(data)["users"] + [u]]["startups" := startups.value])
      ensures res.Ok? ==> res.value == NewUser(profile, now) && data["users"] == old(data)["users"] + [res.value]
      ensures res.Ok? && old(UniqueEmails(data["users"])) ==> UniqueEmails(data["users"])
      ensures res.Ok? && Field(profile, "email").Some? && profile["email"].Str? ==>
        FindIndex(data["users"], EmailIs(profile["email"].s)) == |data["users"]| - 1
    {
      var users := data["users"];
      EmailTakenFound(users, profile);
      if FindIndex(users, SameEmailAs(profile)) != -1 {
        return Err(EmailInUse);
      }
      var newUser := NewUser(profile, now);
      var startups := JoinStartup(data["startups"], newUser, now);
      if startups.None? {
        // `members.push` on a truthy value that is not an array throws.
        return Err(TypeError);
      }
      data := data["users" := users + [newUser]]["startups" := startups.value];
      res := Ok(newUser);
      if UniqueEmails(users) {
        AppendKeepsUniqueEmailsIf(users, newUser, profile);
      }
      if Field(profile, "email").Some? && profile["email"].Str? {
        NewUserFoundByEmail(users, profile, now);
      }
    }

    /** A user `register` has just appended under a fresh string email can log
        in at once, whatever password is given: registration verifies the email. */
    lemma RegisteredUserLogsIn(profile: Doc, now: nat, password: string)
      requires Valid()
      requires Field(profile, "email").Some? && profile["email"].Str?
      requires |data["users"]| > 0 && data["users"][|data["users"]| - 1] == NewUser(profile, now)
      requires FindIndex(data["users"], EmailIs(profile["email"].s)) == |data["users"]| - 1
      ensures Login(profile["email"].s, password) == Ok(NewUser(profile, now))
    {
    }

    /** `verifyEmail(userId)`: the first user whose `uid` is `userId` gets
        `emailVerified = true`. */
    method VerifyEmail(userId: string) returns (res: Result<Doc>)
      requires Valid()
      modifies this
      ensures Valid()
      ensures var users := old(data)["users"];
        var i := FindIndex(users, UidIs(userId));
        && (i == -1 ==>
        res == Err(UserNotFound) && data == old(data))
        && (i >= 0 ==>
              res == Ok(users[i]["emailVerified" := Bool(true)])
              && data == old(data)["users" := users[i := res.value]])
    {
      var users := data["users"];
      var i := FindIndex(users, UidIs(userId));
      if i == -1 {
        return Err(UserNotFound);
      }
      var user := users[i]["emailVerified" := Bool(true)];
      data := data["users" := users[i := user]];
      res := Ok(user);
    }

    // -------------------------------------------------------------------
    // Relationships.

    /** `joinGroup(userId, sector)`: finds or creates the sector's group and
        adds the user to its members when absent. */
    method JoinGroup(userId: string, sector: string, now: nat) returns (res: Result<Doc>)
      requires Valid()
      modifies this
      ensures Valid()
      ensures var groups := old(data)["groups"];
        var i := SectorGroupIndex(groups, sector);
        && (i == -1 ==>
              var g := NewSectorGroup(sector, now)["members" := Arr([Str(userId)])];
              res == Ok(g) && data == old(data)["groups" := groups + [g]])
        && (Joined(groups, userId, sector) ==> res == Ok(groups[i]) && data == old(data))
        && (i >= 0 && !Joined(groups, userId, sector) ==>
              var members := Field(groups[i], "members");
              if members.Some? && members.value.Arr?
              then
                var g := groups[i]["members" := Arr(members.value.items + [Str(userId)])];
                res == Ok(g) && data == old(data)["groups" := groups[i := g]]
              else res == Err(TypeError) && data == old(data))
      ensures data == old(data)["groups" := data["groups"]]
      ensures res.Ok? ==>
        && Joined(data["groups"], userId, sector)
        && res.value == data["groups"][SectorGroupIndex(data["groups"], sector)]
    {
      var groups := data["groups"];
      var i := SectorGroupIndex(groups, sector);
      if i == -1 {
        var g := NewSectorGroup(sector, now)["members" := Arr([Str(userId)])];
        NewGroupIsFound(groups, userId, sector, now);
        data := data["groups" := groups + [g]];
        return Ok(g);
      }
      var members := Field(groups[i], "members");
      if !CanTestMembers(members) {
        // `members.includes` is not a function here.
        return Err(TypeError);
      }
      if Includes(members.value, userId) {
        return Ok(groups[i]);
      }
      if !members.value.Arr? {
        // `String.prototype` has no `push`.
        return Err(TypeError);
      }
      var g := groups[i]["members" := Arr(members.value.items + [Str(userId)])];
      FindIndexReplace(groups, i, g, SectorGroupTest(sector));
      data := data["groups" := groups[i := g]];
      res := Ok(g);
    }

    /** `saveOffer(userId, offerId)`: stores the pair unless it is already saved. */
    method SaveOffer(userId: string, offerId: string, now: nat)
      requires Valid()
      modifies this
      ensures Valid()
      ensures old(IsSaved(data["savedOffers"], userId, offerId)) ==> data == old(data)
      ensures !old(IsSaved(data["savedOffers"], userId, offerId)) ==>
        data == old(data)["savedOffers" := old(data)["savedOffers"] + [SavedRecord(userId, offerId, now)]]
      ensures IsSaved(data["savedOffers"], userId, offerId)
    {
      var saved := data["savedOffers"];
      if FindIndex(saved, (s: Doc) => IsSavedPair(s, userId, offerId)) == -1 {
        var r := SavedRecord(userId, offerId, now);
        data := data["savedOffers" := saved + [r]];
        assert data["savedOffers"][|saved|] == r;
      }
    }

    /** `unsaveOffer(userId, offerId)`: drops every copy of the pair. */
    method UnsaveOffer(userId: string, offerId: string)
      requires Valid()
      modifies this
      ensures Valid()
      ensures data == old(data)["savedOffers" := Filter(old(data)["savedOffers"], NotSavedPair(userId, offerId))]
      ensures !IsSaved(data["savedOffers"], userId, offerId)
      ensures !old(IsSaved(data["savedOffers"], userId, offerId)) ==> data == old(data)
    {
      var saved := data["savedOffers"];
      var kept := Filter(saved, NotSavedPair(userId, offerId));
      if !IsSaved(saved, userId, offerId) {
        FilterKeepsAll(saved, NotSavedPair(userId, offerId));
      }
      data := data["savedOffers" := kept];
      forall i | 0 <= i < |kept| ensures !IsSavedPair(kept[i], userId, offerId) {
        assert kept[i] in kept;
      }
    }

    /** `getSavedOffers(userId)`: the offers, in stored order, whose `id` one of
        the user's saved pairs names. */
    function GetSavedOffers(userId: string): (r: seq<Doc>)
      reads this
      requires Valid()
      ensures Subsequence(r, data["offers"])
      ensures forall o :: o in r <==> o in data["offers"] && SavedBy(data["savedOffers"], userId, o)
    {
      var offerIds := OfferIdsSavedBy(data["savedOffers"], userId);
      Filter(data["offers"], IdAmong(offerIds))
    }

    // -------------------------------------------------------------------
    // Startup connection requests.

    /** `sendConnectionRequest(from, to, message)`: refused when any request,
        whatever its status, already joins the two startups. */
    method SendConnectionRequest(fromStartupId: string, toStartupId: string, message: Option<Value>, now: nat)
      returns (res: Result<Doc>)
      requires Valid()
      modifies this
      ensures Valid()
      ensures var conns := old(data)["startupConnections"];
        && (RequestBetween(conns, fromStartupId, toStartupId) ==> res == Err(RequestExists) && data == old(data))
        && (!RequestBetween(conns, fromStartupId, toStartupId) ==>
              res == Ok(ConnectionRequest(fromStartupId, toStartupId, message, now))
              && data == old(data)["startupConnections" := conns + [res.value]])
      ensures old(OneRequestPerPair(data["startupConnections"])) ==> OneRequestPerPair(data["startupConnections"])
      ensures RequestBetween(data["startupConnections"], toStartupId, fromStartupId)
    {
      var conns := data["startupConnections"];
      if FindIndex(conns, LinksTest(fromStartupId, toStartupId)) != -1 {
        return Err(RequestExists);
      }
      var request := ConnectionRequest(fromStartupId, toStartupId, message, now);
      if OneRequestPerPair(conns) {
        AppendKeepsOneRequestPerPair(conns, request, fromStartupId, toStartupId);
      }
      data := data["startupConnections" := conns + [request]];
      assert data["startupConnections"][|conns|] == request;
      res := Ok(request);
    }

    /** The shared body of accept and reject: the first request with that `id`
        gets the new status, whatever its current one. */
    method Respond(requestId: string, status: string, now: nat) returns (res: Result<Doc>)
      requires Valid()
      modifies this
      ensures Valid()
      ensures var conns := old(data)["startupConnections"];
        var i := FindIndex(conns, IdIs(requestId));
        && (i == -1 ==>
        res == Err(RequestNotFound) && data == old(data))
        && (i >= 0 ==>
              res == Ok(Responded(conns[i], status, now))
              && data == old(data)["startupConnections" := conns[i := res.value]])
      ensures old(OneRequestPerPair(data["startupConnections"])) ==> OneRequestPerPair(data["startupConnections"])
    {
      var conns := data["startupConnections"];
      var i := FindIndex(conns, IdIs(requestId));
      if i == -1 {
        return Err(RequestNotFound);
      }
      var request := Responded(conns[i], status, now);
      if OneRequestPerPair(conns) {
        ReplaceKeepsOneRequestPerPair(conns, i, request);
      }
      data := data["startupConnections" := conns[i := request]];
      res := Ok(request);
    }

    /** `acceptConnectionRequest(requestId)`: afterwards the request is among
        the connections of both of its startups and no longer pending. */
    method AcceptConnectionRequest(requestId: string, now: nat) returns (res: Result<Doc>)
      requires Valid()
      modifies this
      ensures Valid()
      ensures var conns := old(data)["startupConnections"];
        var i := FindIndex(conns, IdIs(requestId));
        && (i == -1 ==>
        res == Err(RequestNotFound) && data == old(data))
        && (i >= 0 ==>
              res == Ok(Responded(conns[i], "accepted", now))
              && data == old(data)["startupConnections" := conns[i := res.value]])
      ensures old(OneRequestPerPair(data["startupConnections"])) ==> OneRequestPerPair(data["startupConnections"])
      ensures res.Ok? ==> forall a ::
        (FieldIs(res.value, "fromStartupId", a) || FieldIs(res.value, "toStartupId", a)) ==>
          res.value in GetStartupConnections(a)
      ensures res.Ok? ==> forall a :: res.value !in GetPendingConnectionRequests(a)
    {
      res := Respond(requestId, "accepted", now);
      if res.Ok? {
        var i := FindIndex(old(data)["startupConnections"], IdIs(requestId));
        assert data["startupConnections"][i] == res.value;
      }
    }

    /** `rejectConnectionRequest(requestId)`: afterwards the request is neither
        a connection nor pending. */
    method RejectConnectionRequest(requestId: string, now: nat) returns (res: Result<Doc>)
      requires Valid()
      modifies this
      ensures Valid()
      ensures var conns := old(data)["startupConnections"];
        var i := FindIndex(conns, IdIs(requestId));
        && (i == -1 ==>
        res == Err(RequestNotFound) && data == old(data))
        && (i >= 0 ==>
              res == Ok(Responded(conns[i], "rejected", now))
              && data == old(data)["startupConnections" := conns[i := res.value]])
      ensures old(OneRequestPerPair(data["startupConnections"])) ==> OneRequestPerPair(data["startupConnections"])
      ensures res.Ok? ==> forall a :: res.value !in GetStartupConnections(a) && res.value !in GetPendingConnectionRequests(a)
    {
      res := Respond(requestId, "rejected", now);
    }

    /** `getStartupConnections(startupId)`: accepted requests with the startup
        at either end. */
    function GetStartupConnections(startupId: string): (r: seq<Doc>)
      reads this
      requires Valid()
      ensures Subsequence(r, data["startupConnections"])
      ensures forall c :: c in r <==>
        && c in data["startupConnections"]
        && (FieldIs(c, "fromStartupId", startupId) || FieldIs(c, "toStartupId", startupId))
        && FieldIs(c, "status", "accepted")
    {
      Filter(data["startupConnections"], ConnectedTest(startupId))
    }

    /** `getPendingConnectionRequests(startupId)`: pending requests addressed
        to the startup. */
    function GetPendingConnectionRequests(startupId: string): (r: seq<Doc>)
      reads this
      requires Valid()
      ensures Subsequence(r, data["startupConnections"])
      ensures forall c :: c in r <==>
        && c in data["startupConnections"]
        && FieldIs(c, "toStartupId", startupId) && FieldIs(c, "status", "pending")
    {
      Filter(data["startupConnections"], IncomingPendingTest(startupId))
    }

    /** `getSentConnectionRequests(startupId)`: every request the startup sent,
        whatever its status. */
    function GetSentConnectionRequests(startupId: string): (r: seq<Doc>)
      reads this
      requires Valid()
      ensures Subsequence(r, data["startupConnections"])
      ensures forall c :: c in r <==> c in data["startupConnections"] && FieldIs(c, "fromStartupId", startupId)
    {
      Filter(data["startupConnections"], OutgoingTest(startupId))
    }

    // -------------------------------------------------------------------
    // The registration sequence of the authentication context.

    /** `register(profile)` followed, for a startuper with a startup, by
        `joinGroup(u.uid, profile.sector)`. A failing join rejects the whole
        call although the new user is already stored. */
    method RegisterAndJoinSectorGroup(profile: Doc, now: nat) returns (res: Result<Doc>)
      requires Valid()
      requires "uid" !in profile
      requires JoinsStartup(profile) ==> Field(profile, "sector").Some? && profile["sector"].Str?
      modifies this
      ensures Valid()
      ensures old(EmailTaken(data["users"], profile)) ==> res == Err(EmailInUse) && data == old(data)
      ensures !old(EmailTaken(data["users"], profile)) ==>
        var startups := JoinStartup(old(data)["startups"], NewUser(profile, now), now);
        && (startups.None? ==> res == Err(TypeError) && data == old(data))
        && (startups.Some? && !JoinsStartup(profile) ==>
              && res == Ok(NewUser(profile, now))
              && data == old(data)["users" := old(data)["users"] + [NewUser(profile, now)]]["startups" := startups.value])
      ensures !old(EmailTaken(data["users"], profile)) && JoinsStartup(profile) ==>
        var u := NewUser(profile, now);
        var startups := JoinStartup(old(data)["startups"], u, now);
        startups.Some? ==>
          var registered := old(data)["users" := old(data)["users"] + [u]]["startups" := startups.value];
          var groups, uid, sector := old(data)["groups"], GeneratedUid(now), profile["sector"].s;
          var i := SectorGroupIndex(groups, sector);
          && (i == -1 ==>
                && res == Ok(u)
                && data == registered["groups" := groups + [NewSectorGroup(sector, now)["members" := Arr([Str(uid)])]]])
          && (Joined(groups, uid, sector) ==> res == Ok(u) && data == registered)
          && (i >= 0 && !Joined(groups, uid, sector) ==>
                var members := Field(groups[i], "members");
                if members.Some? && members.value.Arr?
                then
                  && res == Ok(u)
                  && data == registered["groups" := groups[i := groups[i]["members" := Arr(members.value.items + [Str(uid)])]]]
                else res == Err(TypeError) && data == registered)
      ensures res.Ok? ==> res.value == NewUser(profile, now) && res.value in data["users"]
      ensures res.Ok? && JoinsStartup(profile) ==>
        Joined(data["groups"], GeneratedUid(now), profile["sector"].s)
    {
      res := Register(profile, now);
      if res.Err? || !JoinsStartup(profile) {
        return;
      }
      var users := data["users"];
      assert res.value == users[|users| - 1];
      var uid, sector := GeneratedUid(now), profile["sector"].s;
      assert data["groups"] == old(data)["groups"];
      var g := JoinGroup(uid, sector, now);
      if g.Err? {
        return Err(g.error);
      }
      assert data["users"] == users;
    }
  }

  /** Ids `addDoc` generates for one collection at different clock readings
      differ. */
  lemma GeneratedIdInjective(name: string, m: nat, n: nat)
    requires name != [] && FakeDB.GeneratedId(name, m) == FakeDB.GeneratedId(name, n)
    ensures m == n
  {
    assert FakeDB.GeneratedId(name, m).s[1..] == DecimalString(m);
    assert FakeDB.GeneratedId(name, n).s[1..] == DecimalString(n);
    DecimalStringInjective(m, n);
  }

  /** `findIndex` on `===` emails finds a user exactly when the email is taken. */
  lemma EmailTakenFound(users: seq<Doc>, profile: Doc)
    ensures FindIndex(users, SameEmailAs(profile)) != -1 <==> EmailTaken(users, profile)
  {
    if EmailTaken(users, profile) {
      var i :| 0 <= i < |users| && SameValue(Field(users[i], "email"), Field(profile, "email"));
      assert SameEmailAs(profile)(users[i]);
    }
  }

  /** Registration keeps emails unique whenever it appends a user. */
  lemma AppendKeepsUniqueEmailsIf(users: seq<Doc>, u: Doc, profile: Doc)
    requires UniqueEmails(users)
    requires FindIndex(users, SameEmailAs(profile)) == -1
    requires Field(u, "email") == Field(profile, "email")
    ensures UniqueEmails(users + [u])
  {
    forall i | 0 <= i < |users| ensures !SameValue(Field(users[i], "email"), Field(u, "email")) {
      assert !SameEmailAs(profile)(users[i]);
    }
    AppendKeepsUniqueEmails(users, u);
  }

  /** A user registered with a fresh string email is the first user with it. */
  lemma NewUserFoundByEmail(users: seq<Doc>, profile: Doc, now: nat)
    requires FindIndex(users, SameEmailAs(profile)) == -1
    requires Field(profile, "email").Some? && profile["email"].Str?
    ensures FindIndex(users + [NewUser(profile, now)], EmailIs(profile["email"].s)) == |users|
  {
    var e := profile["email"].s;
    forall j | 0 <= j < |users| ensures !EmailIs(e)(users[j]) {
      assert !SameEmailAs(profile)(users[j]);
    }
    FindIndexAppend(users, NewUser(profile, now), EmailIs(e));
  }
}
