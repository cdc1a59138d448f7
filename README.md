# Startup Connect data layer, in Dafny

This project models the data layer of Startup Connect, a web application in
which startups, partners and users share offers and sector groups, and in which
startups send each other connection requests. The application has no backend.
Class `FakeDB` (`src/services/fakeDB.js`) plays the backend: a set of named
collections (`users`, `startups`, `offers`, `groups`, `savedOffers`,
`startupConnections`, ...) kept as one JSON blob.

Every operation reads the whole blob, changes a copy and writes all of it back.
The model treats each call as one atomic transition of a single field:

- `FakeDatabase.FakeDB` is a class with `var data: map<string, seq<Doc>>`.
- A `Doc` is a `map<string, Value>`, and `Value` is a JSON value.
- The store's operations that change the blob are methods with `modifies this`.
  Each states the whole new state for every outcome.
- The read-only operations are functions with `reads this`.
- A promise that resolves or rejects is a `Result` (`Ok(value)` or `Err(error)`).
- A JavaScript exception thrown before the blob is written back is
  `Err(TypeError)` with the state unchanged.

Files:

- `js_values.dfy` (`JsValues`): JSON values and the JavaScript notions the
  code depends on:
  - `undefined` fields;
  - truthiness;
  - `===`;
  - `String.prototype.includes`;
  - number-to-string conversion.
- `js_arrays.dfy` (`JsArrays`): `findIndex`, `find` and `filter` over
  sequences, with their ordering and counting lemmas.
- `fake_db_records.dfy` (`DbRecords`): the records the store builds, the
  lookup tests, and the two relationship invariants:
  - emails are unique;
  - there is at most one connection request per unordered pair of startups.
- `fake_db.dfy` (`FakeDatabase`): class `FakeDB`, plus the registration
  sequence of the authentication context (`register`, then `joinGroup`).
- `rccm.dfy` (`Rccm`): `validateRCCM`. Its regular expression is written as a
  matcher over counted character classes, and is proved equal to a
  character-by-character description.
- `date_utils.dfy` (`DateUtils`): `formatDistanceToNow`, with the clock and the
  timestamp as integer parameters. It is proved equal to a direct
  unit-by-threshold description.

Where the written description of the system and the code disagree, the model
follows the code:

- **Resolved requests can change again.** The description says a resolved
  connection request is terminal and that only its recipient resolves it.
  The code does neither. `acceptConnectionRequest` and
  `rejectConnectionRequest` overwrite `status` whatever it is, and never look
  at who calls them. So `Respond` overwrites the status, and the model claims
  no terminal state.
- **Unconfirmed logins are reachable only from an edited blob.** The
  description calls the "email not confirmed" login failure unreachable. The
  application never writes a user without the flag: the seed users carry it,
  `register` and `verifyEmail` set it, `addDoc('users', ...)` has no caller,
  and `updateDoc('users', ...)` looks users up by an `id` field they do not
  have. The branch stays in `login` (`src/services/fakeDB.js:228`), and a
  stored blob edited by hand can reach it, so `FakeDB.Login` models the
  outcome rather than ruling it out.

## Model

| member | source | states |
|---|---|---|
| FakeDatabase.FakeDB.constructor | src/services/fakeDB.js:3-9 | the store starts from the blob in storage; every seeded collection is present |
| FakeDatabase.FakeDB.GetCollection | src/services/fakeDB.js:303-312 | a missing collection reads as empty; with no filter the result is the whole collection; with a filter it is the records passing the filter, kept in stored order |
| FakeDatabase.FakeDB.GetDoc | src/services/fakeDB.js:314-318 | nothing when the collection is missing or no record has the `id`; otherwise the first record with that `id` |
| FakeDatabase.FakeDB.AddDoc | src/services/fakeDB.js:320-329 | appends exactly the input with `id` set to the first letter of the name followed by the clock (null for an empty name); creates a missing collection; leaves every other collection and every earlier record as it was; when no earlier record has that id, `GetDoc` on it yields the new record; when an earlier record already has it, `GetDoc` still yields that earlier record |
| FakeDatabase.FakeDB.GeneratedId | src/services/fakeDB.js:322 | the id is null exactly for an empty collection name; otherwise it is the name's first letter followed by at least one decimal digit |
| FakeDatabase.GeneratedIdInjective | src/services/fakeDB.js:322 | for one collection, ids generated at different clock readings differ |
| FakeDatabase.FakeDB.UpdateDoc | src/services/fakeDB.js:331-342 | a missing collection throws and nothing changes; an absent id rejects with "Document non trouvé" and nothing changes; otherwise only the first record with the id is replaced, by that record overridden by the patch, and every patch field wins |
| FakeDatabase.FakeDB.DeleteDoc | src/services/fakeDB.js:344-355 | a missing collection throws; an absent id rejects and nothing changes; otherwise exactly the first record with the id is spliced out, the rest keep their order, the length and the count of records with that id each drop by one, and a unique id is then gone, so a second delete rejects |
| FakeDatabase.FakeDB.Login | src/services/fakeDB.js:220-235 | ignores the password; rejects with "Utilisateur non trouvé" exactly when no user has the email; rejects with the confirmation message exactly when the first such user is not verified; otherwise returns that first user |
| FakeDatabase.FakeDB.Register | src/services/fakeDB.js:237-279 | a taken email (by `===`) rejects and nothing changes; otherwise appends the new user (verified, creation time, profile fields) and, for a startuper whose `startupId` names a startup, pushes exactly one membership record carrying the new uid onto that startup only; a `members` field that is truthy but not an array throws and nothing changes; emails stay unique; the new user is the first with its email |
| FakeDatabase.FakeDB.RegisteredUserLogsIn | src/services/fakeDB.js:220-250 | after registration under a fresh string email, `login` with that email and any password returns the new user |
| FakeDatabase.FakeDB.VerifyEmail | src/services/fakeDB.js:281-292 | the first user whose `uid` matches gets `emailVerified` true and nothing else changes; rejects with "Utilisateur non trouvé" and changes nothing when none matches |
| FakeDatabase.FakeDB.JoinGroup | src/services/fakeDB.js:358-380 | a group is created only when no sector group exists for the sector, and it holds the user; an existing group gains the user only when absent; other groups and collections are unchanged; on success the sector's group lists the user; a call when the user is already listed changes nothing, so the operation is idempotent; a `members` field that cannot answer `includes` or `push` throws |
| FakeDatabase.FakeDB.SaveOffer | src/services/fakeDB.js:382-391 | appends the pair record only when the pair is absent, so a second call changes nothing; afterwards the pair is saved |
| FakeDatabase.FakeDB.UnsaveOffer | src/services/fakeDB.js:393-398 | removes every record of the pair and keeps the others in order; afterwards the pair is absent; a no-op when it was absent |
| FakeDatabase.FakeDB.GetSavedOffers | src/services/fakeDB.js:400-406 | exactly the offers, in offers order, whose `id` one of the user's saved pairs names |
| FakeDatabase.FakeDB.SendConnectionRequest | src/services/fakeDB.js:409-434 | rejects when any request, in either direction and with any status, joins the two startups; otherwise appends one pending request; keeps at most one request per unordered pair; afterwards a request joins the pair |
| FakeDatabase.FakeDB.Respond | src/services/fakeDB.js:436-462 | the first request with the id gets the new status and response time, whatever its status was; rejects with "Demande non trouvée" when none has the id; keeps at most one request per pair |
| FakeDatabase.FakeDB.AcceptConnectionRequest | src/services/fakeDB.js:436-448 | as `Respond` with "accepted"; the accepted request is then among the connections of both of its startups and pending for none |
| FakeDatabase.FakeDB.RejectConnectionRequest | src/services/fakeDB.js:450-462 | as `Respond` with "rejected"; the request is then neither a connection nor pending for any startup |
| FakeDatabase.FakeDB.GetStartupConnections | src/services/fakeDB.js:464-472 | exactly the accepted requests with the startup at either end, in stored order |
| FakeDatabase.FakeDB.GetPendingConnectionRequests | src/services/fakeDB.js:474-481 | exactly the pending requests addressed to the startup, in stored order |
| FakeDatabase.FakeDB.GetSentConnectionRequests | src/services/fakeDB.js:483-490 | exactly the requests the startup sent, whatever their status, in stored order |
| FakeDatabase.FakeDB.RegisterAndJoinSectorGroup | src/contexts/AuthContext.jsx:34-48 | a taken email rejects and nothing changes; a registration that throws rejects and nothing changes; a profile that is not a startuper with a `startupId` gets exactly the registration's new state; otherwise the registration's new state is followed by exactly the join's: a new sector group holding the uid, the uid pushed onto the found group, or no change when already listed; a join that throws rejects while the new user and membership stay stored; on success the user is stored and listed in the sector's group |
| FakeDatabase.EmailTakenFound | src/services/fakeDB.js:241 | the duplicate-email lookup finds a user exactly when some user's email is `===` the profile's |
| FakeDatabase.AppendKeepsUniqueEmailsIf | src/services/fakeDB.js:240-253 | appending a user whose email the lookup did not find keeps emails unique |
| FakeDatabase.NewUserFoundByEmail | src/services/fakeDB.js:222 | after registration the new user is the first user with its email |
| DbRecords.GeneratedUid | src/services/fakeDB.js:246 | the uid is "user" followed by at least one decimal digit |
| DbRecords.GeneratedUidInjective | src/services/fakeDB.js:246 | users registered at different clock readings get different uids |
| DbRecords.NewUser | src/services/fakeDB.js:245-250 | the new user is verified, carries the creation time and a uid, has the profile's fields plus those three, and keeps each profile field except the two that are overwritten |
| DbRecords.StartupIndexFor | src/services/fakeDB.js:257-258 | a startup is chosen only for a startuper with a truthy `startupId`, and it is the first one whose `id` is `===` that value; when none is chosen for such a user, no startup matches |
| DbRecords.JoinStartup | src/services/fakeDB.js:256-274 | the startups are unchanged when the new user joins no listed startup; otherwise only the chosen startup changes, its members list grows by exactly the one membership record and its other fields stay; the push throws exactly when the chosen startup's `members` is truthy and not an array (`MembersPushable` fails), and after a push the startup can take another |
| DbRecords.OrElseTruthy | src/services/fakeDB.js:269-270 | `x \|\| fallback` is truthy exactly when the field or the fallback is, so a stored membership's role is never falsy |
| DbRecords.Membership | src/services/fakeDB.js:266-272 | the membership record carries the uid, the join time, the job title or "Membre", the founder flag or false, and a name exactly when the user has a display name |
| DbRecords.WithMember | src/services/fakeDB.js:260-273 | the members list becomes the old list, or an empty one when the field was falsy, with the membership appended; every other field is kept |
| DbRecords.SavedRecord | src/services/fakeDB.js:386 | the stored record is the saved pair |
| DbRecords.OfferIdsSavedBy | src/services/fakeDB.js:402-403 | the ids listed are exactly the `offerId` fields of the user's saved pairs |
| DbRecords.ConnectionRequest | src/services/fakeDB.js:422-429 | the new request joins the two startups and is pending |
| DbRecords.Responded | src/services/fakeDB.js:444-445 | the response sets the status and the response time, keeps the endpoints and every other field |
| DbRecords.AppendKeepsOneRequestPerPair | src/services/fakeDB.js:411-431 | appending a request for a pair that no request joins keeps at most one request per pair |
| DbRecords.ReplaceKeepsOneRequestPerPair | src/services/fakeDB.js:438-446 | rewriting a request without touching its endpoints keeps at most one request per pair |
| DbRecords.OneRequestPerPairUnique | src/services/fakeDB.js:413-416 | under the invariant, two requests joining the same pair are the same request |
| DbRecords.AppendKeepsUniqueEmails | src/services/fakeDB.js:240-253 | appending a user whose email no stored user has keeps emails unique |
| DbRecords.FindIndexReplace | src/services/fakeDB.js:374-375 | a group that still matches after the push is still the one the sector lookup finds |
| DbRecords.NewSectorGroup | src/services/fakeDB.js:363-370 | the created group passes the sector lookup for its sector, has an empty members array and the creation time, and has exactly the six fields |
| DbRecords.IncludesMeaning | src/services/fakeDB.js:374 | on a members array `includes` finds the id exactly when it is an element; on a members string, exactly when the id occurs at some offset |
| DbRecords.IncludesAfterPush | src/services/fakeDB.js:374-375 | after the push `includes` finds the pushed id, and every id found before is still found |
| DbRecords.NewGroupIsFound | src/services/fakeDB.js:360-372 | a created group is the one the sector lookup then finds, and it lists the user |
| JsArrays.FindIndex | src/services/fakeDB.js:333 | the result is the first index whose record passes the test, or -1 exactly when none does |
| JsArrays.FindIndexIsFirst | src/services/fakeDB.js:222 | an index is the first one passing the test exactly when it is the one `findIndex` returns |
| JsArrays.Find | src/services/fakeDB.js:222 | `undefined` exactly when no element passes; otherwise the first element that passes |
| JsArrays.Filter | src/services/fakeDB.js:307-308 | the result holds exactly the passing elements of the input, in input order |
| JsArrays.FilterCounts | src/services/fakeDB.js:307-308 | each passing element is kept as often as the input holds it, and every failing one is dropped |
| JsArrays.FilterKeepsAll | src/services/fakeDB.js:395 | filtering when every element passes changes nothing |
| JsArrays.FilterIdempotent | src/services/fakeDB.js:395 | filtering twice with the same test is filtering once, so a repeated unsave is a no-op |
| JsArrays.FilterConcat | src/services/fakeDB.js:307-308 | filtering distributes over concatenation |
| JsArrays.FindIndexAppend | src/services/fakeDB.js:323-324 | after pushing a matching element where nothing matched before, the lookup lands on it |
| JsArrays.FindIndexAppendKeeps | src/services/fakeDB.js:323-324 | pushing an element does not move an existing first match |
| JsArrays.FilterEmptyIffNone | src/services/fakeDB.js:346 | `filter` keeps nothing exactly when `findIndex` gives -1 |
| JsArrays.RemoveAtCount | src/services/fakeDB.js:349 | splicing out a matching element lowers the number of matches by one, and removes the only match when there was one |
| JsValues.SameValueLaws | src/services/fakeDB.js:241 | `===` is symmetric and transitive, and holds between a value and itself exactly when it is not an array or object |
| JsValues.FalsyValues | src/services/fakeDB.js:228 | the falsy values are exactly `undefined`, `null`, `false`, `0` and the empty string |
| JsValues.IsSubstringAt | src/services/fakeDB.js:374 | `String.prototype.includes` holds exactly when the needle occurs at some offset of the string |
| JsValues.DecimalString | src/utils/dateUtils.js:12 | a number prints as at least one decimal digit, with no leading zero |
| JsValues.DecimalRoundTrip | src/utils/dateUtils.js:12 | reading back the printed digits gives the number |
| JsValues.DecimalStringInjective | src/services/fakeDB.js:322 | ids built from different clock readings differ |
| Rccm.ValidateRCCM | src/services/fakeDB.js:295-300 | a code is valid exactly when it has the shape "RB/", three capitals, "/", four digits, "/", one capital, "/", then three or four digits |
| Rccm.RccmShape | src/services/fakeDB.js:295-300 | the regular expression accepts exactly "RB/", three capitals, "/", four digits, "/", one capital, "/", then three or four digits, so every accepted code has 17 or 18 characters |
| Rccm.FixedAtom | src/services/fakeDB.js:298 | an atom with a fixed count consumes exactly that many characters of its class |
| Rccm.LastAtom | src/services/fakeDB.js:298 | the final `\d{3,4}$` accepts exactly three or four digits |
| Rccm.FixedPrefix | src/services/fakeDB.js:298 | a run of fixed-count atoms matches character by character |
| Rccm.ClassesMatchSplit | src/services/fakeDB.js:298 | matching `n` copies of a class and then more classes is matching the first `n` characters and then the rest |
| Rccm.FixedClasses | src/services/fakeDB.js:298 | the fixed atoms match exactly "RB/", three capitals, "/", four digits, "/", one capital, "/" |
| Rccm.AcceptsExample | src/services/fakeDB.js:297 | "RB/COT/2024/A/001" is accepted |
| Rccm.RejectsLowerCaseCity | src/services/fakeDB.js:298 | "RB/cot/2024/A/001" is rejected |
| Rccm.RejectsShortCounts | src/services/fakeDB.js:298 | "RB/COT/24/A/1" is rejected |
| DateUtils.FormatDistanceToNow | src/utils/dateUtils.js:3-37 | with the suffix the text starts with "il y a "; without it the text starts with "quelques" or with the count, so the text starts with "il y a " exactly when the suffix is asked for |
| DateUtils.FloorDiv | src/utils/dateUtils.js:6 | `Math.floor(a / b)` for a positive divisor: the multiples of the result bracket the dividend |
| DateUtils.UnitFor | src/utils/dateUtils.js:10-36 | the unit chosen is the largest whose length does not exceed the elapsed seconds, up to a year |
| DateUtils.Quotients | src/utils/dateUtils.js:10-34 | the successive floor divisions equal single divisions by the unit lengths, and each early-return test equals a threshold on the elapsed seconds |
| DateUtils.FormatMatchesReference | src/utils/dateUtils.js:3-37 | for every clock reading and timestamp the chain of divisions gives the reference text: "quelques secondes" under a minute, otherwise the whole count of the unit the thresholds pick |
| DateUtils.UnderAMinute | src/utils/dateUtils.js:6-8 | under a minute, future timestamps included, the text is "quelques secondes", with "il y a " in front when the suffix is asked for |
| DateUtils.SuffixIsPrefixed | src/utils/dateUtils.js:8-36 | with the suffix the text is exactly "il y a " followed by the text without it |
| DateUtils.CountShown | src/utils/dateUtils.js:10-36 | from a minute on, the count shown is at least one and below the next unit, years excepted, and is written in the singular exactly when it is one |
| DateUtils.ExampleTwoHoursAgo | src/utils/dateUtils.js:16-20 | two hours reads "il y a 2 heures" |

## Left out

- Storage and events: `localStorage`, JSON parsing and serialisation, and the
  `db-update` event (`_getData`/`_saveData`) are browser I/O. The state is the
  field `data`, and each successful call writes it once.
- The `setTimeout` delay in `login` and the promise shells of the other
  methods are not modelled. Outcomes are `Result` values.
- The seed fixture in `init` is not modelled. The constructor takes whatever
  blob storage holds, as long as the seeded collections are present.
- The blob's shape: every collection is assumed to be an array of objects. A
  blob edited by hand so that a collection holds something else is not
  modelled.
- The clock: `Date.now()` is a `now` parameter, read once per call. In
  `register`, the code reads the clock three times, and the composed
  registration reads it again for the group. Ids are not unique and nothing
  here claims they are.
- Numbers are integers. `NaN`, fractions and floating-point timestamps are not
  modelled, except the `NaN` id of `addDoc` with an empty name, which is
  stored as null.
- `collectionName[0]` is taken as one character. UTF-16 code units are not
  modelled.
- `formatDistanceToNow` with a non-number date, which goes through
  `new Date(...)`, is not modelled. `formatDate` (time zones and local-time
  getters) is not modelled either.
- The React pages, their search and filter callbacks, the layout and UI
  components, and the rest of the authentication context (session state and
  its own storage slot) are view code. They are not part of this model.
- `===` on arrays and objects is modelled as never holding, because every
  call parses a fresh copy of the blob.
- FakeDatabase.FakeDB.RegisterAndJoinSectorGroup: requires that the profile
  carries no `uid` and, for a startuper with a startup, a string `sector`.
  These are the inputs the registration pages send. A profile `uid`
  overriding the generated one, or a non-string sector, is not modelled.
- FakeDatabase.FakeDB.Login: the email is a string. A non-string email
  argument is not modelled.
- FakeDatabase.FakeDB.JoinGroup: the user id and the sector are strings.
- FakeDatabase.FakeDB.GetDoc, UpdateDoc, DeleteDoc, VerifyEmail, SaveOffer,
  UnsaveOffer, GetSavedOffers, SendConnectionRequest,
  GetStartupConnections, GetPendingConnectionRequests and
  GetSentConnectionRequests: every id argument is a string. The code can
  receive `undefined`: a partner or admin who opens the connection requests
  page calls the three connection queries with a missing `startupId`, and
  the code then matches the requests that lack the field. Non-string id
  arguments are not modelled.
