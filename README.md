# studentrant rants: request lifecycle and validators in Dafny

This project models the rant side of the studentrant backend: the checks a
request goes through before a rant is created, read, edited, voted on or
deleted, and the record those operations keep.

- `RantMiddleware` holds the route validators (`VerifyRant`, `VerifyRantTags`,
  `VerifyRantTag`, `VerifyRantId`, `VerifyWhen`, `VerifyNumRequest`,
  `VerifyTrend`). Each one calls `next`, throws a bad-value error with one
  message, or hits a host `TypeError`.
- `AccountValidator` holds the account field validators (password, username,
  e-mail, avatar, country, interests). Each sends at most one 412 reply.
- `JsValues` and `JsTrim` hold the JavaScript semantics those validators rely
  on: truthiness, `typeof`, the `length` property (of strings, arrays, and
  objects through a `length` key), string conversion, and `String.prototype.trim`
  with ECMA-262's WhiteSpace (clause 12.2) and LineTerminator (clause 12.3) sets.
  An integer converts to a string as Number::toString writes it (ECMA-262,
  section 6.1.6.1.20): plain decimal digits below 10^21 in magnitude, and the
  exponent form (`1e+21`) from 10^21 on.
- `RantModel` is the stored record with its creation defaults. Its invariant
  is `WellFormed`: each voter is on at most one side, `isEdited` holds exactly
  when there is history, and every history entry's diff rebuilds the body it
  was made against and the body that followed it.
- `RantDiff` holds the diff segments of an edit and the two texts they rebuild.
- `VoteLedger` holds the two vote arrays and the up/down toggle rule.
- `RantService.RantStore` is a class holding the collection: a map from
  rantId to record plus the insertion order the feed is read in. Its methods
  create, soft-delete, edit and vote, and all of them keep `Valid()`.
- `PostRantController` holds the controller. Each request method returns the
  reply and the exact sequence of service calls it made. The methods are
  proved against `Gate`, the pure function that decides between
  exists → not deleted → creator or active voter.
- `CreateRantRoute` holds the create route as a whole: session, body check,
  tags check, then the controller. It also holds the create scenarios of the
  integration test.

## Model

| member | source | states |
|---|---|---|
| JsTrim.TrimStart | src/middlewares/rant.middleware.js:13 | leading white space is removed: the result is a suffix of the input, and it is empty or starts with a non-white-space character |
| JsTrim.TrimEnd | src/middlewares/rant.middleware.js:13 | trailing white space is removed: the result is a prefix of the input, and it is empty or ends with a non-white-space character |
| JsTrim.TrimStartCutIsBlank | src/middlewares/rant.middleware.js:13 | everything TrimStart removes is white space |
| JsTrim.TrimEndCutIsBlank | src/middlewares/rant.middleware.js:13 | everything TrimEnd removes is white space |
| JsTrim.TrimIsCore | src/middlewares/rant.middleware.js:13 | `trim` returns a slice of the input whose first and last characters are not white space, with only white space cut off on each side |
| JsTrim.TrimEmptyIffBlank | src/middlewares/rant.middleware.js:13 | a string trims to "" exactly when it is all white space |
| JsTrim.VisibleBoundsTrim | src/middlewares/rant.middleware.js:13 | trimming keeps every non-white-space character, so their number ≤ trimmed length ≤ original length |
| JsTrim.TrimIgnoresPadding | src/middlewares/rant.middleware.js:13 | white space added on either side does not change what `trim` returns |
| JsTrim.TrimOfTrimmed | src/middlewares/rant.middleware.js:13 | a string with no white space at either end is its own trim |
| JsTrim.TrimIdempotent | src/middlewares/rant.middleware.js:13 | trimming twice is the same as trimming once |
| JsTrim.Trim | src/middlewares/rant.middleware.js:13 | `trim` never lengthens its input, and a non-empty result neither starts nor ends with white space |
| JsValues.FalsyValues | src/middlewares/rant.middleware.js:6 | `!v` holds exactly for undefined, null, false, 0, NaN and "" (the model's `Truthy` is false exactly on those six) |
| JsValues.TypeOf | src/middlewares/rant.middleware.js:21-31 | `typeof` gives one of "undefined", "object", "boolean", "number", "string", and "object" exactly for null, arrays and plain objects |
| JsValues.Length | middlewares/validator.js:9-10 | `length` is defined exactly for strings, arrays and objects with a numeric `length` key; for strings and arrays it is their number of elements |
| JsValues.Decimal | middlewares/validator.js:11-14 | the plain form Number::toString writes below 10^21: non-empty, all decimal digits, denoting exactly the number, with a leading '0' only for 0 itself |
| JsValues.ExponentForm | middlewares/validator.js:11-14 | the form Number::toString writes from 10^21 on (first digit, point and remaining significant digits, "e+", exponent) holds a digit and, in the "e", an ASCII letter |
| JsValues.NumberStringIsDigits | middlewares/validator.js:11-14 | for a number of magnitude below 10^21, its string (`ToJsString`) matches `/\d/` and never matches `/[A-Za-z]/` |
| JsValues.LargeNumberStringHasLetter | middlewares/validator.js:11-14 | for a number of magnitude 10^21 or more, its string (`ToJsString`) matches both `/\d/` and `/[A-Za-z]/` |
| RantMiddleware.VerifyRant | src/middlewares/rant.middleware.js:5-19 | a falsy body fails with RANT_BODY_UNDEFINED before any length check; a truthy non-string throws a TypeError; it passes exactly when the body is a string longer than 20 once trimmed; a non-empty string of trimmed length ≤ 20 fails with RANT_LENGTH_NOT_MORE_THAN_TWENTY |
| RantMiddleware.VerifyRantTags | src/middlewares/rant.middleware.js:21-31 | falsy tags fail with RANT_TAGS_UNDEFINED; truthy non-arrays fail with RANT_TAGS_NOT_AN_ARRAY and their `typeof` name; it passes exactly for arrays, the empty one included |
| RantMiddleware.VerifyRantTag | src/middlewares/rant.middleware.js:33-36 | passes exactly when the `tag` parameter is truthy, and fails otherwise with RANT_TAGS_UNDEFINED |
| RantMiddleware.VerifyRantId | src/middlewares/rant.middleware.js:38-41 | passes exactly when the `rantId` parameter is truthy, and fails otherwise with RANT_ID_IS_UNDEFINED |
| RantMiddleware.VerifyWhen | src/middlewares/rant.middleware.js:43-55 | a falsy `when` (0 included) fails with RANT_WHEN_NO_EXISTS, then a non-number with RANT_NOT_NUMBER, then a non-zero number outside the Date range with RANT_NOT_VALID_TIMESTAMP; it passes exactly for a non-zero number inside the Date range; it never throws a TypeError |
| RantMiddleware.NumRequestGuard | src/middlewares/rant.middleware.js:59-63 | the converted count passes exactly when it is not NaN, and fails otherwise with RANT_NOT_VALID_LOAD_NUM_REQUEST |
| RantMiddleware.Query.VerifyNumRequest | src/middlewares/rant.middleware.js:57-65 | stores the numeric conversion back into the query, then passes exactly when the conversion is not NaN |
| RantMiddleware.VerifyTrend | src/middlewares/rant.middleware.js:67-74 | passes exactly for a string starting with '#'; other strings fail with RANT_NOT_VALID_TREND; non-strings throw a TypeError |
| AccountValidator.PasswordValidator | middlewares/validator.js:6-16 | replies 412 with the first failing check, in the order missing (falsy) → NO_FIELD, `length` < 8 → LENGTH, no digit → NO_DIGIT, no ASCII letter → NO_CHARS; a value without `length` skips the length check, and the digit and letter checks test the value's JavaScript string; it passes exactly when all four checks hold |
| AccountValidator.PasswordStringAccepted | middlewares/validator.js:9-15 | a string password passes exactly when it has ≥ 8 characters, a digit and an A–Z/a–z letter |
| AccountValidator.NumericPasswordRefused | middlewares/validator.js:9-14 | a non-zero number of magnitude below 10^21 sent as the password has no `length`, and its string has a digit and no letter, so it is refused with INVALID_LOGIN_PASSWORD_NO_CHARS |
| AccountValidator.HugeNumericPasswordAccepted | middlewares/validator.js:9-15 | a number of magnitude 10^21 or more sent as the password passes: it has no `length`, and its exponent form has a digit and the letter "e" |
| AccountValidator.UserNameValidator | middlewares/validator.js:17-23 | missing → NO_FIELD with body status 412; length < 5 → LENGTH with body status 312, under HTTP 412; it passes exactly otherwise |
| AccountValidator.ObjectUserNameLength | middlewares/validator.js:17-23 | an object sent as the username is refused with body status 312 exactly when its `length` key holds a number below 5, and passes when it has no `length` key |
| AccountValidator.EmailValidator | middlewares/validator.js:24-30 | missing → NO_EMAIL_FIELD; a present e-mail fails only with INVALID_EMAIL; it passes exactly when present and matching the pattern |
| AccountValidator.CheckAvatar | middlewares/validator.js:32-39 | passes exactly when the avatar is truthy, and fails otherwise with NO_AVATAR_FIELD |
| AccountValidator.CheckCountry | middlewares/validator.js:41-56 | missing → NO_COUNTRY_FIELD, then length < 2 → INVALID_COUNTRY_LENGTH; it passes exactly otherwise |
| AccountValidator.CheckInterest | middlewares/validator.js:58-78 | missing → NO_INTEREST_FIELD, then non-array → NO_ARRAY_INTERESTS, then empty → NO_INTEREST_LENGTH; it passes exactly for a non-empty array |
| AccountValidator.StringFieldLengths | middlewares/validator.js:20-22 | for string values the username needs 5 characters and the country 2 |
| RantDiff.UnchangedRebuilds | src/models/dbmodels/rant.model.js:54-66 | a segment with both flags at their default (false) contributes its value to both texts: alone, its old text and new text are its value, and it rebuilds its value from itself |
| RantDiff.NewTextEmpty | src/models/dbmodels/rant.model.js:54-66 | the text after the edit (`NewText`, the values of the segments not removed) is empty exactly when every segment not flagged removed has an empty value |
| RantDiff.OldTextEmpty | src/models/dbmodels/rant.model.js:54-66 | the text before the edit (`OldText`, the values of the segments not added) is empty exactly when every segment not flagged added has an empty value |
| RantDiff.NewTextAppend | src/models/dbmodels/rant.model.js:54-66 | the new text of two diffs in a row is the concatenation of their new texts |
| RantDiff.OldTextAppend | src/models/dbmodels/rant.model.js:54-66 | the old text of two diffs in a row is the concatenation of their old texts |
| RantDiff.RebuildsAppend | src/models/dbmodels/rant.model.js:54-66 | a diff of each part of a text is a diff of the whole |
| RantDiff.DiffExists | src/controllers/post-rant.controller.test.mjs:194-249 | any two bodies have a diff between them, so an edit can always be sent |
| RantDiff.EarthlingsPieces | src/controllers/post-rant.controller.test.mjs:195-206 | each of the three runs the test's segments split into is a diff (`Rebuilds`: no segment both added and removed, old and new texts as given) from its part of "hellow world" to its part of "hello earthlings" |
| RantDiff.EarthlingsDiffRebuilds | src/controllers/post-rant.controller.test.mjs:195-206 | the test's ten segments rebuild "hellow world" from the non-added values and "hello earthlings" from the non-removed values, and none is both added and removed |
| RantModel.DefaultTags | __test__/createrant.test.mjs:131-168 | the stored tags are never empty: the given tags unchanged, or exactly `["general"]` for an empty list |
| RantModel.NewRant | src/models/dbmodels/rant.model.js:3-76 | a new record is well formed and carries the given id, poster, body and time; its tags are non-empty and equal to the given ones when those are non-empty; it is not deleted, not edited, with empty history, comments and vote arrays |
| RantModel.Edited | src/models/dbmodels/rant.model.js:39-70 | an edit sets the sent body and tags, sets `isEdited`, appends exactly the entry (time, diff, prior body) to the history, and leaves every other field of the record as it was |
| RantModel.Deleted | src/models/dbmodels/rant.model.js:34-38 | a soft delete sets `deleted` and leaves every other field as it was |
| RantModel.Upvoted | src/models/dbmodels/rant.model.js:74-75 | an upvote replaces the two vote arrays by the toggle rule's result (`VoteLedger.Upvote`) and leaves every other field as it was |
| RantModel.Downvoted | src/models/dbmodels/rant.model.js:74-75 | a downvote replaces the two vote arrays by `VoteLedger.Downvote`'s result and leaves every other field as it was |
| RantModel.EditKeepsWellFormed | src/models/dbmodels/rant.model.js:39-70 | an edit made against the current body, with a diff from it to the new body, keeps the record well formed, sets `isEdited`, and appends exactly one history entry without changing the earlier ones |
| RantModel.HistoryReplays | src/models/dbmodels/rant.model.js:44-69 | along a well-formed history, each diff's new text is the next diff's old text, and the last diff's new text is the current body |
| RantModel.VotesKeepWellFormed | src/models/dbmodels/rant.model.js:74-75 | a vote (`Upvoted` or `Downvoted`) keeps the record well formed |
| RantModel.EarthlingsEdit | src/controllers/post-rant.controller.test.mjs:194-249 | the test's edit of "hellow world" into "hello earthlings" gives an edited, well-formed record whose last history entry holds the request time, the test's diff and the prior body |
| VoteLedger.Without | src/models/dbmodels/rant.model.js:74-75 | removing a voter from an array keeps everyone else, keeps the array free of duplicates, and shortens it by one exactly when the voter was in it |
| VoteLedger.AppendFresh | src/models/dbmodels/rant.model.js:74-75 | adding a voter who is not listed keeps the array free of duplicates |
| VoteLedger.Upvote | src/controllers/post-rant.controller.test.mjs:333-345 | after an upvote the voter upvotes exactly when it did not upvote before or was downvoting, never downvotes, and every other voter is on the side it was |
| VoteLedger.Downvote | src/controllers/post-rant.controller.test.mjs:425-437 | after a downvote the voter downvotes exactly when it did not downvote before or was upvoting, never upvotes, and every other voter is on the side it was |
| VoteLedger.UpvoteEffect | src/controllers/post-rant.controller.test.mjs:333-345 | an upvote keeps the ledger; afterwards the voter upvotes exactly when it did not before, does not downvote, and every other voter is where it was |
| VoteLedger.DownvoteEffect | src/controllers/post-rant.controller.test.mjs:425-437 | the mirror image of UpvoteEffect for a downvote |
| VoteLedger.UpvoteCounts | src/controllers/post-rant.controller.test.mjs:333-345 | an upvote moves a downvote over (+1 up, −1 down), withdraws a repeated upvote (−1 up), or adds a first one (+1 up) |
| VoteLedger.UpvoteTwice | src/controllers/post-rant.controller.test.mjs:333-345 | two upvotes in a row cancel: the voter upvotes afterwards exactly when it did before, and does not downvote |
| VoteLedger.UpvoteTwiceRestores | src/controllers/post-rant.controller.test.mjs:333-345 | from no vote, two upvotes in a row restore both arrays exactly |
| VoteLedger.WithoutLast | src/models/dbmodels/rant.model.js:74-75 | appending a voter and then removing it gives back the original array |
| VoteLedger.UpThenDown | src/controllers/post-rant.controller.test.mjs:425-437 | an upvote followed by a downvote from the same voter leaves the voter only among the downvoters |
| RantService.LiveIndexesNewestFirst | src/controllers/post-rant.controller.test.mjs:514-532 | the positions the feed reads (`LiveIndexes`) are each of a non-deleted rant, strictly decreasing (the latest insertion first, so no position twice), and include every non-deleted position |
| RantService.FeedOfOrder | src/controllers/post-rant.controller.test.mjs:514-532 | over an order listing each stored key once, the records at the live positions are stored, non-deleted records; every non-deleted stored record is among them; and no rantId occurs twice |
| RantService.Window | src/controllers/post-rant.controller.test.mjs:514-532 | a page is the slice of the feed starting after the first numRequest items, item by item, holding exactly pageSize items or all that remain when fewer do; it is empty once numRequest reaches the feed's length |
| RantService.RantStore.constructor | src/models/dbmodels/rant.model.js:3-76 | an empty collection is valid |
| RantService.RantStore.CreatorRant | src/controllers/post-rant.controller.test.mjs:110-119 | the creator lookup finds a record exactly when the rant exists and its poster is the session user, and then it is the stored record |
| RantService.RantStore.FindRant | src/controllers/post-rant.controller.test.mjs:92-99 | the existence lookup returns a record exactly when the rantId is stored, and then that record, deleted or not |
| RantService.RantStore.LiveFeed | src/controllers/post-rant.controller.test.mjs:514-532 | the feed is the records at the live positions of the insertion order, newest first; it holds every non-deleted stored rant exactly once and nothing else |
| RantService.RantStore.GetRants | src/controllers/post-rant.controller.test.mjs:514-532 | a page holds at most pageSize non-deleted stored rants, and it is empty exactly when numRequest has reached the end of the live feed (or the page size is 0) |
| RantService.RantStore.CreateRant | src/models/dbmodels/rant.model.js:9-12 | a fresh rantId adds exactly one new record with the creation defaults and appends the id to the order; a rantId already taken (unique index) changes nothing; the collection stays valid |
| RantService.RantStore.DeleteRant | src/controllers/post-rant.controller.test.mjs:121-131 | marks only that record deleted and changes nothing else; the collection stays valid |
| RantService.RantStore.EditRant | src/controllers/post-rant.controller.test.mjs:194-249 | replaces only that record with its edited form; the collection stays valid |
| RantService.RantStore.Vote | src/controllers/post-rant.controller.test.mjs:333-345 | applies the toggle rule to only that record, returns its new vote arrays, and keeps the collection valid |
| RantService.DeletedNeverListed | src/controllers/post-rant.controller.test.mjs:514-532 | a deleted rant is on no feed page, whatever the number already read |
| RantService.FirstPageNotEmpty | src/controllers/post-rant.controller.test.mjs:514-532 | with one live rant stored and a non-zero page size, the first page is not empty |
| PostRantController.Gate | src/controllers/post-rant.controller.test.mjs:92-119 | a request passes exactly when the rant exists, is not deleted, and (for delete/edit) the caller is the creator or (for votes) the voter exists and is active; otherwise the first failing check decides the reply: 404, 410, 401 or 404 |
| PostRantController.ExistenceDecidesFirst | src/controllers/post-rant.controller.test.mjs:281-302 | for a missing or deleted rant the reply is the same whatever the caller or the voter, and it is a denial |
| PostRantController.Lookups | src/controllers/post-rant.controller.test.mjs:92-119 | every request starts with validateRantExistence; the creator or voter lookup is made only for a live rant |
| PostRantController.DeleteRantRequest | src/controllers/post-rant.controller.test.mjs:92-131 | a denial replies as Gate says, makes only the lookups and changes nothing; a pass calls deleteRant(rantId) last, replies 200 RANT_SUCCESSFULLY_DELETED and marks only that rant deleted |
| PostRantController.EditRantRequest | src/controllers/post-rant.controller.test.mjs:162-249 | a denial makes no getRant or editRant call and changes nothing; a pass reads the prior body with getRant, then calls editRant with {new body, prior body, tags, when, diff} and stores and replies the edited record |
| PostRantController.VoteRantRequest | src/controllers/post-rant.controller.test.mjs:281-437 | a denial (404, 410, 404 unknown voter, 404 deactivated voter) makes no vote call and changes nothing; a pass casts the vote with the voter's id and replies the lengths of the new arrays |
| PostRantController.GetRantRequest | src/controllers/post-rant.controller.test.mjs:460-494 | a missing or deleted rant is denied after one lookup; otherwise it replies the record with the lengths of its two vote arrays |
| PostRantController.GetRantsRequest | src/controllers/post-rant.controller.test.mjs:514-532 | calls getRants(numRequest) once; replies 404 RANT_READ_EXHAUSTED exactly when the page is empty, and otherwise the page unchanged, holding no deleted rant |
| PostRantController.CreateRantRequest | src/controllers/post-rant.controller.test.mjs:46-65 | calls createRant once with the session user, body, tags and time; a fresh rantId stores and replies exactly the new record and appends its id to the insertion order, and a service failure goes to `next` with nothing stored and the order unchanged |
| CreateRantRoute.CreateGate | __test__/createrant.test.mjs:13-129 | checks in this order: no session → 401 USER_NOT_LOGGED_IN, then the body refusals, then the tag refusals; a truthy non-string body ends in the host TypeError; it admits exactly a logged-in request whose body is a string longer than 20 once trimmed and whose tags are an array, and passes both on unchanged |
| CreateRantRoute.PostRant | __test__/createrant.test.mjs:131-168 | the route's admission is `CreateGate`'s; a rejected request, or one whose rantId is taken, changes neither the records nor the order; an admitted one with a fresh rantId stores and replies exactly one new record built from the session user, the body and the tags as sent, and appends its id to the order |
| CreateRantRoute.CreateNeedsSessionThenBody | __test__/createrant.test.mjs:13-50 | an empty request gets 401 without a session and 412 RANT_BODY_UNDEFINED with one |
| CreateRantRoute.ShortBodyRejected | __test__/createrant.test.mjs:52-102 | every non-empty body of at most 20 characters gets 412 RANT_LENGTH_NOT_MORE_THAN_TWENTY, whatever its tags |
| CreateRantRoute.PaddedBodyRejected | __test__/createrant.test.mjs:65-89 | white space around a core of at most 20 characters does not help: the body is still refused for its length |
| CreateRantRoute.TestBodiesRejected | __test__/createrant.test.mjs:52-63 | "hello world" and the 20-character "hello world for barz" are refused for their length |
| CreateRantRoute.TestPaddedBodiesRejected | __test__/createrant.test.mjs:65-89 | thirty spaces, and "dd" between thirty and fifteen spaces, are refused for their length |
| CreateRantRoute.TagsCheckedAfterBody | __test__/createrant.test.mjs:104-129 | once the body passes, missing tags get RANT_TAGS_UNDEFINED and `{}` gets RANT_TAGS_NOT_AN_ARRAY "object" |
| CreateRantRoute.TestBodiesLongEnough | __test__/createrant.test.mjs:104-148 | the test's two long bodies have no white space at either end, so trimming keeps all of their characters and both are longer than 20 |

`CreateRantRoute.CreateTaggedScenario` and `CreateRantRoute.CreateUntaggedScenario`
replay the two successful creations of the integration test on an empty
collection. A creation with tags keeps them in order, with empty comments,
the given rantId and the body as sent. A creation with `tags: []` gets
exactly `["general"]`.

## Left out

- Persistence, mongoose, model registration and indexes: the collection is a map in a class. The unique index on `rantId` is modelled as a creation that fails on a taken id.
- HTTP, sessions and cookies: a session is an optional user name, and a reply is a status and a message kind.
- Promises, the test spies and the forwarding of service errors to `next`: a failing `createRant` is the only forwarded error modelled (`Forwarded`), and the other methods' forwarding lines are not modelled.
- The rant service's own source (`postRantService`) is not part of this model, so its behaviour is assumed here, not derived: a vote moves a voter from the other side, withdraws a repeated vote or adds a first one; the feed lists non-deleted rants newest first by insertion order, paged by a fixed size; an edit replaces body and tags and appends one history entry. The controller test only stubs these calls.
- VoteLedger.UpvoteTwice: under the assumed toggle rule a voter is absent from the upvoters after two upvotes in a row only when it was not upvoting before, so the lemma states the general case and UpvoteTwiceRestores the fresh-voter case.
- The text-diff library's algorithm is not part of this model: the diff is an input to the edit, required to rebuild both bodies, and only the test's example is checked. The test's segments carry `added`/`removed` as `undefined`; they are read as the schema's default `false`.
- `Number()` conversion in VerifyNumRequest is a parameter (`None` for NaN); numbers are integers, so fractions, infinities and -0 are not modelled, and a negative `numRequest` does not reach the feed (`GetRants` takes a `nat`).
- RantMiddleware.VerifyWhen: `new Date(n)` validity is modelled by ECMA-262's TimeClip range on integers; fractional timestamps are not modelled.
- The e-mail regular expression's constant is not part of this model: EmailValidator takes the pattern as a predicate.
- Integers above 2^53 in magnitude round to doubles in JavaScript, and a JSON number is read here as the exact integer. Where the rounded double prints with other digits, the character classes the password checks test stay the same, except in one band: every integer from 10^21 − 65536 up to 10^21 rounds to the double 1e21 and prints as "1e+21".
- AccountValidator.NumericPasswordRefused and JsValues.NumberStringIsDigits: for a magnitude in [10^21 − 65536, 10^21) JavaScript prints the rounded value in exponent form, so such a password passes `middlewares/validator.js` while these lemmas, on the exact integer, say it is refused; below 2^53 they agree with JavaScript exactly.
- An object's `length` key holding something other than a number is read as absent.
- Concurrency: requests run one at a time, each making at most one store mutation. Concurrent requests, and the atomicity of the read-then-write in edit (getRant, then editRant) and in voting, are left to the storage layer and not modelled.
- Strings are sequences of code points, not UTF-16 code units, so `length` of text outside the Basic Multilingual Plane differs.
- A host `TypeError` (a truthy non-string body, a non-string trend) is an outcome of its own (`TypeFault` / `Crash`); the HTTP status the error handler gives it is not modelled.
- The message texts of `src/constants/rant.constant.js` are message kinds. USER_NOT_LOGGED_IN comes from the auth constants, which are not part of this model. RANT_NOT_VALID_TREND is not defined in `src/constants/rant.constant.js`; unless `index.constant.js` (not part of this model) adds it, VerifyTrend's refusal carries an undefined message, which the model still writes as the kind `RantNotValidTrend`.
- The controller test reads the history entry's prior body as `diffAgainstString`, while the schema names it `diffAgainst`. The model follows the schema (`EditEntry.diffAgainst`).
- An edit stores the tags it is sent, so the tag list is non-empty only at creation (the edit test sends `tags: []`).
- The ordering of `when` across history entries is not constrained, since the code does not check it.
- Comment threads: the `Comment` record is modelled, but no operation on comments is part of this core.
- `__test__/register.test.js` is not modelled. It needs a live user database, and two of its expected messages differ from `middlewares/validator.js`: line 26 expects INVALID_LOGIN_USERNAME_EMAIL_NO_FIELD where line 19 of the validator sends INVALID_LOGIN_USERNAME_NO_FIELD, and lines 172-182 expect NO_INTEREST_FIELD where lines 65-69 send NO_ARRAY_INTERESTS. The model follows the validator.
