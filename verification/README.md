# NextGenFut domain core in Dafny

NextGenFut is a web app for organising pickup football. Players register and
sign in. They create matches at a location and date, and join the home or away
roster of a scheduled match. Once a match is completed, players rate each
other on six skills. A player can also mark themselves available for a few
hours, so that others nearby can find them.

This project models the logic behind those features:

- **Match service.** Create, look up, list with filters and pages, join,
  change status, delete. Also the `withRetry` wrapper around these calls.
- **Rating service.** Create, list a player's ratings, average them, update,
  delete.
- **Schemas.** The match, rating and user schemas: validators, defaults, the
  password hook, and the `toObject` transform.
- **Route handlers.** `/api/matches` (create and list),
  `/api/players/available` (proximity search) and `/api/users/register`. Also
  the credentials check of sign-in.
- **Matches page.** It turns `?page=n` into a skip.
- **Match map page.** It loads scheduled matches and serialises them.
- **Client logic.** The query string, badge colours and "time remaining"
  label of the available-players list. The position toggle and request
  payload of the availability switch.

Each collection is a sequence of records in its natural order, and every
operation is a pure function. An operation returns the new collection with
its answer, or returns the message it throws. Things the code gets from its
environment are parameters:

- the clock (`now`);
- newly generated ids;
- `new Date(str)`, `toISOString` and `parseFloat`;
- the distance function;
- the e-mail patterns;
- number-to-string conversion of coordinates.

bcrypt is symbolic: a hash records what it hashed and the cost used.

Modules follow the source files:

| module | source file |
|---|---|
| `Common` | shared types |
| `Text` | JavaScript string and number helpers |
| `Listing` | the data layer's filter, sort and window |
| `Retry` | `withRetry` |
| `MatchModel`, `MatchService` | match schema and service |
| `RatingModel`, `RatingService` | rating schema and service |
| `UserModel` | user schema |
| `MatchesRoute` | `/api/matches` |
| `MatchesPage` | the matches page |
| `MapPage` | the match map page |
| `AvailablePlayers` | `/api/players/available` |
| `RegisterRoute` | `/api/users/register` and sign-in |
| `PlayersList` | `AvailablePlayersList.tsx` |
| `AvailabilityToggle` | `PlayerAvailabilityToggle.tsx` |

## Model

| member | source | states |
|---|---|---|
| Retry.WithRetry | src/services/match.service.ts:6-24 | The operation is called at most `maxRetries` times. The first success is returned. If every attempt fails, the last error is rethrown (`undefined` when there were no attempts). The waits are `delay * 2^i`, one after each failed attempt except the last. |
| Retry.RetryKeepsFailing | src/services/match.service.ts:12-23 | An operation that keeps failing with the same error fails with that error, however many attempts remain. |
| Retry.RetryOfDeterministic | src/services/match.service.ts:12-23 | If every call of the operation gives the same answer, retrying returns that answer. An application error such as "Match not found" is retried and then rethrown unchanged. |
| MatchModel.ParseStatus | src/models/match.ts:23-27 | Exactly the three status names are accepted, and each is read as the status it names. |
| MatchModel.StatusRoundTrip | src/models/match.ts:23-27 | Every status is read back as itself from its name. |
| MatchModel.ValidateMatch | src/models/match.ts:4-33 | A match is saved iff every required field is present and the status, if given, is one of the three. The required fields are the `id` path, the date, the location (name, address, city, latitude, longitude) and the creator. Defaults: status `scheduled`, scores 0, a fresh `id` path. Equivalently, a match is saved iff no path validator fails. Otherwise the message is "Match validation failed: " followed by each failing path with its message, in schema order. |
| MatchModel.FailingPaths | src/models/match.ts:4-33 | Exactly the paths whose validator fails, each once, in schema order. A nested location path is checked only when the location is present. |
| MatchModel.NoFailureIff | src/models/match.ts:4-33 | No validator fails iff the `id` path, date, location fields and creator are present and the status, if given, is one of the three. |
| MatchModel.OnlyCreatorFails | src/models/match.ts:4-32 | A draft complete but for its creator fails exactly one validator, the creator's. |
| MatchModel.MissingCreatorMessage | src/models/match.ts:32 | Such a draft fails with exactly "Match validation failed: createdBy: Path `createdBy` is required." |
| MatchModel.TransformDocument | src/models/match.ts:36-51 | The transform succeeds iff the document has `_id`. Its keys are the document's keys without `_id` and `__v`, plus `id`. `id` is the string form of `_id`, and every other field is unchanged. |
| MatchModel.TransformOnce | src/models/match.ts:36-51 | Transforming the output a second time fails, because it has no `_id` left. |
| MatchService.IndexOf | src/services/match.service.ts:55 | `findById` finds the first match with the id, or reports that none has it. |
| MatchService.CreateMatch | src/services/match.service.ts:28-49 | Creation succeeds iff the date is valid, name, address, city and creator are non-empty, and the key is new. The new match is appended. It is scheduled, with empty rosters, a 0–0 score, the given date, location and creator, and its own `id` path. The collection stays valid. |
| MatchService.ValidateCreateDraft | src/services/match.service.ts:35-42 | The document `createMatch` builds passes validation iff the date is valid and the texts, the creator and the `id` path default are non-empty. It is then stored scheduled, with empty rosters and a 0–0 score. |
| MatchService.AppendKeepsValid | src/services/match.service.ts:35-42 | Appending a match with a new key and well-formed rosters keeps the collection valid. |
| MatchService.GetMatchById | src/services/match.service.ts:52-67 | The answer is a stored match with that id whenever one exists. Otherwise it is null, not an error. |
| MatchService.GetMatches | src/services/match.service.ts:70-125 | Fails iff a date bound is invalid or the skip is negative. Only supplied filters apply (status, city, inclusive date range), combined with "and". The page is the run, starting at `skip`, of the selected matches sorted by date. Its length follows the limit and skip, which default to 10 and 0 when falsy. `total` counts every selected match. |
| MatchService.SortedPage | src/services/match.service.ts:100-105 | The window is refused iff skip < 0. Otherwise it is sorted by date and has the window's length. It is the run starting at `skip` of an ordering of the matches by date. |
| MatchService.PageByDate | src/services/match.service.ts:100-105 | If no two selected matches share a date, the k-th match of the page is the selected match with exactly `skip + k` selected matches dated before it. |
| MatchService.JoinMatch | src/services/match.service.ts:128-161 | Errors: "Match not found", "not in scheduled status", and "already in a team", each in its case. Otherwise the player is appended to the chosen roster only. Everything else about the match is unchanged, except its update time. Well-formed rosters stay well-formed. |
| MatchService.JoinPreservesValid | src/services/match.service.ts:144-153 | Joining keeps ids unique. Every roster stays free of duplicates, and no player is on both sides. |
| MatchService.JoinTwiceFails | src/services/match.service.ts:144-150 | A player who joined cannot join the same match again, on either side. |
| MatchService.UpdateMatchStatus | src/services/match.service.ts:164-187 | Fails iff the match is missing. Any status may be set. The scores are replaced only when supplied. Nothing else about the match changes except its update time, which moves to now only when the status or the scores actually change. |
| MatchService.UpdateMatchStatusIdempotent | src/services/match.service.ts:176-181 | Setting the same status and scores a second time changes nothing, not even the update time. |
| MatchService.UpdateMatchStatusKeepsValid | src/services/match.service.ts:176-181 | Changing the status keeps ids unique and rosters well-formed. |
| MatchService.CompletedCanReturnToScheduled | src/services/match.service.ts:176-179 | No lifecycle order is enforced: a completed match can be set back to scheduled. |
| MatchService.DeleteMatch | src/services/match.service.ts:190-201 | Fails with "Match not found" iff no match has the id. Otherwise exactly that match is removed and the others keep their order. The id is gone and the collection stays valid. |
| RatingModel.ValidateRating | src/models/rating.ts:4-68 | A rating is saved iff its `id` path (given, or the fresh default), the three ids and the skills are present, each skill is in 1..10, and any comment has at most 500 UTF-16 code units. A saved rating holds exactly the given fields, with both timestamps at now. Otherwise the message is "Rating validation failed: " followed by each failing path with its `required`, `min`, `max` or `maxlength` message, in schema order. |
| RatingModel.FailingPaths | src/models/rating.ts:4-68 | Exactly the paths whose validator fails, in schema order. A skill is checked only when the skills are present. |
| RatingModel.NoFailureIff | src/models/rating.ts:4-68 | No validator fails iff the `id` path, the three ids and the skills are present, every skill is in 1..10 and the comment fits. |
| RatingModel.AstralCommentTooLong | src/models/rating.ts:65-68 | A comment of 251 emoji is too long: 502 code units, though fewer than 500 characters. |
| RatingModel.RoundDiv | src/models/rating.ts:114 | The result is the integer nearest to a/b, with halves rounded up. |
| RatingModel.Tenths | src/services/rating.service.ts:145 | The result is the number of tenths nearest to sum/n, with halves rounded away from zero. This is `toFixed(1)` on the exact quotient. |
| RatingModel.TenthsWithin | src/services/rating.service.ts:145 | Rounding keeps an average of values in [lo, hi] within [lo, hi]. |
| RatingModel.TenthsText | src/models/rating.ts:114 | The text ends in a point and one digit. |
| RatingModel.TenthsTextRoundTrip | src/models/rating.ts:114 | The printed average reads back as the number of tenths it stands for. |
| RatingModel.AverageWithinSkillRange | src/models/rating.ts:103-115 | Six skills in 1..10 average to between 1.0 and 10.0. |
| RatingModel.AverageRatingText | src/models/rating.ts:103-115 | The text is "0.0" without skills. Otherwise it reads back as the mean of the six skills, to one decimal. |
| RatingService.IndexOf | src/services/rating.service.ts:172 | `findById` finds the first rating with the id, or reports that none has it. |
| RatingService.TripleTaken | src/models/rating.ts:97-100 | True iff some stored rating has the same match, player and rater. |
| RatingService.CreateRating | src/services/rating.service.ts:7-43 | Errors, each in its case: "Match not found"; "Can only rate players after match is completed"; "Player was not in this match". Otherwise creation succeeds iff the rating passes validation and its triple and id are new. The stored rating holds exactly the given fields, its own `id` path default, and both timestamps at now. The unique-triple and unique-id invariants are kept. |
| RatingService.InsertRating | src/services/rating.service.ts:31-41 | `RatingModel.create`: a draft that fails validation gives "Failed to create rating: Rating validation failed: …" with its issues. A taken key or triple gives the duplicate-key error. Otherwise the rating is appended as given. |
| RatingService.AppendKeepsUnique | src/models/rating.ts:97-100 | Appending a rating whose key and triple are free keeps both unique indexes. |
| RatingService.SecondRatingRefused | src/models/rating.ts:97-100 | A second rating for the same match, player and rater is refused. |
| RatingService.ForPlayer | src/services/rating.service.ts:66 | Keeps exactly the ratings of the player, in stored order. |
| RatingService.SortedWindow | src/services/rating.service.ts:65-69 | The window is refused iff skip < 0. Otherwise it is sorted on the key and has the window's length. It is the run starting at `skip` of an ordering of the player's ratings by the key. |
| RatingService.GetPlayerRatings | src/services/rating.service.ts:46-80 | Corrected, fails iff the skip is negative. Defaults: limit 10, skip 0, date, descending. The page is the run, starting at `skip`, of the player's ratings sorted on the requested key. `total` counts all of the player's ratings. |
| RatingService.RatingPageByRank | src/services/rating.service.ts:56-69 | If no two of the player's ratings share a sort key, the k-th rating of the page is the one with exactly `skip + k` of the player's ratings ahead of it. |
| RatingService.PlayerRatingsOrder | src/services/rating.service.ts:56-63 | Corrected, a page is ordered newest first by default and oldest first for "asc". With sortBy "rating" it is ordered by the average, best first for "desc". |
| RatingService.GetPlayerRatingsAsWritten | src/services/rating.service.ts:56-69 | As written, sorting on the unstored `averageRating` leaves the player's ratings in stored order. |
| RatingService.SortConstantKeepsOrder | src/services/rating.service.ts:62 | Sorting on a key that every document lacks keeps the stored order. |
| RatingService.SortByRatingIgnored | src/services/rating.service.ts:62 | As written, an ascending sort by rating can return the better rating first. |
| RatingService.GetMatchRatings | src/services/rating.service.ts:83-94 | Returns exactly the ratings of the match, in stored order. |
| RatingService.GetPlayerAverageRatings | src/services/rating.service.ts:97-163 | With no ratings, all values are 0. Otherwise each skill is its sum over the player's ratings divided by their number, to a tenth. `overall` is the mean of the six rounded averages, to a tenth. `totalRatings` is the number of the player's ratings. |
| RatingService.SumSkillsWithin | src/services/rating.service.ts:136-140 | Each per-skill sum of n ratings with skills in 1..10 lies in n..10n. |
| RatingService.AveragesWithinSkillRange | src/services/rating.service.ts:142-153 | Each skill average and the overall average lie between 1.0 and 10.0. |
| RatingService.MeanWithin | src/services/rating.service.ts:145 | A sum in n..10n averages to between 1.0 and 10.0. |
| RatingService.OverallWithin | src/services/rating.service.ts:149-153 | Six averages in 1.0..10.0 give an overall in 1.0..10.0. |
| RatingService.UpdateRating | src/services/rating.service.ts:166-193 | Fails with "Rating not found" when no rating has the id. Otherwise only the skills given are overwritten, and the comment only when given. Every other field is unchanged, except the update time. That moves to now only when the skills or the comment actually change. The result passes validation, and a valid merge of a well-formed rating always succeeds. |
| RatingService.EmptyUpdateKeepsRating | src/services/rating.service.ts:178-188 | An update that gives nothing leaves the rating and the collection exactly as they were, update time included. |
| RatingService.UpdateIdempotent | src/services/rating.service.ts:178-188 | Applying the same update a second time changes nothing, not even the update time. |
| RatingService.DeleteRating | src/services/rating.service.ts:196-205 | Fails with "Rating not found" iff no rating has the id. Otherwise exactly that rating is removed and the others keep their order. |
| UserModel.ParseRole | src/models/user.ts:8 | Exactly "player", "team" and "scout" are roles, each read as itself. |
| UserModel.ParseFoot | src/models/user.ts:115-118 | Exactly "left", "right" and "both" are accepted. |
| UserModel.NameIssues | src/models/user.ts:58-63 | The trimmed name must be non-empty and at most 50 UTF-16 code units long. There is one issue at most, on path `name`. |
| UserModel.EmailIssues | src/models/user.ts:64-74 | The lower-cased, trimmed e-mail must be non-empty and match the pattern. |
| UserModel.PasswordIssues | src/models/user.ts:75-79 | The password must be given, non-empty and at least 6 UTF-16 code units long. |
| UserModel.BioIssues | src/models/user.ts:85-88 | A bio has at most 500 UTF-16 code units. |
| UserModel.FootIssues | src/models/user.ts:115-118 | A dominant foot, if given, is one of the three. |
| UserModel.UserIssues | src/models/user.ts:56-94 | A user document has no issue iff every field validator passes, with lengths counted in UTF-16 code units. |
| UserModel.PlayerDefaults | src/models/user.ts:119-140 | Defaults: average rating 0, matches played 0, not available, no preferred positions. Given values are kept. |
| UserModel.PreSave | src/models/user.ts:97-101 | The password is hashed with 10 rounds exactly when it was modified. |
| UserModel.AppendKeepsUniqueEmails | src/models/user.ts:71 | Adding a user whose e-mail is free keeps e-mails unique. |
| UserModel.CreateUser | src/models/user.ts:56-101 | A user is saved iff validation passes and the e-mail and id are free. If validation fails, the message lists the issues. The saved user has a trimmed name, a normalised e-mail, the given role and the password hashed once. Player fields are present exactly for a player-model document. E-mails stay unique. |
| UserModel.SavePassword | src/models/user.ts:75-101 | Re-saving validates a changed password first. A value that fails is refused with "User validation failed: password: …" and nothing is stored. A valid changed value is hashed with 10 rounds and moves the update time to now. An unchanged password leaves the user exactly as it was, update time included. Nothing else changes. |
| UserModel.ResaveKeepsLogin | src/models/user.ts:97-106 | Re-saving without touching the password succeeds and keeps every login that worked before. |
| UserModel.NewPasswordLogsIn | src/models/user.ts:75-106 | After a new plain-text password that passes validation is set, that password and no other logs in. |
| UserModel.ShortPasswordRefused | src/models/user.ts:75-79 | A new non-empty password under 6 UTF-16 code units is refused with "Password must be at least 6 characters", so the stored password stays. |
| UserModel.CreatedPasswordNotPlain | src/models/user.ts:97-101 | A created user's stored password is never what was given. |
| RegisterRoute.NameErrors | src/app/api/users/register/route.ts:9 | The name must be at least 2 UTF-16 code units long. |
| RegisterRoute.EmailErrors | src/app/api/users/register/route.ts:10 | The e-mail must pass the request schema's check. |
| RegisterRoute.PasswordErrors | src/app/api/users/register/route.ts:11 | The password must be at least 6 UTF-16 code units long. |
| RegisterRoute.RoleErrors | src/app/api/users/register/route.ts:12 | A role, if given, is player, team or scout. |
| RegisterRoute.SchemaErrors | src/app/api/users/register/route.ts:8-13 | No error iff all four field checks pass, with lengths in UTF-16 code units. There are at most four errors. |
| RegisterRoute.EmojiNameLongEnough | src/app/api/users/register/route.ts:9 | A one-emoji name is long enough, while a one-letter name is not. |
| RegisterRoute.RegisterWith | src/app/api/users/register/route.ts:20-91 | A body that is not JSON gives 500. Schema errors give 400 with the list of errors. A taken e-mail gives 400 "User already exists". Only a 201 adds a user, exactly one, replied with id, name, e-mail and role. The user is created through the base model, with no player fields. |
| RegisterRoute.RegisterAsWritten | src/app/api/users/register/route.ts:53-61 | As written, the stored password is the pre-save hash of the route's cost-12 hash. |
| RegisterRoute.Register | src/app/api/users/register/route.ts:20-91 | With the plain password handed to the model, the replies are as above. The stored password is the plain password hashed once. |
| RegisterRoute.FindByEmail | src/app/api/users/register/route.ts:44 | `findOne({ email })` gives the first user with the e-mail, or reports that none has it (the sign-in route looks users up the same way). |
| RegisterRoute.Login | src/models/user.ts:104-106 | Sign-in through the NextAuth credentials route, which ends in `comparePassword`: a missing field gives "Please provide email and password". An unknown e-mail gives "No user found with this email". Success means the stored hash matches the password. |
| RegisterRoute.LoginOfFound | src/models/user.ts:104-106 | For a found user, sign-in succeeds iff the password matches, and otherwise answers "Invalid password". |
| RegisterRoute.FirstWithEmailIsNew | src/app/api/users/register/route.ts:44-61 | After an append, the first user with a previously free e-mail is the new one. |
| RegisterRoute.AsWrittenLoginFails | src/app/api/users/register/route.ts:53-61 | As written, a user who has just registered is refused sign-in with their own password. |
| RegisterRoute.RegisteredUserLogsIn | src/app/api/users/register/route.ts:53-61 | Corrected, a user who has just registered signs in with their password, as themselves. |
| RegisterRoute.SecondRegistrationRefused | src/app/api/users/register/route.ts:44-50 | Registering the same e-mail twice leaves one account and answers "User already exists". |
| MatchesRoute.FloorDiv | src/app/api/matches/route.ts:105 | The result is `Math.floor(a / b)`. |
| MatchesRoute.CeilDiv | src/app/api/matches/route.ts:106 | The result is `Math.ceil(a / b)`. |
| MatchesRoute.PageOf | src/app/api/matches/route.ts:105 | The page holds the skip-th match: `(page-1)*limit <= skip < page*limit`. |
| MatchesRoute.PageCount | src/app/api/matches/route.ts:106 | The fewest pages of `limit` that hold `total`. |
| MatchesRoute.StatusErrors | src/app/api/matches/route.ts:23 | A status, if given, must be one of the three. |
| MatchesRoute.Filters | src/app/api/matches/route.ts:85-97 | The date range is set only when both bounds are given. The limit is the parsed limit, or 10 when that is falsy, so it is never 0. The skip defaults to 0 the same way. |
| MatchesRoute.Listed | src/app/api/matches/route.ts:99-100 | Listed matches have the requested status and city. There are at most `limit` of them, and never for a negative skip. |
| MatchesRoute.Get | src/app/api/matches/route.ts:78-122 | A bad status gives 400. A service error gives 500. Otherwise 200 with the service's page, `page = floor(skip/limit)+1` and `totalPages = ceil(total/limit)`. |
| MatchesRoute.RequiredText | src/app/api/matches/route.ts:11-13 | No error iff the text is present and non-empty. |
| MatchesRoute.RequiredNumber | src/app/api/matches/route.ts:15-16 | No error iff the number is present. |
| MatchesRoute.CoordinatesErrors | src/app/api/matches/route.ts:14-17 | No error iff both coordinates are present. |
| MatchesRoute.CreateErrors | src/app/api/matches/route.ts:8-19 | No error iff the date, name, address, city and both coordinates are present and the texts are non-empty. |
| MatchesRoute.Post | src/app/api/matches/route.ts:39-76 | No session gives 401. A body the schema rejects gives 400 with its errors. A failure gives 500. 201 iff the service creates the match, which is then exactly the one appended. Only a 201 changes the collection. |
| MatchesPage.SkipFor | src/app/matches/page.tsx:21-22 | The skip is a multiple of 10 and counts the matches on the pages before this one. NaN stays NaN. |
| MatchesPage.PageFilters | src/app/matches/page.tsx:20-35 | Limit 10 and the page's skip. Status and city only when non-empty. |
| MatchesPage.PageQueryOk | src/app/matches/page.tsx:20-37 | The service accepts the page's filters iff the page number is at least 1 or did not parse. |
| MatchesPage.ShowPage | src/app/matches/page.tsx:50-51 | At most 10 matches of the requested status and city, with the selected total. There is an error exactly for a page below 1. |
| MatchesPage.Render | src/app/matches/page.tsx:45-51 | A visitor without a session is redirected before anything is queried. Anyone else sees the parsed page number, which defaults to 1. |
| MatchesPage.PageSkipRoundTrip | src/app/matches/page.tsx:20-22 | For page n >= 1, the route's page formula applied to `(n-1)*10` gives n back. |
| MatchesPage.PageNumberOf | src/app/matches/page.tsx:20 | `?page=n` is read as n. |
| MatchesPage.PageParamRoundTrip | src/app/matches/page.tsx:20-22 | From `?page=n` to the skip and back to the route's page number gives n. |
| AvailablePlayers.QueryErrors | src/app/api/players/available/route.ts:9-14 | No error iff latitude and longitude are given. |
| AvailablePlayers.DistanceOf | src/app/api/players/available/route.ts:12 | A missing distance is 10. Without a "0x" prefix the distance reads as in base 10. |
| AvailablePlayers.HexDistances | src/app/api/players/available/route.ts:12 | `?distance=0x14` asks for 20 km, and `?distance=0x` is NaN. |
| AvailablePlayers.Selection | src/app/api/players/available/route.ts:56-91 | The players kept are exactly those that pass every condition, in the collection's order. The conditions: role player; available until after now; the position, if one is given; a known location within the distance; not the requester. |
| AvailablePlayers.Output | src/app/api/players/available/route.ts:92-98 | An entry has the id, name, preferred positions and availability end. Its maximum distance defaults to 10 when missing or 0. |
| AvailablePlayers.OutputAll | src/app/api/players/available/route.ts:92-98 | One entry per player, in order. |
| AvailablePlayers.Get | src/app/api/players/available/route.ts:32-117 | No session gives 401. A missing coordinate gives 400. Otherwise the reply lists the selected players. |
| AvailablePlayers.NaNDistanceListsNobody | src/app/api/players/available/route.ts:89-90 | A distance that does not parse lists nobody. |
| AvailablePlayers.RequesterNotListed | src/app/api/players/available/route.ts:90 | The requester is never in their own search. |
| MapPage.IdOrObjectId | src/app/matches/map/page.tsx:20 | The result is `id` when it is non-empty, otherwise `_id`. |
| MapPage.RefString | src/app/matches/map/page.tsx:32-43 | A string reference is kept. A populated one gives its `id`, or else its `_id`. |
| MapPage.RefStrings | src/app/matches/map/page.tsx:32-37 | The roster keeps its length and order. |
| MapPage.DateString | src/app/matches/map/page.tsx:21-45 | A date becomes its ISO string. Any other value passes through. |
| MapPage.SerializeMatch | src/app/matches/map/page.tsx:18-47 | Id, dates, rosters and creator are normalised. Location, status and scores are copied. |
| MapPage.SerializeStored | src/app/matches/map/page.tsx:18-47 | For a stored match, the client gets the rosters, creator, status, date, location and scores back. The id is the stored `id` path whenever that is set. |
| MapPage.NewMatchIdMissesLookup | src/app/matches/map/page.tsx:20 | As written, a new match's map id is its `id` path default, and looking that id up by key finds nothing. |
| MapPage.SerializeKeyed | src/app/matches/map/page.tsx:18-47 | Corrected, the id is the `_id` key when there is one. Everything else is as `serializeMatch` gives it. |
| MapPage.MapSource | src/app/matches/map/page.tsx:49-64 | At most the first ten scheduled matches, by date. |
| MapPage.ScheduledOnly | src/app/matches/map/page.tsx:54-56 | The map's filter lets only scheduled matches through. |
| MapPage.SerializeAll | src/app/matches/map/page.tsx:59 | Corrected, one serialised match per match, in order, each carrying its key as id and its status name. |
| MapPage.MapMatches | src/app/matches/map/page.tsx:49-64 | Corrected, those matches are serialised in order with their keys as ids, all scheduled. |
| MapPage.MapIdsFindTheirMatch | src/app/matches/map/page.tsx:49-64 | Corrected, every id on the map finds its match by key. |
| PlayersList.PositionColor | src/components/players/AvailablePlayersList.tsx:130-138 | GK, DEF, MID and FWD each get their own colour. Everything else is gray. |
| PlayersList.ColorIdentifiesPosition | src/components/players/AvailablePlayersList.tsx:130-138 | Two positions share a badge colour iff they are the same position or neither is GK, DEF, MID or FWD. |
| PlayersList.Split | src/components/players/AvailablePlayersList.tsx:150-151 | The result is whole hours and leftover minutes, with minutes in 0..59. |
| PlayersList.ShowRoundTrip | src/components/players/AvailablePlayersList.tsx:153-157 | Every label reads back as the hours and minutes it shows. |
| PlayersList.LeftLabel | src/components/players/AvailablePlayersList.tsx:150-157 | The label of a span still to come reads back as its hours and minutes. |
| PlayersList.FormatTimeRemaining | src/components/players/AvailablePlayersList.tsx:140-158 | "Unknown" without a date. "No longer available" once the date has passed. Otherwise the hours and minutes left. An unparsable date gives NaN minutes. |
| PlayersList.FormatReadsBack | src/components/players/AvailablePlayersList.tsx:140-158 | A label reads back as a count exactly when the date lies ahead, and then as the time still to go. |
| PlayersList.MinutesOfSplit | src/components/players/AvailablePlayersList.tsx:150-151 | Hours times 60 plus minutes is the total whole minutes. |
| PlayersList.SameLabelSameMinute | src/components/players/AvailablePlayersList.tsx:150-157 | Two spans get the same label iff they hold the same number of whole minutes. |
| PlayersList.SearchParams | src/components/players/AvailablePlayersList.tsx:74-83 | The query always has latitude, longitude and distance. It has a position only when one is selected. |
| PlayersList.Lookup | src/app/api/players/available/route.ts:47 | A value is found iff some pair has the name. |
| PlayersList.LookupLast | src/app/api/players/available/route.ts:47 | The value found is the last one given under the name. |
| PlayersList.SearchQuery | src/components/players/AvailablePlayersList.tsx:74-86 | The route reads back every parameter the list sets. |
| PlayersList.SearchReachesRoute | src/components/players/AvailablePlayersList.tsx:74-86 | What the list sends passes the route's schema. The distance parses back. The position filter is on exactly when a position is selected. |
| PlayersList.AfterFetch | src/components/players/AvailablePlayersList.tsx:86-101 | On success, the players with no error. Otherwise the previous players and the route's message, or the fallback message. |
| PlayersList.SearchOutcome | src/components/players/AvailablePlayersList.tsx:86-101 | A signed-in search shows the route's players. Without a session, it shows "Authentication required". |
| AvailabilityToggle.Initial | src/components/availability/PlayerAvailabilityToggle.tsx:33-42 | Defaults: not available, 2 hours, 10 km, no positions, no location. A falsy stored distance is replaced. |
| AvailabilityToggle.TogglePosition | src/components/availability/PlayerAvailabilityToggle.tsx:70-78 | Membership of the position flips. A new position goes at the end, and a selected one is removed everywhere. Every other position keeps its number of occurrences. |
| AvailabilityToggle.ToggleTwiceRestores | src/components/availability/PlayerAvailabilityToggle.tsx:70-78 | Selecting and deselecting a position restores the list. |
| AvailabilityToggle.ToggleTwiceMovesToEnd | src/components/availability/PlayerAvailabilityToggle.tsx:70-78 | Deselecting and reselecting moves the position to the end, once. |
| AvailabilityToggle.HandleToggle | src/components/availability/PlayerAvailabilityToggle.tsx:80-101 | Turning on without a location only asks for one. Otherwise the request is built as follows. `isAvailable` is negated. It ends `duration` hours from now. Positions and location are sent only when there are any. |
| AvailabilityToggle.AfterResponse | src/components/availability/PlayerAvailabilityToggle.tsx:112-124 | The switch flips only on success, with the matching notice. A failure keeps it and shows the route's message or the fallback. |
| AvailabilityToggle.SwitchMatchesRequest | src/components/availability/PlayerAvailabilityToggle.tsx:95-117 | After success, the switch shows what the request asked for. |
| AvailabilityToggle.TurnOnSends | src/components/availability/PlayerAvailabilityToggle.tsx:82-101 | Turning on with a location sends a request for that location. |
| Text.NatToStringRoundTrip | src/components/players/AvailablePlayersList.tsx:154-156 | A printed number reads back as itself. |
| Text.ParseInt | src/app/api/matches/route.ts:31-36 | `parseInt` gives a number iff digits follow the white space and optional sign. |
| Text.IntToStringRoundTrip | src/app/matches/page.tsx:20 | Every printed integer is read back by `parseInt` as itself. |
| Text.ParseIntAnyRadix | src/app/api/players/available/route.ts:12 | `parseInt` without a radix reads as base 10 unless a "0x" or "0X" prefix follows the sign. With the prefix it gives a number iff a hexadecimal digit follows, negated for a minus sign. |
| Text.HexPrefixReadsHex | src/app/api/players/available/route.ts:12 | After "0x", the longest run of hexadecimal digits is read in base 16. |
| Text.IntToStringReadsBackAnyRadix | src/app/api/players/available/route.ts:12 | A printed integer never has the hexadecimal prefix, so the radix-less `parseInt` reads it back as itself. |
| Text.Trim | src/models/user.ts:61 | The result is the middle of the string, and everything dropped around it is white space. |
| Text.TrimIdempotent | src/models/user.ts:61 | Trimming twice is trimming once. |
| Text.ToLowerIdempotent | src/models/user.ts:72 | Lower-casing twice is lower-casing once. |
| Text.Utf16Length | src/models/user.ts:62 | The length in code units lies between the number of characters and twice that. It equals the number of characters iff every character is in the Basic Multilingual Plane, and twice that iff none is. |
| Text.Utf16Encode | src/models/user.ts:62 | The encoding has exactly `Utf16Length` code units, each below 0x10000. |
| Text.Utf16RoundTrip | src/models/user.ts:62 | The code units decode back to the string. |
| Text.EmojiCountsTwice | src/app/api/users/register/route.ts:9 | One emoji is one character but two code units. |
| Validation.ValidationMessage | src/models/rating.ts:43-68 | A validation error's message starts with the model name and " validation failed: ". |
| Validation.OneRequiredMessage | src/models/match.ts:32 | A single missing required path gives "<model> validation failed: <path>: Path `<path>` is required." |
| Listing.Filter | src/services/match.service.ts:101 | The result holds exactly the accepted documents, in their order. |
| Listing.SortBy | src/services/match.service.ts:103 | The result is a reordering of the input with keys that never decrease. |
| Listing.Window | src/services/match.service.ts:104-105 | A negative skip is refused. Otherwise the result is the run starting at `skip`, with limit 0 meaning no limit. |
| Listing.PageRank | src/services/match.service.ts:103-105 | With distinct keys, the k-th document of a sorted page has exactly `skip + k` documents with a smaller key. |

## Left out

- Each collection is a sequence in insertion order, not a keyed map. The order stands in for the data layer's natural order, which decides ties in a sort. Ids are unique by invariant.
- `populate`, `lean` and `maxTimeMS` are not modelled. Lookups return stored records without populated references.
- RegisterRoute.Login and RegisterRoute.LoginOfFound model the `authorize` callback of the NextAuth credentials route (lines 68-93 of `route.ts` under `src/app/api/auth/`, in the catch-all `nextauth` directory). The table cites `comparePassword`, the call that callback ends in, because the catch-all directory name cannot be written as a table path. Sessions, JWT callbacks and cookies are not modelled.
- Connection setup (`dbConnect`) is not modelled, nor is the "buffering timed out" message of `getMatches`.
- MatchService.IndexOf, RatingService.IndexOf, RatingService.CreateRating and RatingService.DeleteRating: a malformed id string makes `findById` (src/services/rating.service.ts:16, 172) or `deleteOne({ _id })` (src/services/rating.service.ts:198) throw a cast error; the model reports "not found" instead, because ids are plain strings here.
- MatchService.JoinMatch: the check-then-save race between two concurrent joins is not modelled. The model is sequential and claims no atomicity.
- Retry.WithRetry: the sleeping and the console log are not modelled. The waits are returned, not slept.
- The services are modelled without `withRetry` around them. Retry.RetryOfDeterministic shows that retrying a deterministic operation gives the single-run outcome.
- RatingModel.Tenths: the program divides in binary floating point, so an exact half can print one tenth lower (7/20 prints "0.3"; the model gives 4 tenths). The model rounds the exact quotient.
- RatingModel.ValidateRating: skills are integers. The schema accepts any number in 1..10, such as 7.5.
- UserModel.Compare: bcrypt is symbolic. A hash records its input and cost, salts are not modelled, and no collision is possible.
- UserModel.SavePassword: only the password path is validated on a re-save. The other paths are unmodified, and the model takes a stored user to pass their validators already.
- UserModel.EmailIssues: the e-mail pattern is a parameter. So is the request schema's e-mail check (RegisterRoute.EmailErrors).
- Text.IsSpace: only the ASCII white space, no-break space and byte-order mark are trimmed. The other Unicode separators that `trim` removes are not.
- Text.ToLower: only ASCII letters are lower-cased.
- Text.ParseInt: digits beyond ASCII are not modelled. This is `parseInt(s, 10)`, which reads "0x14" as 0. The radix-less call of the available-players route is Text.ParseIntAnyRadix, which honours the prefix.
- RegisterRoute.RegisterWith: the user is created through the base user model with the role as given. No player fields or defaults apply. The model does not cover the case where the data layer instead refuses a role value that names no registered discriminator: the discriminators are named "Player", "Team" and "Scout", but the role values are lower case.
- The `/api/users/[id]/availability` route, which stores what the switch sends, is not part of this model.
- AvailablePlayers.Get: there is no 500 path. The in-memory collection query cannot fail.
- AvailablePlayers.Selection: the Haversine distance is a parameter, as is `parseFloat`.
- AvailabilityToggle.HandleToggle: `setHours(getHours() + duration)` works in local time. The model adds `duration` hours of milliseconds, which differs across a daylight-saving change.
- AvailabilityToggle: toasts, the loading flag, the geolocation prompt and React effects are not modelled.
- PlayersList: `handleInvitePlayer` and the invite route are not modelled. Percent-encoding of the query string is not modelled; a parameter list stands in for it.
- `new Date(str)`, `toISOString` and number-to-string conversion of coordinates are parameters.
- Page rendering, maps, navigation and form components are UI and are not modelled.
- MatchService.GetMatchById: the "Failed to get match" error of a failing query is not modelled.
- Validation: the messages follow the templates of current Mongoose releases. The modelled files do not pin the Mongoose version.
- Validation: a cast error other than an invalid date (a skill that is not a number, say) cannot arise, because the model's fields are typed.
- Text.Utf16Length: a Dafny string holds Unicode scalar values, so a lone surrogate, which a JavaScript string may hold, cannot be written. Text.Utf16Decode reads one as U+FFFD.
- RatingService.GetPlayerRatings and RatingService.GetMatchRatings return stored records. A lean rating's `id` is its own `id` path (`idPath` here), not its key.
- `updateMatchStatus` does not log a warning for an out-of-order transition, and the model follows the code. The same holds for registration, where no discriminator is chosen by role.

## Findings

| source | as written | input that shows it | evidently intended | confidence | as-written member | corrected member |
|---|---|---|---|---|---|---|
| src/app/api/users/register/route.ts:53-61 | The route hashes the password with cost 12. The user schema's pre-save hook (src/models/user.ts:97-101) then hashes that hash again. | Any successful registration, e.g. password "secret1". Signing in with "secret1" answers "Invalid password". | The password is hashed once, so the registered password signs in. | high; not executed | RegisterRoute.RegisterAsWritten, RegisterRoute.AsWrittenLoginFails | RegisterRoute.Register, RegisterRoute.RegisteredUserLogsIn |
| src/services/rating.service.ts:61-63 | Sorting by "rating" sorts on `averageRating`, a virtual (src/models/rating.ts:103-115) that is not stored. Every document has the same missing key, so the sort does nothing. | Two ratings of one player: all skills 9 stored first, all skills 2 second. With sortBy "rating", order "asc" and limit 0, the 9.0 rating comes first. | The ratings are ordered by their average. | medium; not executed | RatingService.GetPlayerRatingsAsWritten, RatingService.SortByRatingIgnored | RatingService.GetPlayerRatings, RatingService.PlayerRatingsOrder |
| src/app/matches/map/page.tsx:20 | `serializeMatch` prefers `match.id`. On a lean document that is the schema's own `id` path (src/models/match.ts:16), which defaults to a fresh object id unrelated to `_id`. The map passes this id to the details and join actions (src/components/maps/MatchMapView.tsx:266-283). Those look matches up by `_id` (src/services/match.service.ts:55, 135). | A new match whose `_id` is "Y" and whose `id` path default is "X". The map shows id "X", and `getMatchById("X")` is null. | The map hands out the `_id` that the lookups use. | medium; not executed | MapPage.SerializeStored, MapPage.NewMatchIdMissesLookup | MapPage.SerializeKeyed, MapPage.MapIdsFindTheirMatch |
