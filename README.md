# Zero Scroll backend — a verified model of its core

Zero Scroll is a focus timer. Users keep a list of tasks and run timed work
sessions on them, and an analytics endpoint reports the focus minutes per
day. This project models the logic under its HTTP handlers and proves
properties of it in Dafny:

- **Input validators** (`Validation`). These are the password-strength rule
  and the email pattern, each proved equal to a declarative statement of
  what its regular expressions accept.
- **Access-token middleware** (`AccessToken`). It takes the bearer token
  out of the `Authorization` header, with the 401/403 outcomes. On success
  it records the caller and calls `next` exactly once.
- **Task and session stores** (`Tasks`, `TaskController`, `Sessions`,
  `SessionController`). These are tables of owned documents:
  - Every read and write is filtered by id and by owner, and a document of
    another user is reported like a missing one.
  - Every list handler returns exactly the matching documents, each once,
    in the order its `.sort()` asks for.
  - A session is stopped at most once.
- **Focus-consistency analytics** (`Analytics`). This covers the
  match/group/sum aggregation and the zero-fill loop. The report is proved
  to hold exactly `days` consecutive days that end today. As written, the
  `$match` compares the stored ObjectId `userID` with the string id of the
  access token, so every day reports 0 (see Findings). With the id
  converted, each day carries the sum of the minutes counted on it.
- **Account handlers** (`Users`, `AuthController`, `LegacyAuth`). Each is a
  guard sequence over a user table with unique emails, for:
  - signup, login, email verification and resending it;
  - token refresh;
  - forgotten, reset and changed passwords;
  - account deletion.

  `AuthController` is `src/controllers/authController.js`, and `LegacyAuth`
  is the older router `src/routes/auth.js`, modelled as its code intends
  (see "## Left out").

Some things are inputs to the model rather than part of it:
- **Time**: integer milliseconds since the epoch, passed to each handler
  as `now`. A calendar day is the integer `t / 86400000`.
- **bcrypt and jsonwebtoken**: the uninterpreted functions of a `Crypto`
  value. A signed token is modelled by its claims (kind, user, lifetime).
- **Request fields**: `Option` values. JavaScript falsiness (`!field`)
  holds for a missing field and for the empty string.

The Mongoose models become classes with a `rows` map from id to document
and a `nextId` counter. Each class keeps the invariant that every document
is stored under its own id. The user table also keeps the unique index on
`email`.

## Model

| member | source | states |
|---|---|---|
| Validation.IsValidPassword | src/utils/validation.js:1-8 | accepted exactly when the JavaScript length is at least 10 and the password holds an ASCII lower-case letter, an upper-case letter, a digit and a character outside `[a-zA-Z0-9]`; the copies in src/controllers/authController.js:12-19 and src/routes/auth.js:13-20 are the same rule |
| Validation.ContainsClass | src/utils/validation.js:3-6 | a `/[class]/.test` is true exactly when some character of the string lies in the class |
| Validation.Utf16Length | src/utils/validation.js:2 | `length` counts UTF-16 code units: between the character count and twice it |
| Validation.StrongPasswordAccepted | src/utils/validation.js:1-8 | `Abcdefgh1!` is accepted |
| Validation.NoUpperCaseRejected | src/utils/validation.js:4 | `abcdefgh1!`, which has no upper-case letter, is refused |
| Validation.NineCharactersRejected | src/utils/validation.js:2 | `Abcdefg1!`, nine characters inside the Basic Multilingual Plane, is refused by the length rule |
| Validation.AstralCharactersCountTwice | src/utils/validation.js:2 | seven characters pass the length rule when three lie outside the Basic Multilingual Plane |
| Validation.IsValidEmail | src/utils/validation.js:10-12 | an accepted address has at least five characters and begins and ends with a character that is neither whitespace nor `@` |
| Validation.EmailMatchesPattern | src/utils/validation.js:10-12 | `isValidEmail` holds exactly when the string is a non-empty local part, `@`, a non-empty domain, `.`, and a non-empty last part, none holding whitespace or `@` |
| Validation.ValidEmailHasOneAt | src/utils/validation.js:11 | an accepted address holds no whitespace and exactly one `@` |
| Validation.MultiDotDomainAccepted | src/utils/validation.js:11 | `a@b.c.d` is accepted |
| Validation.EdgeDotRejected | src/utils/validation.js:11 | `a@.b` and `a@b.` are refused |
| Validation.MissingPartsRejected | src/utils/validation.js:11 | `a@b` and `@b.c` are refused |
| Validation.SecondAtRejected | src/utils/validation.js:11 | `a@b@c.d` is refused |
| AccessToken.Split | src/middleware/verifyAccessToken.js:11 | `split(" ")` gives at least one piece, no piece holds a space, and there is exactly one piece when the string holds no space |
| AccessToken.BearerToken | src/middleware/verifyAccessToken.js:11 | `split(" ")[1]` is defined exactly when the header holds a space, and then holds no space itself |
| AccessToken.SplitJoin | src/middleware/verifyAccessToken.js:11 | joining the pieces with the separator gives back the header |
| AccessToken.JoinSplit | src/middleware/verifyAccessToken.js:11 | splitting the join of separator-free pieces gives back the pieces |
| AccessToken.BearerTokenIsSecondField | src/middleware/verifyAccessToken.js:11 | the token is exactly the text between the first space and the next space or the end |
| AccessToken.NoSpaceNoToken | src/middleware/verifyAccessToken.js:11-14 | a header without a space yields no token |
| AccessToken.SchemeAndToken | src/middleware/verifyAccessToken.js:11 | `Bearer abc` yields `abc` |
| AccessToken.ExtraFieldsIgnored | src/middleware/verifyAccessToken.js:11 | `Bearer abc def` yields `abc` |
| AccessToken.DoubleSpaceGivesEmptyToken | src/middleware/verifyAccessToken.js:11-14 | `Bearer  abc` yields the empty token, which is refused |
| AccessToken.VerifyAccessToken | src/middleware/verifyAccessToken.js:6-22 | a missing header or token gives 401 and a failed verification 403, in each case leaving the request alone; otherwise `userID` is the decoded id and `next` runs exactly once |
| Common.WithinDayBounds | src/controllers/taskController.js:124-127 | a timestamp lies between 00:00:00.000 and 23:59:59.999 of a day exactly when it falls on that day |
| Query.SortBy | src/controllers/sessionController.js:37-38 | a `.sort()` returns the same documents, ordered by the key |
| Query.Find | src/controllers/taskController.js:33-35 | a `find(filter).sort(key)` returns every matching document of the table exactly once, ordered by the key |
| Tasks.Updated | src/controllers/taskController.js:77-83 | an update keeps the id and creation time, and an empty body changes nothing |
| Tasks.TaskTable.FindOne | src/controllers/taskController.js:53 | finds a task exactly when it exists and belongs to the owner |
| Tasks.TaskTable.Create | src/controllers/taskController.js:12-20 | adds one open, unscheduled task under a fresh id |
| Tasks.TaskTable.FindOneAndUpdate | src/controllers/taskController.js:77-83 | updates only the owned task with that id, or nothing |
| Tasks.TaskTable.FindOneAndDelete | src/controllers/taskController.js:107 | removes only the owned task with that id, or nothing |
| TaskController.CreateTask | src/controllers/taskController.js:3-27 | a missing or empty title gives 400 and no task; otherwise 201 with one new task holding the caller, the title and the priority, and only these from the body |
| TaskController.GetTasks | src/controllers/taskController.js:29-42 | exactly the caller's tasks, each once, newest first |
| TaskController.GetTask | src/controllers/taskController.js:44-64 | 400 without an id, 404 for a task that is missing or not the caller's, otherwise that task |
| TaskController.UpdateTask | src/controllers/taskController.js:66-96 | 400 without an id, 404 with no change for a task that is not the caller's, otherwise only that task takes the body's fields |
| TaskController.DeleteTask | src/controllers/taskController.js:98-118 | 400 without an id, 404 with no change for a task that is not the caller's, otherwise only that task is removed |
| TaskController.GetTodaysTasks | src/controllers/taskController.js:120-144 | exactly the caller's open tasks scheduled on today's date, each once, earliest first |
| Sessions.Started | src/controllers/sessionController.js:20-24 | a new session belongs to the caller and the task, starts now, and is not completed |
| Sessions.Stopped | src/controllers/sessionController.js:69-71 | a stop sets `completed`, `endTime = now` and the elapsed minutes, and changes no other field |
| Sessions.SessionTable.FindOne | src/controllers/sessionController.js:59 | finds a session exactly when it exists and belongs to the owner |
| Sessions.SessionTable.Create | src/controllers/sessionController.js:20-24 | adds the started session under a fresh id |
| Sessions.SessionTable.Save | src/controllers/sessionController.js:73 | replaces that one session |
| Sessions.SessionTable.FindOneAndDelete | src/controllers/sessionController.js:115 | removes only the owned session with that id, or nothing |
| SessionController.StartSession | src/controllers/sessionController.js:4-31 | 404 with no new session without a task id or for a task that is not the caller's; otherwise 201 and exactly one new session |
| SessionController.GetSessions | src/controllers/sessionController.js:33-48 | exactly the caller's sessions, each once, latest start first |
| SessionController.StopSession | src/controllers/sessionController.js:50-82 | 404 without an id or for a session that is not the caller's, 400 for a completed one, all with no change; otherwise only that session is stopped |
| SessionController.StopTwice | src/controllers/sessionController.js:65-67 | a second stop gets 400, and the end time and duration of the first stop stay |
| SessionController.GetSession | src/controllers/sessionController.js:84-104 | 404 without an id or for a session that is not the caller's, otherwise that session |
| SessionController.DeleteSession | src/controllers/sessionController.js:106-126 | 404 with no change without an id or for a session that is not the caller's, otherwise only that session is removed |
| SessionController.GetTodaysSessions | src/controllers/sessionController.js:128-153 | exactly the caller's completed sessions that ended today, each once, earliest start first |
| SessionController.GetSessionsForTasks | src/controllers/sessionController.js:155-183 | 404 without a task id or for a task that is not the caller's; otherwise exactly the caller's sessions on that task, each once, latest start first |
| Analytics.WindowStart | src/controllers/analyticController.js:8-10 | the window of `days` days that starts at `startDate` ends on the day that holds `now` |
| Analytics.Qualifies | src/controllers/analyticController.js:14-18 | a session passes `$match` only when the matched value is its own `userID` as an ObjectId and it started on the window's first day or later |
| Analytics.GroupByDay | src/controllers/analyticController.js:12-34 | no day before the window is grouped, and with the string id that `req.userID` holds nothing is grouped at all |
| Analytics.AfterMidnight | src/controllers/analyticController.js:8-18 | `startTime >= startDate` holds exactly for starts on the window's first day or later |
| Analytics.GroupMatchesTotal | src/controllers/analyticController.js:12-34 | with the caller's id matched as an ObjectId, the grouped sum for a day of the window equals the minutes of the caller's counted sessions that started that day, and no earlier day is grouped |
| Analytics.ZeroFill | src/controllers/analyticController.js:39-48 | exactly `days` entries (none when `days` is not positive) for consecutive days from the first, each with that day's total or 0 |
| Analytics.FocusConsistency | src/controllers/analyticController.js:3-55 | as written: 200 with `days` consecutive entries ending today, each 0, whatever sessions are stored |
| Analytics.FocusConsistencyWithObjectId | src/controllers/analyticController.js:3-55 | with the id converted before `$match`: 200 with `days` consecutive entries ending today, each the minutes counted on its day |
| Analytics.DayTotalSnoc | src/controllers/analyticController.js:20-29 | a session adds its minutes to the total of its own day for its own user, and to no other total |
| Analytics.OthersIgnored | src/controllers/analyticController.js:15 | another user's session never changes the caller's total for a day, the figure the report gives with the id converted |
| Analytics.NothingCountedMeansZero | src/controllers/analyticController.js:16 | when no session has `countsTowardStats` set, every day reports 0 |
| Analytics.ThreeDayWindow | src/controllers/analyticController.js:12-48 | a three-day window with 20 minutes of the caller on its first day, 15 today and another user's 30 in between: the pipeline groups 20, 0 and 15 with the id converted, and nothing (a report of 0, 0, 0) as written |
| Credentials.RefreshCookie | src/controllers/authController.js:106-118 | the refresh cookie carries a 30-day refresh token for the user and has a `maxAge` of the same 30 days in milliseconds |
| Users.UserTable.FindByEmail | src/controllers/authController.js:38 | finds a user exactly when one has that email, and that user is the one stored under its id |
| Users.UserTable.FindById | src/controllers/authController.js:233 | finds a user exactly when the id is stored |
| Users.UserTable.Create | src/controllers/authController.js:46-49 | adds one unverified user with the default timer settings under a fresh id, keeping emails unique |
| Users.UserTable.SetVerified | src/controllers/authController.js:159-163 | sets `verified` of that one user, or changes nothing when the id is unknown |
| Users.UserTable.SetPassword | src/controllers/authController.js:335-339 | replaces the hash of that one user, or changes nothing when the id is unknown |
| Users.UserTable.Remove | src/controllers/authController.js:396 | removes that one user, if present |
| AuthController.Signup | src/controllers/authController.js:21-72 | missing fields, then a weak password, then a registered email give 400 with no change; otherwise one unverified user is created and the reply is 500 with no mail |
| AuthController.SignupTwice | src/controllers/authController.js:38-58 | after the failed signup, a retry is refused as a duplicate and a login cannot succeed |
| AuthController.Login | src/controllers/authController.js:74-125 | 400 for missing fields and the same 400 for an unknown email or a wrong password, 403 when unverified; 200 with a 15-minute access token and the refresh cookie exactly for a verified user with a matching password; the older router's login (src/routes/auth.js:75-127) is the same |
| AuthController.VerifyEmail | src/controllers/authController.js:141-174 | 400 without a token, 401 for a bad one, 404 for an unknown user; otherwise that user alone becomes verified |
| AuthController.VerifyTwice | src/controllers/authController.js:159-169 | verifying again with the same link succeeds and changes nothing more |
| AuthController.ResendVerification | src/controllers/authController.js:176-214 | 400 without an email, 404 for an unknown one, 400 when already verified; otherwise a 10-minute verification link is mailed to that address |
| AuthController.RotateTokens | src/controllers/authController.js:216-268 | 404 without a cookie, 401 for a bad token, 404 for an unknown user, 403 with the cookie cleared for an unverified one; otherwise a new access token and a new refresh cookie for the same user; the older router's refresh (src/routes/auth.js:179-233) has the same guards |
| AuthController.Refresh | src/controllers/authController.js:248-250 | succeeds exactly for a valid refresh token of an existing verified user, and the access token it issues lives 59 minutes |
| AuthController.ForgotPassword | src/controllers/authController.js:270-307 | 404 without an email; 200 for any email, and a 10-minute reset link mailed only to a registered one |
| AuthController.ForgotPasswordRevealsRegistration | src/controllers/authController.js:280-302 | `forgotPassword` answers a registered and an unregistered email both with 200, but with different messages |
| AuthController.ForgotPasswordUniform | src/controllers/authController.js:270-307 | one status and one message for every non-empty email, and the reset link sent exactly when it is registered |
| AuthController.ResetPassword | src/controllers/authController.js:309-350 | 400 for missing fields, then 400 for a weak password, then 401 for a bad token, then 404 for an unknown user, all with no change; otherwise only that user's hash is replaced |
| AuthController.ChangePassword | src/controllers/authController.js:352-391 | 500 for a missing account or a missing current password, then 400 for a wrong current password, then 500 for a missing new password and 400 for a weak one, all with no change; otherwise only the caller's hash is replaced and the cookie cleared |
| AuthController.RefreshSurvivesPasswordChange | src/controllers/authController.js:352-391 | a refresh token issued before a password change still refreshes after it |
| AuthController.DeleteAccount | src/controllers/authController.js:393-409 | only the caller's User document is removed (and the reply is 200 even when there was none); tasks and sessions stay |
| LegacyAuth.Signup | src/routes/auth.js:22-73 | the same guards with no change on refusal; otherwise one unverified user and a 10-minute verification link mailed to that user, with 200 |
| LegacyAuth.VerifyEmail | src/routes/auth.js:143-177 | 400 without a token, 401 (worded as a bad refresh token) for a bad one, 404 with no write for an unknown user; otherwise that user alone becomes verified |
| LegacyAuth.Refresh | src/routes/auth.js:179-233 | succeeds exactly for a valid refresh token of an existing verified user, and the access token it issues lives 15 minutes |
| LegacyAuth.SignupVerifyLogin | src/routes/auth.js:22-127 | a signup, the mailed link and a login with the same password end in a successful login of the new user |

## Left out

- I/O: the database and mail transport are left out. Every `500 Server error` that a failing database call or a failing mail transport would cause is not modelled. Only the 500s that the handlers' own code causes are modelled: the controller's signup, and a change of password for a missing user, a missing current password, or a missing new password after a correct current one.
- Mongo ObjectId cast errors are left out. An id that is not a valid ObjectId makes `findOne`/`findById` throw and the handler answer 500. Ids here are natural numbers, and a missing id is `None`.
- Schema strictness is not modelled. The shown Task schema has no `priority` or `scheduledFor`, and the shown Session schema has no `countsTowardStats` or `actualDuration`. Mongoose's strict mode would drop these fields on write. The model keeps them as record fields because the handlers read and write them.
- No handler sets `countsTowardStats`: a session starts with it false and a stop keeps it. `Analytics.NothingCountedMeansZero` states what this means for the report.
- Floating point is not modelled. The duration `(end - start) / 1000 / 60` is an exact `real`, and the analytics minutes are integers.
- The time zone is abstracted. The code mixes local `setHours` with UTC `toISOString` and `$dateToString`; the model has one integer day per 86,400,000 ms.
- Analytics.GroupMatchesTotal: states the totals of the pipeline with the id converted to an ObjectId, as `Analytics.FocusConsistencyWithObjectId` runs it; the pipeline as written groups nothing (`Analytics.GroupByDay`, `Analytics.FocusConsistency`).
- Analytics.FocusConsistency: `days` is an integer. A `parseInt` that yields `NaN` (an invalid date and an empty report) is not modelled. The `{date, minutes}` entries carry a day index, not the `YYYY-MM-DD` string.
- Tasks.Updated: a field of the update body is either absent or a value. A `null`, which `findOneAndUpdate` stores as sent (`{"scheduledFor": null}` unschedules a task), is not modelled.
- Tasks.Updated: the Task schema's `estimatedTime`, `category` and `tags` are not fields of the model, so an update that writes them is modelled as not changing them.
- Request fields are strings or missing. A JSON body can carry numbers, booleans, arrays and objects, and these are not modelled. An object such as `{"$ne": null}` given as `email` reaches `User.findOne({ email })` as a query operator, so login, resending the verification and the forgotten-password handler would act on whichever account the query returns first. An array of ten one-character strings passes `isValidPassword` through `String` coercion, after which `bcrypt.hash` throws and signup answers 500.
- Email values are compared verbatim. The schema's `trim: true` on `email` is not modelled.
- Cookie attributes (`httpOnly`, `secure`, `sameSite`), the `user` and `userObj` bodies, and `populate` of session tasks are left out. Replies carry the status, the message, the cookie action, the access token and the mail.
- Signing and verifying JWTs, and bcrypt hashing and comparison, are uninterpreted. Token expiry is `verify` returning None. The reset and email links are the token claims, not URLs.
- `logout` (src/controllers/authController.js:127-139, src/routes/auth.js:129-141) is left out. It touches no state: it clears the refresh cookie and answers 200.
- LegacyAuth: the older router is modelled as if `User` were the Mongoose model and cookies were parsed, as `src/app.js` arranges for the controller. As the files stand it would not run that way: src/routes/auth.js is CommonJS and `require`s src/models/User.js, an ES module whose only export is `export default`, so `User.findOne` and `User.findById` are not functions (or the load fails on an older Node); the only entry point that mounts it, src/server.js, installs no cookie parser, so reading `req.cookies.refreshToken` throws; and `User.insertOne` exists only in recent Mongoose releases.
- The older router's `logout` is the same as the controller's. Its `login` differs only in writing `verified == false` for `!verified`, which is the same test on a Boolean, so it is modelled by `AuthController.Login`.
- The middleware assigns the undeclared name `authHeader`. The model reads the file as the CommonJS module it is written as, where that assignment creates a global and the check proceeds.
- Rate limiting (`src/middleware/rateLimiter.js`), the Express wiring in `src/app.js`, `src/server.js` and `src/routes/*Route.js`, and the settings handlers that `authRoute.js` names but `authController.js` does not define are not part of this model. `src/routes/taskRoute.js` mounts no handler, so the task handlers are modelled as controller functions that no route reaches yet.
- Concurrency is left out. Two stops of one session, or two signups with one email, racing each other are not modelled: each handler runs atomically.

## Findings

| source | as written | input that shows it | evidently intended | confidence | as-written member | corrected member |
|---|---|---|---|---|---|---|
| src/controllers/authController.js:57-58 | after `User.create`, the verification mail is addressed to `newUser.email`, and `newUser` is never declared, so the handler throws, answers 500 and sends no mail, while the user stays created | a signup with an unregistered email and the password `Abcdefgh1!` | address the mail to the created `user`, send the link and answer 200, as the older router's code intends | high, not executed | AuthController.SignupTwice | LegacyAuth.Signup |
| src/controllers/authController.js:280-302 | `forgotPassword` answers an unregistered email with "If that email is registered, you'll receive a password reset link" and a registered one with "If that email is registerd, you'll receive an email", so the message reveals whether an account exists | the same request with an email that is registered and with one that is not | one message for both, so that a registered email cannot be told apart | medium, not executed | AuthController.ForgotPasswordRevealsRegistration | AuthController.ForgotPasswordUniform |
| src/controllers/analyticController.js:12-18 | `$match: { userID }` compares the stored ObjectId `userID` with `req.userID`, the hex string the access token carries; an aggregation does not cast its pipeline to the schema's types, so no session matches and every day reports 0 | one counted session of the caller with `actualDuration` 20 that started today, and `days` = 1: the report is `[{today, 0}]` | convert the id to an ObjectId before matching, so each day reports the caller's counted minutes | medium, not executed | Analytics.FocusConsistency | Analytics.FocusConsistencyWithObjectId |
