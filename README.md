# Kanban API: data layer and request handlers

This project models the server side of a small Kanban application: an Express API over one
SQLite database. The model covers:

- the five tables (users, boards, columns, tasks, comments) with their AUTOINCREMENT ids,
  the unique e-mail and the `ON DELETE CASCADE` foreign keys;
- registration and login (bcrypt digests, seven-day JWTs) and the bearer-token middleware;
- the board, column, task and comment handlers, including the task listing with its
  search, sort whitelist, pagination and count;
- the seeding of a first demo data set.

The database is the class `Schema.Database`. It holds one `map<int, Row>` per table and
one high-water counter per table (SQLite's `sqlite_sequence`). Its methods are the SQL
statements the handlers issue. Each method keeps the invariant `Valid()`:

- every row sits under its own id, at or below its table's counter;
- e-mails are unique;
- every foreign key resolves.

Handlers that only read (`GET` routes, login) are functions over the `Schema.Tables`
snapshot. Handlers that write are methods on the database. Each of those returns the
route's answer as a `Result` (the HTTP status is `Api.Status` of the error code) and
states the stored tables exactly: unchanged on every error path, and on success the old
tables with the new row or the cascade applied.

The library calls are modelled as follows:

- zod validation becomes `Zod.Value`/`Zod.Body` checks that report the failing field
  names.
- SQLite's `LIKE` is modelled with both wildcards and ASCII case folding.
- `ORDER BY` is an insertion sort on (key, rowid). `LIMIT`/`OFFSET` follow SQLite's
  rules for negative values.
- bcrypt and HMAC are deterministic stand-ins with the properties the routes rely on:
  a password matches the digest made from it, and a token verifies under its own
  secret until it expires.

Randomness (the bcrypt salt), the clock (`now`), the value of `JWT_SECRET` and request
bodies are parameters.

Every module is one file: `wrappers.dfy`, `api.dfy`, `strings.dfy`, `bcrypt.dfy`,
`jwt.dfy`, `middleware.dfy`, `zod.dfy`, `like.dfy`, `ordering.dfy`, `pagination.dfy`,
`query.dfy`, `schema.dfy`, `auth_routes.dfy`, `boards.dfy`, `columns.dfy`, `tasks.dfy`,
`comments.dfy`, `seed.dfy`.

Behaviour of the code worth noting:

- The task search uses `LIKE`, which ignores ASCII case and treats `%` and `_` in the
  search text as wildcards. It is not a case-sensitive substring test.
- `GET /boards/:boardId/columns` does no existence check, so an unknown board lists no
  columns rather than answering 404.
- `PATCH /tasks/:taskId` stores an empty description as `""`, while creation stores
  `null` for it.
- A task moved to a missing column fails the foreign key and answers 500, not 404.
- Two columns of a board may share a position: the schema has no uniqueness on it, and
  `Schema.Database.InsertColumn` accepts any position.

## Model

| member | source | states |
|---|---|---|
| Api.Status | apps/api/src/auth/routes.ts:28-67 | every error answer is a 4xx or 500 status, and 500 exactly for the internal error |
| Strings.IndexOfFrom | apps/api/src/auth/middleware.ts:12 | the result is the first occurrence of the pattern at or after the start, or none exists |
| Strings.ReplaceFirst | apps/api/src/auth/middleware.ts:12 | `String.replace` with a string pattern: only the first occurrence is replaced; no occurrence leaves the string as it is |
| Strings.ReplaceFirstOfPrefix | apps/api/src/auth/middleware.ts:12 | a header that starts with `Bearer ` loses exactly that prefix |
| Strings.SplitOn | apps/api/src/auth/middleware.ts:22 | splitting always yields at least one piece |
| Strings.SplitJoin | apps/api/src/auth/middleware.ts:22 | splitting the joined pieces (none holding the separator) gives the pieces back |
| Strings.SplitJoinInverse | apps/api/src/auth/middleware.ts:22 | joining the pieces of a split gives the string back |
| Strings.SplitPiecesHaveNoSeparator | apps/api/src/auth/middleware.ts:22 | no piece of a split holds the separator |
| Bcrypt.Hash | apps/api/src/auth/routes.ts:37 | the digest records the cost and the salt it was made with |
| Bcrypt.Compare | apps/api/src/auth/routes.ts:89 | `bcrypt.compare` recomputes the digest with the stored cost and salt; by `Bcrypt.CompareHash` it accepts the password the digest was made from |
| Bcrypt.CompareHash | apps/api/src/auth/routes.ts:89-95 | `bcrypt.compare` accepts the password a digest was made from |
| Jwt.DigitChar | apps/api/src/auth/middleware.ts:34 | a decimal digit encodes its value |
| Jwt.Digits | apps/api/src/auth/middleware.ts:34 | a number's decimal form is non-empty and made of digits |
| Jwt.DigitsValueOfDigits | apps/api/src/auth/middleware.ts:34 | reading a number's decimal form gives the number back |
| Jwt.DigitsHaveNoDot | apps/api/src/auth/middleware.ts:34 | a decimal form never holds the token's separator |
| Jwt.ParseDigits | apps/api/src/auth/middleware.ts:22 | parsing a decimal form gives the number back |
| Jwt.DecodeEncode | apps/api/src/auth/middleware.ts:22-34 | decoding an encoded token gives back its claims and signature |
| Jwt.Decode | apps/api/src/auth/middleware.ts:22 | reads a token as four dot-separated decimals, `None` for any other shape; by `Jwt.DecodeEncode` it gives back the claims and signature of every encoded token |
| Jwt.Sign | apps/api/src/auth/middleware.ts:34 | the token decodes to the user id, issue time `now`, expiry `now` plus the lifetime, and the signature of those claims under the secret |
| Jwt.Verify | apps/api/src/auth/middleware.ts:22 | `jwt.verify` yields the user id exactly when the token is well formed, its signature matches the secret and `now` is before `exp` |
| Jwt.SignThenVerify | apps/api/src/auth/middleware.ts:22-34 | a signed token verifies under the same secret to its user id until it expires, and not after |
| Jwt.WrongSecretRefused | apps/api/src/auth/middleware.ts:22 | a token signed under another secret (with a different signature) is refused |
| Middleware.JwtSecret | apps/api/src/auth/middleware.ts:5 | the secret is `JWT_SECRET` when set and non-empty, otherwise the built-in default, never empty |
| Middleware.GenerateToken | apps/api/src/auth/middleware.ts:33-35 | the token verifies to the user id at the time it is issued |
| Middleware.ExtractToken | apps/api/src/auth/middleware.ts:12 | the optional chain yields a token exactly when there is a header |
| Middleware.Authenticate | apps/api/src/auth/middleware.ts:11-31 | no or empty token answers "No token provided"; otherwise the user id when the token verifies, else "Invalid or expired token" |
| Middleware.BearerTokenAccepted | apps/api/src/auth/middleware.ts:11-35 | a header `Bearer <generated token>` authenticates its user for seven days, then is refused as expired |
| Middleware.HeaderWithoutBearer | apps/api/src/auth/middleware.ts:12 | a header without `Bearer ` is taken whole as the token |
| Middleware.BearerRemovedInside | apps/api/src/auth/middleware.ts:12 | only the first `Bearer ` is removed, wherever it stands |
| Middleware.AuthRequest.AuthMiddleware | apps/api/src/auth/middleware.ts:11-31 | answers as `Authenticate`; on success sets `req.userId` to the user id, otherwise leaves it |
| Zod.Get | apps/api/src/auth/routes.ts:25 | a field missing from the body reads as undefined |
| Zod.StringIssues | apps/api/src/auth/routes.ts:19 | `z.string()` raises no issue exactly for a string, else one |
| Zod.StringMinIssues | apps/api/src/auth/routes.ts:13-14 | `z.string().min(k)` raises no issue exactly for a string of length at least k, else one |
| Zod.EmailIssues | apps/api/src/auth/routes.ts:12 | `z.string().email()` raises no issue exactly for a string that is a valid address, else one |
| Zod.IntIssues | apps/api/src/routes/tasks.ts:112 | `z.number().int()` raises no issue exactly for an integral number, else one |
| Zod.IntMinIssues | apps/api/src/routes/boards.ts:51 | `z.number().int().min(k)` raises no issue exactly for an integer at least k, two exactly for a non-integer below k, and one for a non-number |
| Zod.EnumIssues | apps/api/src/routes/tasks.ts:64 | `z.enum(options)` raises no issue exactly for one of the options, else one |
| Zod.Optional | apps/api/src/routes/tasks.ts:63 | `.optional()` raises nothing for an absent field and the inner issues otherwise |
| Zod.Issues | apps/api/src/auth/routes.ts:56-62 | each issue names its field |
| Zod.ToInt | apps/api/src/routes/boards.ts:51 | an integral number converts to the same integer |
| Zod.EmailHasOneAt | apps/api/src/auth/routes.ts:12 | a valid address has exactly one `@`, neither first nor last |
| Zod.SimpleAddressValid | apps/api/src/auth/routes.ts:12 | `local@name.tld` with well-formed parts is a valid address |
| Zod.DemoAddressValid | apps/api/src/db/seed.ts:18 | the demo account's address passes the e-mail check |
| Zod.JohnAddressValid | apps/api/src/db/seed.ts:19 | the second account's address passes the e-mail check |
| Zod.NoAtRefused | apps/api/src/auth/routes.ts:12 | a string without `@` is not a valid address |
| Like.Like | apps/api/src/routes/tasks.ts:27-29 | SQLite `LIKE`: `%` matches any run, `_` any one character, other characters ignore ASCII case; its properties are the `Like` lemmas below |
| Like.LiteralMatchesFoldEq | apps/api/src/routes/tasks.ts:27-29 | a pattern without wildcards matches exactly the texts equal to it up to ASCII case |
| Like.PercentMatchesAll | apps/api/src/routes/tasks.ts:27-29 | the pattern `%` matches every text |
| Like.LiteralPrefix | apps/api/src/routes/tasks.ts:27-29 | a wildcard-free pattern followed by `%` matches exactly the texts that start with it, ignoring ASCII case |
| Like.LeadingPercent | apps/api/src/routes/tasks.ts:27-29 | a leading `%` matches when the rest matches some suffix |
| Like.SearchPatternIsContainment | apps/api/src/routes/tasks.ts:27-29 | `%s%` with a wildcard-free s matches exactly the texts containing s, ignoring ASCII case |
| Ordering.TextLessIrreflexive | apps/api/src/routes/tasks.ts:35 | no text sorts before itself |
| Ordering.TextLessAsymmetric | apps/api/src/routes/tasks.ts:35 | two texts never sort before each other |
| Ordering.TextLessTransitive | apps/api/src/routes/tasks.ts:35 | text order is transitive |
| Ordering.TextLessTotal | apps/api/src/routes/tasks.ts:35 | of two different texts one sorts first |
| Ordering.KeyLessIsStrictTotal | apps/api/src/routes/tasks.ts:35 | the order on sort keys (numbers before texts) is a strict total order |
| Ordering.PrecedesIsStrictTotal | apps/api/src/routes/tasks.ts:35 | ranking by key and rowid, ascending or descending, is a strict total order |
| Ordering.NotAfterTransitive | apps/api/src/routes/tasks.ts:35 | "not after" is transitive |
| Ordering.Insert | apps/api/src/routes/tasks.ts:35 | insertion adds exactly the one element |
| Ordering.SortBy | apps/api/src/routes/tasks.ts:35 | `ORDER BY` returns a permutation of its input |
| Ordering.InsertSorted | apps/api/src/routes/tasks.ts:35 | insertion into a sorted sequence keeps it sorted |
| Ordering.SortBySorted | apps/api/src/routes/tasks.ts:35 | the result of `ORDER BY` is sorted by its rank |
| Ordering.SortByMembers | apps/api/src/routes/tasks.ts:35 | `ORDER BY` keeps exactly the input's elements |
| Ordering.PriorityTextOrder | apps/api/src/routes/tasks.ts:33-35 | `ORDER BY priority DESC` compares texts: medium, then low, then high |
| Pagination.PageOf | apps/api/src/routes/tasks.ts:14 | `parseInt(page) \|\| 1`: the given page unless absent or 0, then 1 |
| Pagination.LimitOf | apps/api/src/routes/tasks.ts:15 | `parseInt(limit) \|\| 10`: the given limit unless absent or 0, then 10 |
| Pagination.Offset | apps/api/src/routes/tasks.ts:17 | `(page - 1) * limit`, never negative for a page of at least 1 and a non-negative limit |
| Pagination.OffsetSteps | apps/api/src/routes/tasks.ts:17 | page 1 starts at offset 0, and each page starts `limit` rows after the previous one |
| Pagination.TotalPages | apps/api/src/routes/tasks.ts:55 | `Math.ceil(total / limit)`: the least page count whose pages hold the total, for either sign of limit |
| Pagination.TotalPagesBounds | apps/api/src/routes/tasks.ts:55 | with a positive limit the page count is non-negative and zero exactly for an empty listing |
| Pagination.PagesArePrefix | apps/api/src/routes/tasks.ts:17-35 | the first n pages, one after the other, are the first n*limit rows |
| Pagination.PagesCoverListing | apps/api/src/routes/tasks.ts:35-55 | pages 1 to `totalPages` together are the whole listing |
| Query.Select | apps/api/src/routes/tasks.ts:19-24 | a rowid scan with a filter returns exactly the stored rows the filter keeps |
| Query.SelectCount | apps/api/src/routes/tasks.ts:41-47 | the scan returns one row per rowid the filter keeps |
| Query.SelectNone | apps/api/src/routes/comments.ts:14-20 | a scan whose filter keeps no row returns nothing |
| Query.SelectSameFilter | apps/api/src/routes/tasks.ts:19-29 | two filters that agree on every stored row select the same rows |
| Query.Join | apps/api/src/routes/boards.ts:16-21 | an inner join pairs each row with the parent its key names, and drops a row only when that parent is missing |
| Query.JoinAllResolve | apps/api/src/routes/comments.ts:14-20 | when every key resolves, the join keeps the rows in order, one pair each |
| Query.Window | apps/api/src/routes/tasks.ts:35 | `LIMIT ? OFFSET ?` returns at most `limit` rows, the ones from the offset on |
| Query.WindowIsSlice | apps/api/src/routes/tasks.ts:35 | for non-negative limit and offset the window is the slice from the offset |
| Schema.Cascade | apps/api/src/db/index.ts:33-65 | after the cascade every column, task and comment has its parent, and users, boards and counters are untouched |
| Schema.LiveColumns | apps/api/src/db/index.ts:42 | keeps exactly the columns whose board exists |
| Schema.LiveTasks | apps/api/src/db/index.ts:54 | keeps exactly the tasks whose column exists |
| Schema.LiveComments | apps/api/src/db/index.ts:64 | keeps exactly the comments whose task exists |
| Schema.DeleteBoardRows | apps/api/src/db/index.ts:33-64 | deleting a board leaves a consistent store consistent |
| Schema.DeleteColumnRows | apps/api/src/db/index.ts:42-64 | deleting a column leaves a consistent store consistent |
| Schema.DeleteTaskRows | apps/api/src/db/index.ts:54-64 | deleting a task leaves a consistent store consistent |
| Schema.DeleteBoardCascades | apps/api/src/db/index.ts:42-64 | deleting a board removes it, its columns, their tasks and their comments, and keeps every other row as it was |
| Schema.DeleteColumnCascades | apps/api/src/db/index.ts:54-64 | deleting a column removes it, its tasks and their comments, and keeps every other row |
| Schema.DeleteTaskCascades | apps/api/src/db/index.ts:64 | deleting a task removes it and its comments, and keeps every other row |
| Schema.DeleteAbsentIsNoop | apps/api/src/routes/columns.ts:76 | deleting an id that is not stored changes nothing |
| Schema.CascadeOfConsistentIsIdentity | apps/api/src/db/index.ts:15 | with foreign keys enforced the cascade has nothing to remove |
| Schema.ApplyColumnSets | apps/api/src/routes/columns.ts:41-44 | `UPDATE columns SET ...` never changes a column's id, board or creation time |
| Schema.ApplyTaskSets | apps/api/src/routes/tasks.ts:149 | `UPDATE tasks SET ...` never changes a task's id, creator or creation time, and moves it only to a column it was told to |
| Schema.Database.Open | apps/api/src/db/index.ts:1-15 | a new database file has no schema and no rows |
| Schema.Database.InitDatabase | apps/api/src/db/index.ts:18-73 | `CREATE TABLE IF NOT EXISTS`: a new store gets empty tables, an existing one is kept as it was |
| Schema.Database.InsertUser | apps/api/src/db/index.ts:20-26 | a taken e-mail is refused with nothing changed; otherwise the user is stored under the next id, above every earlier id |
| Schema.Database.InsertBoard | apps/api/src/db/index.ts:28-34 | an unknown owner fails the foreign key with nothing changed; otherwise the board is stored under the next id |
| Schema.Database.InsertColumn | apps/api/src/db/index.ts:36-43 | an unknown board fails the foreign key with nothing changed; otherwise the column is stored under the next id, at any position |
| Schema.Database.InsertTask | apps/api/src/db/index.ts:45-56 | an unknown column or creator fails the foreign key with nothing changed; otherwise the task is stored under the next id with priority `medium` by default |
| Schema.Database.InsertComment | apps/api/src/db/index.ts:58-66 | an unknown task or author fails the foreign key with nothing changed; otherwise the comment is stored under the next id |
| Schema.Database.UpdateColumn | apps/api/src/db/index.ts:36-43 | the assignments apply to the one stored column; an absent id changes nothing |
| Schema.Database.UpdateTask | apps/api/src/db/index.ts:45-56 | an update that moves the task to a missing column fails the foreign key with nothing changed; otherwise the assignments apply to the one stored task |
| Schema.Database.DeleteBoard | apps/api/src/db/index.ts:33-64 | the board and everything under it are deleted, and the store stays valid |
| Schema.Database.DeleteColumn | apps/api/src/db/index.ts:42-64 | the column, its tasks and their comments are deleted |
| Schema.Database.DeleteTask | apps/api/src/db/index.ts:54-64 | the task and its comments are deleted |
| Schema.Database.DeleteUser | apps/api/src/db/index.ts:33-65 | a user still named by a board, task or comment cannot be deleted (no cascade on those keys); otherwise only that user goes |
| AuthRoutes.ParseRegister | apps/api/src/auth/routes.ts:11-15 | accepts exactly a valid e-mail, a password of at least 6 and a name of at least 2 characters; on failure `details` names a field exactly when its own check fails |
| AuthRoutes.ParseLogin | apps/api/src/auth/routes.ts:17-20 | accepts exactly a valid e-mail and a string password; on failure `details` names a field exactly when its own check fails |
| AuthRoutes.FindUserByEmail | apps/api/src/auth/routes.ts:28 | finds the one user with that e-mail, or none exists |
| AuthRoutes.Register | apps/api/src/auth/routes.ts:23-69 | invalid body: 400 and nothing stored; taken e-mail: 409 and nothing stored; else the new user under the next id, with the hashed password, the public user and a token for it |
| AuthRoutes.Login | apps/api/src/auth/routes.ts:72-121 | invalid body: 400; succeeds exactly when a user has the e-mail and the password matches its digest, answering that user and a fresh token; every other failure is "Invalid email or password" |
| AuthRoutes.LoginFailuresAlike | apps/api/src/auth/routes.ts:81-95 | an unknown e-mail and a wrong password get the same answer |
| AuthRoutes.RegisterThenLogin | apps/api/src/auth/routes.ts:23-121 | after registering, the store stays consistent and logging in with the same e-mail and password answers the new user |
| Boards.GetBoard | apps/api/src/routes/boards.ts:13-31 | the board with its creator's name, or "Board not found" exactly when the join finds no row |
| Boards.GetBoardFound | apps/api/src/routes/boards.ts:13-31 | in a consistent store the board is found exactly when it exists |
| Boards.BoardColumnsFacts | apps/api/src/routes/boards.ts:38-42 | the board's columns are exactly the selected rows, in non-decreasing position |
| Boards.TasksCount | apps/api/src/routes/boards.ts:39 | the `tasks_count` subquery: at most the number of stored tasks, and zero exactly when no stored task is in the column |
| Boards.ListColumns | apps/api/src/routes/boards.ts:34-46 | every listed column belongs to the board, is stored, carries the count of its tasks, and the list is in position order; `Boards.ListColumnsExact` and `Boards.ListColumnsCount` make it exactly the board's columns, each once |
| Boards.ListColumnsExact | apps/api/src/routes/boards.ts:34-46 | every column of the board is listed, and an unknown board lists nothing rather than 404 |
| Boards.ListColumnsCount | apps/api/src/routes/boards.ts:34-46 | in a consistent store the listing has exactly as many entries as the board has columns, so with `Boards.ListColumnsExact` each column appears once |
| Boards.ParseCreateColumn | apps/api/src/routes/boards.ts:49-52 | accepts exactly a non-empty title and an integer position of at least 0; on failure `details` names a field exactly when its own check fails |
| Boards.CreateColumn | apps/api/src/routes/boards.ts:54-80 | invalid body: 400 and nothing stored; unknown board: 500 and nothing stored; else the column stored under the next id is the answer |
| Columns.ParseUpdateColumn | apps/api/src/routes/columns.ts:11-14 | optional title and position with the creation checks; each supplied field is kept; on failure `details` names a field exactly when it is present and fails its check |
| Columns.Patched | apps/api/src/routes/columns.ts:29-44 | the column after `UPDATE columns SET`: by `Columns.PatchedChangesOnlySupplied` exactly the supplied title and position change |
| Columns.PatchedChangesOnlySupplied | apps/api/src/routes/columns.ts:29-39 | a patch changes exactly the supplied fields, an empty patch changes nothing, and patching twice equals patching once |
| Columns.AssignmentsPatch | apps/api/src/routes/columns.ts:29-44 | the collected `SET` assignments give the patched column, and there are none exactly when no field is supplied |
| Columns.UpdateColumn | apps/api/src/routes/columns.ts:16-62 | invalid body: 400; unknown column: 404; each with nothing changed; else the patched column is stored and answered; an empty patch changes nothing |
| Columns.DeleteColumn | apps/api/src/routes/columns.ts:65-78 | unknown column: 404 and nothing changed; else 204 and the column deleted with its tasks and comments |
| Tasks.SortColumnOf | apps/api/src/routes/tasks.ts:16-34 | the sort column is the requested one when whitelisted, else `created_at` |
| Tasks.SortKey | apps/api/src/routes/tasks.ts:34-35 | the `ORDER BY t.<column>` key: the priority text for `priority`, the update time for `updated_at`, the creation time otherwise; by `Tasks.ListingSorted` the listing descends by it |
| Tasks.MatchesSearch | apps/api/src/routes/tasks.ts:27-29 | `title LIKE '%s%' OR description LIKE '%s%'`, where a NULL description matches nothing; by `Tasks.LiteralSearchIsContainment` a wildcard-free search is case-folded containment in either field, and by `Tasks.EmptySearchNoFilter` an empty search filters nothing |
| Tasks.Matching | apps/api/src/routes/tasks.ts:19-29 | every selected task is a stored task of the column that matches the search |
| Tasks.Listing | apps/api/src/routes/tasks.ts:19-35 | every listed view is a matching task with its creator's name |
| Tasks.ListTasks | apps/api/src/routes/tasks.ts:11-58 | the page echoes page and limit, holds at most `limit` tasks, `total` counts the matching tasks and `totalPages` is its ceiling by the limit |
| Tasks.ListTasksContents | apps/api/src/routes/tasks.ts:19-29 | every task of a page belongs to the column and matches the search |
| Tasks.ListingMembers | apps/api/src/routes/tasks.ts:19-35 | the sorted listing holds only matching tasks |
| Tasks.ListTasksTotal | apps/api/src/routes/tasks.ts:41-47 | `total` is the number of stored tasks of the column that match the search |
| Tasks.MatchingCount | apps/api/src/routes/tasks.ts:41-47 | the listing query and the count query see the same rows |
| Tasks.ListingRows | apps/api/src/routes/tasks.ts:19-35 | in a consistent store the listing is the sorted matching tasks, one view each |
| Tasks.ListingLengthIsTotal | apps/api/src/routes/tasks.ts:35-47 | before `LIMIT`/`OFFSET` the listing has exactly `total` rows |
| Tasks.ListingSorted | apps/api/src/routes/tasks.ts:33-35 | the listing is in descending order of the sort column, ties by rowid |
| Tasks.ListTasksSorted | apps/api/src/routes/tasks.ts:33-35 | every page is in descending order of the sort column |
| Tasks.ListByPriorityOrder | apps/api/src/routes/tasks.ts:33-35 | sorted by priority, the page shows medium, then low, then high (text order, not urgency) |
| Tasks.PriorityPlaceFollowsRank | apps/api/src/routes/tasks.ts:33-35 | the descending text rank of priorities places medium before low before high |
| Tasks.EmptySearchNoFilter | apps/api/src/routes/tasks.ts:27-29 | without a search the listing filters by column only |
| Tasks.LiteralSearchIsContainment | apps/api/src/routes/tasks.ts:27-29 | a wildcard-free search matches exactly the tasks whose title or description contains it, ignoring ASCII case |
| Tasks.PagesPartitionListing | apps/api/src/routes/tasks.ts:11-58 | pages 1 to `totalPages`, one after the other, are the whole listing: no task lost or repeated |
| Tasks.PagesUpToIsPages | apps/api/src/routes/tasks.ts:17-35 | the first n pages the handler answers are the first n pages of the listing |
| Tasks.PageIsWindow | apps/api/src/routes/tasks.ts:14-35 | page n holds the `limit` listing rows from offset `(n - 1) * limit` |
| Tasks.ParseCreateTask | apps/api/src/routes/tasks.ts:61-65 | accepts exactly a non-empty title, an optional string description and an optional priority among low, medium, high; keeps them; on failure `details` names a field exactly when its own check fails |
| Tasks.ParseUpdateTask | apps/api/src/routes/tasks.ts:108-113 | the same checks with every field optional, plus an optional integer `column_id`; on failure `details` names a field exactly when it is present and fails its check |
| Tasks.UpdateTaskIssues | apps/api/src/routes/tasks.ts:108-113 | the issues of `updateTaskSchema` name each of the four fields exactly when it is present and fails its check |
| Tasks.StoredDescription | apps/api/src/routes/tasks.ts:78 | `description \|\| null`: an empty or missing description is stored as null |
| Tasks.StoredPriority | apps/api/src/routes/tasks.ts:79 | `priority \|\| 'medium'`: a missing or empty priority is stored as medium, any other is stored as given |
| Tasks.CreateTask | apps/api/src/routes/tasks.ts:67-105 | invalid body: 400; unknown column or creator: 500; each with nothing stored; else the task stored under the next id, by the authenticated user with its defaults, is answered with the creator's name |
| Tasks.Patched | apps/api/src/routes/tasks.ts:128-149 | the task after `UPDATE tasks SET updated_at = CURRENT_TIMESTAMP, ...`: by `Tasks.PatchedChangesOnlySupplied` exactly the supplied fields change, and `updated_at` always does |
| Tasks.PatchedChangesOnlySupplied | apps/api/src/routes/tasks.ts:128-146 | a patch changes exactly the supplied fields and always `updated_at` |
| Tasks.AssignmentsPatch | apps/api/src/routes/tasks.ts:128-149 | the collected `SET` assignments give the patched task |
| Tasks.AssignmentsMove | apps/api/src/routes/tasks.ts:143-149 | the update moves to a missing column exactly when a `column_id` not stored is supplied |
| Tasks.UpdateTask | apps/api/src/routes/tasks.ts:115-173 | invalid body: 400; unknown task: 404; move to a missing column: 500; each with nothing changed; else the patched task is stored and answered |
| Tasks.DeleteTask | apps/api/src/routes/tasks.ts:176-189 | unknown task: 404 and nothing changed; else 204 and the task deleted with its comments |
| Comments.TaskComments | apps/api/src/routes/comments.ts:14-20 | selects only stored comments of the task |
| Comments.ListComments | apps/api/src/routes/comments.ts:11-23 | every listed comment is a stored comment of the task with its author's name and e-mail |
| Comments.ListCommentsRows | apps/api/src/routes/comments.ts:14-20 | in a consistent store the listing is the sorted comments of the task |
| Comments.ListCommentsComplete | apps/api/src/routes/comments.ts:11-23 | in a consistent store every comment row of the task is listed |
| Comments.ListCommentsCount | apps/api/src/routes/comments.ts:11-23 | the listing has one entry per comment row of the task |
| Comments.ListCommentsAscending | apps/api/src/routes/comments.ts:19 | comments are listed oldest first, equal times in rowid order |
| Comments.ParseCreateComment | apps/api/src/routes/comments.ts:26-28 | accepts exactly a non-empty content |
| Comments.CreateComment | apps/api/src/routes/comments.ts:30-71 | invalid body: 400; unknown task: 404; unknown author: 500; each with nothing stored; else the comment under the next id, answered with its author |
| Seed.SeedResult | apps/api/src/db/seed.ts:4-73 | `seedDatabase` on the tables: unchanged when a user exists (`Seed.SeedIdempotent`), otherwise the demo data set (`Seed.SeedEmptyStore`) |
| Seed.Seeded | apps/api/src/db/seed.ts:16-73 | the twelve inserts on the tables, each row under the next id of its table; by `Seed.SeededConsistent` a consistent store without users stays consistent |
| Seed.SeedIdempotent | apps/api/src/db/seed.ts:4-10 | seeding a second time changes nothing |
| Seed.SeededHasUsers | apps/api/src/db/seed.ts:4-19 | after seeding the store has users |
| Seed.NoUsersNoRows | apps/api/src/db/seed.ts:6-10 | a consistent store without users holds no other rows either |
| Seed.SeededRowIds | apps/api/src/db/seed.ts:17-71 | every seeded row sits under its own id, within its table's counter |
| Seed.SeededEmails | apps/api/src/db/seed.ts:17-19 | the two demo accounts have different e-mails |
| Seed.SeededReferences | apps/api/src/db/seed.ts:17-71 | every seeded foreign key resolves |
| Seed.SeededConsistent | apps/api/src/db/seed.ts:4-71 | seeding a consistent empty store gives a consistent store |
| Seed.OnlyDemoAccount | apps/api/src/db/seed.ts:17-19 | after the first account the second e-mail is still free, so its insert succeeds |
| Seed.SeedSteps | apps/api/src/db/seed.ts:17-71 | the five groups of inserts, in the seed's order, make the seeded store |
| Seed.SeedAccounts | apps/api/src/db/seed.ts:15-19 | the two accounts are stored under the next two ids with the shared digest |
| Seed.SeedColumns | apps/api/src/db/seed.ts:26-29 | To Do, In Progress and Done are stored at positions 0, 1, 2 under the next three ids |
| Seed.SeedTasks | apps/api/src/db/seed.ts:32-66 | the four tasks are stored under the next four ids |
| Seed.SeedComments | apps/api/src/db/seed.ts:69-71 | the two comments are stored on the first task |
| Seed.SeedOwners | apps/api/src/db/seed.ts:15-23 | the accounts and the first account's board are stored |
| Seed.SeedBoardContents | apps/api/src/db/seed.ts:26-71 | columns, tasks and comments are stored under the board |
| Seed.SeedEmptyStore | apps/api/src/db/seed.ts:12-71 | on a store without users the seed stores exactly the demo data set |
| Seed.SeedDatabase | apps/api/src/db/seed.ts:4-71 | the store after seeding is the seed result: unchanged when users exist, else the demo data set, and it stays valid |
| Seed.SeededLogins | apps/api/src/db/seed.ts:15-19 | after seeding, both demo accounts log in with `password123` |
| Seed.AccountLogin | apps/api/src/auth/routes.ts:72-106 | any stored account logs in with a password matching its digest |
| Seed.SeededBoardColumns | apps/api/src/db/seed.ts:26-29 | the seeded board lists To Do, In Progress and Done at positions 0, 1 and 2 |
| Seed.SeededThread | apps/api/src/db/seed.ts:69-71 | the first task lists the demo user's comment and then John's, each with its author |

## Left out

- Strings are `seq<char>`. Lengths are code points, while JavaScript's `.length` counts
  UTF-16 units, so `min(k)` differs for characters outside the BMP.
- Path parameters are `int`. `parseInt` of a non-number (`NaN`) behaves like an id with
  no row.
- Request bodies that are not JSON objects are not modelled.
- Numbers in bodies are `real`. JavaScript's double rounding is not modelled.
- Concurrency, the process's single connection and transactions are not modelled: each
  handler runs alone.
- bcrypt and HMAC-SHA256 are deterministic stand-ins. They keep the properties the
  routes rely on (a digest matches its password, a token verifies under its secret)
  but not the cryptography, so any two passwords may collide.
- The JWT header, base64url encoding and the standard claim names are not modelled. A
  token is four dot-separated decimals.
- Only the `exp` check of `jwt.verify` is modelled.
- `Schema.Database.DeleteBoard` and `Schema.Database.DeleteUser` are store statements
  that no route issues. They exist to state the cascade and the non-cascading user keys.
- Ordering ties: SQLite leaves the order of equal sort keys unspecified. The model
  breaks them by ascending rowid.
- Zod.ValidEmail: the zod e-mail pattern is written out structurally for ASCII
  addresses. Non-ASCII letters and quoted local parts are not modelled.
- SQL text and statement preparation are not modelled. Each prepared statement is one
  method of `Schema.Database`.
- The seed uses one `now` for all rows, while SQLite's `CURRENT_TIMESTAMP` is read per
  statement.
- Console logging is not modelled.
- Validation details: zod's issue objects are modelled as the names of the failing
  fields, one per issue, in schema order.
- `JWT_SECRET` is a parameter of `Middleware.JwtSecret`. The environment is not read.
- Express routing, CORS, JSON body parsing, the health route and the web UI are out of
  scope.
- The `sendError` response shape is reduced to `Api.ApiError` (`errors.ts` is not part
  of this model).
