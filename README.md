# Arena battle statistics: a Dafny model of the core

The arena statistics site collects battle results (an attacking team of
student IDs against a defending team), aggregates them per matchup, and
shows the aggregates in a React dashboard. It has two server generations:
a Go/Gin service over Postgres and a Python/FastAPI service over SQLite,
plus the first Python server, `server/main.py`. This project models the
small, sequential logic underneath the HTTP, SQL and JSX glue, and proves
what that logic promises.

What is modelled, one module per source file:

- **Team signatures.**
  - `Team` models `NormalizeTeam` (server/internal/utils/team.go). IDs not starting with "2" keep their order; the "2" IDs are sorted after them.
  - `PyUtils` models `normalize_to_smart_sig` and `generate_signatures` (server/app/utils.py).
  - `LegacyMain` models the first server's signature rule (server/main.py).
  - `CommentsHandler` models `ensureSig` (server/internal/handlers/comments.go).
  - The proved properties are permutation, order, idempotence, and agreement between the Go and Python rules.
- **The filter wire format.**
  - `ApiClient` builds the query strings of client/src/services/api.js.
  - `Parsers` reads ID lists and slot maps back (server/internal/utils/parsers.go).
  - The round trips are proved.
- **Loadouts.** `Loadout` models aligning a loadout to a team and the dedup key (server/internal/utils/loadout.go).
- **The aggregate tables.**
  - `StatsRepo` holds the Go repository's summary and detail tables as maps in a class: upserts, the recount after a detail delete, and the listing's order and offset.
  - `Crud` holds the Python `arena_stats` table.
  - Every row written keeps `total > 0` and `0 <= wins <= total`.
  - Go adds the counters in its 64-bit `int`, which wraps around; Python's integers do not. The row rule takes the arithmetic as a parameter.
- **Submissions and manual entry.**
  - `Submissions` covers the upload aggregation and the approve / reject / revert state machine (server/internal/handlers/submissions.go).
  - `StatsHandler` covers server/internal/handlers/stats.go and `LoadoutsHandler` server/internal/handlers/loadouts.go.
  - `PyRouters` covers the Python routes.
  - Approve followed by revert restores the summary and detail counts when the stored counts are not negative and the grown totals fit 64 bits. A negative stored count breaks this (see "## Findings").
- **The admin guard.** `Auth` models the Bearer header and role check (server/internal/middleware/auth.go).
- **Dashboard logic.** One module each for:
  - the pager (`Pagination`);
  - the comment threads (`CommentSection`);
  - the arena page's selection and composite keys (`ArenaPage`);
  - the summary cards (`SummaryCard`, `LegacySummaryCard`);
  - the filter panel (`FilterPanel`);
  - the student picker (`StudentSelector`);
  - the data-entry pages (`SettingsPage`).
- **Helper modules.** `Wrappers` (Option, Result), `Text` (trim, split, join, lower-case), `Decimal` (numerals, Go `Atoi`, JavaScript `parseInt`) and `Sorting` (the library sorts) define the languages' built-ins. `Decimal` also has Go's 64-bit wrap-around, its int64 conversion of a uint64 and its truncating division, and JavaScript's safe-integer range.

How the model is written:

- Code that updates state in place is modelled as classes whose methods carry `modifies` clauses. Each method is proved against a specification function.
- Pure helpers are functions, and lemmas relate them.
- Databases are maps or sequences held in class fields.
- Clocks, SHA-1, JWT verification, `fetch` outcomes and number formatting are parameters.

## Model

| member | source | states |
|---|---|---|
| Team.SpecialIffPrefix2 | server/internal/utils/team.go:18-19 | an ID counts as a special exactly when its decimal form starts with "2"; a negative ID never does |
| Team.Strikers | server/internal/utils/team.go:17-24 | the non-special IDs, none of them special, no more than the input |
| Team.Specials | server/internal/utils/team.go:17-24 | the special IDs, all of them special, no more than the input |
| Team.Numerals | server/internal/utils/team.go:29-32 | one decimal form per ID |
| Team.NormalizeTeam | server/internal/utils/team.go:9-36 | the loop's final list is the strikers in input order followed by the specials ascending, the signature is the comma-join of their decimal forms, and an empty team gives an empty list and "" |
| Team.PrintIds | server/internal/utils/team.go:29-33 | filling strList with each ID's decimal form by index and joining it gives the comma-join of the decimal forms of the list |
| Team.FilterStep | server/internal/utils/team.go:17-24 | one loop iteration appends the ID to exactly one of the two lists |
| Team.PartitionMultiset | server/internal/utils/team.go:17-24 | every ID lands in exactly one of the two lists, as often as it occurs |
| Team.NormalizedIsPermutation | server/internal/utils/team.go:26-27 | the normalised team is a permutation of the input, of the same length |
| Team.NormalizedShape | server/internal/utils/team.go:26-27 | the strikers come first and unchanged, then only specials, in ascending order |
| Team.FilterAppend | server/internal/utils/team.go:17-24 | splitting a concatenation splits each part, so input order is kept within each list |
| Team.FilterOfStrikers | server/internal/utils/team.go:17-24 | a list of strikers splits into itself and no specials |
| Team.FilterOfSpecials | server/internal/utils/team.go:17-24 | a list of specials splits into no strikers and itself |
| Team.NormalizedIdempotent | server/internal/utils/team.go:9-36 | normalising a normalised team changes nothing |
| Team.NormalizedIgnoresSpecialOrder | server/internal/utils/team.go:26-27 | two teams with the same strikers in the same order and the same specials in any order normalise to the same list |
| Team.SplitJoinIds | server/internal/utils/team.go:29-33 | splitting a non-empty signature on "," gives back the decimal forms |
| Team.SignatureEmptyIff | server/internal/utils/team.go:10-12 | the signature is "" exactly when the team is empty |
| Team.IntToStringInjective | server/internal/utils/team.go:31 | distinct IDs have distinct decimal forms |
| Team.JoinIdsInjective | server/internal/utils/team.go:29-33 | distinct ID lists have distinct signatures |
| Parsers.Collect | server/internal/utils/parsers.go:14-18 | at most one ID per comma-separated part |
| Parsers.ParsedIds | server/internal/utils/parsers.go:14-18 | at most one ID per part, from TrimSpace and Atoi |
| Parsers.ParseIDList | server/internal/utils/parsers.go:8-20 | the loop keeps, in order, every part that trims and parses as a 64-bit integer; "" gives no IDs |
| Parsers.CollectAll | server/internal/utils/parsers.go:14-18 | when every part parses, the result is exactly the parsed values in order |
| Parsers.ParsedIdsAll | server/internal/utils/parsers.go:14-18 | when every part parses, the result is exactly the parsed values in order |
| Parsers.CollectMembers | server/internal/utils/parsers.go:14-18 | a value is in the result exactly when some part parses to it |
| Parsers.ParsedIdsMembers | server/internal/utils/parsers.go:14-18 | a value is in the result exactly when some part trims and parses to it |
| Parsers.NoIdsInEmpty | server/internal/utils/parsers.go:9-11 | the early return for "" agrees with what the loop would give |
| Parsers.ParseSlotMap | server/internal/utils/parsers.go:22-39 | the loop fills the map from every part of the form idx:uid whose two sides parse; "" gives an empty map |
| Parsers.AssignLastWins | server/internal/utils/parsers.go:28-36 | of several parts naming the same index, the last well-formed one sets its value |
| Parsers.SlotsLastWins | server/internal/utils/parsers.go:28-36 | of several parts naming the same slot, the last well-formed one sets its value |
| Parsers.AssignDomain | server/internal/utils/parsers.go:28-36 | an index is in the map exactly when some part is well-formed for it |
| Parsers.SlotsDomain | server/internal/utils/parsers.go:28-36 | a slot is in the map exactly when some part is a well-formed idx:uid for it |
| Loadout.LookupOf | server/internal/utils/loadout.go:19-22 | every lookup entry is filed under its own ID |
| Loadout.NormalizeLoadout | server/internal/utils/loadout.go:14-33 | the two loops produce the aligned loadout; an empty team gives an empty loadout whatever loadout is supplied |
| Loadout.LookupLastWins | server/internal/utils/loadout.go:19-22 | when the loadout lists an ID several times, the last listing is stored |
| Loadout.LookupDomain | server/internal/utils/loadout.go:19-22 | an ID is in the lookup exactly when some entry lists it |
| Loadout.AlignedShape | server/internal/utils/loadout.go:24-31 | one entry per team member carrying that member's ID; a member missing from the loadout gets stars 0 and 0; a listed member gets its last listing |
| Loadout.AlignedOnlyTeam | server/internal/utils/loadout.go:24-31 | entries for IDs outside the team never appear, and every entry comes from the loadout or is zeroed |
| Loadout.LookupMember | server/internal/utils/loadout.go:19-22 | every stored entry comes from the loadout |
| Loadout.Parts | server/internal/utils/loadout.go:38-46 | one "%d-%d-%d" part per entry |
| Loadout.HexDigit | server/internal/utils/loadout.go:52 | a digit below 16 becomes a lower-case hex character |
| Loadout.Hex | server/internal/utils/loadout.go:52 | hex encoding gives two lower-case hex characters per byte |
| Loadout.ShortHex | server/internal/utils/loadout.go:52 | the suffix is eight characters long |
| Loadout.HexPrefix | server/internal/utils/loadout.go:52 | the first 2n hex characters encode the first n bytes |
| Loadout.ShortHexOfFirstBytes | server/internal/utils/loadout.go:52 | the eight-character suffix is the hex of the digest's first four bytes |
| Loadout.BuildLoadoutHash | server/internal/utils/loadout.go:37-53 | the hash is the raw key, "::" and the first eight hex characters of the digest of the raw key, so it is ten characters longer than the raw key and is a function of the two loadouts |
| Loadout.CollectParts | server/internal/utils/loadout.go:38-46 | the loop leaves one "ID-Star-WeaponStar" part per entry, in entry order |
| CommentsHandler.EnsureSig | server/internal/handlers/comments.go:23-39 | "" stays ""; a signature with no parsable ID comes back unchanged; otherwise it is the normalised team's signature |
| CommentsHandler.ParseTokenOfNumeral | server/internal/handlers/comments.go:30 | a 64-bit integer's decimal form parses back to it |
| CommentsHandler.ParseJoinIds | server/internal/handlers/comments.go:27-33 | the IDs of a signature of 64-bit IDs parse back to the team |
| CommentsHandler.ParsedIdsInRange | server/internal/handlers/comments.go:29-33 | every parsed ID is a 64-bit integer |
| CommentsHandler.EnsuredSigIdempotent | server/internal/handlers/comments.go:23-39 | for a signature with at least one parsable ID, normalising the result again changes nothing |
| CommentsHandler.EnsuredSigIgnoresSpecialOrder | server/internal/handlers/comments.go:23-39 | two signatures of the same strikers in order and the same specials in any order normalise alike |
| CommentsHandler.Matching | server/internal/handlers/comments.go:50-52 | a comment is found exactly when its server and both signatures match |
| CommentsHandler.MatchingStep | server/internal/handlers/comments.go:50-52 | the matches of a longer list extend those of its prefix |
| CommentsHandler.AfterDelete | server/internal/handlers/comments.go:88 | a comment survives exactly when it is neither the deleted one nor one of its replies |
| CommentsHandler.ReorderedQueryFindsComment | server/internal/handlers/comments.go:46-52 | a comment posted for one ordering of the specials is found by a query that lists them in another order |
| CommentsHandler.CommentStore.constructor | server/internal/handlers/comments.go:19-21 | an empty store whose first ID is 1 |
| CommentsHandler.CommentStore.GetComments | server/internal/handlers/comments.go:41-59 | the comments of the server (default "global") whose signatures equal the normalised query signatures |
| CommentsHandler.CommentStore.AddComment | server/internal/handlers/comments.go:61-84 | appends one comment with normalised signatures, the given time and the next ID, and returns that ID |
| CommentsHandler.CommentStore.DeleteComment | server/internal/handlers/comments.go:86-95 | removes the comment and its direct replies, keeping every other comment in order |
| Auth.IndexOf | server/internal/middleware/auth.go:45 | the first occurrence of the character, or none |
| Auth.SplitN2 | server/internal/middleware/auth.go:45 | one part when there is no space, otherwise the text before the first space and the rest |
| Auth.Decide | server/internal/middleware/auth.go:36-87 | an empty header is refused with "Authorization header required"; any accepted token's role is one of the route's roles |
| Auth.BearerFormat | server/internal/middleware/auth.go:45-50 | the header splits into "Bearer" and a token exactly when it starts with "Bearer ", and the token is the rest |
| Auth.PassesOnlyListedRoles | server/internal/middleware/auth.go:39-81 | a request passes exactly when the header starts with "Bearer ", its token verifies and the token's role is listed |
| Auth.RoleAllowed | server/internal/middleware/auth.go:70-76 | the loop finds the role exactly when it is listed |
| Auth.Context.constructor | server/internal/middleware/auth.go:37 | a fresh request context: no keys, status 200, not aborted, next not run |
| Auth.Context.Reject | server/internal/middleware/auth.go:40-42 | status 401 with the message, and the chain is aborted |
| Auth.Context.Set | server/internal/middleware/auth.go:83-84 | the key now maps to the value |
| Auth.Context.Next | server/internal/middleware/auth.go:85 | the next handler has run |
| Auth.AuthMiddleware | server/internal/middleware/auth.go:36-87 | a refused request gets 401 with the decision's message, is aborted, sets no key and does not run the next handler; an accepted one gets username and role set and the next handler run |
| LoadoutsHandler.ValidateLoadout | server/internal/handlers/loadouts.go:60-68 | the loop accepts a loadout exactly when no entry has a weapon star without a star, and a refusal names such an entry |
| LoadoutsHandler.AddLoadoutError | server/internal/handlers/loadouts.go:42-72 | a request is refused exactly when the season is below 1, a team is empty, the counts are negative or both zero, or a loadout has a weapon star without a star; the first two guards' messages come first |
| LoadoutsHandler.TimestampOf | server/internal/handlers/loadouts.go:55-58 | the request's timestamp when given, otherwise the clock |
| LoadoutsHandler.DetailUpdateOf | server/internal/handlers/loadouts.go:74-96 | the detail update carries the summary update and both loadouts unchanged |
| LoadoutsHandler.AcceptedGrowsSummary | server/internal/handlers/loadouts.go:98 | an accepted request adds its wins and losses to its summary row, creating it if absent, while the grown total fits Go's 64-bit int |
| LoadoutsHandler.AcceptedGrowsDetail | server/internal/handlers/loadouts.go:103 | an accepted request adds its wins and losses to its loadout's detail row, creating it if absent, while the grown total fits Go's 64-bit int |
| LoadoutsHandler.LoadoutHandler.constructor | server/internal/handlers/loadouts.go:17-19 | the handler holds the given repository |
| LoadoutsHandler.LoadoutHandler.AddLoadout | server/internal/handlers/loadouts.go:34-110 | a refused request returns its message and changes no table; an accepted one applies the summary update and then the detail update, in Go's wrapping 64-bit arithmetic |
| StatsRepo.Step | server/internal/repository/stats_repo.go:49-79 | the counters after one item, in exact or in Go's wrapping 64-bit arithmetic, always have a positive total and wins between 0 and the total, or the row is gone |
| StatsRepo.Add | server/internal/repository/stats_repo.go:32-54 | the exact sum for Python; for Go a value in the 64-bit range that equals the exact sum modulo 2^64 |
| StatsRepo.UpsertAtKey | server/internal/repository/stats_repo.go:52-100 | the row survives exactly when the old total plus the delta (each sum wrapped to 64 bits in Go) is positive, and then carries the new payload, that total and the clamped wins |
| StatsRepo.UpsertAddsBattles | server/internal/repository/stats_repo.go:52-100 | over valid rows, Go adds a positive delta to total and wins without clamping and the row exists afterwards, while the new total fits 64 bits |
| StatsRepo.OverflowDropsRow | server/internal/repository/stats_repo.go:32-72 | wins = MaxInt64 with losses = 1 wraps to MinInt64 in Go, so an existing row is deleted and an absent one never created, where exact arithmetic keeps the row |
| StatsRepo.UpsertFrame | server/internal/repository/stats_repo.go:39-42 | an item touches no row but its own |
| StatsRepo.UpsertZero | server/internal/repository/stats_repo.go:32-35 | an item whose delta is zero (after the 64-bit wrap in Go) changes nothing |
| StatsRepo.UpsertValid | server/internal/repository/stats_repo.go:67-79 | every row written has a positive total and 0 <= wins <= total |
| StatsRepo.UpsertLastSeen | server/internal/repository/stats_repo.go:56-60 | lastSeen never goes back, and moves exactly on a positive delta with a newer timestamp |
| StatsRepo.UpsertNeverCreatesOnLoss | server/internal/repository/stats_repo.go:61-72 | a non-positive delta never creates a row |
| StatsRepo.RevertRestores | server/internal/repository/stats_repo.go:52-79 | in Go, adding non-negative counts and then subtracting them restores the row's presence, total and wins, while the grown total fits 64 bits |
| StatsRepo.RevertRestoresTable | server/internal/repository/stats_repo.go:52-79 | in Go, adding non-negative counts and then subtracting them restores every row's presence, total and wins, while the grown total fits 64 bits |
| StatsRepo.RemoveAbsent | server/internal/repository/stats_repo.go:67-72 | deleting a row that does not exist changes nothing |
| StatsRepo.Counted | server/internal/repository/stats_repo.go:101 | the batch count is at most the number of items |
| StatsRepo.ApplyStatsAllStep | server/internal/repository/stats_repo.go:28-102 | one more item applies its upsert to the table so far and counts one exactly when its delta is non-zero |
| StatsRepo.ApplyStatsSingle | server/internal/repository/stats_repo.go:28-102 | a batch of one item is that item's upsert |
| StatsRepo.Bases | server/internal/repository/stats_repo.go:113-124 | the summary part of each detail update, in order |
| StatsRepo.ApplyDetailsAllStep | server/internal/repository/stats_repo.go:113-194 | one more detail item applies its upsert to the table so far and counts one exactly when its delta is non-zero |
| StatsRepo.ApplyDetailSingle | server/internal/repository/stats_repo.go:113-194 | a batch of one detail item is that item's upsert |
| StatsRepo.DetailKeyIgnoresForeignEntries | server/internal/repository/stats_repo.go:117-119 | two detail updates whose loadouts align to the same normalised teams share a row key |
| StatsRepo.GroupOf | server/internal/repository/stats_repo.go:380-384 | the detail rows of one summary are detail rows |
| StatsRepo.GroupOfAdd | server/internal/repository/stats_repo.go:380-384 | adding a key grows exactly its own summary's group |
| StatsRepo.AddRowCommutes | server/internal/repository/stats_repo.go:381 | the sums and the maximum do not depend on the order rows are added |
| StatsRepo.AggOverRemove | server/internal/repository/stats_repo.go:381 | the aggregate of a set of rows is any one row added to the aggregate of the rest |
| StatsRepo.AggOverValid | server/internal/repository/stats_repo.go:381-392 | over valid rows the total is zero exactly when there are no rows, wins are within the total, and a maximum lastSeen exists exactly when there are rows |
| StatsRepo.AggOverMax | server/internal/repository/stats_repo.go:381 | the aggregated lastSeen is the largest lastSeen of the rows and is one of them |
| StatsRepo.ItemSetStep | server/internal/repository/stats_repo.go:430-439 | one more delete item adds its key, its summary, and one deleted row exactly when the row was present and not yet named |
| StatsRepo.RowsDeletedCount | server/internal/repository/stats_repo.go:437 | the deleted-row count is the number of named keys present in the table |
| StatsRepo.CountStep | server/internal/repository/stats_repo.go:437 | naming one more key adds one deleted row exactly when it was present and not already removed |
| StatsRepo.OrderBy | server/internal/repository/stats_repo.go:254-269 | the direction is ascending exactly when the lower-cased sort contains "asc" |
| StatsRepo.ClientSortColumns | server/internal/repository/stats_repo.go:260-269 | "newest" orders by last_seen, both win-rate sorts by avg_win_rate |
| StatsRepo.Offset | server/internal/repository/stats_repo.go:273 | the offset is a 64-bit unsigned value |
| StatsRepo.OffsetOfPage | server/internal/repository/stats_repo.go:273 | for page 1 or more and no overflow the offset skips exactly the previous pages |
| StatsRepo.OffsetOfPageZero | server/internal/repository/stats_repo.go:273 | page 0 wraps around to an offset of 2^64 minus the limit |
| StatsRepo.StatsRepository.constructor | server/internal/repository/stats_repo.go:20-22 | both tables start empty and valid |
| StatsRepo.StatsRepository.BatchUpsertStats | server/internal/repository/stats_repo.go:24-107 | the summary table after every item in order, and the count of items with a non-zero 64-bit delta |
| StatsRepo.StatsRepository.UpsertStatsItem | server/internal/repository/stats_repo.go:29-101 | one item's upsert, counted exactly when its 64-bit delta is non-zero |
| StatsRepo.StatsRepository.BatchUpsertDetails | server/internal/repository/stats_repo.go:109-199 | the detail table after every item in order, and the count of items with a non-zero 64-bit delta |
| StatsRepo.StatsRepository.UpsertDetailItem | server/internal/repository/stats_repo.go:114-193 | one detail item's upsert, counted exactly when its 64-bit delta is non-zero |
| StatsRepo.StatsRepository.DeleteSummary | server/internal/repository/stats_repo.go:289-294 | the row is gone and one row is reported exactly when it existed |
| StatsRepo.StatsRepository.AggregateGroup | server/internal/repository/stats_repo.go:380-400 | the sums and maximum over the summary's detail rows, and one of those rows' payloads exactly when there is one |
| StatsRepo.StatsRepository.RecalcSummaryFromDetails | server/internal/repository/stats_repo.go:373-424 | the summary row is deleted when no detail rows are left, otherwise rewritten from their aggregate; every other summary is unchanged |
| StatsRepo.StatsRepository.DeleteDetailsAndRecalc | server/internal/repository/stats_repo.go:426-449 | the named detail rows are gone, the count is the number of them that existed, every touched summary is recalculated and every other is unchanged |
| StatsRepo.StatsRepository.DeleteDetails | server/internal/repository/stats_repo.go:429-439 | the named rows are gone, the count is the rows removed, and the touched summaries are returned |
| StatsRepo.StatsRepository.DeleteDetail | server/internal/repository/stats_repo.go:431-437 | the row is gone and one row is reported exactly when it existed |
| StatsRepo.StatsRepository.RecalcGroups | server/internal/repository/stats_repo.go:441-445 | every listed summary is recalculated and every other is unchanged |
| StatsRepo.UpsertRow | server/internal/repository/stats_repo.go:37-100 | the table after the shared read-modify-write of one row, with Go's 64-bit sums |
| Submissions.Observed | server/internal/handlers/submissions.go:82-108 | at most one battle per record: the records with two non-empty teams, in order |
| Submissions.ObservedStep | server/internal/handlers/submissions.go:83-85 | one more record adds its battle exactly when both its teams are non-empty |
| Submissions.TallyAllStep | server/internal/handlers/submissions.go:110-122 | one more battle tallies into the aggregation so far |
| Submissions.Count | server/internal/handlers/submissions.go:108 | the battles under a key are at most all the battles |
| Submissions.CountWon | server/internal/handlers/submissions.go:115-116 | the won battles under a key are at most its battles |
| Submissions.TallyCounts | server/internal/handlers/submissions.go:110-119 | a key is aggregated exactly when some battle has it, with wins the battles won and wins plus losses all its battles |
| Submissions.CountWitness | server/internal/handlers/submissions.go:108 | a battle under a key makes that key's count positive |
| Submissions.TallyTimestamp | server/internal/handlers/submissions.go:120-122 | an aggregated timestamp is not negative, at least every timestamp of the key's battles, and when non-zero is one of them |
| Submissions.ObservedConsistent | server/internal/handlers/submissions.go:105-108 | every battle's key carries the signatures of its own normalised teams |
| Submissions.TallyPositive | server/internal/handlers/submissions.go:110-119 | every aggregated key has non-negative wins and losses and at least one battle |
| Submissions.TallyTeams | server/internal/handlers/submissions.go:110-112 | the teams stored with a key are normalised teams whose signatures are the key's |
| Submissions.ListedCounted | server/internal/handlers/submissions.go:125-144 | every listed update has a non-zero 64-bit delta, since a Go slice holds at most MaxInt64 battles, so the batch counts all of them |
| Submissions.ListedKeys | server/internal/handlers/submissions.go:126-136 | the update listed for a key is stored under that key's summary row |
| Submissions.CountedAll | server/internal/handlers/submissions.go:144 | a batch whose every item has a non-zero delta counts every item |
| Submissions.ReadRecord | server/internal/handlers/submissions.go:87-108 | the battle a record gives: lower-cased server or the default, season or the default, parsed time or the clock, normalised teams |
| Submissions.AddUpload | server/internal/handlers/submissions.go:82-123 | a record with two teams is tallied; any other leaves the aggregation unchanged |
| Submissions.TallyBattle | server/internal/handlers/submissions.go:110-122 | one battle's tally: the key is created with its teams if absent, its win or loss counted, its timestamp raised |
| Submissions.AggregateUploads | server/internal/handlers/submissions.go:80-123 | the loop's aggregation is the tally of every record with two teams, in order |
| Submissions.UpdatesOf | server/internal/handlers/submissions.go:125-137 | one update per aggregated key, with its counts, teams and timestamp, in some order |
| Submissions.Transition | server/internal/handlers/submissions.go:257-335 | approve needs a pending submission and adds the counts; reject always succeeds without stats; revert needs a non-pending submission, returns it to pending and subtracts only if it was approved; anything else is "invalid action" |
| Submissions.ApproveThenRevertSummaries | server/internal/handlers/submissions.go:258-331 | approving a pending submission with non-negative counts and then reverting it restores every summary row's presence, total and wins, while the grown total fits 64 bits |
| Submissions.ApproveThenRevertDetails | server/internal/handlers/submissions.go:276-329 | approving a pending submission with non-negative counts and then reverting it restores every detail row's presence, total and wins, while the grown total fits 64 bits |
| Submissions.NegativeCountSurvivesRevert | server/internal/handlers/submissions.go:163-331 | a submission stored with wins = Atoi("-3") = -3 creates no row on approve, and its revert leaves a row of three battles, all won |
| Submissions.CheckedFormError | server/internal/handlers/submissions.go:155-164 | the corrected form check refuses what the handler refuses and, beyond that, exactly the forms whose wins or losses read below zero |
| Submissions.CheckedFormRevertible | server/internal/handlers/submissions.go:163-331 | every submission stored from a form the corrected check accepts is pending, and approving then reverting it restores both tables' counts while the grown totals fit 64 bits |
| Submissions.Ext | server/internal/handlers/submissions.go:170 | the extension is "" or a suffix of the file name that starts with "." and holds no other "." or "/" |
| Submissions.SubmissionTable.constructor | server/internal/handlers/submissions.go:222 | an empty table whose first ID is 1 |
| Submissions.SubmissionTable.Create | server/internal/handlers/submissions.go:222 | the row is stored under a new ID, the next one |
| Submissions.SubmissionTable.Save | server/internal/handlers/submissions.go:337 | the row under the ID is replaced |
| Submissions.SubmissionHandler.constructor | server/internal/handlers/submissions.go:27-32 | the handler holds the given submission table and repository |
| Submissions.SubmissionHandler.UploadJSON | server/internal/handlers/submissions.go:34-153 | no valid record reports "no valid data" and changes nothing; otherwise the summary table gets one update per aggregated key and the reply counts the records and the keys |
| Submissions.SubmissionHandler.CreateSubmission | server/internal/handlers/submissions.go:155-228 | a refused form changes nothing; an accepted one is stored as pending under a new ID |
| Submissions.SubmissionHandler.ProcessSubmission | server/internal/handlers/submissions.go:245-346 | an unknown ID or refused action changes nothing; otherwise the transition's deltas reach both tables and the new status is saved |
| Submissions.SubmissionHandler.ApplyDeltas | server/internal/handlers/submissions.go:262-290 | one single-item batch on each table with the counts times the sign |
| StatsHandler.TotalPages | server/internal/handlers/stats.go:94-97 | Go's int64 page count from an int64 row count and a uint64 limit: 0 for limit 0, always within the 64-bit range, and the exact page count whenever the limit and total + limit - 1 fit MaxInt64 |
| StatsHandler.CeilPages | server/internal/handlers/stats.go:94-97 | the exact page count: the fewest pages of `limit` rows that hold `total` rows |
| StatsHandler.CeilPagesLeast | server/internal/handlers/stats.go:94-97 | no fewer pages hold every row than the exact page count |
| StatsHandler.TotalPagesWraps | server/internal/handlers/stats.go:94-97 | five rows at a limit of MaxInt64 report 0 pages, because total + limit - 1 wraps negative; a hundred rows at a limit of 2^64 - 1 report -98, because the limit converts to -1 |
| StatsHandler.TotalPagesLeast | server/internal/handlers/stats.go:94-97 | where no sum wraps, no smaller page count holds all rows |
| StatsHandler.ResponseItems | server/internal/handlers/stats.go:69-92 | one item per row in order, with the row's own fields and losses = total - wins, within 0 and the total for a valid row |
| StatsHandler.ManualAddError | server/internal/handlers/stats.go:190-201 | a request is refused exactly when the season is below 1, a count is negative, or both are zero |
| StatsHandler.ManualAddRevertible | server/internal/handlers/stats.go:203-255 | the approved history row a manual entry records can be reverted, which restores both tables' counts while the grown totals fit Go's 64-bit int |
| StatsHandler.StatsHandler.constructor | server/internal/handlers/stats.go:20-24 | the handler holds the given tables |
| StatsHandler.StatsHandler.ManualAdd | server/internal/handlers/stats.go:183-263 | a refused request writes nothing; an accepted one records an approved submission and applies the same counts to both tables, in Go's wrapping 64-bit arithmetic |
| StatsHandler.StatsHandler.DeleteSummaryDetails | server/internal/handlers/stats.go:265-286 | an empty list is refused and changes nothing; otherwise the named detail rows are deleted, counted and their summaries recalculated |
| StatsHandler.StatsHandler.DeleteSummary | server/internal/handlers/stats.go:288-302 | the summary row is removed and the count is 1 exactly when it existed |
| PyUtils.Tokens | server/app/utils.py:33 | at most one token per part |
| PyUtils.PyStrikers | server/app/utils.py:38-42 | the tokens not starting with "2" |
| PyUtils.PySpecials | server/app/utils.py:38-42 | the tokens starting with "2" |
| PyUtils.Values | server/app/utils.py:43 | one sort value per token |
| PyUtils.InsertByValue | server/app/utils.py:43 | inserting a token adds exactly that token |
| PyUtils.InsertByValueValues | server/app/utils.py:43 | inserting a token inserts its value among the values |
| PyUtils.SortByValue | server/app/utils.py:43 | sorting digit tokens by int(x) gives a permutation in ascending value order |
| PyUtils.SortSpecials | server/app/utils.py:43 | the sort fails with TypeError exactly when two or more specials mix digit and non-digit tokens; otherwise it is a permutation, by value for digit tokens and by code point for the others |
| PyUtils.SmartSig | server/app/utils.py:29-31 | "" gives "" |
| PyUtils.NormalizeToSmartSig | server/app/utils.py:29-45 | the loop's result, or the sort's TypeError, is the canonical signature of the input's tokens |
| PyUtils.GenerateSignatures | server/app/utils.py:21-26 | the strict signature is the input-order comma-join of the IDs |
| PyUtils.TokensMembers | server/app/utils.py:33 | a token is kept exactly when it is non-empty and some part strips to it |
| PyUtils.TokensClean | server/app/utils.py:33 | every kept token is non-empty, has no comma and no surrounding whitespace |
| PyUtils.PartitionMultiset | server/app/utils.py:38-42 | every token lands in exactly one of the two lists, as often as it occurs |
| PyUtils.FinalListShape | server/app/utils.py:38-44 | the final list is a permutation of the tokens: the strikers first and unchanged, then only specials, sorted |
| PyUtils.TokensOfClean | server/app/utils.py:33 | clean tokens are kept as they are |
| PyUtils.PartitionAppend | server/app/utils.py:38-42 | splitting a concatenation splits each part, keeping input order within each list |
| PyUtils.PartitionOfStrikers | server/app/utils.py:38-42 | a list of strikers splits into itself and no specials |
| PyUtils.PartitionOfSpecials | server/app/utils.py:38-42 | a list of specials splits into no strikers and itself |
| PyUtils.SortByValueOfSorted | server/app/utils.py:43 | sorting value-sorted tokens changes nothing |
| PyUtils.SortLexOfSorted | server/app/utils.py:43 | sorting code-point-sorted tokens changes nothing |
| PyUtils.SortSpecialsStable | server/app/utils.py:43 | sorting the sorted specials again changes nothing |
| PyUtils.TokensOfJoin | server/app/utils.py:33-45 | the tokens of a comma-join of clean tokens are those tokens |
| PyUtils.PartitionOfFinal | server/app/utils.py:38-44 | a final list splits back into its striker prefix and its special suffix |
| PyUtils.FinalOfFinal | server/app/utils.py:38-44 | a final list is its own final list |
| PyUtils.SmartSigIdempotent | server/app/utils.py:29-45 | normalising a smart signature again changes nothing |
| PyUtils.NumeralsAppend | server/app/utils.py:22 | the decimal forms of a concatenation are the concatenated decimal forms |
| PyUtils.NumeralsPrefix | server/app/utils.py:22 | the decimal forms of a prefix are a prefix of the decimal forms |
| PyUtils.NumeralsClean | server/app/utils.py:22 | every decimal form of an ID is a clean token |
| PyUtils.StartsWith2 | server/app/utils.py:39 | a non-empty token starts with "2" exactly when its first character is '2' |
| PyUtils.PartitionOfNumerals | server/app/utils.py:38-42 | on a team's decimal forms, the token partition is the ID partition of the Go backend |
| PyUtils.ValueOfNumeral | server/app/utils.py:43 | int(x) of the decimal form of n is n |
| PyUtils.InsertByValueOfNumerals | server/app/utils.py:43 | inserting by value on decimal forms is inserting the integer |
| PyUtils.SortByValueOfNumerals | server/app/utils.py:43 | sorting decimal forms by value is sorting the integers |
| PyUtils.SortSpecialsOfNumerals | server/app/utils.py:43 | special IDs' decimal forms never raise and sort as the integers do |
| PyUtils.FinalListOfNumerals | server/app/utils.py:33-44 | for a non-empty team, the final list is the decimal forms of the Go backend's normalised team |
| PyUtils.SmartSigAgreesWithGo | server/app/utils.py:21-45 | for any team of integers the smart signature never raises and equals the Go backend's NormalizeTeam signature |
| Crud.SmartOf | server/app/crud.py:33-34 | the smart signature generate_signatures gives a team, which is the Go backend's signature |
| Crud.KeyOf | server/app/crud.py:36-44 | a row is addressed by the strict, input-order signatures |
| Crud.ApplyAllStep | server/app/crud.py:19-115 | one more item applies its upsert to the table so far and counts one exactly when its delta is non-zero |
| Crud.NewCounters | server/app/crud.py:48-78 | the new counters follow the Go repository's rule in exact arithmetic: add, delete at a total of zero or below, clamp the wins, move last_seen forward only on a positive delta |
| Crud.ArenaStatsDb.constructor | server/app/crud.py:16 | an empty table |
| Crud.ArenaStatsDb.UpsertItem | server/app/crud.py:33-113 | one item's lookup, new counters and DELETE or INSERT OR REPLACE |
| Crud.ArenaStatsDb.BatchUpsertStats | server/app/crud.py:6-118 | the table after every item in order, and the count of items with a non-zero delta |
| Crud.ApplyAllValid | server/app/crud.py:65-78 | every row after a batch has a positive total and 0 <= wins <= total |
| Crud.StrictKeysSeparateOrders | server/app/crud.py:33-44 | two orderings of the same team address different rows that carry the same smart signature |
| Crud.ApplyItemAtKey | server/app/crud.py:48-113 | the row survives exactly when the old total plus the delta is positive, and then carries the new payload, that total, the clamped wins and max(last_seen, ts) on a positive delta |
| Crud.ApplyItemFrame | server/app/crud.py:36-73 | an item touches only the row it addresses |
| Crud.ApplyItemZero | server/app/crud.py:29-31 | a zero-delta item changes nothing |
| Crud.ListingOf | server/app/crud.py:121-249 | the offset skips page - 1 pages; "all" drops the server filter; season 0 or none drops the season filter; the direction is ascending exactly when the sort contains "asc" |
| Crud.ServerAllIgnoresServer | server/app/crud.py:162-164 | listing "all" servers makes a row's server irrelevant |
| Crud.ConsecutivePages | server/app/crud.py:138 | page p + 1 starts where page p ends |
| Crud.SortChoices | server/app/crud.py:235-247 | "newest" sorts by last_seen, win-rate options by the win rate, "composite" by wilson_score (the win rate when aggregating), anything else by the battle total; "ASC" in upper case sorts descending |
| PyRouters.SortedSigIff | server/app/routers/stats.py:116-117 | two teams get the same battle signature exactly when they hold the same IDs, each as often |
| PyRouters.Repeat | server/app/routers/stats.py:123-136 | max(n, 0) copies of the row and nothing else |
| PyRouters.RecordsShape | server/app/routers/stats.py:122-150 | max(wins, 0) win rows followed by max(losses, 0) loss rows, and nothing else |
| PyRouters.ExpandRecords | server/app/routers/stats.py:122-150 | the two loops build exactly the win rows and then the loss rows |
| PyRouters.ManualAddAccepts | server/app/routers/stats.py:95-110 | a request passes exactly when the season is positive, both counts lie in 0..2000 (2000 allowed) and one is positive; the season guard comes first and the upper bound is checked before the sign |
| PyRouters.ManualAddGuards | server/app/routers/stats.py:95-110 | the four guards, taken in order, reject with the 400 message of the first that fails and otherwise let the request through |
| PyRouters.ItemOf | server/app/routers/stats.py:66-83 | a response item keeps the row's wins and signatures, with wins + losses = total |
| PyRouters.SummaryResults | server/app/routers/stats.py:55-83 | one result per row, in row order |
| PyRouters.PyTotalPages | server/app/routers/stats.py:89 | 0 for a non-positive limit, otherwise the exact page count: the fewest pages of `limit` rows that hold every row |
| PyRouters.PyTotalPagesAgreesWithGo | server/app/routers/stats.py:89 | the Python and Go page counts agree whenever the limit and total + limit - 1 fit Go's 64-bit int; at a limit of MaxInt64 five rows make 1 page in Python and 0 in Go |
| PyRouters.PyTotalPagesCeil | server/app/routers/stats.py:89 | for a positive limit, the fewest pages that hold every row |
| PyRouters.Clean | server/app/routers/submissions.py:109-110 | only positive IDs are kept, no more than there were |
| PyRouters.CleanMultiset | server/app/routers/submissions.py:109-110 | cleaning keeps exactly the positive IDs, each as often as it occurs |
| PyRouters.PyDatabase.constructor | server/app/routers/submissions.py:13-14 | no battles, no submissions, first ID 1 |
| PyRouters.PyDatabase.ManualAdd | server/app/routers/stats.py:93-172 | a refused request adds nothing; an accepted one adds the win rows and then the loss rows, stamped now, with the sorted signatures, and reports how many |
| PyRouters.PyDatabase.CreateSubmission | server/app/routers/submissions.py:17-68 | the form is stored as a pending submission under a new ID, its team fields as the unparsed text that was sent |
| PyRouters.ApproveCheck | server/app/routers/submissions.py:95-110 | every failure is a 500; approval goes ahead exactly for a known pending submission whose two team columns decode |
| PyRouters.PyDatabase.ApproveSubmission | server/app/routers/submissions.py:90-166 | an unknown or processed submission, or a team column that does not decode, gives a 500 with the wrapped 404, the wrapped 400 or the exception's text and changes nothing, so the submission stays pending; otherwise the win and loss rows with the cleaned, sorted signatures of the decoded teams are added and it becomes approved |
| PyRouters.PyDatabase.RejectSubmission | server/app/routers/submissions.py:169-176 | the submission becomes rejected whatever its status; an unknown ID changes nothing |
| PyRouters.ApproveOnce | server/app/routers/submissions.py:101-103 | after an approval or a rejection, approving again fails with the wrapped 400 |
| PyRouters.ApprovalSigIgnoresOrder | server/app/routers/submissions.py:109-112 | IDs of 0 or below and the order of the team never change an approval's signature |
| LegacyMain.LegacySignaturesShape | server/main.py:57-66 | the strict signature is the input-order join; below six IDs the smart one equals it; from six IDs it is the first four as given followed by the rest sorted as strings, the same numerals each as often |
| LegacyMain.LegacySortsAsStrings | server/main.py:62 | the tail is sorted as strings, so "10" comes before "9" |
| LegacyMain.WilsonLowerBound | server/main.py:40-50 | an empty sample scores 0 |
| LegacyMain.UploadRowsShape | server/main.py:651-689 | one row per record with both teams non-empty, each with its teams' sorted signatures |
| LegacyMain.LegacyDatabase.constructor | server/main.py:31-37 | no battles |
| LegacyMain.LegacyDatabase.ManualAdd | server/main.py:590-634 | with no guard at all, max(wins, 0) win rows and max(losses, 0) loss rows stamped now with the sorted signatures, and their number |
| LegacyMain.LegacyDatabase.UploadJSON | server/main.py:637-700 | the rows of the kept records are appended in order, and their number is reported |
| Pagination.PageCount | client/src/components/common/Pagination.jsx:12 | for a positive page size, the fewest pages that hold every item |
| Pagination.PageNumbers | client/src/components/common/Pagination.jsx:39-55 | the loop's list is the window: pages 1 to totalPages, each listed or an ellipsis or skipped |
| Pagination.WindowToPages | client/src/components/common/Pagination.jsx:42-48 | a page up to k is in the list exactly when it is the first, the last or within two of the current page |
| Pagination.WindowPages | client/src/components/common/Pagination.jsx:42-55 | a page gets a button exactly when it is in range and is the first, the last or within two of the current page; the first and last pages always do |
| Pagination.WindowToBounded | client/src/components/common/Pagination.jsx:42 | every listed page up to k lies in 1..k |
| Pagination.WindowToIncreasing | client/src/components/common/Pagination.jsx:42 | the pages up to k are listed in increasing order |
| Pagination.WindowIncreasing | client/src/components/common/Pagination.jsx:39-55 | the page buttons appear in increasing order |
| Pagination.EllipsisCountAppend | client/src/components/common/Pagination.jsx:53 | ellipses of a concatenation add up |
| Pagination.WindowToEllipses | client/src/components/common/Pagination.jsx:49-54 | at most one ellipsis on each side of the current page |
| Pagination.WindowEllipses | client/src/components/common/Pagination.jsx:39-55 | the list holds at most two ellipses |
| Pagination.WindowToLastEllipsis | client/src/components/common/Pagination.jsx:49-54 | an ellipsis ending the list up to k sits just outside the window and before the last page |
| Pagination.WindowToNoAdjacent | client/src/components/common/Pagination.jsx:42-55 | no two ellipses are adjacent in the list up to k |
| Pagination.WindowNoAdjacent | client/src/components/common/Pagination.jsx:39-55 | no two ellipses are ever adjacent |
| Pagination.WindowExample | client/src/components/common/Pagination.jsx:39-55 | page 5 of 10 shows 1, …, 3-7, …, 10 |
| Pagination.PageClick | client/src/components/common/Pagination.jsx:19-23 | a click navigates exactly when the page is in 1..totalPages, and to that page |
| Pagination.PrevNextNavigate | client/src/components/common/Pagination.jsx:59-96 | from an in-range page, an enabled prev or next button navigates one page over |
| Pagination.JumpToPage | client/src/components/common/Pagination.jsx:25-31 | the box navigates and clears exactly when parseInt of its text is a page in range; otherwise nothing changes |
| Pagination.JumpToTypedPage | client/src/components/common/Pagination.jsx:25-31 | typing an in-range page number that is a safe integer navigates to it and clears the box |
| Pagination.JumpAgreesWithClick | client/src/components/common/Pagination.jsx:19-31 | the jump box goes where a click on the parsed page would |
| CommentSection.Roots | client/src/components/arena/ArenaCommentSection.jsx:140-147 | the roots are exactly the comments without a parent |
| CommentSection.RepliesTo | client/src/components/arena/ArenaCommentSection.jsx:141-143 | the replies of p are exactly the comments whose parent is p |
| CommentSection.Buckets | client/src/components/arena/ArenaCommentSection.jsx:138-147 | the replies map has a key exactly for parents with replies, holding those replies in order |
| CommentSection.GroupsStep | client/src/components/arena/ArenaCommentSection.jsx:140-147 | one more comment is pushed to the roots or to its parent's bucket |
| CommentSection.Structure | client/src/components/arena/ArenaCommentSection.jsx:136-150 | the forEach builds exactly the roots and the replies map |
| CommentSection.RootsOfAppend | client/src/components/arena/ArenaCommentSection.jsx:140-147 | the roots of a concatenation are the concatenated roots |
| CommentSection.RepliesOfAppend | client/src/components/arena/ArenaCommentSection.jsx:140-147 | the replies of a concatenation are the concatenated replies |
| CommentSection.GroupsPartition | client/src/components/arena/ArenaCommentSection.jsx:140-147 | every comment goes to exactly one group, as often as it occurs |
| CommentSection.BucketMembers | client/src/components/arena/ArenaCommentSection.jsx:267-269 | the bucket of an ID holds exactly the comments replying to it |
| CommentSection.Ids | client/src/components/arena/ArenaCommentSection.jsx:252 | every root's ID is collected |
| CommentSection.DisplayedFromMembers | client/src/components/arena/ArenaCommentSection.jsx:252-283 | a comment is shown exactly when it is a root or in a root's bucket |
| CommentSection.InRootBucketMembers | client/src/components/arena/ArenaCommentSection.jsx:267-281 | a comment sits in a root's bucket exactly when it replies to a root's ID |
| CommentSection.DisplayedMembers | client/src/components/arena/ArenaCommentSection.jsx:252-283 | a comment is shown exactly when it is a root or replies to a root; replies to replies are never shown |
| CommentSection.ReplyToRootDisplayed | client/src/components/arena/ArenaCommentSection.jsx:50-57 | a reply made through a root's reply button is shown once it is loaded |
| CommentSection.CommentBox.constructor | client/src/components/arena/ArenaCommentSection.jsx:109-119 | no comments, empty boxes, no reply open |
| CommentSection.CommentBox.Post | client/src/components/arena/ArenaCommentSection.jsx:152-183 | whitespace-only content sends nothing; otherwise the request carries the content as typed; after success a reply clears and closes the reply box and a top-level post clears the main box; a failure changes nothing |
| CommentSection.CommentBox.Delete | client/src/components/arena/ArenaCommentSection.jsx:185-195 | after a successful delete the list drops the comment and its direct replies, by the server's own rule; a failure changes nothing |
| CommentSection.LocalFilter | client/src/components/arena/ArenaCommentSection.jsx:188-190 | the filter keeps exactly what the server keeps |
| CommentSection.LocalDeleteRemovesFamily | client/src/components/arena/ArenaCommentSection.jsx:188-190 | a comment goes exactly when it is the deleted one or replies to it |
| ApiClient.ApiBase | client/src/services/api.js:1-2 | the base ends with "/api", and is the configured URL (or the default) with "/api" added only when missing |
| ApiClient.ApiBaseIdempotent | client/src/services/api.js:2 | applying the rule again changes nothing |
| ApiClient.AuthHeaders | client/src/services/api.js:4-7 | no header exactly when there is no token or it is empty; otherwise one "Authorization: Bearer" header |
| ApiClient.AuthHeaderAccepted | client/src/services/api.js:4-7 | the header the client sends passes the Go middleware exactly when the token verifies with a listed role |
| ApiClient.StudentDataLang | client/src/services/api.js:73 | "zh" exactly when the language starts with "zh", otherwise "en" |
| ApiClient.MinKey | client/src/services/api.js:112 | the smallest slot index |
| ApiClient.AscendingKeys | client/src/services/api.js:112 | Object.entries lists integer keys once each, ascending |
| ApiClient.SlotParts | client/src/services/api.js:112-114 | one "idx:id" part per slot |
| ApiClient.SummariesParams | client/src/services/api.js:88-127 | page, limit, sort and server always; each other parameter exactly when its filter is truthy, with its value |
| ApiClient.AppendNumberFilters | client/src/services/api.js:97-104 | season, min and max win rate and min battles are added exactly when truthy; nothing else changes |
| ApiClient.AppendTeamFilters | client/src/services/api.js:106-122 | the contains lists and slot maps are added exactly when non-empty; nothing else changes |
| ApiClient.IdsRoundTrip | client/src/services/api.js:106-109 | the Go backend parses the joined list of safe-integer IDs back to the same IDs |
| ApiClient.NumeralTrimmed | client/src/services/api.js:113 | a decimal form has no surrounding whitespace |
| ApiClient.SlotPartRoundTrip | client/src/services/api.js:113 | the Go backend reads "idx:id" back as that slot and ID, for a safe-integer index and ID |
| ApiClient.AssignSlotParts | client/src/services/api.js:111-116 | the parts of a slot map of safe integers read back as exactly that map |
| ApiClient.SlotsRoundTrip | client/src/services/api.js:111-122 | a slot map of safe integers sent by the client is the map the Go backend reconstructs |
| ApiClient.DetailParams | client/src/services/api.js:129-153 | signatures, server, page, limit and sort always; season and tag exactly when truthy |
| ApiClient.SeasonsUrl | client/src/services/api.js:200-205 | the URL carries a server parameter exactly when a server other than "all" is given |
| ApiClient.Seasons | client/src/services/api.js:200-214 | the fetched list, or seasons 1 to 10 when the fetch fails |
| ArenaPage.ParseKey | client/src/pages/Arena/ArenaPage.jsx:159-168 | the server is the key's first "\|"-part, and a signature pair is present exactly when the key has at least four parts |
| ArenaPage.KeyRoundTrip | client/src/pages/Arena/ArenaPage.jsx:41-44 | parsing the key of an item whose server and signatures hold no "\|" and whose season is a safe integer gives back its server, season, signatures and tag (a null tag as ""), whatever the tag holds |
| ArenaPage.ItemKeyInjective | client/src/pages/Arena/ArenaPage.jsx:41-44 | two such items with the same key agree on server, season, signatures and tag text, so a key names one summary |
| ArenaPage.KeyList | client/src/pages/Arena/ArenaPage.jsx:141 | one key per summary on the page |
| ArenaPage.KeySetMembers | client/src/pages/Arena/ArenaPage.jsx:143-146 | the set built from the key list holds exactly the listed keys |
| ArenaPage.PageKeysMembers | client/src/pages/Arena/ArenaPage.jsx:137-149 | a key belongs to the page's keys exactly when some summary on the page has it |
| ArenaPage.SelectAllResult | client/src/pages/Arena/ArenaPage.jsx:137-149 | keys off the page keep their state; when every page key was selected they are all removed, otherwise they are all added |
| ArenaPage.SelectAllTwice | client/src/pages/Arena/ArenaPage.jsx:137-149 | on a non-empty page, pressing select-all twice restores the selection when the page was fully selected, and otherwise leaves it without the page's keys |
| ArenaPage.Selection.constructor | client/src/pages/Arena/ArenaPage.jsx:39 | the selection starts empty |
| ArenaPage.Selection.ToggleCheck | client/src/pages/Arena/ArenaPage.jsx:126-135 | checking adds the item's key and unchecking removes it; nothing else changes |
| ArenaPage.Selection.SelectAllPage | client/src/pages/Arena/ArenaPage.jsx:137-149 | the new selection is SelectAllResult of the old one and the page |
| ArenaPage.Selection.OnQueryChange | client/src/pages/Arena/ArenaPage.jsx:86-89 | any change of page, season, sort, filters or server empties the selection |
| ArenaPage.Selection.BatchDelete | client/src/pages/Arena/ArenaPage.jsx:151-179 | an empty selection sends nothing; otherwise one parsed entry per selected key and only parsed selected keys, and the selection is emptied exactly when the request succeeds |
| ArenaPage.EverySelected | client/src/pages/Arena/ArenaPage.jsx:139-141 | true exactly when the page is non-empty and every key on it is selected |
| ArenaPage.ApplyToPage | client/src/pages/Arena/ArenaPage.jsx:143-147 | the selection with every page key added, or with every page key removed |
| ArenaPage.ItemsToDelete | client/src/pages/Arena/ArenaPage.jsx:159-168 | one entry per key, every key's parse among them, and nothing that is not the parse of a key |
| ArenaPage.SelectorFilter | client/src/pages/Arena/ArenaPage.jsx:91-99 | no slot opens the selector on all students; a slot below 4 on strikers and any other slot on specials |
| ArenaPage.SeasonAfterLoad | client/src/pages/Arena/ArenaPage.jsx:47-57 | a selected season that the fetched list lacks is cleared; one the list has, or none (or 0), is kept |
| SummaryCard.LeadsIffPrefix | client/src/components/arena/ArenaSummaryCard.jsx:18-19 | an ID leads with digit d exactly when its decimal string starts with that digit |
| SummaryCard.WithLeading | client/src/components/arena/ArenaSummaryCard.jsx:18-19 | keeps exactly the IDs that lead with the digit, no more of them than the team has |
| SummaryCard.WithLeadingAppend | client/src/components/arena/ArenaSummaryCard.jsx:18-19 | the filter of two lists joined is the two filters joined, so team order is kept |
| SummaryCard.Fill | client/src/components/arena/ArenaSummaryCard.jsx:21-34 | n slots: the list's IDs in order, padded with nulls, cut at n |
| SummaryCard.FormatTeamStructure | client/src/components/arena/ArenaSummaryCard.jsx:17-35 | four striker slots and two special slots holding the first strikers and specials of the team in order, the rest null |
| SummaryCard.FormatShowsTeam | client/src/components/arena/ArenaSummaryCard.jsx:17-35 | every ID shown in a slot is a team member of that kind, and a team with at most four strikers and two specials is shown in full |
| SummaryCard.LoadoutMap | client/src/components/arena/ArenaSummaryCard.jsx:155-161 | the map's IDs are exactly the entries' IDs and each maps to the last entry listed with it |
| SummaryCard.Toggle | client/src/components/arena/ArenaSummaryCard.jsx:287-292 | the hash flips membership and no other hash changes |
| SummaryCard.ToggleTwice | client/src/components/arena/ArenaSummaryCard.jsx:287-292 | toggling the same hash twice restores the selection |
| SummaryCard.PrevTarget | client/src/components/arena/ArenaSummaryCard.jsx:575-578 | the prev button loads the previous page, never below 1 |
| SummaryCard.NextTarget | client/src/components/arena/ArenaSummaryCard.jsx:591-594 | the next button loads the next page, never beyond the page count |
| SummaryCard.DetailFor | client/src/components/arena/ArenaSummaryCard.jsx:305-312 | the delete entry of a hash carries the summary's server, season, signatures and tag text |
| SummaryCard.DetailItems | client/src/components/arena/ArenaSummaryCard.jsx:305-312 | one entry per selected hash, every selected hash's entry among them, and each entry is the summary's entry for a selected hash |
| SummaryCard.DetailPanel.constructor | client/src/components/arena/ArenaSummaryCard.jsx:199-207 | a card starts collapsed, not loaded, not loading, with no detail selected, on page 1 of 0 |
| SummaryCard.DetailPanel.CardClick | client/src/components/arena/ArenaSummaryCard.jsx:271-285 | an admin's Ctrl/Meta-click only toggles the check; any other click flips expansion and starts loading exactly when the card opens unloaded and idle |
| SummaryCard.DetailPanel.LoadSettled | client/src/components/arena/ArenaSummaryCard.jsx:244-268 | loading ends either way; success marks the list loaded, clears the selection and takes over the page and page count (0 when missing), failure keeps them |
| SummaryCard.DetailPanel.ToggleDetailSelect | client/src/components/arena/ArenaSummaryCard.jsx:287-292 | the selection becomes Toggle of the old one and the hash |
| SummaryCard.DetailPanel.DeleteDetails | client/src/components/arena/ArenaSummaryCard.jsx:298-320 | nothing is sent exactly when no detail is selected; otherwise one entry per selected hash, and success clears the selection and reloads the same page |
| LegacySummaryCard.CardClick | client/src/components/ArenaSummaryCard.jsx:173-181 | an admin's Ctrl/Meta-click toggles the check; any other click goes to the parent and never expands the card |
| LegacySummaryCard.DeleteClick | client/src/components/ArenaSummaryCard.jsx:161-171 | the confirmed delete passes the summary's signatures and server |
| LegacySummaryCard.DeleteIgnoresSeasonAndTag | client/src/components/ArenaSummaryCard.jsx:169 | summaries that differ only in season or tag produce the same delete request |
| FilterPanel.SideOf | client/src/components/arena/ArenaFilterPanel.jsx:69 | "atk" names the attackers' slots and anything else the defenders' |
| FilterPanel.SlotPicked | client/src/components/arena/ArenaFilterPanel.jsx:66-72 | that side's slot holds the student's ID, its other slots and every other filter field are unchanged |
| FilterPanel.SlotCleared | client/src/components/arena/ArenaFilterPanel.jsx:74-79 | that side loses the slot, its other slots keep their IDs, and every other filter field is unchanged |
| FilterPanel.PickThenClear | client/src/components/arena/ArenaFilterPanel.jsx:66-79 | picking a student for a slot and then clearing it equals clearing it |
| FilterPanel.ClearEmptySlot | client/src/components/arena/ArenaFilterPanel.jsx:74-79 | clearing an empty slot leaves the filters as they were |
| FilterPanel.MinBattlesInput | client/src/components/arena/ArenaFilterPanel.jsx:114-121 | empty text is null and other text its parseInt |
| FilterPanel.MinBattlesTyped | client/src/components/arena/ArenaFilterPanel.jsx:114-121 | typing the numeral of a count that is a safe integer sets exactly that count |
| FilterPanel.MinWinRateInput | client/src/components/arena/ArenaFilterPanel.jsx:98-102 | empty or unparsable text is null; otherwise the rate is the typed percentage divided by 100 |
| FilterPanel.WithMinBattles | client/src/components/arena/ArenaFilterPanel.jsx:114-121 | only the minimum-battles field changes |
| FilterPanel.Reset | client/src/components/arena/ArenaFilterPanel.jsx:128 | no season, win rate, battle count, team or slot filter is left |
| StudentSelector.ByType | client/src/components/arena/StudentSelectorModal.jsx:17-21 | exactly the students of the filter type |
| StudentSelector.BySearch | client/src/components/arena/StudentSelectorModal.jsx:23-29 | exactly the students whose lower-cased name or ID numeral contains the term |
| StudentSelector.FilteredStudents | client/src/components/arena/StudentSelectorModal.jsx:14-30 | a student is offered exactly when it is of the type and, for a non-empty term, matches it |
| StudentSelector.NumeralLower | client/src/components/arena/StudentSelectorModal.jsx:24 | lower-casing leaves an ID's numeral unchanged |
| StudentSelector.SearchById | client/src/components/arena/StudentSelectorModal.jsx:14-30 | searching for a student's own ID offers it whenever it is of the filter type |
| StudentSelector.PickedSlotHasKind | client/src/components/arena/StudentSelectorModal.jsx:14-30 | through the filter panel, a pick for slots 0-3 writes a striker's ID and beyond that a special's |
| StudentSelector.SelectorModal.constructor | client/src/components/arena/StudentSelectorModal.jsx:9-12 | the modal starts closed, on all students, with an empty search |
| StudentSelector.SelectorModal.Open | client/src/pages/Arena/ArenaPage.jsx:91-99 | the modal opens on the slot's filter type and keeps the search text |
| StudentSelector.SelectorModal.Search | client/src/components/arena/StudentSelectorModal.jsx:74 | only the search text changes |
| StudentSelector.SelectorModal.Select | client/src/components/arena/StudentSelectorModal.jsx:84-89 | the picked student is one of the roster of the filter type; the modal closes and the search box is emptied |
| SettingsPage.CleanTeam | client/src/pages/Settings/SettingsPage.jsx:129-130 | exactly the team's positive IDs |
| SettingsPage.CleanAppend | client/src/pages/Settings/SettingsPage.jsx:129-130 | cleaning two parts joined is cleaning each, so slot order is kept |
| SettingsPage.SlotEditInCleanTeam | client/src/pages/Settings/SettingsPage.jsx:100-130 | writing a slot changes the cleaned team only at that place: the new ID when positive, nothing otherwise |
| SettingsPage.PreSubmit | client/src/pages/Settings/SettingsPage.jsx:128-167 | an empty cleaned team fails first; otherwise confirm exactly when no guard fires, each comparison false on NaN |
| SettingsPage.AdminRequest | client/src/pages/Settings/SettingsPage.jsx:173-187 | the cleaned teams of positive IDs, and the parsed season and counts when they parse |
| SettingsPage.PreSubmitLetsEmptySeasonThrough | client/src/pages/Settings/SettingsPage.jsx:136-140 | an empty season box reaches confirm, and the request then sent is refused by the Go handler |
| SettingsPage.PreSubmitChecked | client/src/pages/Settings/SettingsPage.jsx:128-167 | the corrected check: the same empty-team rule, and it confirms only what the written check confirms |
| SettingsPage.CheckedConfirmAccepted | client/src/pages/Settings/SettingsPage.jsx:169-187 | every entry the corrected check confirms is accepted by the Go handler with counts of at most 2000; both checks agree when all numbers parse |
| SettingsPage.LegacyManualSubmit | client/src/components/SettingsPage.jsx:126-158 | only empty cleaned teams stop the entry; otherwise the cleaned teams and the parsed season and counts are sent |
| SettingsPage.LegacyLooser | client/src/components/SettingsPage.jsx:126-158 | the predecessor sends every entry the current page confirms, and also zero counts, which the current page refuses |
| SettingsPage.FileSelect | client/src/pages/Settings/SettingsPage.jsx:58-75 | no file does nothing; a file of at most 20 MiB is offered for confirmation with its size, a larger one refused |
| SettingsPage.FileSizeBoundary | client/src/pages/Settings/SettingsPage.jsx:62-68 | exactly 20 MiB is accepted and one byte more refused |
| SettingsPage.TeamEditor.constructor | client/src/pages/Settings/SettingsPage.jsx:100-126 | both teams start as six empty slots and no selector is pending |
| SettingsPage.TeamEditor.OpenSelector | client/src/pages/Settings/SettingsPage.jsx:100-114 | the slot becomes pending, strikers are offered for slots 0-3 and specials beyond, and the teams are unchanged |
| SettingsPage.TeamEditor.Picked | client/src/pages/Settings/SettingsPage.jsx:101-111 | the pending side's slot takes the student's ID and the other team is unchanged |
| SettingsPage.TeamEditor.ClearSlot | client/src/pages/Settings/SettingsPage.jsx:116-126 | the side's slot becomes 0 and the other team is unchanged |
| StudentSelector.ByTypeAppend | client/src/components/arena/StudentSelectorModal.jsx:17-21 | the type filter keeps roster order: the filter of a concatenation is the concatenation of the filters |
| StudentSelector.BySearchAppend | client/src/components/arena/StudentSelectorModal.jsx:25-29 | the search keeps roster order in the same way |
| StudentSelector.FilteredAppend | client/src/components/arena/StudentSelectorModal.jsx:14-30 | the offered list is an order-preserving selection: the offer for a split roster is the two offers joined |
| Decimal.GoAtoi | server/internal/utils/parsers.go:15 | strconv.Atoi: a value is returned only for non-empty text and only within the signed 64-bit range |
| Decimal.AtoiValueAgrees | server/internal/handlers/submissions.go:157-164 | with the error discarded, a parsed value is kept, text that is no numeral reads as 0, and an out-of-range numeral reads as the clamped bound |
| Decimal.AtoiItoa | server/internal/utils/parsers.go:15 | Atoi reads back the decimal form of every 64-bit integer |
| Decimal.JsParseIntItoa | client/src/pages/Arena/ArenaPage.jsx:163 | parseInt reads back the decimal form of every safe integer |
| Decimal.Wrap64 | server/internal/repository/stats_repo.go:32 | Go's `int` result: within [MinInt64, MaxInt64] and equal to the exact value modulo 2^64 |
| Decimal.Wrap64OfUnsigned | server/internal/handlers/stats.go:96 | Go's int64 conversion of a uint64: the same value below 2^63, the value minus 2^64 from there on |
| Decimal.GoQuo | server/internal/handlers/stats.go:96 | Go's integer division truncates toward zero: the quotient's size is the sizes' quotient and its sign is the product of the operands' signs; for a non-negative dividend and positive divisor it is the floor quotient |
| Sorting.SortInts | server/internal/utils/team.go:26 | sort.Ints: the result is sorted and a permutation of the input |
| Sorting.SortIntsOfPermutation | server/internal/utils/team.go:26 | two lists with the same elements sort to the same list |
| Sorting.SortLex | server/main.py:62 | sorted of strings: the result is ordered lexicographically and a permutation of the input |
| Text.Split | server/internal/utils/parsers.go:12 | strings.Split: at least one part, and no part holds the separator |
| Text.SplitJoin | server/internal/utils/parsers.go:12 | splitting the join of parts without the separator gives the parts back |
| Text.JoinSplit | server/internal/utils/parsers.go:12 | joining the parts of a split with the separator gives the text back |
| Text.TrimShape | server/internal/utils/parsers.go:15 | strings.TrimSpace: the result neither starts nor ends with white space, and is empty exactly when the text is all white space |
| Text.TrimIdempotent | server/internal/utils/parsers.go:15 | trimming twice is trimming once |
| Text.ToLower | client/src/components/arena/StudentSelectorModal.jsx:24 | toLowerCase: same length, each character lower-cased on its own |
| SummaryCard.LowSampleThreshold | client/src/components/arena/ArenaSummaryCard.jsx:212 | the low-sample warning shows for at most 29 battles and turns off at 30 |
| SummaryCard.PagerInRange | client/src/components/arena/ArenaSummaryCard.jsx:569-596 | from a page in range both buttons land in range; an enabled prev goes back one page and an enabled next forward one |

## Left out

- Floating-point statistics are not modelled.
  - The Wilson lower bound and posterior mean (server/internal/utils/math.go, server/app/utils.py, server/main.py) are outside the model, apart from the Wilson bound's empty-sample case.
  - The win-rate percentages and colour thresholds of the cards are outside the model too.
  - The percent-to-fraction conversion of the filter panel divides the typed number by 100 as a real.
  - Number-to-text formatting of win rates is a function parameter (`fmt`).
- Databases are maps or sequences held in classes, not modelled SQL.
  - Query text, transactions and row locking are left out.
  - `GetFilteredSummaries` and `get_filtered_summaries` are modelled by the offset, the sort column and direction, and which filters apply. The SQL predicates (contains, slots, minimum win rate) and the rows a query returns are not.
- Result ordering by `created_at desc` is not modelled: comments (server/internal/handlers/comments.go:51), pending submissions and the submission history (server/internal/handlers/submissions.go:232, 241).
- The following foreign code becomes parameters: SHA-1 in the loadout hash, JWT parsing and verification in the admin guard, time parsing, the clock, `fetch` results and `localStorage`.
  - JWT signing (`GenerateToken`, server/internal/middleware/auth.go:22-34) is not part of this model.
  - Neither are bcrypt and the user handlers.
- `update_specific_stat` and `recalculate_all_stats` are not part of this model. They are imported by server/app/routers/stats.py and server/app/routers/submissions.py but defined elsewhere. The routers' `upload_json` and `delete_summary`, which call them, are not modelled either.
- Two main.py operations share the Python routers' rules, so they have no separate member.
  - Its listing offset (server/main.py:401) and page count (server/main.py:577) use the same formulas as `Crud.ListingOf` and `PyRouters.PyTotalPages`.
  - Its `delete_comment` (server/main.py:798-806) removes the same comment family as `CommentsHandler.CommentStore.DeleteComment`.
- The following main.py parts are outside the model:
  - the "not a list" rejection of an upload file;
  - file saving;
  - request binding errors in every backend (Gin `ShouldBind`, FastAPI validation).
- The predecessor pages share members with the current ones.
  - The predecessor summary card's `formatTeamStructure` (client/src/components/ArenaSummaryCard.jsx:13-31) and low-sample rule (line 150) are the same as the current card's. They are stated by `SummaryCard.FormatTeamStructure` and `SummaryCard.LowSampleThreshold`.
  - The predecessor settings page's `openSelector` and `clearSlot` (client/src/components/SettingsPage.jsx:98-124) are the current page's. They are stated by `SettingsPage.TeamEditor`.
- The non-admin path of `handleFinalSubmit` is not modelled. It submits the entry for review as multipart form data. The import upload after its confirmation dialog is not modelled either. Both are network calls.
- Confirmation dialogs, toasts, i18n and rendering are outside the model; a confirmed dialog is the method being called.
  - The order in which React applies overlapping state updates, and fetch races, are also outside the model.
  - A selector callback is modelled as writing into the team as it is when the pick happens. In React it closes over the team captured when the selector opened, and the two are the same while the modal is open.
- Three pieces of iteration order are not modelled:
  - the order of URLSearchParams entries in a query string (the servers read the parameters by name);
  - the order in which a JavaScript Set is iterated when the batch-delete and detail-delete payloads are built;
  - the order of Go map iteration in the upload aggregation.
- Only ASCII white space and ASCII letters are handled. `Text.Trim` removes only space, tab, newline, vertical tab, form feed and carriage return, and `Text.ToLower` lower-cases only the ASCII letters. The languages' other Unicode spaces and letters are left out.
- The digit checks accept ASCII digits only. This covers Python's `isdigit` on other Unicode digits.
- Pagination.PageCount: requires a positive page size. Every caller passes the constant `ITEMS_PER_PAGE`, so the division by zero JavaScript would turn into Infinity or NaN does not occur.
- LegacyMain.WilsonLowerBound: states only the empty-sample case. The formula for other samples is floating point, with the square root as a parameter.
- JavaScript numbers are modelled as exact integers. Above 2^53 - 1 `String` and `parseInt` round, and from 10^21 `String` prints exponent form. The round trips below are therefore stated for safe integers only (|n| <= 2^53 - 1), and nothing is promised for larger numbers.
- ApiClient.IdsRoundTrip: stated for safe-integer IDs only, because JavaScript numbers are modelled as exact integers.
- ApiClient.SlotPartRoundTrip: stated for a safe-integer index and ID only, for the same reason.
- ApiClient.AssignSlotParts: stated for slot maps of safe integers only, for the same reason.
- ApiClient.SlotsRoundTrip: stated for slot maps of safe integers only, for the same reason.
- ArenaPage.KeyRoundTrip: stated for safe-integer seasons only, for the same reason; so is ArenaPage.ItemKeyInjective.
- FilterPanel.MinBattlesTyped: stated for safe-integer counts only, for the same reason; so are Pagination.JumpToTypedPage and Decimal.JsParseIntItoa.
- StatsRepo.Step: Go's 64-bit wrap-around is modelled (`Wrapping64`), but the lemmas that add battles or undo them promise their result only while the grown total fits in MaxInt64. These are StatsRepo.UpsertAddsBattles, StatsRepo.RevertRestores, StatsRepo.RevertRestoresTable, LoadoutsHandler.AcceptedGrowsSummary, LoadoutsHandler.AcceptedGrowsDetail, StatsHandler.ManualAddRevertible and the Submissions.ApproveThenRevert lemmas. Past that bound the row is dropped instead, as StatsRepo.OverflowDropsRow shows.
- StatsHandler.TotalPagesLeast: holds only where no sum wraps. Beyond that the Go page count is whatever the wrapped, truncating int64 arithmetic gives; TotalPages computes it and StatsHandler.TotalPagesWraps shows two such values.
- Submissions.ApproveThenRevertSummaries: promised only for non-negative counts. A submission may store negative counts, and then approve and revert do not cancel (see Findings); the same holds for Submissions.ApproveThenRevertDetails.
- PyRouters.PyDatabase.ApproveSubmission: `json.loads` and the `> 0` comparison on its result are a decoder parameter (`TeamDecoder`), so which texts decode, and the exception text a failure carries, are not modelled. JSON floats and nested values are left out with it. The decoder takes one column at a time, loading and comparing it before the other column. The route loads both columns before it compares either (server/app/routers/submissions.py:106-110). When the attacking team fails the comparison and the defending column is bad JSON, the 500 therefore carries the attacking team's error in the model and the defending column's in the route.
- CommentsHandler.CommentStore.DeleteComment: takes the comment ID as a number. The Go handler passes the raw path text to the database (server/internal/handlers/comments.go:87-88), and a non-numeric ID makes the query fail with a 500. That is left out like the other binding errors.

## Findings

| source | as written | input that shows it | evidently intended | confidence | as-written member | corrected member |
|---|---|---|---|---|---|---|
| client/src/pages/Settings/SettingsPage.jsx:136-166 | each guard compares a `parseInt` result, and every comparison with NaN is false, so an unparsable season or count passes every check | season "" with wins "1", losses "0" and one student per team reaches the confirm dialog; the request then sent carries season 0 (NaN serialised as null), which the Go handler refuses | a season or count that does not parse is refused like an out-of-range one | not executed | SettingsPage.PreSubmit (shown by SettingsPage.PreSubmitLetsEmptySeasonThrough) | SettingsPage.PreSubmitChecked (proved by SettingsPage.CheckedConfirmAccepted) |
| server/internal/handlers/submissions.go:163-164 | the counts are kept as `strconv.Atoi` returns them, with no check of their sign, so a negative count is stored; approve then adds it and revert subtracts it, and the row rule (delete at a total of zero or below, clamp negative wins) does not cancel | a pending submission with wins "-3" and losses "0" on an empty table: approve creates no row, and revert then creates a row with 3 battles and 3 wins | counts below zero are refused, as the manual add does (server/internal/handlers/stats.go:194-197), so approve then revert restores the table | not executed | Submissions.NegativeCountSurvivesRevert | Submissions.CheckedFormError (proved by Submissions.CheckedFormRevertible) |
