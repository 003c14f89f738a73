# swincebot core, modelled in Dafny

swincebot is a Discord bot for a drinking game called the "swince". A
member runs `/swince`, tags the people present, uploads a video, and says
who each participant nominates next. The bot stores the swince in SQLite
and keeps seasonal and all-time leaderboards of points.

This project models the core of that program and proves properties about it:

- **Database bootstrap** (`initialization.dfy`, `setup_lemmas.dfy`, `sql_text.dfy`). `Setup` opens or creates the database and applies the pragma list. It then runs the integrity check and the schema check. A failed step closes the handle, backs up the file and recreates the database. The schema comparison normalises the SQL text first: it strips `--` comments, lower-cases, erases SQLite's `sqlite_sequence` table, drops `;` and collapses white space.
- **The `/swince` conversation** (`swince.dfy`, `sessions.dfy`, `session_facts.dfy`, `delivery.dfy`). This covers:
  - the mention and nomination scanners, which stand in for the two regular expressions, and `parseDiscordID`;
  - the video-file test and the lookup of the swince channel;
  - the four-step session, as a class with the fields the handler updates, plus the package-level session map.
- **Rulesets and leaderboards** (`v0.dfy`, `ruleset.dfy`, `leaderboard.dfy`). This covers:
  - the v0 scoring of 1 point per swince, 2 per nomination answered and 2 per answer;
  - the score breakdown text;
  - the season time range;
  - the season leaderboard: the exchange sort done in place on an array, the cut to `count` entries and the ranks;
  - the registry of rulesets and its lookups;
  - the all-time score and the all-time leaderboard;
  - the text rendering of a leaderboard.
- **Guild members** (`users.dfy`). These are `GetNick` and `GetMembers`.
- **Logging and flags** (`logging.dfy`, `flags.dfy`). These are `setLevel` and `setFormat`, the flag validators and the flag defaults.
- **Shared models of Go library behaviour** (`text.dfy`, `decimal.dfy`, `wrappers.dfy`):
  - `strings`: `ToLower` for ASCII letters, `HasPrefix`, `Contains`, `Index`, `ReplaceAll`, `Split`, `Join` and `Fields`;
  - `strconv.Itoa`, `strconv.ParseUint`, and `fmt.Sscanf` with `%d`;
  - Option and Result types.

SQLite, the filesystem, the clock and Discord are never called. What they
would answer is a parameter: an `Env`, `Db` or `World` value of oracle
functions, or a `Result` given to the operation. Each Go `(value, error)` pair is a
`Result` or `Option`. An error the Go code builds itself keeps its Go
text; an error Go passes on unchanged from the driver or from Discord is
the oracle's own string, passed on unchanged.

Where the Go code writes a loop that updates variables, the model is a
`method` with that loop. Most such methods are proved equal to a
specification function, and the lemmas are stated over that function. The
sort and the leaderboard builders (`Boards.SortByScore`,
`Boards.BuildLeaderboard`, `Rulesets.ScoreUsers`,
`Rulesets.Registry.AllTimeLeaderboard`) are proved against relations
instead: non-increasing scores with the same multiset of entries,
`IsLeaderboardOf`, and each user id scored exactly once.
Where the Go code updates an object's fields, the model is a `class`:
`Session`, `SessionStore`, `Bootstrap` (the global pragma list),
`Registry` (the global ruleset slice) and `V0`.

## Model

| member | source | states |
|---|---|---|
| Database.Backup | internal/database/initialization.go:136-153 | the target is `path.bak` exactly when no such file exists, and otherwise `path-<stamp>.bak`; the rename happens exactly when `path` exists, and then moves its content to the target; no other file is lost or altered, and `path.bak` itself is never overwritten (an existing time-stamped target is replaced, as `os.Rename` does) |
| Database.BackupReplacesStamped | internal/database/initialization.go:137-141 | only `path.bak` is looked up: when `path.bak` and `path-<stamp>.bak` both exist, the rename replaces the time-stamped file with `path`'s content |
| Database.BackupLosesEarlierStamped | internal/database/initialization.go:137-141 | two recoveries in the same second: with `p`, `p.bak` and `p-S.bak` present, the target is `p-S.bak` and no file holds its earlier content any more |
| Database.NewDb | internal/database/initialization.go:179-218 | succeeds exactly when open, pragmas, begin, schema and commit all succeed, and then makes the five calls in order; a failure returns the driver's own error from the first failing call, every earlier call having succeeded; an open failure makes one call; any later failure ends by closing the handle; a rollback happens exactly on a schema failure; commit is reached exactly when every step before it succeeded |
| Database.Scanned | internal/database/initialization.go:248-255 | when every row scans, the row texts in order, one per row |
| Database.SnapshotJoin | internal/database/initialization.go:247-256 | the text `fetchSchema` builds is the rows joined by newlines with one newline after the last |
| Database.SnapshotSplitWith | internal/database/initialization.go:247-256 | splitting the snapshot plus any text at newlines gives the rows back, then the split of that text |
| Database.SnapshotLines | internal/database/initialization.go:247-256 | rows without newlines come back as the lines of the snapshot, followed by one empty line |
| Database.FirstScanError | internal/database/initialization.go:248-253 | none exactly when every row scans; otherwise the error of a failing row all of whose predecessors scanned |
| Database.FirstScanErrorAt | internal/database/initialization.go:248-253 | a failing row preceded only by rows that scan is the one whose error is reported |
| Database.FetchedSchema | internal/database/initialization.go:240-257 | the query error first; else the driver's error of the first row that fails to scan; else the iteration error; success exactly when none of these occurs |
| Database.FetchSchema | internal/database/initialization.go:240-257 | the builder loop returns the specification `FetchedSchema`: the query error, the first scan error, the iteration error, or the snapshot |
| Database.ValidateSchema | internal/database/initialization.go:220-237 | valid exactly when the fetch succeeds and the two normalised texts are equal; a fetch error counts as a mismatch |
| Database.CrashedStays | internal/database/initialization.go:85-101 | once a statement has run on the nil handle, the rest of the pragma loop changes nothing |
| Database.OpenOrCreate | internal/database/initialization.go:64-79 | equals `Start`; it leaves no handle for a missing file exactly when `Setup` returns at once |
| Database.RunPragmas | internal/database/initialization.go:81-101 | the pragma loop equals `ApplyPragmas` over the whole list |
| Database.CheckIntegrity | internal/database/initialization.go:103-116 | equals `IntegrityStage`: a failed query or an answer other than exactly `ok` closes, backs up and recreates; nothing runs after an error |
| Database.CheckSchema | internal/database/initialization.go:118-126 | equals `SchemaStage`: a schema mismatch closes, backs up and recreates; nothing runs after an error |
| Database.Bootstrap.Setup | internal/database/initialization.go:55-133 | the result, files and trace are those of `SetupSpec`, an error being the `DriverError` of the last `newDB`; the global pragma list grows by the cache-size pragma on every call that does not return at once |
| SetupLemmas.MissingFileCreateFails | internal/database/initialization.go:64-70 | a missing file whose creation fails returns that `newDB` error at once, with no backup and no pragma |
| SetupLemmas.PragmasPass | internal/database/initialization.go:85-101 | when every pragma succeeds on the live handle, the loop only appends one successful statement per pragma, in order |
| SetupLemmas.PragmasSplit | internal/database/initialization.go:85-101 | running the loop over two lists joined is running it over the first and then the second |
| SetupLemmas.RecoverSucceeds | internal/database/initialization.go:89-92 | a recovery whose `newDB` succeeds leaves the next generation's handle and records close, backup and create, in that order |
| SetupLemmas.RecreatedHandleMissesEarlierPragmas | internal/database/initialization.go:82-101 | when pragma j fails on the original file, the recreated handle receives only pragmas j+1 onward; the trace shows the earlier pragmas on handle 0, the failure, close, backup, create, then the rest on the new handle |
| SetupLemmas.OriginalSurvivesPragmas | internal/database/initialization.go:85-101 | the loop ends on handle 0 only when it started on handle 0 and every pragma succeeded there |
| SetupLemmas.RecoverLeavesOriginal | internal/database/initialization.go:89-92 | recovery never leaves the original handle in place |
| SetupLemmas.StagesOnOriginal | internal/database/initialization.go:103-126 | the two checks keep handle 0 exactly when it was live, the integrity answer is exactly `ok` and the schema matches; they then only add two passed checks to the trace |
| SetupLemmas.ReadyOnlyOnOriginal | internal/database/initialization.go:55-133 | a `Setup` that returns the original file had that file open without error, with all pragmas and both checks passing; then the files are unchanged and the trace is open, pragmas, integrity, schema |
| SetupLemmas.OriginalKept | internal/database/initialization.go:55-133 | an existing file that opens and passes every pragma and check is returned as it is |
| SetupLemmas.ReadyOnOriginal | internal/database/initialization.go:55-133 | the existing file is kept exactly when it opens, every pragma succeeds on it, the integrity check says `ok` and the schema matches; then nothing is backed up or recreated |
| SetupLemmas.OrderedConcat | internal/database/initialization.go:55-133 | joining two traces that keep the recovery order keeps it, when the second does not start with a follow-up action |
| SetupLemmas.PragmasOrdered | internal/database/initialization.go:85-101 | the pragma loop keeps the recovery order of the trace |
| SetupLemmas.StartOrdered | internal/database/initialization.go:64-79 | the start of `Setup` produces a trace in recovery order |
| SetupLemmas.StagesOrdered | internal/database/initialization.go:103-126 | both checks keep the recovery order of the trace |
| SetupLemmas.SetupRecoveryOrdered | internal/database/initialization.go:55-133 | in every run, each failed check is followed by closing that handle, a backup and a create; a failed open is followed by a backup and a create; closes, backups and creates occur only in those places |
| SetupLemmas.ConsistentPragmas | internal/database/initialization.go:85-101 | the pragma loop keeps the handle and the trace consistent |
| SetupLemmas.ConsistentStages | internal/database/initialization.go:103-126 | both checks keep the handle and the trace consistent |
| SetupLemmas.SetupResultCharacterised | internal/database/initialization.go:55-133 | `Setup` returns a handle exactly when none of its `newDB` calls failed; an error is that of the last `newDB`; a recreated handle is the fresh file at `path`; a panic is its last action |
| SetupLemmas.SetupErrorIsDriverError | internal/database/initialization.go:55-133 | an error returned by `Setup` is the driver's own text, from the failing call of some `newDB` whose earlier calls all succeeded |
| SetupLemmas.OpenAndCreateFailPanics | internal/database/initialization.go:72-92 | when the existing file fails to open and creating it also fails, the first pragma runs on the nil handle: a panic after open, backup and create |
| SqlText.Uncommented | internal/database/initialization.go:171-173 | the line up to its first `--`: a prefix of the line that holds no `--`, and the whole line when it has none |
| SqlText.RemoveSqlComments | internal/database/initialization.go:168-176 | the in-place loop over the lines returns the uncommented lines joined by single spaces; the result holds no newline |
| SqlText.Collapse | internal/database/initialization.go:161-163 | the result has no `;` and no newline, only single spaces between words and none at either end, and no character not in the input except spaces |
| SqlText.Canonicalize | internal/database/initialization.go:160-163 | after the sqlite_sequence text is erased and the text collapsed: collapsed, no `;`, no newline, characters drawn from the input |
| SqlText.NormalizeSql | internal/database/initialization.go:157-165 | the normal form is collapsed, has no `;`, no newline and no upper-case ASCII letter |
| SqlText.CommentsDoNotMatter | internal/database/initialization.go:157-176 | two texts whose lines agree once comments are removed normalise alike |
| SqlText.TrailingComment | internal/database/initialization.go:157-176 | a trailing `-- comment` on a line does not change the normal form |
| SqlText.CaseDoesNotMatter | internal/database/initialization.go:157-165 | texts equal up to ASCII letter case normalise alike |
| SqlText.CollapseGap | internal/database/initialization.go:161-163 | a double space collapses like a single one |
| SqlText.SequenceTableIgnored | internal/database/initialization.go:157-165 | a line that reads `create table sqlite_sequence(name,seq)` in any case normalises away, when the rest of the text does not spell that definition itself |
| Text.Lower | internal/database/initialization.go:159 | `strings.ToLower` on ASCII: the same length, and each character lower-cased |
| Text.Index | internal/database/initialization.go:171 | `strings.Index`: -1 when no position starts the pattern, otherwise the first position that does |
| Text.IndexAt | internal/database/initialization.go:171 | the first position that starts the pattern is what `Index` returns |
| Text.ReplaceAll | internal/database/initialization.go:160-162 | `strings.ReplaceAll`: the result is made of the input's characters and the replacement's |
| Text.ReplaceAround | internal/database/initialization.go:160 | an occurrence of a pattern that cannot overlap itself splits the replacement into the two sides |
| Text.SplitOn | internal/database/initialization.go:169 | `strings.Split`: at least one piece, none holding the separator |
| Text.SplitJoin | internal/database/initialization.go:169-175 | joining the pieces of a split with the separator gives the text back |
| Text.Fields | internal/database/initialization.go:163 | `strings.Fields`: non-empty pieces, without white space, made of the input's characters |
| Text.FieldsNoneIffBlank | internal/database/initialization.go:163 | there is no field exactly when the input is empty or all white space |
| Text.FieldsToken | internal/database/initialization.go:163 | a non-empty run without white space is one field, so fields are the maximal runs |
| Text.FieldsSplitAtSpace | internal/database/initialization.go:163 | a white-space character separates the fields on either side of it |
| Swince.MentionAt | internal/client/swince.go:252 | a match of `<@!?(\d+)>` at the start of the text captures a non-empty run of digits and consumes no more than the text |
| Swince.MentionAtMatches | internal/client/swince.go:252 | the text a match consumes is `<@digits>` or `<@!digits>` |
| Swince.MentionsCons | internal/client/swince.go:252-253 | a mention written in front of any text is read back first, and the rest is read from what follows |
| Swince.MentionsSkip | internal/client/swince.go:252-253 | text without `<` neither holds a mention nor hides one after it |
| Swince.ParseDiscordId | internal/client/swince.go:286-292 | always an `int64` |
| Swince.ParseDigits | internal/client/swince.go:286-292 | a captured run of digits reads as its value, or as 0 when that overflows `int64` |
| Swince.NonZero | internal/client/swince.go:256-262 | keeps exactly the ids that are not 0 |
| Swince.MentionIdsPositive | internal/client/swince.go:250-264 | every id `extractUserMentions` returns is a positive `int64` |
| Swince.ExtractUserMentions | internal/client/swince.go:250-264 | the loop returns the non-zero parsed ids of the mentions, in text order |
| Swince.PingReadsBack | internal/client/swince.go:226 | the id in `<@%d>` is read back as that id |
| Swince.PingAllRoundTrip | internal/client/swince.go:224-232 | reading the mentions out of the space-joined list of `<@id>` gives back the ids, in order, for every positive `int64` id |
| Swince.Nominations | internal/client/swince.go:271-272 | every match of the nomination pattern captures two non-empty runs of digits |
| Swince.NominationMapLast | internal/client/swince.go:274-283 | a nominator is in the map exactly when some pair with two non-zero ids names it; it maps to the nominee of the last such pair |
| Swince.ParseNominations | internal/client/swince.go:266-284 | the loop builds the map `NominationMap` over the parsed pairs |
| Swince.ConnectorMatches | internal/client/swince.go:271 | the ` nominates ` the bot asks for matches `\s+nominates\s+` in full |
| Swince.NominationFromParts | internal/client/swince.go:271 | a mention, the connective and a mention in a row are read as one nomination that consumes all three |
| Swince.IsVideoFile | internal/client/swince.go:294-303 | the loop answers whether the lower-cased name ends in one of the six extensions |
| Swince.VideoWithExtension | internal/client/swince.go:294-303 | any name ending in one of the extensions, in any letter case, is a video |
| Swince.NoDotNoVideo | internal/client/swince.go:294-303 | a name without a dot is never a video |
| Swince.FirstSwinceChannel | internal/client/swince.go:321-327 | the index of the first text channel whose lower-cased name or topic contains `swince`, with no match before it; none when there is no match |
| Swince.FindSwinceChannel | internal/client/swince.go:315-329 | the loop returns the id of the first matching channel, or "" when the lookup fails or nothing matches |
| Swince.SwinceChannelFound | internal/client/swince.go:315-329 | the first matching channel's id is the answer |
| Sessions.SessionKeyInjective | internal/client/swince.go:35 | for ids without `_`, two sessions share a key exactly when user and channel are the same |
| Sessions.SessionKeyCollision | internal/client/swince.go:35 | without that restriction, two different pairs (`a_b`, `c`) and (`a`, `b_c`) share a key |
| Sessions.NotesCover | internal/client/swince.go:90-113 | the step-1 report has one note per tagged user whose lookup succeeds, and no other |
| Sessions.AutoSelectPicks | internal/client/swince.go:97-102 | a user gets a selected nomination exactly when they have exactly one unfulfilled nomination, and it is that one |
| Sessions.TagStep | internal/client/swince.go:76-122 | from the initial state, step 1 leads to a reachable state |
| Sessions.Step | internal/client/swince.go:67-166 | every message leads from a reachable state to a reachable state, and the step never goes back |
| Sessions.Merge | internal/client/swince.go:153-155 | the parsed nominations overwrite the session's |
| Sessions.CompleteSwince | internal/client/swince.go:168-242 | the loop writes one swinceur row per tagged user, in order, after a successful download and insert; the post goes to the swince channel, or the session's channel when none is found |
| Sessions.Session.Handle | internal/client/swince.go:75-165 | the new session state and the reply are those of `Step` |
| Sessions.Session.TagUsers | internal/client/swince.go:76-122 | the new state and the reply are those of `TagStep` |
| Sessions.Session.TakeVideo | internal/client/swince.go:130-148 | the new state and the reply are those of `VideoStep` |
| Sessions.Session.TakeNominations | internal/client/swince.go:150-164 | the new state and the reply are those of `NominateStep` |
| Sessions.SessionStore.Begin | internal/client/swince.go:33-45 | a fresh session in step 1 is filed under `user_channel`, replacing any before it, and nothing else changes |
| Sessions.SessionStore.HandleMessage | internal/client/swince.go:67-71 | an unknown key is ignored; otherwise the session takes one `Step` and is removed exactly when the swince was saved |
| Sessions.ExtraNominatorsComplete | internal/client/swince.go:157-160 | step 4 counts nominations, not tagged nominators: two nominations by untagged users complete a swince of two |
| Sessions.NoNominationNominatesZero | internal/client/swince.go:188-198 | a tagged user without a nomination gets a row nominating 0 |
| Sessions.VideoGate | internal/client/swince.go:130-146 | step 3 moves on exactly when the first attachment is a video, and keeps its URL; otherwise the state is unchanged |
| Delivery.OneShotNeverSaves | internal/client/swince.go:60-64 | with the listener registered once, a fresh session stays in step 1 unless the first message posted is its author's in its channel, then takes that single tagging step, and its swince is never saved |
| Delivery.DeliveredSaves | internal/client/swince.go:67-164 | with every message of the author in the channel delivered, a tagging message and then three messages carrying a video and enough nominations save the swince, whatever follows, keeping the tagged users and the video |
| Delivery.AfterTagging | internal/client/swince.go:123-164 | from step 2 or 3 with users tagged, three messages carrying a video and enough nominations save the swince |
| Delivery.TagPhase | internal/client/swince.go:76-122 | step 1 on a message with mentions tags exactly those users, reaches step 2 or 3 with no nominations, and saves nothing |
| Delivery.SelectPhase | internal/client/swince.go:123-127 | step 2 moves to step 3 on any message |
| Delivery.VideoPhase | internal/client/swince.go:129-147 | step 3 on a video attachment keeps its link and moves to step 4 |
| Delivery.NominatePhase | internal/client/swince.go:149-164 | step 4 with at least as many parsed nominations as tagged users saves the swince, keeping the tagged users and the video |
| SessionFacts.ShortcutExactly | internal/client/swince.go:119-122 | step 1 goes straight to the video exactly when no user is tagged twice and each has exactly one unfulfilled nomination |
| SessionFacts.AllPicked | internal/client/swince.go:97-102 | when every tagged user has one nomination, all of them are selected |
| SessionFacts.NotPicked | internal/client/swince.go:97-112 | a user without exactly one unfulfilled nomination is not selected |
| SeasonRules.SeasonRange | internal/ruleset/v0.go:218-237 | an error exactly when the season is not set or its start is unknown, with Go's messages; the end is the next season's start, or `now` |
| SeasonRules.Counts | internal/ruleset/v0.go:40-81 | the first error among the season check, range and three count queries, with the wrapping prefix; otherwise the three counts over the season's range |
| SeasonRules.Score | internal/ruleset/v0.go:40-86 | an error exactly when a lookup fails, with its message; otherwise swinces + 2 × nominations + 2 × answers, never negative |
| SeasonRules.ScoreStrAgrees | internal/ruleset/v0.go:88-137 | `ScoreStr` fails exactly when `Score` does, with the same error; its text starts `Total: ` and reads back as the score |
| SeasonRules.SeasonUsers | internal/ruleset/v0.go:139-157 | the user list of the season's range, or the first error, with Go's messages |
| SeasonRules.CandidatesExactly | internal/ruleset/v0.go:165-180 | candidates have an empty nick, a successful score and an id that `%d` reads from a listed id text (its leading digit run, so `12_3` gives 12); every id that scans and scores gives one |
| SeasonRules.V0.SetSeason | internal/ruleset/v0.go:23-25 | the season index becomes the argument |
| SeasonRules.V0.Leaderboard | internal/ruleset/v0.go:139-207 | an error exactly when the user list fails, with its message; otherwise a leaderboard of the season's candidates cut to `count` |
| Boards.SortByScore | internal/ruleset/v0.go:182-189 | the exchange sort leaves the array in non-increasing score order and a permutation of what it held |
| Boards.Truncate | internal/ruleset/v0.go:191-194 | the first `count` entries when 0 < count < length, otherwise all |
| Boards.Rank | internal/ruleset/v0.go:196-204 | the entries keep user and score in order, and entry i has rank i + 1 |
| Boards.BuildLeaderboard | internal/ruleset/v0.go:182-206 | the board is ranked 1, 2, …, has non-increasing scores and holds candidates only; none left out scores above an entry kept |
| Boards.CutKeepsBest | internal/ruleset/v0.go:191-194 | after the sort, nothing cut off scores above anything kept |
| Boards.UncutIsPermutation | internal/ruleset/v0.go:191-194 | without a cut, the board holds every candidate exactly once |
| Boards.Render | internal/ruleset/leaderboard.go:19-33 | the builder loop produces the empty message, or the header and one line per entry |
| Boards.RenderedLines | internal/ruleset/leaderboard.go:19-33 | split at newlines, a non-empty board is the header, one `rank. nick - score pts` line per entry in order, and nothing after the last newline |
| Boards.TerminatedConcat | internal/ruleset/leaderboard.go:27-30 | writing two runs of lines one after the other keeps their order |
| Rulesets.Registry.InitializeRulesets | internal/ruleset/ruleset.go:39-49 | one fresh v0 ruleset, and ruleset i plays season i |
| Rulesets.Registry.Get | internal/ruleset/ruleset.go:53-61 | an error exactly when there are no rulesets, otherwise the first |
| Rulesets.Registry.GetWithDB | internal/ruleset/ruleset.go:64-82 | an error exactly when there are no rulesets; the first when the season lookup fails; the last when the season is past the end; that season's otherwise; the index panic for a negative season |
| Rulesets.InitializedGet | internal/ruleset/ruleset.go:39-61 | after initialisation, `Get` picks season 0 at any time |
| Rulesets.InitializedGetWithDB | internal/ruleset/ruleset.go:39-82 | after initialisation, `GetWithDB` picks season 0 for every time it can place, and when it cannot |
| Rulesets.ScoreOrZero | internal/ruleset/all_time.go:22-27 | a season's score when it succeeds, 0 when it fails |
| Rulesets.SeasonWithinAllTime | internal/ruleset/all_time.go:12-31 | every season a user scores in is bounded by the all-time total |
| Rulesets.AllTimeConcat | internal/ruleset/all_time.go:21-28 | the all-time total splits over the seasons |
| Rulesets.Registry.AllTimeScore | internal/ruleset/all_time.go:12-31 | an error exactly when there are no rulesets; otherwise the sum of the seasons' scores that succeed |
| Rulesets.SumScores | internal/ruleset/all_time.go:21-28 | the loop sums the scores that succeed, skipping those that fail |
| Rulesets.AllTimeUsersExactly | internal/ruleset/all_time.go:39-51 | the users collected are exactly those on some season's uncut leaderboard |
| Rulesets.Registry.CollectUsers | internal/ruleset/all_time.go:39-51 | the union of the users of every season's uncut leaderboard, seasons that fail skipped |
| Rulesets.AddEntryIds | internal/ruleset/all_time.go:48-50 | every entry's user id is added |
| Rulesets.ScoreUsers | internal/ruleset/all_time.go:53-68 | each collected id is scored once, with its all-time score |
| Rulesets.Registry.AllTimeLeaderboard | internal/ruleset/all_time.go:34-95 | an error exactly when there are no rulesets; otherwise a leaderboard over every collected user, once each, with the all-time score |
| Discord.GetNick | internal/discord/users.go:15-25 | the lookup error wrapped, or else exactly the nick when it is non-empty and exactly the user name when it is empty |
| Discord.GetMembers | internal/discord/users.go:27-57 | the lookup error wrapped, or the kept members in order |
| Discord.KeptExactly | internal/discord/users.go:33-54 | a kept user comes from a human member with that id and display name; every human member whose id parses is kept |
| Discord.KeptConcat | internal/discord/users.go:33-54 | filtering keeps the members' order |
| Discord.NoBots | internal/discord/users.go:35-37 | bots never reach the user list |
| Logging.FirstPrefix | internal/logging/logging.go:60-72 | the level of the first row whose prefix starts the text, none when no row does |
| Logging.SetLevel | internal/logging/logging.go:59-74 | no error exactly when the lower-cased input starts with `deb`, `inf`, `warn` or `err`, then that row's level; otherwise Info and `invalid log level` |
| Logging.PrefixesExclusive | internal/logging/logging.go:60-67 | no text starts with two of the prefixes |
| Logging.LevelNameRoundTrip | internal/logging/logging.go:59-74 | each level's name, in any letter case, selects that level |
| Logging.SetLevelIgnoresCase | internal/logging/logging.go:69 | only the lower-cased input matters |
| Logging.SetFormat | internal/logging/logging.go:76-86 | no error exactly for the six names; JSON only for `json`/`structured`; disabled only for `none`/`off`; otherwise Text and `invalid log format` |
| Logging.FormatNamesRoundTrip | internal/logging/logging.go:76-86 | each format is selected by its name and by its alias |
| Logging.FormatCaseSensitive | internal/logging/logging.go:77 | names are matched case-sensitively: `JSON` is refused |
| Flags.ValidateListenPort | internal/app/flags.go:182-191 | an error exactly when the port is below 1024 or above 65535 |
| Flags.ValidateLogLevel | internal/app/flags.go:161-172 | no error exactly when the lower-cased input contains `deb`, `inf`, `warn` or `err` anywhere; otherwise `invalid log level` |
| Flags.ValidateLogFormat | internal/app/flags.go:174-180 | no input is refused |
| Flags.ValidateLogOutput | internal/app/flags.go:142-159 | `stdout` and `stderr` pass; any other value is the outcome of opening that file |
| Flags.SetLevelAcceptedIsValid | internal/app/flags.go:161-172 | every input `setLevel` accepts passes the level validator |
| Flags.ValidLevelNotAlwaysSet | internal/app/flags.go:161-172 | the converse fails: `xinfo` passes the validator but `setLevel` refuses it |
| Flags.FormatValidatorLaxer | internal/app/flags.go:174-180 | the format validator passes names that `setFormat` refuses |
| Flags.DefaultsValid | internal/app/flags.go:39-70 | the defaults `plain`, `stdout`, `info` and 1157 each pass their validator; `info` selects Info and `plain` the text format |
| Decimal.Itoa | internal/database/initialization.go:83 | `strconv.Itoa`: the shortest decimal spelling, with `-` for negatives |
| Decimal.ParseUint64 | internal/discord/users.go:39 | `strconv.ParseUint(s, 10, 64)`: digits only, non-empty, at most 2^64 - 1, and then their value |
| Decimal.ScanInt64 | internal/client/swince.go:290 | `fmt.Sscanf("%d")` into an `int64`: a result is always in range; its value is pinned by `ScanNatDigits` and `ScanNegative` |
| Decimal.ScanUint64 | internal/ruleset/v0.go:169 | `fmt.Sscanf("%d")` into a `uint64`: a result is at most 2^64 - 1; its value is pinned by `ScanNatDigits` |
| Decimal.ScanNatDigits | internal/ruleset/v0.go:169 | a decimal spelling followed by any text that does not start with a digit reads as its number, through `%d` into an `int64` (when it fits) and a `uint64`, and through `ParseUint` |
| Decimal.ScanNegative | internal/client/swince.go:290 | `-` and a decimal spelling followed by any non-digit text read as the negated number when it fits an `int64`, and fail otherwise |
| Decimal.ScanStopsAtUnderscore | internal/ruleset/v0.go:169 | `%d` stops at `_`: `12_3` reads as 12 into both an `int64` and a `uint64` |
| Decimal.ItoaRoundTrip | internal/ruleset/v0.go:51 | `Sscanf`'s `%d` reads back what `Itoa` writes, exactly on the `int64` range |

## Left out

- I/O: SQLite, the filesystem, the clock, HTTP and the Discord API are not modelled. What they would answer comes in as a parameter or an oracle function (`Env`, `Db`, `World`, a `Result` lookup).
- Logging: the `slog` calls are left out, as are `logging.Setup` and `setOutput` (internal/logging/logging.go:26-57, 88-102). Those two only wire library handlers and open a file. `validateLogOutput` takes the outcome of its file open as a parameter.
- `flags()`: only the four defaults that have validators are modelled. The other entries are library flag declarations with no logic.
- Error values: an error is kept only as its message string. Go's `%w` wrapping is modelled as string concatenation.
- internal/util/util.go is used only for `ErrOutOfBoundsPort`. The `pb.ErrOutOfBoundsPort` that flags.go refers to is not part of this model, so the model uses util.go's text for it.
- Database.Backup: the rename is assumed to succeed whenever `path` exists; only a missing `path` gives "nothing renamed". A rename that fails on an existing file (permission denied, a target that is a directory) is not modelled: Go then leaves the corrupt file at `path` (internal/database/initialization.go:144-152) and the next `newDB` opens that same file again (internal/database/initialization.go:180), whereas the model's `Create` always puts a fresh file at `path`.
- Database.NewDb: the partial effects of a failed `newDB` on the disk are not modelled. A failed `newDB` leaves the files as they were.
- Database.FetchSchema: on an iteration error the model returns only the error. Go also returns the text built so far, which `validateSchema` ignores.
- Database.Backup: does not promise that no backup is ever overwritten. Go looks up only `path.bak`, so a time-stamped target that already exists (two recoveries within one second) is replaced by the rename; `BackupReplacesStamped` and `BackupLosesEarlierStamped` state this.
- Database.Bootstrap.Setup: the duplicated `cache_size` entries that repeated calls append to the global list are modelled, but their effect on SQLite is not.
- Sessions: `SessionStore.HandleMessage` delivers every message of the session's author in its channel; Go's one-shot listener does not (see "## Findings").
- Sessions: the message texts are not modelled; replies are a `Reply` datatype. The number selection of step 2 is left out, since Go does not implement it either. Neither are the swince insert, the video bytes or `downloadAttachment`; their outcomes are the `World` flags.
- Sessions: the concurrent access to the session map by several Discord events is not modelled.
- Sessions.CompleteSwince: the final post's text is not modelled. That includes its nominee list, which Go builds in map iteration order, the 8-character swince id and the video size. Only the post's channel and the swinceur rows are modelled.
- Swince.ParseNominations: Go's map iteration order is not modelled, since the result is a map.
- Text.Lower: covers ASCII letters only. Go's `strings.ToLower` also maps other Unicode letters, for instance 'İ' (U+0130) to 'i' and the Kelvin sign (U+212A) to 'k'. So the model refuses some inputs Go accepts: a level such as "İNFO" in `setLevel` and `validateLogLevel` (internal/logging/logging.go:69, internal/app/flags.go:163); and it misses some matches Go finds: a file name ending in `.M`, the Kelvin sign and `V` in `isVideoFile` (internal/client/swince.go:296), and a channel name or topic with such letters in `findSwinceChannel` (internal/client/swince.go:323-324).
- Boards.SortByScore: the order among equal scores, which the exchange sort leaves unstable in Go, is not specified. The contract states sortedness and a permutation only.
- Boards.BuildLeaderboard: v0.go and all_time.go each repeat the same sort, cut and rank code. The model shares one copy.
- SeasonRules.Score: the sums use unbounded integers. Go's 64-bit `int` could in principle overflow, which is unreachable with row counts.
- SeasonRules.ScoreStrAgrees: states only that the text opens with the total and that the total reads back as the score. The three component values are printed by the same `Itoa` but are not stated about separately.
- SeasonRules.SeasonRange: the clock is read once per call of the model. `SeasonRange`, `Counts`, `V0.Leaderboard`, `Registry.AllTimeScore` and `Registry.AllTimeLeaderboard` take one `now` for the whole call. For a season with no successor, Go calls `time.Now()` again in every `getSeasonTimeRange` (internal/ruleset/v0.go:233): once for `GetAllUsersInSeason` and once more for each user's `Score`. With rows inserted meanwhile, Go's windows can differ from one another; the model does not capture that.
- SeasonRules.V0: `String()` returns a constant description (internal/ruleset/v0.go:27-38) and is not modelled.
- Rulesets.Registry.GetWithDB: Go panics when a season id is negative. The model returns `IndexPanic` instead.
- Rulesets.Registry.AllTimeLeaderboard: Go skips a user whose `AllTimeScore` fails (internal/ruleset/all_time.go:62-64). That cannot happen once the ruleset slice is known to be non-empty, so the model omits the branch. The candidate list's order comes from Go map iteration and is left arbitrary.
- internal/client/action.go, the bot commands other than `/swince`, and the generated query code are not part of this model.

## Findings

| source | as written | input that shows it | evidently intended | confidence | as-written member | corrected member |
|---|---|---|---|---|---|---|
| internal/client/swince.go:60-64 | `swinceHandler` registers its message listener with `AddHandlerOnce`, so the listener is removed after the first message posted anywhere, by anyone; `handleSwinceMessage` runs only when that one message is the author's in the session's channel | `/swince`, then the author posts `<@1>`, then a video, then `<@1> nominates <@2>`: only the first message is handled, and the session stays in step 2 or 3 for ever | every message of the author in the channel reaches `handleSwinceMessage` until the swince is saved, so that steps 2 to 4 and `completeSwinceProcess` can run | high; not executed | Delivery.OneShotNeverSaves | Delivery.DeliveredSaves |
