# A model of CCSParser

CCSParser reads contest data in the CCS Contest API formats (2023-06 and 2026-01), from an
event feed of JSON lines or from REST endpoints, keeps it in a store, and derives ICPC
standings from the store. This project models that core in Dafny and proves what it promises:
feed lines change a store, the store is turned into standings, and times run through both.

Verify the project with `dafny verify dfyconfig.toml`.

## How it is organised

- **Values**: `Types` (JSON, contest objects, events, options), `Collections` (enumerations, sums,
  sorting), `Numerals` (decimal text as `printf` writes and `from_chars` reads it).
- **Times**: `RelTime` and `AbsTime` hold the two parsers and printers; `Calendar` has the simple day
  count and the closed form the program uses.
- **Feed to store**: `LineParser`, `Decode`, the class `Store.ContestStore`, and the class
  `Session.StreamingParseSession`. The classes update their fields as the program does; each method is
  proved against a function of the state before it (`Store.Perform`, `SessionSpec.Consume`). Of these
  functions `LineMeaning`, `EventMeaning` and `Encoding` say what they mean on documents, lookups and
  fields; `ErrorRun`, `FeedCursor`, `EventSourcing`, `SessionReplay`, `FeedOrder` and `ProperFeeds` prove
  what holds over whole feeds. `Rest` and `RestMeaning` are about the second way into the store.
- **Store to standings**: `Scoreboard` and `ScoreboardBuilder` have the program's loops;
  `ScoreboardSpec` says which standings a view of a store has, without loops. `AccumTheorems`,
  `StandingsTheorems`, `TieBreaks`, `OrderIndependence` and `AddedSubmission` prove what follows for
  views; `StoreConditions`, `StoreStandings` and `FirstSolvers` state it for stores, and
  `StandingsFromRecords` and `CellsFromRecords` say what standings show of the objects in a store.
- **Instances** has concrete stores and lines on which code and documentation differ.

Two kinds of freedom are modelled as such. A walk over a hash map picks the next key arbitrarily, and
the library sort promises no more than some sorted permutation. So a store has a set of possible
standings, and a theorem about standings holds for all of them.

A feed line carries its text and what the JSON library makes of it. The data text kept in the log is
modelled by the document it parses to, so writing and parsing JSON text are taken as inverse.

## Where the code and its documentation differ

The model follows the code.

- Rows with equal score are ordered by team name (`src/scoreboard/scoreboard_builder.cc:365`), not by
  team id as `include/ccsparser/scoreboard_builder.h:25` and the repository's README say
  (`TieBreaks.TeamIdTieBreak`, `Instances.DocumentedTieBreakFails`).
- Solve minutes are called a floor, but the division truncates toward zero; before the start of the
  contest the two differ (`StandingsTheorems.SolveMinutesAreRoundedDown`,
  `Instances.DocumentedRoundingFails`).
- TIME fractions of more than three digits are meant to be cut to milliseconds, but are rejected if all
  digits together leave 32 bits (`AbsTime.WellFormedIsRead`, `LongFractionIsRejected`).
- Offsets of -59 to -1 minutes are printed without their sign (`AbsTime.OffsetRoundTrip`).
- Fail-fast is documented to abort on the first error. With a limit of consecutive errors of 0 or 1 the
  limit comes first, and the stream ends with a result instead of an error (`ErrorRun.ParseStream`,
  `Instances.FailFastAtLimit`).
- Restoring a store after a rollback is documented as feeding the events through the session again.
  Under automatic version choice that can give other objects
  (`SessionReplay.SameSessionReplayCanDiffer`); `SessionReplay.SameSessionReplay` says exactly when
  it gives the same ones. A fresh session always does.
- A bad shape of the data is filed under malformed JSON.

## Assumptions

- Theorems about two builds from one store assume that objects are stored under their own ids. A single
  upsert stores under the id of the event, so a feed can break this; `ProperFeeds` says exactly when.
- Replacing the collection of a singleton type is modelled as the program has it: it fills a collection
  that no lookup reads.

## Model

| member | source | states |
|---|---|---|
| Scoreboard.ContestWindow | src/scoreboard/scoreboard_builder.cc:43-74 | The cut-off is the least of the times at which the contest is over: its duration (the largest 64-bit number if there is none) and, if positive, the time from the start to the recorded end. |
| Scoreboard.ColumnLessIsStrictWeakOrder | src/scoreboard/scoreboard_builder.cc:94-98 | The comparator of columns (ordinal, then label as a byte string) is a strict weak order, as the sort demands. |
| Scoreboard.CollectColumns | src/scoreboard/scoreboard_builder.cc:85-98 | The columns are exactly the problems of the store, as a multiset, in an order the comparator allows. |
| Scoreboard.BestJudgements | src/scoreboard/scoreboard_builder.cc:141-159 | The loop that updates the map of verdicts in place computes `Best`, whose entries `AccumTheorems.VerdictIsLatest` characterises. |
| AccumTheorems.VerdictIsLatest | src/scoreboard/scoreboard_builder.cc:133-159 | A submission is judged exactly if some judgement has a verdict on it, and the verdict used is that of a judgement such that no other on the submission has a later end time, a missing end time being read as the epoch. |
| OrderIndependence.VerdictsIndependentOfOrder | src/scoreboard/scoreboard_builder.cc:145-158 | The verdicts used are the same for every order of walking the judgements if and only if the latest judgements on each submission agree on the verdict. |
| Scoreboard.CollectTeams | src/scoreboard/scoreboard_builder.cc:161-182 | One pass gives the index of teams, the shown ids and the hidden ids of the listed teams. |
| Scoreboard.OrderSubmissions | src/scoreboard/scoreboard_builder.cc:197-213 | Walking the verdicts in any order and sorting lists every submission that counts exactly once (judged, known, with team and problem, before the cut-off), by contest time; ties may fall either way. |
| Scoreboard.AccumStep | src/scoreboard/scoreboard_builder.cc:228-251 | The loop body is the step of the closed form: counts up to the first accept, penalized rejects plus the accept, and the time of the accept, frozen once solved. |
| Scoreboard.Accumulate | src/scoreboard/scoreboard_builder.cc:215-252 | The single loop over all teams and problems leaves the accumulator of each shown team on each problem at the closed form of that team's own submissions on that problem. |
| AccumTheorems.ProjectEnumerates | src/scoreboard/scoreboard_builder.cc:199-227 | What a team and problem see of the global listing is exactly their own submissions that count, once each and in time order. |
| AccumTheorems.SolvedAtEarliestAccept | src/scoreboard/scoreboard_builder.cc:215-252 | An accumulator is solved if and only if an accepted submission that counts exists; its accept time is one of theirs and the least. |
| AccumTheorems.SolvedCounts | src/scoreboard/scoreboard_builder.cc:239-251 | When no reject ties with the accept, attempts are one more than the submissions strictly before the accept: sizes of sets that mention no order. |
| AccumTheorems.SolvedPenalties | src/scoreboard/scoreboard_builder.cc:243-246 | When no penalized reject ties with the accept, penalty attempts less one are the penalized rejects strictly before it. |
| AccumTheorems.UnsolvedCounts | src/scoreboard/scoreboard_builder.cc:239-246 | An unsolved accumulator counts all submissions and all penalized rejects, whatever the ties. |
| OrderIndependence.OutcomeIndependentOfTies | src/scoreboard/scoreboard_builder.cc:210-252 | For a given listing, every other chronological listing gives the same accumulator if and only if no reject has the time of the earliest accept. |
| OrderIndependence.PenaltyIndependentOfTies | src/scoreboard/scoreboard_builder.cc:210-252 | For a given listing, every other chronological listing gives the same penalty attempts if and only if no penalized reject has the time of the earliest accept. |
| AccumTheorems.RejectAtAcceptMatters | src/scoreboard/scoreboard_builder.cc:210-252 | If a reject does have that time, there is another chronological listing with a different number of attempts, and with different penalty attempts if the reject carries a penalty. |
| Scoreboard.FindFirstSolvers | src/scoreboard/scoreboard_builder.cc:254-266 | Two nested walks in any order keep, per problem, a solver with the least accept time. |
| ScoreboardBuilder.FirstTeamsAreFirst | src/scoreboard/scoreboard_builder.cc:254-266 | The solvers found name, for exactly the problems some shown team solved, a team whose accept is earliest. |
| Scoreboard.IndexAwards | src/scoreboard/scoreboard_builder.cc:268-279 | Each team gets one copy of an award for each time the award names it, in walking order. |
| Scoreboard.BuildCells | src/scoreboard/scoreboard_builder.cc:318-354 | Cells show the outcomes, and the running totals are the sums over the columns; what cells and penalties are in terms of the store is in `CellsFromRecords`. |
| Scoreboard.BuildRows | src/scoreboard/scoreboard_builder.cc:281-356 | Walking the shown teams in any order produces exactly one row per shown team. |
| Scoreboard.RowLessIsStrictWeakOrder | src/scoreboard/scoreboard_builder.cc:361-366 | The row comparator (solved, penalty, team name) is a strict weak order. |
| Scoreboard.AssignPlaces | src/scoreboard/scoreboard_builder.cc:368-378 | On any sorted rows the place loop gives each row one more than the number of rows strictly better on (solved, penalty). |
| ScoreboardBuilder.RankRows | src/scoreboard/scoreboard_builder.cc:358-380 | Sorting by any algorithm and assigning places yields one row per shown team whose place is standard competition rank among the shown teams. |
| ScoreboardBuilder.BuildScoreboard | src/scoreboard/scoreboard_builder.cc:40-382 | The whole pipeline returns standings that some walk over the hash maps and some choices among equals determine, in the sense of `ScoreboardSpec.IsSnapshot`. |
| StandingsFromRecords.HeaderFromContest | src/scoreboard/scoreboard_builder.cc:41-57 | The names and the penalty minutes come from the contest: the penalty time in whole minutes, rounded toward zero, or 20. |
| StandingsFromRecords.ColumnFromProblem | src/scoreboard/scoreboard_builder.cc:87-102 | Each column shows a problem of the store: label, name and color with their defaults. |
| StandingsFromRecords.ColumnsInOrder | src/scoreboard/scoreboard_builder.cc:94-102 | Each problem has one column, and columns run by ordinal, then label. |
| StandingsFromRecords.RowsFromTeams | src/scoreboard/scoreboard_builder.cc:164-182 | Exactly the teams not marked hidden have a row. |
| StandingsFromRecords.TextsFromTeam | src/scoreboard/scoreboard_builder.cc:288-305 | A row shows the display name, else the name, else the id, and the organization by id and, if it is in the store, by name. |
| StandingsFromRecords.AwardsFromStore | src/scoreboard/scoreboard_builder.cc:268-311 | A row shows each award as often as the award names the team, with its citation or id, and nothing else. |
| CellsFromRecords.CellsMatchColumns | src/scoreboard/scoreboard_builder.cc:321-351 | A row has one cell per column with its problem and label. |
| CellsFromRecords.CellFromStore | src/scoreboard/scoreboard_builder.cc:215-352 | A cell is solved exactly if the team has an accepted submission that counts, and shows its minutes and, unless a reject ties with it, one attempt more than there are submissions before it; any other cell shows all submissions that count. |
| CellsFromRecords.PenaltyFromStore | src/scoreboard/scoreboard_builder.cc:333-354 | Without penalized rejects tied with accepts, the penalty of a row is the sum over its solved cells of the minutes and the penalty minutes for each penalized reject strictly before the accept. |
| CellsFromRecords.PlaceCountsBetterRows | src/scoreboard/scoreboard_builder.cc:368-378 | A place is one more than the number of rows with more solved problems, or as many and a smaller penalty. |
| CellsFromRecords.RowsInOrder | src/scoreboard/scoreboard_builder.cc:361-366 | Rows run by solved problems, most first, then penalty, least first, then name. |
| ScoreboardBuilder.ViewsOfOneStore | src/scoreboard/scoreboard_builder.cc:76-188 | Two walks over one store whose keys are the object ids deliver the same objects up to order. |
| StoreStandings.OneStoreOneStandings | src/scoreboard/scoreboard_builder.cc:40-382 | Any two standings built from one store with proper keys and undisputed verdicts give each team the same texts, solved count and awards (as a multiset) and, per problem, the same status, solve time and, if unsolved, attempts; without penalized rejects tied with accepts also the same penalty and place, and without any rejects tied with accepts the same attempts. |
| StoreConditions.UndisputedView | src/scoreboard/scoreboard_builder.cc:141-159 | Whether verdicts are disputed can be read off the judgements in the store; every walk over them says the same. |
| StoreConditions.TryInView | src/scoreboard/scoreboard_builder.cc:197-252 | What counts for a team on a problem in any view is what the collections of the store say counts, with the same times and accepts. |
| StoreConditions.NoTiedRejectsInView | src/scoreboard/scoreboard_builder.cc:210-252 | If no reject ties with an earliest accept by the collections of the store, none does in any view. |
| StoreConditions.NoTiedPenaltiesInView | src/scoreboard/scoreboard_builder.cc:210-252 | The same for rejects that carry a penalty. |
| OrderIndependence.RowsAgree | src/scoreboard/scoreboard_builder.cc:281-356 | Even with ties in contest time, two builds agree on the texts, solved count and award multiset of a team's row. |
| OrderIndependence.SameTeamsHaveRows | src/scoreboard/scoreboard_builder.cc:281-286 | A team has a row in one build if it has one in the other. |
| OrderIndependence.CellsAgree | src/scoreboard/scoreboard_builder.cc:318-352 | Even with ties, two builds agree on status and solve time of a cell, and on the attempts of an unsolved one. |
| OrderIndependence.PlacesAgree | src/scoreboard/scoreboard_builder.cc:318-378 | Without penalized rejects tied with accepts, two builds agree on penalties and places. |
| OrderIndependence.AttemptsAgree | src/scoreboard/scoreboard_builder.cc:239-252 | Without a reject tied with the accept of that cell, two builds agree on its attempts. |
| StandingsTheorems.PlaceIsFirstPosition | src/scoreboard/scoreboard_builder.cc:368-378 | A place is one more than the position of the first row with the same score, and all rows before that are strictly better. |
| StandingsTheorems.SolvedIsNumberOfSolvedCells | src/scoreboard/scoreboard_builder.cc:318-354 | A row has one cell per column in the order of the columns, and its solved count is the number of its solved cells. |
| StandingsTheorems.RowsRunByPlaceThenName | src/scoreboard/scoreboard_builder.cc:358-378 | Rows run by place, then team name; two rows share a place exactly if they have one score. |
| TieBreaks.TeamIdTieBreak | src/scoreboard/scoreboard_builder.cc:361-366 | All standings with given columns, listing and first solvers have rows of equal score in the order of their team ids if and only if, for all shown teams of equal score, the names are strictly ordered as the ids are. |
| Instances.DocumentedTieBreakFails | src/scoreboard/scoreboard_builder.cc:361-366 | All standings of a store with team "a" named "Z" and team "b" named "A" and no submissions have the two rows against the order of their ids. |
| StandingsTheorems.SolveMinutesAreRoundedDown | src/scoreboard/scoreboard_builder.cc:314-340 | A solve time is rounded down exactly if the accept is not before the start or falls on a whole minute (the code truncates toward zero). |
| StandingsTheorems.EarlyAcceptIsRoundedUp | src/scoreboard/scoreboard_builder.cc:333 | An accept half a minute before the start is shown at minute 0. |
| Instances.DocumentedRoundingFails | src/scoreboard/scoreboard_builder.cc:333 | All standings of a store with one accept at -30000 ms show it at minute 0. |
| StandingsTheorems.FirstToSolveIsUnique | src/scoreboard/scoreboard_builder.cc:341-345 | In each column at most one row is flagged, and one is flagged if and only if some shown team solved the problem. |
| StandingsTheorems.FirstToSolveIsEarliest | src/scoreboard/scoreboard_builder.cc:254-266 | The flagged team solved the problem, and no shown team has an earlier accept. |
| FirstSolvers.AcceptOfStore | src/scoreboard/scoreboard_builder.cc:215-252 | A team's accept time in every view and listing is that of its earliest accept by the collections of the store. |
| FirstSolvers.FirstToSolveIsCertain | src/scoreboard/scoreboard_builder.cc:254-266 | All standings of a store mark a given team in the column of a problem if and only if that shown team alone has the least accept time on it. |
| AddedSubmission.AddedTables | src/scoreboard/scoreboard_builder.cc:111-159 | A fresh submission and its judgement, met anywhere in the walks, add just their own entries to the indexes. |
| AddedSubmission.LateSubmissionChangesNothing | src/scoreboard/scoreboard_builder.cc:203-208 | A judged submission at or beyond the cut-off, or without team or problem, leaves the set of possible standings unchanged. |
| AddedSubmission.IrrelevantSubmissionChangesNothing | src/scoreboard/scoreboard_builder.cc:220-231 | A listed submission of a hidden or unknown team, or after the team's accept, leaves the whole snapshot unchanged, the order of the rest being fixed. |
| AddedSubmission.LaterThanAcceptIsIrrelevant | src/scoreboard/scoreboard_builder.cc:230-231 | A later contest time than the accept is enough to stand after it in every chronological listing. |
| AddedSubmission.AcceptNeverHurts | src/scoreboard/scoreboard_builder.cc:215-378 | An accepted in-time submission on a column problem a shown team had not solved adds to its solved count and does not worsen its place; no other score changes and no other place improves. |
| StoreStandings.ViewWithout | src/scoreboard/scoreboard_builder.cc:111-159 | Every view of a store with a new submission and judgement is a view of the store without them, with the two inserted somewhere. |
| StoreStandings.ViewWith | src/scoreboard/scoreboard_builder.cc:111-159 | And every such insertion is a view of the larger store. |
| StoreStandings.LateSubmissionInStore | src/scoreboard/scoreboard_builder.cc:203-208 | A store has exactly the same standings with and without a new submission at or beyond the cut-off, or without team or problem. |
| StoreStandings.IrrelevantSubmissionInStore | src/scoreboard/scoreboard_builder.cc:220-231 | The same holds for a new submission of a team that is not shown, or later than one of the team on the problem that counts and is accepted. |
| StoreStandings.AcceptInStore | src/scoreboard/scoreboard_builder.cc:215-378 | For any standings of a store before and after a new accept of a shown team on a column problem it had not solved: the team has more solved problems, other solved counts stay; without penalized rejects tied with accepts its place does not get worse, and no other penalty changes or place gets better. |
| RelTime.ParseRelTime | src/core/time_utils.cc:18-127 | The parser with moving positions computes `ParseRel`, the function by grammar parts whose meaning `RelTime.WellFormedIsRead` and `RelTime.RelTimeRoundTrip` give. |
| RelTime.WellFormedIsRead | src/core/time_utils.cc:18-127 | Every text of the RELTIME grammar, with either sign, parses to its meaning, fractions cut after milliseconds; it is rejected exactly if the hours alone leave 64 bits. |
| RelTime.AcceptedUnsigned | src/core/time_utils.cc:30-126 | Exactly which texts without a leading sign are accepted, and with which value, by parts. |
| RelTime.SixtyIsRejected | src/core/time_utils.cc:61-86 | Two-digit minutes or seconds of 60 and more are rejected, with either sign. |
| RelTime.FormatRelTime | src/core/types.cc:65-85 | The printer that adjusts locals writes `RelText`, sign, hours, two-digit minutes and seconds, and milliseconds if there are any. |
| RelTime.RelTimeRoundTrip | src/core/types.cc:65-85 | Every 64-bit value except the least one survives printing and parsing. |
| Calendar.CivilDaysIsDayNumber | src/core/time_utils.cc:228-239 | The closed form, with its unsigned 32-bit steps, equals the day count by recursion over years and months with the Gregorian leap rule, on every valid date, including years at or below 0. |
| Calendar.DayNumberIsMonotone | src/core/time_utils.cc:228-239 | The day count is strictly increasing in (year, month, day). |
| Calendar.DayNumberIsInjective | src/core/time_utils.cc:228-239 | Different valid dates have different day counts. |
| Calendar.DateOf | src/core/types.cc:99-105 | There is a valid date for every day count: all that is assumed of `gmtime_r`. |
| AbsTime.ParseAbsTime | src/core/time_utils.cc:133-249 | The parser, with the loop over fraction digits and the moving position, computes `ParseAbs`. |
| AbsTime.WellFormedIsRead | src/core/time_utils.cc:133-249 | Every text of the TIME grammar parses to its instant and offset; it is rejected exactly if the fraction digits, read as one number, leave 32 bits. |
| AbsTime.AcceptedTime | src/core/time_utils.cc:135-158 | A text is accepted exactly if it is number texts of the right widths with the separators between them and an accepted rest. |
| AbsTime.AcceptedFraction | src/core/time_utils.cc:162-190 | A point needs at least one digit; all digits that follow belong to the fraction. |
| AbsTime.AcceptedZone | src/core/time_utils.cc:192-226 | Exactly which time zones are accepted, and with which offset. |
| AbsTime.LongFractionIsRejected | src/core/time_utils.cc:174-189 | A well-formed text with a fraction of ten nines is rejected. |
| AbsTime.FormatAbsTime | src/core/types.cc:89-124 | The printer, with truncated division and its negative-remainder fix, writes the local date and time of the floor second, milliseconds if any, and the offset. |
| AbsTime.BrokenRecomposes | src/core/types.cc:99-105 | Broken-down local time put together again is the local second it came from. |
| AbsTime.PrintedIsRead | src/core/types.cc:107-122 | Whatever the offset, parsing the printed text gives the same local time at the offset its zone text denotes. |
| AbsTime.OffsetRoundTrip | src/core/types.cc:108-109 | An offset survives its zone text if and only if it is below 100 hours and not one of -59 to -1 minutes. |
| AbsTime.TimeRoundTrip | src/core/types.cc:89-124 | An instant with its offset survives printing and parsing if and only if the local year is -999 to 9999 and the offset survives. |
| LineParser.TrimIsUnique | src/event/ndjson_line_parser.cc:19-24 | There is one way to cut trailing blanks and nothing else; the trimming loop finds it. |
| LineParser.ParseNdjsonLine | src/event/ndjson_line_parser.cc:16-155 | Trimming loop, limit, checks in order and field-by-field construction compute `ParseLine`, which `LineMeaning` describes condition by condition. |
| LineParser.ParsedIsWellShaped | src/event/ndjson_line_parser.cc:101-142 | A parsed event has an id exactly if it is a delete or single object, array data exactly if it is a replace, object data otherwise, and the type its name stands for. |
| LineParser.LineNumberIsALabel | src/event/ndjson_line_parser.cc:81-84 | Two line numbers give the same verdict on a line and events that differ in the number only. |
| LineMeaning.KeepaliveIsBlank | src/event/ndjson_line_parser.cc:19-31 | A line is a keepalive if and only if it has nothing but blanks. |
| LineMeaning.UnreadableLines | src/event/ndjson_line_parser.cc:33-54 | Content over the limit, content that is no JSON and a document that is no object give their errors, in this order. |
| LineMeaning.SkeletonErrors | src/event/ndjson_line_parser.cc:56-94 | A missing type, a type that is no string, missing data, and a token that is neither a string nor null give their errors, in this order. |
| LineMeaning.ShapeOfDocument | src/event/ndjson_line_parser.cc:101-153 | For every form of id and data the shape of the event and its data, or the error: a string id with null is a delete, with an object a single object; without an id an array is a replace, an object or null a singleton update; anything else is an error. |
| LineMeaning.FieldsOfEvent | src/event/ndjson_line_parser.cc:81-114 | The type, id, token, number and raw text of the event are those of the document. |
| Decode.DecodeArray | src/profile/version_profile.cc:591-632 | The decoding loop succeeds exactly if the data is an array of objects with string ids of a known type, and then delivers all objects and diagnostics in order; `Encoding` says what each object is. |
| Decode.VersionMatters | src/profile/version_profile.cc:137-466 | The two versions decode the same object from the same data, except for exactly those clarifications that have a recipient key (`to_team_id`, `to_team_ids` or `to_group_ids`), which is an unknown field to one of them. |
| Encoding.DecodingUndoesEncoding | src/profile/version_profile.cc:158-487 | For every kind of object the model reads, decoding the fields of an independently written encoding gives the object and its id back, under either version, with instants and durations printed. |
| Encoding.ObjectDecoded | src/profile/version_profile.cc:577-589 | The decoder delivers that object. |
| Encoding.IntegerPenalty | src/profile/version_profile.cc:185-187 | An integer penalty time of n is n * 60000 ms. |
| Encoding.UnknownFieldsOfClarification | src/profile/version_profile.cc:137-145 | The unknown fields of a clarification are those under any other key than the ones listed for its version. |
| Encoding.BadTimesAreReported | src/profile/decoders/decoder_common.cc:64-85 | An unreadable instant or duration is reported if and only if some time field of the kind has one. |
| Store.ContestStore.GetObject | src/store/contest_store.cc:52-75 | A lookup finds the singleton whatever the id, or the object under type and id, and fails exactly if there is none. |
| Store.FindInCollection | src/store/contest_store.cc:52-75 | The lookup function finds the contest, the state, or the entry of the hash map of hash maps. |
| Store.ContestStore.ListObjects | src/store/contest_store.cc:77-98 | A singleton type gives the singleton, if there is one; for another type a walk delivers each object of the collection once, in some order. |
| Store.ContestStore.Rollback | src/store/contest_store.cc:123-143 | A checkpoint beyond the log is refused and changes nothing; otherwise the log is cut, the objects and the count are cleared. |
| Store.ContestStore.ApplyUpsert | src/store/contest_store.cc:149-178 | A singleton slot refuses an object of another kind and nothing changes; otherwise the effect is performed and counted. |
| Store.ContestStore.ApplyDelete | src/store/contest_store.cc:180-208 | Deletes what is under the key, counts the event even if there is nothing, and creates no empty collection. |
| Store.ContestStore.ApplyCollectionReplace | src/store/contest_store.cc:210-226 | The loop leaves exactly the given objects under their own ids, the last duplicate winning. |
| Store.PerformWrites | src/store/contest_store.cc:149-231 | One effect decides exactly the keys it touches and leaves the lookup of every other key alone. |
| Store.IndependentCommute | src/store/contest_store.cc:149-231 | Two effects commute unless they act on one type and on one key of it, one of them replaces the type, or the type is a singleton. |
| Session.StreamingParseSession.constructor | src/api/parser.cc:373-388 | A new session has an empty store and a fixed version, or 2023-06 until detection. |
| Session.StreamingParseSession.DetectVersion | src/api/parser.cc:110-136 | The version is set by the contest's penalty time or the clarification's recipient field, and by nothing else. |
| Session.StreamingParseSession.ApplyEvent | src/api/parser.cc:46-108 | Cursor, unknown types, detection, log and effect, in this order, give the state and status of `SessionSpec.ApplyEvent`, which `EventMeaning` describes kind by kind. |
| Session.StreamingParseSession.ConsumeLine | src/api/parser.cc:240-343 | One line takes the session from any state to the state and status that `SessionSpec.Consume` and `ConsumeStatus` give, diagnostics, counter and limits included. |
| EventMeaning.VersionOfDocument | src/api/parser.cc:110-130 | Which version each form of a contest or clarification gives away, and that nothing else gives one away. |
| EventMeaning.VersionOfEvent | src/api/parser.cc:81-85 | The version changes exactly if it is chosen automatically, none was given away before, and an event that is no delete gives one away. |
| EventMeaning.DeleteMeaning | src/api/parser.cc:138-159 | A delete leaves nothing under its type and id, every other lookup as it was, and counts. |
| EventMeaning.UpsertMeaning | src/api/parser.cc:161-183 | A single object is found, decoded, under the id of the event; every other lookup is as it was, and it counts. |
| EventMeaning.SingletonUpdateMeaning | src/api/parser.cc:203-232 | An update without an id is found under the id in its data; every other lookup is as it was, and it counts. |
| EventMeaning.ReplaceMeaning | src/api/parser.cc:185-201 | After an array of objects with ids, a lookup of the type finds the last element with the id, decoded; other types and the singletons are as they were. |
| EventMeaning.ReplaceForgets | src/api/parser.cc:185-201 | And it finds nothing under an id that no element has. |
| EventMeaning.BadArrayMeaning | src/api/parser.cc:187-192 | An array with anything else in it changes no lookup and does not count. |
| EventMeaning.DeleteLine | src/api/parser.cc:240-343 | A line with a known type, a string id and null data empties its key and leaves every other lookup as it was. |
| EventMeaning.UpsertLine | src/api/parser.cc:240-343 | A line with a known type, a string id and an object is found under that id, decoded under the version then in force. |
| EventMeaning.EventsAreReported | src/api/parser.cc:64-79 | An unknown type is reported by its name, a delete exactly if its key is empty. |
| EventMeaning.FailedEventIsReported | src/api/parser.cc:314-327 | An event that cannot be applied is reported with its type, id and line. |
| FeedCursor.CursorOfFeed | src/api/parser.cc:46-59 | After any feed the event count is the number of lines that carry an event, the last token and id are those of the last such line that has one, and the end of updates is marked exactly if a state without an id announced it. |
| FeedCursor.ErrorsAreReported | src/api/parser.cc:252-304 | A rejected line is reported with the code of its error and its number, and the limit when it is reached. |
| FeedCursor.DiagnosticsAreCut | src/api/parser.cc:39-44 | Of all diagnostics the first are kept, up to the limit. |
| ErrorRun.FailingLineIsAtomic | src/api/parser.cc:138-232 | In any state a failing line leaves both singletons, all collections, the store's event count and the end-of-updates mark unchanged. |
| ErrorRun.ReplaceIsAllOrNothing | src/api/parser.cc:185-201 | An array replaces its collection if every element decodes and changes nothing otherwise, for arrays of any length. |
| ErrorRun.TrailingIsTheLastRun | src/api/parser.cc:252-253 | What `Trailing` counts is the maximal run of failing lines at the end. |
| ErrorRun.CounterIsTrailingRun | src/api/parser.cc:252-342 | After any feed the error counter is the length of the trailing run of failing lines, and the line number the number of lines. |
| ErrorRun.ParseStream | src/api/parser.cc:390-418 | Reading a stream gives the result of feeding exactly the shortest prefix that ends in max(1, limit) failing lines, or everything; it fails exactly under fail-fast with a limit of at least 2 and some failing line. |
| Instances.FailFastAtLimit | src/api/parser.cc:287-302 | One malformed line under fail-fast gives an error with a limit of at least 2, but the limit status, on which the stream succeeds, with a limit of 0 or 1. |
| EventSourcing.LineOnCore | src/api/parser.cc:306-313 | A line that carries an event moves store and version by one step, whether or not the event fails; other lines do not move them. |
| EventSourcing.LogRebuildsCore | src/api/parser.cc:87-107 | At every point of every run that keeps its log, replaying the log from a fresh session rebuilds objects, event count, version and the log itself. |
| EventSourcing.RollbackThenFreshReplay | src/store/contest_store.cc:119-143 | Rolling back to a checkpoint of the current history and replaying the cut log in a fresh session restores what was held at the checkpoint. |
| SessionReplay.RollbackThenSameSessionReplay | src/store/contest_store.cc:134-141 | With an explicit version, replay through the rolled-back session restores objects and event count. |
| SessionReplay.SameSessionReplay | src/api/parser.cc:81-107 | Under any version choice, replay through the rolled-back session restores objects and event count if and only if the session decodes as 2023-06 when it is rolled back, or every clarification held at the checkpoint is one that 2026-01 decodes to the same object. |
| SessionReplay.PerformRecast | src/store/contest_store.cc:149-226 | Decoding all clarifications of a store again commutes with every effect on it. |
| SessionReplay.EffectRecast | src/profile/version_profile.cc:430-468 | What an event does under 2026-01 is what it does under any version, with its clarifications decoded again. |
| SessionReplay.SameSessionReplayAt2023 | src/api/parser.cc:81-85 | In particular the objects come back as long as the session still decodes as 2023-06 when it is rolled back. |
| SessionReplay.SameSessionReplayOfNeutralLog | src/api/parser.cc:81-85 | They also come back if no clarification in the kept log has a recipient key. |
| SessionReplay.SameSessionReplayCanDiffer | src/api/parser.cc:81-85 | With automatic version choice a feed of two lines is enough for them not to: a clarification to a group, a checkpoint, a contest that gives 2026-01 away, rollback and replay. |
| FeedOrder.FeedIsItsEffects | src/api/parser.cc:96-107 | Objects and event count after a feed are those of its successful events, one after the other. |
| FeedOrder.LastWriterWins | src/store/contest_store.cc:52-75 | After any feed, what a lookup finds is what a backward scan for the last successful event touching the key says. |
| FeedOrder.RearrangedEffects | src/store/contest_store.cc:149-231 | Any rearrangement of effects that keeps dependent pairs in order gives the same objects and count. |
| FeedOrder.FeedPermutation | src/api/parser.cc:97-107 | If the version is explicit, or no clarification in the feed has a recipient key, two feeds of the same lines that keep the order of every dependent pair give the same objects and event count. |
| FeedOrder.AutomaticChoiceOrdersLines | src/api/parser.cc:81-107 | Otherwise they need not: a clarification to a group and a contest that gives 2026-01 away act on different types, but their order matters. |
| ProperFeeds.ProperLinesKeepKeys | src/api/parser.cc:180-182 | If every line that upserts a single object has the id of its data, the feed leaves every object under its own id. |
| ProperFeeds.KeysAreProper | src/api/parser.cc:180-182 | A feed does so if and only if, for each key, the last successful event touching it leaves no object or one with that id. |
| ProperFeeds.MisfiledTeamBreaksKeys | src/api/parser.cc:180-182 | One line that names a team differently in event and data breaks it. |
| Rest.ApplyCollection | src/api/rest_api_parser.cc:56-94 | A body replaces, upserts or does nothing by its form; on a decoding error nothing changes. |
| Rest.FetchAndParse | src/api/rest_api_parser.cc:98-188 | The endpoint loop computes `RestAll`: the first failure of a required endpoint is the result, optional failures are reported and skipped. |
| RestMeaning.FetchFails | src/api/rest_api_parser.cc:144-184 | Fetching fails if and only if some required endpoint cannot be fetched or is an array with an element that is no object with a string id. |
| RestMeaning.FirstFailureIsTheError | src/api/rest_api_parser.cc:149-181 | And then with the error of the first such endpoint. |
| RestMeaning.FetchCountsObjects | src/api/rest_api_parser.cc:162-186 | The event count is the number of objects in the bodies, one for a body that is no array, none for null. |
| Rest.FrontEndsAgree | src/api/rest_api_parser.cc:144-184 | Whenever the loop succeeds, feeding the non-null bodies as lines of type plus body, each within the line size limit, to a fresh session with the same options gives the same objects, event count and version, automatic choice included. |

## Left out

- HTTP, files, zip archives and path resolution: input and output; bodies and lines are parameters.
- Parsing and writing JSON text, and the XML feed: a line carries the parsed document.
- Splitting a stream into lines: the driver gets the sequence of lines.
- HTML and CSV output and the command line tools: presentation.
- Fields that are only copied, file references, and unknown fields of kinds other than clarifications: they do not depend on the version and are kept together as the source object.
- Message texts and the search in them that picks a diagnostic code: errors are a datatype.
- Observers of the store: they are told of changes but change nothing.
- Overflow of counters, penalties and differences of times: exact integers. Narrowing of JSON integers to 32 bits and the ranges that the number parsers check are modelled.
- RelTime.WellFormedIsRead: for hours that fit 64 bits but whose milliseconds do not, the program's arithmetic is undefined and the model has the exact value.
- RelTime.RelTimeRoundTrip: leaves out the least 64-bit value, whose negation is undefined in the program.
- AbsTime.WellFormedIsRead: takes months and days as any two digits, as the program does; that the meaning is a real date is stated for valid dates only, by Calendar.CivilDaysIsDayNumber.
- Collections.Sort: an insertion sort stands for the library sort; callers use only that the result is a sorted permutation.
- Vectors reordered in place (rows, columns, the listing of submissions) are sequences that the methods reassign; aliasing and moves are not modelled.
- Rest.FrontEndsAgree: speaks of bodies that are not null; a null body is skipped by the REST front end but a feed line with null data and no id is an empty singleton update.
- Freeze, thaw and standings during a contest: the builder makes final standings only.
