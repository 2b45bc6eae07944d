# PYTHON_PREDICT in Dafny

PYTHON_PREDICT runs a basketball prediction game on a forum. It is launched on a schedule. Each run reads its calendar of tasks, picks the slot that is due, and then does up to four things:

- fetches the games;
- reads the forum messages that hold the players' predictions;
- refreshes the database tables those feed;
- posts a message that opens a gameday ("inited") or gives its results ("calculated").

This project models the decision logic and the text building of such a run. It states what each step guarantees and proves it.

## What is modelled

- **Scheduler and task ledger** (`calendar_actions.py`, `generate_output_need.py`, `exe_main.py`).
  - A calendar slot is pending when its key (TASK_RUN, SEASON_ID, GAMEDAY, TS_TASK_UTC) matches no record of the task-done ledger.
  - The next-run time is the earliest pending timestamp, or `NONE`.
  - A run picks, in automatic mode, the pending slot due at exactly the current run time and joins it with the season's message watermark.
  - When new messages have arrived, the "gate" rewrites a RUN need into a CHECK need, in place.
  - The ledger commit prepends the executed need.
  - The main program takes its steps in a fixed order:
    1. selection;
    2. games;
    3. messages;
    4. database update and ledger commit;
    5. forum output;
    6. termination.
  - The need, the ledger frame and the local folder are classes whose methods change them in place.
- **Shared wrappers** (`config.py`).
  - The bounded retry loop.
  - The error exit with cleanup.
  - The parallel map, taken as a sequential map.
  - The constant action, task, category and prefix tables.
- **Decision tables** (`snowflake_actions.py`, `file_actions.py`).
  - Which tables a run refreshes, and how a table's name gives its schema and input file.
  - The `#DATABASE#` placeholder.
  - The CSV schema check and the run log.
  - The dbt profile's placeholders.
  - The filtering of downloaded tables in dependency order.
  - The download categories, and the names under which local files are uploaded.
- **Message window** (`message_actions.py`, `get_messages_details_bi.py`).
  - The paging loop over a topic, with its stop rule at the first page that repeats a message.
  - The inclusive time window.
  - The window bounds.
  - The translation of the forum's French dates.
  - Message ids, one-line contents and edition dates.
  - The length check that assembles one row per message.
- **Forum posts** (`output_actions/*.py`, `exe_playoffs_table.py`).
  - The `|N|` line-break markers and the tag-delimited conditional blocks.
  - Output file names.
  - Rank display: a sort, with repeated ranks shown as `-`, and "min" ranks over a descending score tuple.
  - The inited message: games, remaining gamedays, the first game's date, and the replacements for a country.
  - The calculated message: result lines, rankings and their threshold, the prediction championship's team blocks, corrections and MVP races; the parameters with their per-country translation and image links; the fourteen conditional blocks.
  - The playoffs bracket texts and the winner test.

Pure rules are datatypes, functions and lemmas. Loops that build a value step by step are methods with loop invariants, each proved equal to a specification function whose properties are then proved as lemmas. Python's `str` operations (`replace`, `split`, `join`, `strip`, `find`, `int`) are modelled with CPython's semantics in `strings.dfy`. Query results, pages of forum messages and the contents of downloaded files enter as values. An image upload enters as a function parameter that gives the link of a captured file.

## Model

| member | source | states |
|---|---|---|
| Timestamps.BeforeTotal | PYTHON_PREDICT/calendar_actions.py:88 | timestamps are totally ordered, which `Series.min()` relies on |
| Timestamps.BeforeTransitive | PYTHON_PREDICT/calendar_actions.py:88 | the order on timestamps is transitive |
| Timestamps.Parse | PYTHON_PREDICT/calendar_actions.py:53 | a parsed text always gives a valid calendar date and time |
| Timestamps.ToDatetime | PYTHON_PREDICT/calendar_actions.py:53 | `pd.to_datetime` on one cell: null stays null, a timestamp stays itself, a text converts iff it parses |
| Timestamps.ToDatetimeCoerce | PYTHON_PREDICT/generate_output_need.py:41-44 | `errors='coerce'`: the strict result when there is one, null otherwise |
| Timestamps.RenderNextRunParses | PYTHON_PREDICT/calendar_actions.py:89 | the `%Y-%m-%d %H:%M:%S.000` rendering is 23 characters long and parses back to the same second |
| Timestamps.RenderParses | PYTHON_PREDICT/calendar_actions.py:89 | the `%Y-%m-%d %H:%M:%S` rendering is 19 characters long and parses back to the same second |
| Timestamps.RenderedTextConverts | PYTHON_PREDICT/calendar_actions.py:53 | converting the rendered text of a whole-second timestamp gives that timestamp back |
| CalendarActions.ConvertColumn | PYTHON_PREDICT/calendar_actions.py:53-54 | converting TS_TASK_UTC succeeds iff every cell parses; on success only that column changes, each cell becoming its parsed timestamp or null |
| CalendarActions.CoerceColumn | PYTHON_PREDICT/generate_output_need.py:41-44 | coercing never fails, agrees with the strict conversion whenever that succeeds, turns unreadable cells into null and leaves the other columns alone |
| CalendarActions.ConvertConverted | PYTHON_PREDICT/calendar_actions.py:53-54 | converting an already converted column is the identity |
| CalendarActions.Project | PYTHON_PREDICT/calendar_actions.py:143 | projecting to the four key columns keeps the row count and every row's key |
| CalendarActions.PendingIff | PYTHON_PREDICT/calendar_actions.py:57-62 | a row is pending iff it is a calendar row whose (TASK_RUN, SEASON_ID, GAMEDAY, TS_TASK_UTC) key matches no ledger record |
| CalendarActions.PendingCount | PYTHON_PREDICT/calendar_actions.py:57-62 | a pending row occurs exactly as often as in the calendar, and a matched row not at all: the ledger neither drops nor duplicates rows |
| CalendarActions.PendingIsSubsequence | PYTHON_PREDICT/calendar_actions.py:57-62 | the pending rows are a subsequence of the calendar, in calendar order |
| CalendarActions.PendingDependsOnKeySet | PYTHON_PREDICT/calendar_actions.py:57 | two ledgers with the same key set give the same pending rows (`drop_duplicates` and repeated records change nothing) |
| CalendarActions.DuplicatedLedger | PYTHON_PREDICT/calendar_actions.py:57 | a ledger concatenated with itself has the same key set |
| CalendarActions.PendingIgnoresOtherColumns | PYTHON_PREDICT/calendar_actions.py:57-62 | columns outside the key play no part: projecting before or after the anti-join gives the same rows |
| CalendarActions.MinStamp | PYTHON_PREDICT/calendar_actions.py:88 | the minimum of a non-empty list of timestamps is one of them and not after any of them |
| CalendarActions.NextRunText | PYTHON_PREDICT/calendar_actions.py:85-89 | "NONE" when no pending row has a timestamp; otherwise the rendering with ".000" of a pending timestamp not after any other |
| CalendarActions.RenderIsNotSentinel | PYTHON_PREDICT/calendar_actions.py:86-89 | a rendered timestamp never equals "NONE", so the two branches cannot be confused |
| CalendarActions.NextRunNoneIff | PYTHON_PREDICT/calendar_actions.py:85-86 | the next-run time is "NONE" exactly when the pending set is empty or all its timestamps are null |
| CalendarActions.LedgerRecord | PYTHON_PREDICT/calendar_actions.py:113-116 | the ledger record has the need's key and timestamp and no other column |
| CalendarActions.CommittedSlotNotPending | PYTHON_PREDICT/calendar_actions.py:57-62 | after the need's record is prepended, no pending row has the need's converted key: a committed slot never runs again |
| CalendarActions.Frame.ConvertTimestamps | PYTHON_PREDICT/calendar_actions.py:53-54 | the frame's rows become the converted rows on success; on failure the frame is unchanged and the error is returned |
| CalendarActions.Frame.CoerceTimestamps | PYTHON_PREDICT/generate_output_need.py:41-44 | the frame's rows become the coerced rows |
| CalendarActions.GetNotrunTask | PYTHON_PREDICT/calendar_actions.py:39-63 | returns the anti-join of the converted frames; the calendar's TS column is converted in place, then the ledger's; a failing conversion leaves its frame (and the later one) untouched |
| CalendarActions.UpdateNextrun | PYTHON_PREDICT/calendar_actions.py:66-97 | returns the next-run time of the two frames and records it as next_run_time_utc.txt; the ledger file is untouched, and the caller's ledger frame has its TS column converted in place when both conversions succeed and is unchanged otherwise |
| CalendarActions.AddTaskToTaskDone | PYTHON_PREDICT/calendar_actions.py:100-120 | a new ledger whose first record is the need's and whose rest is the earlier ledger in order, recorded as task_done.csv |
| CalendarActions.UpdateCalendarRelatedFiles | PYTHON_PREDICT/calendar_actions.py:123-146 | only the main caller prepends the need to the ledger file; every caller returns the next-run time computed against the refetched calendar reduced to its key columns and records it; for a caller other than main, the caller's ledger frame ends with its TS column converted when both conversions succeed and unchanged otherwise |
| CalendarActions.ExamplePending | PYTHON_PREDICT/tests/test_calendar_actions.py:45-68 | with an UPDATEGAMES and a CHECK slot and the UPDATEGAMES key in the ledger, only the CHECK row is pending |
| CalendarActions.ExampleNextRun | PYTHON_PREDICT/tests/test_calendar_actions.py:71-92 | the next-run time of that scenario is "2024-01-02 10:00:00.000" |
| CalendarActions.ExampleNextRunText | PYTHON_PREDICT/calendar_actions.py:88-89 | the next-run time of the pending CHECK row is its time rendered with ".000" |
| OutputNeed.KeyLessTransitive | PYTHON_PREDICT/generate_output_need.py:54 | the sort order on (TASK_RUN, SEASON_ID, GAMEDAY, TS_TASK_UTC) is transitive |
| OutputNeed.KeyLessTotal | PYTHON_PREDICT/generate_output_need.py:54 | any two distinct keys are ordered one way or the other |
| OutputNeed.SortRowsCorrect | PYTHON_PREDICT/generate_output_need.py:54 | `sort_values` gives the same rows (as a multiset) in ascending key order |
| OutputNeed.AtInstant | PYTHON_PREDICT/generate_output_need.py:46-47 | the filter keeps exactly the rows whose TS equals the instant; a null instant keeps nothing |
| OutputNeed.LedgerFilterIrrelevant | PYTHON_PREDICT/generate_output_need.py:47-50 | for calendar rows all at one instant, anti-joining with the ledger filtered to that instant equals anti-joining with the whole ledger |
| OutputNeed.SelectAutoIsSortedPending | PYTHON_PREDICT/generate_output_need.py:41-59 | automatic selection is the due, not-yet-run slots sorted by key, or the "Not found a matching output need" error when there are none |
| OutputNeed.DuePendingRow | PYTHON_PREDICT/generate_output_need.py:41-50 | a due pending slot is a coerced calendar row whose TS equals the readable current run time and whose key no coerced ledger record has |
| OutputNeed.SelectedRowsAreDue | PYTHON_PREDICT/generate_output_need.py:41-56 | a successful selection is non-empty and each of its rows is due exactly at the current run time and absent from the ledger |
| OutputNeed.SelectionIsSortedPermutation | PYTHON_PREDICT/generate_output_need.py:52-56 | the selection is sorted by key and a permutation of the due pending slots |
| OutputNeed.UnreadableRunTimeSelectsNothing | PYTHON_PREDICT/generate_output_need.py:43-59 | an unparsable current run time coerces to null, matches nothing and selection raises |
| OutputNeed.MarksForFirst | PYTHON_PREDICT/generate_output_need.py:88-92 | a season has watermarks iff the table has a row for it, and the first is that of its first row |
| OutputNeed.JoinFirst | PYTHON_PREDICT/generate_output_need.py:88-95 | the inner join is empty iff no row's season has a watermark; otherwise its first record pairs the first such row with its season's first watermark |
| OutputNeed.ManualNeed | PYTHON_PREDICT/generate_output_need.py:77-78 | with IS_OUTPUT_AUTO exactly "0" the manual table is used as it is: the need exists iff some manual row's season has a watermark, and is the first such row |
| OutputNeed.AutoNeed | PYTHON_PREDICT/generate_output_need.py:81-95 | otherwise the need is a due, not-yet-run slot whose season has a watermark, paired with that season's first watermark, and no such slot has a smaller key |
| OutputNeed.FirstMarkedIsLeast | PYTHON_PREDICT/generate_output_need.py:88-95 | over sorted rows the join's first record is a marked row no other marked row undercuts |
| OutputNeed.CreateOutputNeedAuto | PYTHON_PREDICT/generate_output_need.py:19-59 | returns the automatic selection and coerces the caller's ledger TS column in place |
| OutputNeed.GenerateOutputNeed | PYTHON_PREDICT/generate_output_need.py:62-102 | returns the need of the chosen mode; the ledger frame is coerced in place only when the automatic search ran |
| OutputNeed.CheckStatus | PYTHON_PREDICT/generate_output_need.py:120-125 | the gate sets TASK_RUN and MESSAGE_ACTION to CHECK, GAME_ACTION to AVOID and the three IS_TO_ flags to 0, keeping IS_TO_INIT, the season, gameday, TS and watermark |
| OutputNeed.CheckStatusIdempotent | PYTHON_PREDICT/generate_output_need.py:120-125 | gating twice is gating once |
| OutputNeed.GatedKey | PYTHON_PREDICT/generate_output_need.py:120 | the gated need's ledger key is the slot's key with TASK_RUN CHECK, equal to it iff the slot was a CHECK slot |
| OutputNeed.Need.SetToCheckStatus | PYTHON_PREDICT/generate_output_need.py:105-125 | the six fields are assigned in place and every other field is unchanged |
| ExeMain.NewMessages | PYTHON_PREDICT/exe_main.py:60-61 | the new messages are exactly the contents not starting with the program prefix "+++++" (at most as many as the contents) |
| ExeMain.TechnicalMessagesAreNew | PYTHON_PREDICT/exe_main.py:61 | a message starting with the technical prefix "*****" still counts as new, because that prefix is passed as pandas' `na` argument |
| ExeMain.ProcessMessages | PYTHON_PREDICT/exe_main.py:41-74 | counts the new messages; the need is gated in place iff the count is positive and MESSAGE_ACTION is RUN, and unchanged otherwise; the checked messages become the message table iff the count is zero |
| ExeMain.DisplayCheckString | PYTHON_PREDICT/exe_main.py:77-102 | nothing unless MESSAGE_ACTION is CHECK; for CHECK it fails iff one of the two timestamps cannot be read |
| ExeMain.NoNeedIff | PYTHON_PREDICT/exe_main.py:90-97 | for CHECK the text is "No need to check - no new messages" exactly when the last check is not before the extraction time |
| ExeMain.InstructionIsNotNoNeed | PYTHON_PREDICT/exe_main.py:92-95 | the check instruction can never be mistaken for the no-need text |
| ExeMain.Execute | PYTHON_PREDICT/exe_main.py:104-153 | the run's outcome, step trace and uploads are those of the run specification, in which any step that raises ends the run through `exit_program` |
| ExeMain.ExecuteSelected | PYTHON_PREDICT/exe_main.py:133-139 | after selection, the download, games and messages steps each either raise and end the run with the steps taken so far, or hand over to the update |
| ExeMain.ExecuteUpdate | PYTHON_PREDICT/exe_main.py:141-155 | the database, calendar, output and terminate steps each either raise and end the run with nothing uploaded, or let the run reach the check string and the report |
| ExeMain.RaisingStepEndsRun | PYTHON_PREDICT/config.py:158-170 | a planned step that raises makes the run exit with nothing uploaded, and no step after it is taken |
| ExeMain.CompletedRunTakesPlannedSteps | PYTHON_PREDICT/exe_main.py:133-153 | a completed run took exactly the steps its need planned, none of which raised |
| ExeMain.StepsTakenInOrder | PYTHON_PREDICT/exe_main.py:126-153 | whatever is planned and whatever raises, the trace starts with selection and follows `exe_main`'s order, each step at most once |
| ExeMain.SelectedSteps | PYTHON_PREDICT/exe_main.py:133-153 | after selection the trace is the need's planned steps up to the first that raises; a completed run had no raising planned step, and a raising planned step means exit with nothing uploaded |
| ExeMain.StepsInOrder | PYTHON_PREDICT/exe_main.py:126-153 | every run starts with selection and its steps follow the fixed order games, messages, database update, calendar commit, output, terminate |
| ExeMain.StepsTakenContents | PYTHON_PREDICT/exe_main.py:133-153 | a step is in the trace exactly when it is planned and no planned step before it raised |
| ExeMain.GamesIff | PYTHON_PREDICT/exe_main.py:133-136 | games are processed iff a need was selected with GAME_ACTION RUN and the download did not raise |
| ExeMain.MessagesIff | PYTHON_PREDICT/exe_main.py:133-139 | messages are processed iff a need was selected with MESSAGE_ACTION RUN or CHECK and neither the download nor a planned games step raised |
| ExeMain.CommitOnlyAfterUpdate | PYTHON_PREDICT/exe_main.py:141-153 | the ledger is uploaded only after the database and calendar steps and a terminate step that did not raise, holding the post-gate need's record in front of the ledger as selection left it; it is uploaded iff the next-run time is |
| ExeMain.GatedNeedNeverPosts | PYTHON_PREDICT/exe_main.py:63-68 | a gated need never reaches the forum output; a completed run has committed it, under a CHECK-keyed record |
| ExeMain.GatedSlotStaysPending | PYTHON_PREDICT/exe_main.py:141-148 | in automatic mode a gated non-CHECK slot's own key is not in the uploaded ledger, so the slot stays pending |
| ExeMain.NoNewMessagesKeepsNeed | PYTHON_PREDICT/exe_main.py:69-72 | with no new message the need passes through unchanged |
| ExeMain.CheckNeedNotGated | PYTHON_PREDICT/exe_main.py:66 | a CHECK need is never gated, whatever the messages |
| Config.Retry | PYTHON_PREDICT/config.py:186-203 | at most `max_attempts` calls; the result of the first successful call after only failures, or the last failure re-raised when all `max_attempts` calls fail; a sleep of `delay_secs` after each failed call but the last |
| Config.RetrySecondAttempt | PYTHON_PREDICT/tests/test_config.py:39-52 | a call that fails once then succeeds returns "success" after exactly two calls |
| Config.ExitProgram | PYTHON_PREDICT/config.py:160-170 | a successful call passes its value through; any raised error becomes the cleanup (profiles parametrised, local folders destroyed) followed by exit code 1 |
| Config.MultithreadingRun | PYTHON_PREDICT/config.py:257-275 | an empty argument list gives [] at once; otherwise one result per argument, each the function applied to it |
| Collections.Distinct | PYTHON_PREDICT/output_actions/output_actions_inited.py:66 | `unique()`: no duplicates, the same members as the input |
| Collections.DistinctFirstOccurrence | PYTHON_PREDICT/output_actions/output_actions_inited.py:66 | `unique()` keeps values in the order of their first occurrence |
| Collections.SortStringsSorted | PYTHON_PREDICT/output_actions/output_actions_calculated.py:298-303 | the key order of `groupby` on distinct texts gives a strictly ascending permutation |
| Collections.TryMap | PYTHON_PREDICT/get_messages_details_bi.py:87-91 | a list comprehension whose element conversion may raise: it succeeds iff every element converts, and then holds each converted element in order |
| Order.StrLessTransitive | PYTHON_PREDICT/generate_output_need.py:54 | Python's comparison of texts is transitive |
| Order.StrLessTotal | PYTHON_PREDICT/generate_output_need.py:54 | any two different texts are ordered one way or the other |
| CalculatedLines.SignedResult | PYTHON_PREDICT/output_actions/output_actions_calculated.py:42 | the shown difference starts with '+' exactly for a positive difference and with '-' exactly for a negative one, and reads back as the difference |
| CalculatedLines.GamesResult | PYTHON_PREDICT/output_actions/output_actions_calculated.py:51-54 | the count returned is the number of games |
| CalculatedLines.ResultLineOnOneLine | PYTHON_PREDICT/output_actions/output_actions_calculated.py:45-49 | a game's line holds no line break when none of its text fields does |
| CalculatedLines.GamesResultLines | PYTHON_PREDICT/output_actions/output_actions_calculated.py:24-54 | splitting the games text on line breaks gives back one line per game, in the games' order |
| CalculatedLines.ResultLineExample | PYTHON_PREDICT/tests/test_output_actions_calculated_edgecases.py:26-40 | a home loss by 2 (0 - 2) is shown as `-2` in bold with the score `[ 0 - 2 ]` |
| CalculatedLines.ScoresGameday | PYTHON_PREDICT/output_actions/output_actions_calculated.py:196-221 | the count is the number of users; the text is one line per user, ranked, a repeated rank shown as '-', joined by line breaks |
| CalculatedLines.GamedayUsers | PYTHON_PREDICT/output_actions/output_actions_calculated.py:213-221 | the gameday ranking keeps every user exactly once, sorted by rank, and masking repeated ranks leaves the rows unchanged |
| CalculatedLines.MinPredictionHalf | PYTHON_PREDICT/output_actions/output_actions_calculated.py:243 | the minimum is half the gamedays' predictions rounded down (67 gives 33, 4 gives 2) |
| CalculatedLines.Regulars | PYTHON_PREDICT/output_actions/output_actions_calculated.py:244 | a user is kept exactly when its total predictions exceed the minimum |
| CalculatedLines.ScoresAverage | PYTHON_PREDICT/output_actions/output_actions_calculated.py:224-251 | the minimum returned is half the predictions; the count is the number of regular users; the text ranks them by descending average |
| CalculatedLines.AverageRanksRegulars | PYTHON_PREDICT/output_actions/output_actions_calculated.py:243-245 | the average ranking holds only users above the minimum, and all of them |
| CalculatedLines.TextsOf | PYTHON_PREDICT/output_actions/output_actions_calculated.py:291-296 | no text is produced exactly when no row of the team is a leader (or, for the others, when every row is) |
| CalculatedLines.ArrowLines | PYTHON_PREDICT/output_actions/output_actions_calculated.py:293-294 | joining with "\n-> " after a leading arrow equals one arrowed line per item |
| CalculatedLines.NotCountedOnlyWithOthers | PYTHON_PREDICT/output_actions/output_actions_calculated.py:291-296 | the not-counted part is added exactly when some row of the team is not a leader |
| CalculatedLines.BonusLineOnlyWhenNonZero | PYTHON_PREDICT/output_actions/output_actions_calculated.py:305-317 | a team's block has no home bonus line exactly when its bonus is zero |
| CalculatedLines.TeamBonus | PYTHON_PREDICT/output_actions/output_actions_calculated.py:305-314 | a team receives a bonus only when it is the home team of a game with that key |
| CalculatedLines.TeamsOfGame | PYTHON_PREDICT/output_actions/output_actions_calculated.py:298-303 | a team is listed exactly when some row of the game belongs to it |
| CalculatedLines.GameTeamsSorted | PYTHON_PREDICT/output_actions/output_actions_calculated.py:298-303 | the teams grouped under a game are sorted by name and are exactly the teams having rows of that game |
| CalculatedLines.TeamRows | PYTHON_PREDICT/output_actions/output_actions_calculated.py:298-303 | a row belongs to a team's group exactly when it has that game and that team |
| CalculatedLines.TeamBlocks | PYTHON_PREDICT/output_actions/output_actions_calculated.py:320-331 | one block per team of the game |
| CalculatedLines.GameWithoutRows | PYTHON_PREDICT/output_actions/output_actions_calculated.py:320-331 | a game without prediction rows is shown by its line alone |
| CalculatedLines.CorrectionListEmpty | PYTHON_PREDICT/output_actions/output_actions_calculated.py:376-379 | no corrections give the empty text and a count of 0 |
| CalculatedLines.CorrectionListUsers | PYTHON_PREDICT/output_actions/output_actions_calculated.py:358-379 | the count is the number of distinct corrected users; they are listed once each, sorted, and are exactly the users of the rows |
| CalculatedLines.GamedayListTwo | PYTHON_PREDICT/output_actions/output_actions_calculated.py:382-398 | two gamedays are shown as `G1 (N1) / G2 (N2)` |
| CalculatedLines.GamedayListSplits | PYTHON_PREDICT/output_actions/output_actions_calculated.py:382-398 | splitting the list on " / " gives back each gameday's `GAMEDAY (NB_PREDICTION)` entry in order, when no entry holds " / "; no gameday gives the empty text |
| CalculatedLines.RegularsAboveHalfTotal | PYTHON_PREDICT/output_actions/output_actions_calculated.py:476-478 | with NB_TOTAL_PREDICT the sum of the gamedays' predictions, the average ranking keeps exactly the users whose predictions exceed half of it |
| CalculatedLines.MvpRace | PYTHON_PREDICT/output_actions/output_actions_calculated.py:401-448 | the label returned is the month or competition given, and the count is the number of users (the text is stated by MvpRaceLines) |
| CalculatedLines.MvpRaceLines | PYTHON_PREDICT/output_actions/output_actions_calculated.py:417-420 | splitting the race text on line breaks gives back one `USER - PTS pts / W__W__-L__L__ [__with__ TEAMS]` line per user, in order, when no user name or team list holds a line break |
| CalculatedLines.MvpLineOnOneLine | PYTHON_PREDICT/output_actions/output_actions_calculated.py:417 | a user's line holds no line break when neither its name nor its team list does |
| CalculatedLines.MvpRaceEmpty | PYTHON_PREDICT/output_actions/output_actions_calculated.py:401-448 | a race without users gives the label, an empty text and a count of 0 |
| SnowflakeActions.NamesIn | PYTHON_PREDICT/snowflake_actions.py:191-195 | a table is listed exactly when some row of the paths table has that name and one of the selected categories |
| SnowflakeActions.SelectCategories | PYTHON_PREDICT/snowflake_actions.py:166-188 | a python category and a dbt category are selected exactly under the caller and action conditions of each branch |
| SnowflakeActions.ListTablesToUpdate | PYTHON_PREDICT/snowflake_actions.py:145-211 | both lists are free of duplicates; a table is in the python list exactly when it is the output-need landing table for the main program or has a selected python category, and in the dbt list exactly when it has a selected dbt category |
| SnowflakeActions.LowercaseActionSelectsLandingOnly | PYTHON_PREDICT/tests/test_snowflake_actions.py:105-119 | the main program with the action spelled "check" updates only the landing output-need table by python and no table by dbt |
| SnowflakeActions.SchemaAndRemainder | PYTHON_PREDICT/snowflake_actions.py:303-307 | the schema holds no `_`, and the schema, `_` and the remainder put back together give the table name |
| SnowflakeActions.InputFileName | PYTHON_PREDICT/snowflake_actions.py:306-310 | a file name exists only for the main, init_compet and init_snowflake callers; init_snowflake reads the file named as the table |
| SnowflakeActions.EncapsulationOf | PYTHON_PREDICT/snowflake_actions.py:315 | the flag is found exactly when a row has the table's name, and is the flag of the first such row |
| SnowflakeActions.UpdateFromPython | PYTHON_PREDICT/snowflake_actions.py:284-331 | an update exists exactly when the file name and the flag do; it loads `folder/file.csv` into the table of the table's schema, enclosed exactly when the flag is 1, and rewrites the table's file exactly for the main and init_compet callers |
| SnowflakeActions.UpdateSnowflake | PYTHON_PREDICT/snowflake_actions.py:388-442 | one python update per listed table; for main and init_compet the dbt build happens exactly when every python update succeeded and some paths row has a selected dbt category, and it builds exactly the tables with a selected dbt category, each once; init_snowflake reloads every local file by its stem and then builds the seeds and views exactly when every reload succeeded, and it is the only caller that does; any other caller updates nothing |
| SnowflakeActions.DatabaseFor | PYTHON_PREDICT/snowflake_actions.py:93-96 | the production database exactly when IS_TESTRUN is "0", the test database otherwise (also when it is unset) |
| SnowflakeActions.PersonalizeAroundPlaceholder | PYTHON_PREDICT/snowflake_actions.py:97-98 | the `#DATABASE#` placeholder is replaced by the chosen database and the text around it is kept |
| SnowflakeActions.PersonalizeWithoutPlaceholder | PYTHON_PREDICT/snowflake_actions.py:97-98 | a query without the placeholder is sent unchanged |
| FileActions.MissingColumns | PYTHON_PREDICT/file_actions.py:61-63 | a column is reported missing exactly when the schema expects it and the file lacks it |
| FileActions.ColumnNamed | PYTHON_PREDICT/file_actions.py:69 | the column read is one of the file's columns and has the wanted name |
| FileActions.MismatchListEmpty | PYTHON_PREDICT/file_actions.py:67-77 | there is no type mismatch exactly when no expected column has another dtype, an all-null column expected as "object" being forgiven |
| FileActions.TypeMismatches | PYTHON_PREDICT/file_actions.py:67-75 | the loop collects exactly the mismatches of the schema, in schema order |
| FileActions.ReadAndCheckCsv | PYTHON_PREDICT/file_actions.py:43-81 | the frame is returned, unchanged, exactly when every expected column is present with its dtype; a file without a schema accepts any columns |
| FileActions.WithFirstEvent | PYTHON_PREDICT/file_actions.py:356-358 | only the first row's EVENT changes and every later row is kept; an empty frame gains one row |
| FileActions.TerminateMarksOwnRow | PYTHON_PREDICT/file_actions.py:348-358 | the terminate step marks the row the same run's initiate step put first, and leaves the earlier runs' rows alone |
| FileActions.ModifyRunFile | PYTHON_PREDICT/file_actions.py:328-364 | "initiate" returns a new frame with the run's row first and leaves the given one alone; "terminate" sets the first row's EVENT in place; any other event fails and changes nothing |
| FileActions.PersonalizeYml | PYTHON_PREDICT/file_actions.py:174-209 | a profile without `#DATABASE#` is not rewritten; one with it is personalised exactly when the user and the password are set |
| FileActions.DatabasePlaceholderReplaced | PYTHON_PREDICT/file_actions.py:202 | `#DATABASE#` becomes the database name and the text around it is kept |
| FileActions.PersonalizeOnce | PYTHON_PREDICT/file_actions.py:185-209 | a profile whose only placeholder is `#DATABASE#` gets the database chosen by IS_TESTRUN in its place, and personalising the result again writes nothing |
| FileActions.ReplaceEachNoHash | PYTHON_PREDICT/file_actions.py:201-205 | the placeholder replacements leave a text without `#` unchanged |
| FileActions.SpaceRunEnd | PYTHON_PREDICT/file_actions.py:225-228 | the `\s*` run ends at the first non-space character, or at the end of the text |
| FileActions.ValueStart | PYTHON_PREDICT/file_actions.py:225-228 | `.+` starts at a character that is not a newline, after whitespace only |
| FileActions.LineEnd | PYTHON_PREDICT/file_actions.py:225-228 | the value runs up to the next newline or the end of the text |
| FileActions.SubstituteWithoutKey | PYTHON_PREDICT/file_actions.py:225-228 | a text without the key is left as it is |
| FileActions.SubstituteLine | PYTHON_PREDICT/file_actions.py:225-228 | a `key: value` line keeps the key and the spaces after it, and its value up to the end of the line becomes the placeholder |
| FileActions.ParametrizeLeavesOtherText | PYTHON_PREDICT/file_actions.py:212-231 | a text holding none of the four keys (the warehouse line) is not parametrised |
| FileActions.DataKeyInjective | PYTHON_PREDICT/file_actions.py:283 | two files never share a data dictionary key |
| FileActions.ColumnIndices | PYTHON_PREDICT/file_actions.py:287 | the filtering columns are found exactly when all of them are in the frame, each at a valid position |
| FileActions.FilterKeys | PYTHON_PREDICT/file_actions.py:287 | the filtering values hold each projected row once (`drop_duplicates`) and nothing else |
| FileActions.KeepMatching | PYTHON_PREDICT/file_actions.py:289-291 | the rows kept are those of the frame whose filtering values occur among the keys, in their order |
| FileActions.SemiJoin | PYTHON_PREDICT/file_actions.py:286-291 | the inner merge keeps the frame's columns and a subsequence of its rows |
| FileActions.FilterStep | PYTHON_PREDICT/file_actions.py:282-296 | one step keeps every key, changes only the rule's own frame, and changes nothing when the rule does not apply |
| FileActions.FilterAll | PYTHON_PREDICT/file_actions.py:282-297 | the loop keeps every key and every frame well formed |
| FileActions.FilterAllSplit | PYTHON_PREDICT/file_actions.py:282-297 | running the rules in two stretches is running them at once, the first failure stopping the run |
| FileActions.FilterAllUntouched | PYTHON_PREDICT/file_actions.py:282-297 | a frame no rule names is left as loaded |
| FileActions.FilterStepApplied | PYTHON_PREDICT/file_actions.py:285-291 | a rule that applies replaces its frame by the merge with its filtering frame |
| FileActions.FilteredAgainstFilteredSource | PYTHON_PREDICT/file_actions.py:256-291 | with the filtering file's rule first, a frame is filtered against its filtering frame as already filtered |
| FileActions.CategoryRules | PYTHON_PREDICT/file_actions.py:254 | a rule is selected exactly when it is a paths row of the filtering category |
| FileActions.SelfFilteringUnordered | PYTHON_PREDICT/file_actions.py:268-274 | a rule whose filtering file is its own file adds a self-loop, so no sequence containing it is in dependency order |
| FileActions.FilterData | PYTHON_PREDICT/file_actions.py:234-299 | the dictionary is filtered exactly as the rules sorted by dependency filter it, and fails exactly when they fail |
| FileActions.UnfilteredRule | PYTHON_PREDICT/file_actions.py:285 | a rule without a filtering file leaves every frame as it is |
| FileActions.SemiJoinExample | PYTHON_PREDICT/tests/test_file_actions.py:94-115 | filtering [2, 3] on `col` by [1, 2] keeps [2] |
| FileActions.FilterExample | PYTHON_PREDICT/tests/test_file_actions.py:94-115 | with df1 unfiltered and df2 filtered on `col` by df1, df1 is kept and df2 keeps only the shared value |
| FileActions.DownloadCategories | PYTHON_PREDICT/file_actions.py:540-549 | MESSAGE exactly for a CHECK or RUN message action, GAME_RUN exactly when the game action is a substring of "RUN", the task itself for INIT and CALCULATE, and nothing else |
| FileActions.GameRunSubstring | PYTHON_PREDICT/file_actions.py:545 | the substring test admits "RUN", "R" and the empty action, and refuses "AVOID" |
| FileActions.FilesToDownload | PYTHON_PREDICT/file_actions.py:552-553 | a file is downloaded exactly when one of its download categories is selected |
| FileActions.LastDot | PYTHON_PREDICT/file_actions.py:494-495 | the last dot of the name, or none when the name has no dot |
| FileActions.SuffixShape | PYTHON_PREDICT/file_actions.py:494-495 | stem and suffix put back together give the name; a suffix is empty or a dot followed by at least one non-dot character |
| FileActions.SuffixOf | PYTHON_PREDICT/file_actions.py:494-495 | a non-empty stem with a dotted extension splits back into the two |
| FileActions.JpgUpload | PYTHON_PREDICT/file_actions.py:498-499 | every jpg, whatever the case of its extension, is looked up as `*_jpg` |
| FileActions.ForumOutputUpload | PYTHON_PREDICT/file_actions.py:501-502 | every forum output text, whatever the case of its prefix, is looked up as `forumoutput_*_txt` |
| FileActions.PathDetails | PYTHON_PREDICT/file_actions.py:504 | a paths row is found exactly when one has the name, and it is a row with that name |
| FileActions.Lookups | PYTHON_PREDICT/file_actions.py:491-506 | one lookup per local file, of its upload name |
| FileActions.FlaggedOk | PYTHON_PREDICT/file_actions.py:504-509 | the upload list exists exactly when every lookup succeeds |
| FileActions.FlaggedMembers | PYTHON_PREDICT/file_actions.py:505-509 | the upload list holds every file whose row flags it for upload, with that row's remote path, and nothing else |
| FileActions.ListLocalFiles | PYTHON_PREDICT/file_actions.py:491-492 | the files of every folder, folder after folder, in listing order |
| FileActions.CollectUploads | PYTHON_PREDICT/file_actions.py:489-509 | the loop gives exactly the upload list of the files, failing exactly when it fails |
| FileActions.UploadList | PYTHON_PREDICT/file_actions.py:486-509 | a caller without upload folders fails; otherwise the upload list of its folders' files |
| MessageActions.KeepInWindow | PYTHON_PREDICT/message_actions.py:81-83 | a message of the page is kept exactly when it was created in the window and never edited, or edited in the window |
| MessageActions.EditedJudgedByEdition | PYTHON_PREDICT/message_actions.py:81-82 | an edited message is judged by its edition time alone, bounds included |
| MessageActions.OffsetCons | PYTHON_PREDICT/message_actions.py:77-78 | reading one more page moves the offset by its length and adds its ids |
| MessageActions.PagesReadAreFresh | PYTHON_PREDICT/message_actions.py:61-78 | every page read is the page at the offset reached and shares no id with the pages before it |
| MessageActions.ReadingStopsAtRepeat | PYTHON_PREDICT/message_actions.py:71-75 | reading stops at a page that repeats an id already met |
| MessageActions.EmptyPageNeverStops | PYTHON_PREDICT/message_actions.py:61-78 | an empty page moves neither the offset nor the ids met, so the loop never ends |
| MessageActions.KeptOfMembers | PYTHON_PREDICT/message_actions.py:81-86 | the messages collected are the messages of the pages read that lie in the window |
| MessageActions.NoneIffNothingKept | PYTHON_PREDICT/message_actions.py:85-89 | a topic yields None exactly when no page read holds a message in the window |
| MessageActions.FlattenEmpty | PYTHON_PREDICT/message_actions.py:85-89 | non-empty parts glue to nothing only when there are none |
| MessageActions.PagesReadStep | PYTHON_PREDICT/message_actions.py:71-78 | a page sharing no id with those met is read and reading goes on after it |
| MessageActions.CollectStep | PYTHON_PREDICT/message_actions.py:83-86 | adding a page's kept part, when non-empty, extends the collected messages by exactly the page's messages in the window |
| MessageActions.ExtractFromTopic | PYTHON_PREDICT/message_actions.py:34-89 | the loop returns what the page-reading definition gives: the kept messages of the fresh pages, None when there are none |
| MessageActions.ExtractionBounds | PYTHON_PREDICT/message_actions.py:156-185 | the lower bound is the need's watermark coerced; the range fails exactly when the gameday end is unreadable; the upper bound is the earlier of the gameday end and now |
| MessageActions.GatherMembers | PYTHON_PREDICT/message_actions.py:123-127 | a gathered extraction holds exactly the messages of the topics that returned some |
| MessageActions.ExtractedMessagesKept | PYTHON_PREDICT/message_actions.py:92-131 | every extracted message comes from a page read of one topic and lies in that topic's window in its local time, and the window is not empty |
| MessageActions.NullBoundExits | PYTHON_PREDICT/message_actions.py:117-123 | with a null bound, extraction succeeds only when there is no topic |
| MessageDetails.FrenchTokensAreWords | PYTHON_PREDICT/get_messages_details_bi.py:23-27 | every French token of the table is a non-empty word without space starting with a lower-case letter |
| MessageDetails.EnglishHasNoFrench | PYTHON_PREDICT/get_messages_details_bi.py:28-29 | no English replacement holds a French token, so a replacement is never replaced again |
| MessageDetails.OnlyMarIsMarDot | PYTHON_PREDICT/get_messages_details_bi.py:26 | only the Tuesday token reads "mar." |
| MessageDetails.TranslateFrenchDate | PYTHON_PREDICT/get_messages_details_bi.py:11-30 | the loop replaces every French token, in table order, by its English word |
| MessageDetails.TranslatesWordByWord | PYTHON_PREDICT/get_messages_details_bi.py:28-29 | translating a space-separated date translates each word on its own |
| MessageDetails.EnglishTextUnchanged | PYTHON_PREDICT/get_messages_details_bi.py:28-29 | a text holding no French token comes back unchanged |
| MessageDetails.NoLowerCaseUnchanged | PYTHON_PREDICT/get_messages_details_bi.py:28-29 | a text without lower-case letters comes back unchanged |
| MessageDetails.TokenTranslated | PYTHON_PREDICT/get_messages_details_bi.py:23-29 | a token that holds no earlier token of the table becomes its English word |
| MessageDetails.JanuaryWord | PYTHON_PREDICT/get_messages_details_bi.py:24 | "janv." becomes "Jan" |
| MessageDetails.TuesdayWord | PYTHON_PREDICT/get_messages_details_bi.py:26 | "mar." becomes "Tue", although "mars" comes first in the table |
| MessageDetails.TranslationExample | PYTHON_PREDICT/tests/test_get_messages_details_bi.py:21-26 | "mar. 07 janv. 2025 9:54" becomes "Tue 07 Jan 2025 9:54" |
| MessageDetails.NumbersUnchanged | PYTHON_PREDICT/tests/test_get_messages_details_bi.py:21-26 | the day, year and time of the example are left alone |
| MessageDetails.CreationTimes | PYTHON_PREDICT/get_messages_details_bi.py:95-117 | the creation times exist exactly when every time text translates and parses, one per text in order |
| MessageDetails.IdAttributes | PYTHON_PREDICT/get_messages_details_bi.py:89-90 | an id attribute is used exactly when it is present and not empty |
| MessageDetails.ParseIds | PYTHON_PREDICT/get_messages_details_bi.py:87-91 | the ids exist exactly when every attribute, `profile` removed, is an integer, one per attribute in order |
| MessageDetails.ProfileIdRoundTrip | PYTHON_PREDICT/get_messages_details_bi.py:88 | `profile` followed by a number reads back as that number |
| MessageDetails.NonNumericIdRaises | PYTHON_PREDICT/get_messages_details_bi.py:87-91 | an id attribute holding a character that no integer can hold raises ValueError |
| MessageDetails.OneLineHasNoNewline | PYTHON_PREDICT/get_messages_details_bi.py:163 | a stored content holds no line break |
| MessageDetails.OneLineJoinsLines | PYTHON_PREDICT/get_messages_details_bi.py:163 | the lines of a content are joined by ` ;;;;; ` |
| MessageDetails.EditionTexts | PYTHON_PREDICT/get_messages_details_bi.py:188-206 | one entry per message body, its notice's edition text or None |
| MessageDetails.ReadNotice | PYTHON_PREDICT/get_messages_details_bi.py:190-206 | a message's entry is None without a notice, without the edition marker or without "le ", and the cleaned date text otherwise |
| MessageDetails.SplitMany | PYTHON_PREDICT/get_messages_details_bi.py:198-199 | a split gives more than one part exactly when the separator occurs |
| MessageDetails.EditionTextPositions | PYTHON_PREDICT/get_messages_details_bi.py:193-206 | the edition text is the text after the first "le " of the part after the marker, cut at the next "le " and the first comma, stripped; None when the marker or "le " is missing |
| MessageDetails.EditionTextShape | PYTHON_PREDICT/get_messages_details_bi.py:196-200 | an edition text holds no comma and no "le ", and starts and ends with a non-space character |
| MessageDetails.EditionTimes | PYTHON_PREDICT/get_messages_details_bi.py:208-213 | the edition times exist exactly when every present edition text translates and parses; a missing one stays None |
| MessageDetails.SameLengthsIffEqual | PYTHON_PREDICT/get_messages_details_bi.py:241 | the set of the five lengths has one element exactly when the five are equal |
| MessageDetails.PageDetailsRows | PYTHON_PREDICT/get_messages_details_bi.py:216-254 | the page's rows exist exactly when the five lists have the same length; row k then holds user k, id k, creation time k, content k on one line and edition time k |
| OutputActions.TranslateParam | PYTHON_PREDICT/output_actions/output_actions.py:23-45 | a text is translated by replacing each key of the country's table, in table order; a country without a table raises KeyError |
| OutputActions.UntranslatedText | PYTHON_PREDICT/output_actions/output_actions.py:40-43 | a text holding no key of the table comes back unchanged |
| OutputActions.TranslateParamExample | PYTHON_PREDICT/tests/test_output_actions.py:16-23 | "hello world" with hello→bonjour becomes "bonjour world" |
| OutputActions.RenameColumn | PYTHON_PREDICT/output_actions/output_actions.py:37-38 | a column named in the table is renamed to its translation, any other column keeps its name |
| OutputActions.TranslateValue | PYTHON_PREDICT/output_actions/output_actions.py:23-45 | a text or a frame is translated with the country's table; a country without a table raises KeyError |
| OutputActions.TranslatedShape | PYTHON_PREDICT/output_actions/output_actions.py:37-43 | a text stays a text and a frame a frame; a frame keeps its rows, its number of columns, its emptiness and every column the table does not name; a two-level header stays two-level with as many second-level labels |
| OutputActions.DigitRun | PYTHON_PREDICT/output_actions/output_actions.py:70 | `\d+` takes the longest run of digits |
| OutputActions.Newlines | PYTHON_PREDICT/output_actions/output_actions.py:66-68 | N line breaks and nothing else |
| OutputActions.NoMarkerUnchanged | PYTHON_PREDICT/output_actions/output_actions.py:70 | a text where no bar is followed by a digit is not changed by the expansion |
| OutputActions.ExpandMarker | PYTHON_PREDICT/output_actions/output_actions.py:66-70 | a marker (a number N between two bars) at the head becomes N line breaks and the expansion goes on after it |
| OutputActions.ExpandAfterPlain | PYTHON_PREDICT/output_actions/output_actions.py:70 | text before the first bar is kept as it is |
| OutputActions.MarkerBetween | PYTHON_PREDICT/output_actions/output_actions.py:66-70 | a marker between plain text and marker-free text becomes its line breaks |
| OutputActions.LineBreakRemoved | PYTHON_PREDICT/output_actions/output_actions.py:63 | the original line breaks are dropped |
| OutputActions.MarkerBeforeLineBreak | PYTHON_PREDICT/output_actions/output_actions.py:48-71 | line breaks are removed before markers are expanded, so the template's own line break disappears and the marker's remain |
| OutputActions.FormatMessageExample | PYTHON_PREDICT/tests/test_output_actions.py:35-41 | "Line1", the marker for 2, a line break and "Line2" become "Line1", two line breaks, "Line2" |
| OutputActions.NoMarkerFormatted | PYTHON_PREDICT/output_actions/output_actions.py:48-71 | a one-line text without a marker is left as it is |
| OutputActions.FormatMessageNonDigitExample | PYTHON_PREDICT/tests/test_output_actions_edgecases.py:30-33 | a bar-delimited X, which is not a number, is left as it is |
| OutputActions.BlockAtHead | PYTHON_PREDICT/output_actions/output_actions.py:94-95 | a block matched at the head starts with the begin tag and ends right after an end tag |
| OutputActions.RemoveBlocksAbsent | PYTHON_PREDICT/output_actions/output_actions.py:94-95 | a text without the begin tag loses nothing |
| OutputActions.RemoveBlocksAfterPlain | PYTHON_PREDICT/output_actions/output_actions.py:94-95 | text before the first begin tag is kept |
| OutputActions.TaglessUnchanged | PYTHON_PREDICT/output_actions/output_actions.py:74-96 | a text holding neither tag is unchanged whatever the condition |
| OutputActions.BlockEndsAtFirstEnd | PYTHON_PREDICT/output_actions/output_actions.py:94 | the lazy `.*?` ends the block at the first end tag |
| OutputActions.DropEnclosed | PYTHON_PREDICT/output_actions/output_actions.py:93-95 | when the condition fails the block is removed with its tags |
| OutputActions.KeepEnclosed | PYTHON_PREDICT/output_actions/output_actions.py:90-92 | when the condition holds the tags are removed and the enclosed text kept |
| OutputActions.ReplaceConditionallyExample | PYTHON_PREDICT/tests/test_output_actions.py:43-63 | "Hello [START]World[END]!" becomes "Hello World!" when the condition holds and "Hello !" when it fails |
| OutputActions.StripMarks | PYTHON_PREDICT/output_actions/output_actions.py:117-120 | no combining mark and no decomposable letter is left, and the text does not grow |
| OutputActions.NormalizeAppend | PYTHON_PREDICT/output_actions/output_actions.py:115-125 | names are normalised character by character, so a concatenation normalises part by part |
| OutputActions.NormalizedName | PYTHON_PREDICT/output_actions/output_actions.py:115-125 | a normalised name holds no space, no upper-case letter and no accent |
| OutputActions.NormalizeIdempotent | PYTHON_PREDICT/output_actions/output_actions.py:115-125 | normalising twice is normalising once |
| OutputActions.FileNameParts | PYTHON_PREDICT/output_actions/output_actions.py:99-134 | the file name is the type, season, gameday, the country when given, and the extension, each normalised, joined by `_` and `.` |
| OutputActions.FileNameMissingColumn | PYTHON_PREDICT/output_actions/output_actions.py:128 | a gameday row without SEASON_ID or GAMEDAY makes the name fail |
| OutputActions.FileNameExample | PYTHON_PREDICT/tests/test_output_actions_edgecases.py:51-55 | type "forumoutput", season "S1", gameday "1ere journee", extension "txt" and no country give "forumoutput_s1_1erejournee.txt" |
| OutputActions.SpaceDropped | PYTHON_PREDICT/output_actions/output_actions.py:124 | spaces are dropped from a plain name |
| OutputActions.AccentDropped | PYTHON_PREDICT/output_actions/output_actions.py:117-122 | "É" becomes "e" |
| OutputActions.ChooseMessages | PYTHON_PREDICT/output_actions/output_actions.py:243-262 | the inited message is posted exactly for an INIT task with a gameday row; the calculated one exactly for a CALCULATE task or a deletion, with a gameday row |
| OutputRanks.WithRank | PYTHON_PREDICT/output_actions/output_actions.py:150 | the rows kept all carry the given rank |
| OutputRanks.InsertByRankPermutes | PYTHON_PREDICT/output_actions/output_actions.py:150 | inserting a row adds exactly that row |
| OutputRanks.InsertByRankSorted | PYTHON_PREDICT/output_actions/output_actions.py:150 | inserting into rows sorted by rank keeps them sorted |
| OutputRanks.SortByRankSorted | PYTHON_PREDICT/output_actions/output_actions.py:150 | the rows come out sorted by ascending rank, none lost |
| OutputRanks.SortByRankPermutes | PYTHON_PREDICT/output_actions/output_actions.py:150 | the sort is a permutation of the rows |
| OutputRanks.SortByRankStable | PYTHON_PREDICT/output_actions/output_actions.py:150 | rows of equal rank keep their order |
| OutputRanks.SortByRankOfSorted | PYTHON_PREDICT/output_actions/output_actions.py:150 | rows already sorted by rank are left as they are |
| OutputRanks.MaskRepeats | PYTHON_PREDICT/output_actions/output_actions.py:151 | one displayed cell per row |
| OutputRanks.DisplayRank | PYTHON_PREDICT/output_actions/output_actions.py:137-156 | the rows sorted by rank, a rank equal to one above shown as '-' |
| OutputRanks.DashIffSameAsAbove | PYTHON_PREDICT/output_actions/output_actions.py:151 | on sorted rows a rank is shown as '-' exactly when the row above has the same rank |
| OutputRanks.ShownOnFirstRow | PYTHON_PREDICT/output_actions/output_actions.py:151 | a rank is shown on the first row that holds it, and only there |
| OutputRanks.ShownRanksDistinct | PYTHON_PREDICT/output_actions/output_actions.py:151 | no rank is shown twice |
| OutputRanks.DisplayRankExample | PYTHON_PREDICT/tests/test_output_actions.py:76-91 | ranks 4, 2, 1, 2 are shown as 1, 2, '-', 4, the second 2 after the first |
| OutputRanks.SortDescendingPermutes | PYTHON_PREDICT/output_actions/output_actions.py:174 | the descending sort is a permutation of the rows |
| OutputRanks.SortDescendingSorted | PYTHON_PREDICT/output_actions/output_actions.py:174 | the rows come out in descending order of their ranking columns |
| OutputRanks.CountGreater | PYTHON_PREDICT/output_actions/output_actions.py:175 | the number of rows ranked strictly above a key is at most the number of rows |
| OutputRanks.RankRows | PYTHON_PREDICT/output_actions/output_actions.py:175 | one rank per row |
| OutputRanks.CalculateAndDisplayRank | PYTHON_PREDICT/output_actions/output_actions.py:160-177 | the rows sorted by descending key, each with its `min` rank, a repeated rank shown as '-'; the sort is a permutation and is sorted |
| OutputRanks.MinRankIsFirstTie | PYTHON_PREDICT/output_actions/output_actions.py:175 | a row's `min` rank is one more than the position of the first row with its key |
| OutputRanks.GreaterRanksFirst | PYTHON_PREDICT/output_actions/output_actions.py:175 | a greater key always gets a smaller rank |
| OutputRanks.RankRowsSorted | PYTHON_PREDICT/output_actions/output_actions.py:175-176 | on rows sorted by descending key the ranks come out sorted |
| OutputRanks.DashIffTiedWithAbove | PYTHON_PREDICT/output_actions/output_actions.py:175-176 | a rank is shown as '-' exactly when the row above has the same key |
| OutputRanks.CalculateRankExample | PYTHON_PREDICT/tests/test_output_actions.py:93-106 | scores 10, 20, 20 are shown as 1, '-', 3 on the rows 20, 20, 10 |
| OutputInited.GameLines | PYTHON_PREDICT/output_actions/output_actions_inited.py:35-37 | one line per game, in order |
| OutputInited.ListGames | PYTHON_PREDICT/output_actions/output_actions_inited.py:20-41 | the count is the number of games |
| OutputInited.ListGamesEmpty | PYTHON_PREDICT/tests/test_output_actions_inited_edgecases.py:17-42 | no games give the empty text and a count of 0 |
| OutputInited.GameLineOnOneLine | PYTHON_PREDICT/output_actions/output_actions_inited.py:35-37 | a game line holds no line break when the game's fields hold none |
| OutputInited.ListGamesLines | PYTHON_PREDICT/output_actions/output_actions_inited.py:39 | splitting the games text on line breaks gives back the game lines |
| OutputInited.GamedayList | PYTHON_PREDICT/output_actions/output_actions_inited.py:66 | the remaining gamedays are listed once each, and are exactly the gamedays of the remaining games |
| OutputInited.GamedaysInFirstOrder | PYTHON_PREDICT/output_actions/output_actions_inited.py:66 | the gamedays are listed in the order of their first occurrence (`unique`) |
| OutputInited.RemainingGames | PYTHON_PREDICT/output_actions/output_actions_inited.py:44-72 | the count is the number of remaining games |
| OutputInited.RemainingGamesExample | PYTHON_PREDICT/tests/test_output_actions_inited_edgecases.py:105-142 | two games of a first gameday and one of a second give both gamedays once, joined by " , ", and a count of 3 |
| OutputInited.RemainingGamesEmpty | PYTHON_PREDICT/tests/test_output_actions_inited_edgecases.py:144-173 | no remaining games give two empty texts and a count of 0 |
| OutputInited.DateGame1 | PYTHON_PREDICT/output_actions/output_actions_inited.py:87-99 | the date text exists exactly when the time has three integer fields separated by ':' |
| OutputInited.ClockFieldsOfText | PYTHON_PREDICT/output_actions/output_actions_inited.py:93 | a rendered `HH:MM:SS` time reads back as its hours and minutes |
| OutputInited.DateGame1OfClock | PYTHON_PREDICT/output_actions/output_actions_inited.py:87-98 | the text is the weekday, the day and month on two digits, the hours and `h`, and the minutes only when non-zero, unpadded |
| OutputInited.DateGame1Example | PYTHON_PREDICT/tests/test_output_actions_inited.py:98-114 | "20:15:00" on 1 February gives "WEEKDAY 01/02 20h15" |
| OutputInited.DateGame1Midnight | PYTHON_PREDICT/tests/test_output_actions_inited_edgecases.py:175-191 | "00:00:00" gives "WEEKDAY 01/02 0h" |
| OutputInited.DateGame1WithoutColon | PYTHON_PREDICT/tests/test_output_actions_inited_edgecases.py:193-206 | a time without ':' is a ValueError |
| OutputInited.DateGame1TwoFields | PYTHON_PREDICT/output_actions/output_actions_inited.py:93 | a time with two fields cannot be unpacked into three and is a ValueError |
| OutputInited.InitedParameters | PYTHON_PREDICT/output_actions/output_actions_inited.py:102-127 | the parameters exist exactly when the first-game date does; the numbers of games and remaining games are those of the lists |
| OutputInited.NoRemainingParameters | PYTHON_PREDICT/output_actions/output_actions_inited.py:121-124 | without remaining games, both remaining texts are empty and the number is 0 |
| OutputInited.DeriveForCountry | PYTHON_PREDICT/output_actions/output_actions_inited.py:130-151 | every parameter is translated for the country under the key suffixed with `_` and the country; a country without a table raises KeyError when there is something to translate |
| OutputInited.DerivedKeys | PYTHON_PREDICT/output_actions/output_actions_inited.py:148-149 | the derived keys are exactly the parameters' keys suffixed with the country |
| OutputInited.SuffixCancels | PYTHON_PREDICT/output_actions/output_actions_inited.py:149 | two keys suffixed with the same country are equal only when the keys are |
| OutputInited.DeriveInitedResult | PYTHON_PREDICT/output_actions/output_actions_inited.py:154-178 | derivation succeeds exactly when every country has a table; its keys are DATEGAME1 suffixed with each country, each holding the date translated for that country |
| OutputInited.CreateInitedMessage | PYTHON_PREDICT/output_actions/output_actions_inited.py:181-225 | a missing derived date raises KeyError; otherwise the content is the template filled and the file name of the country, a file name failure raising |
| OutputInited.InitedPlaceholder | PYTHON_PREDICT/output_actions/output_actions_inited.py:202-206 | each of the five placeholders always becomes its value, when that value holds no hash |
| OutputInited.InitedRemainingKept | PYTHON_PREDICT/output_actions/output_actions_inited.py:219-221 | without remaining games the remaining placeholders are left in the text |
| OutputInited.InitedRemainingReplaced | PYTHON_PREDICT/output_actions/output_actions_inited.py:219-221 | with remaining games each remaining placeholder becomes its value, when that value holds no hash |
| OutputInited.InitedBlocksKept | PYTHON_PREDICT/output_actions/output_actions_inited.py:209-217 | the team block is kept exactly when users can choose a team, the remaining block exactly when there are remaining games; otherwise each is removed with its tags |
| OutputInited.ReplaceEachSteps | PYTHON_PREDICT/output_actions/output_actions_inited.py:202-206 | the five replacements are made in the source's order: prefix, date, gameday, games, bonus |
| OutputInited.BlockSteps | PYTHON_PREDICT/output_actions/output_actions_inited.py:209-217 | the team block is decided before the remaining-games block |
| OutputInited.RemainingSteps | PYTHON_PREDICT/output_actions/output_actions_inited.py:219-221 | the remaining gamedays are replaced before the remaining games |
| OutputInited.InitedBlock | PYTHON_PREDICT/output_actions/output_actions_inited.py:209-217 | each of the two blocks alone keeps its content exactly when its condition holds |
| OutputInited.DerivedValue | PYTHON_PREDICT/output_actions/output_actions_inited.py:148-149 | a derived value is the parameter's value translated for the country |
| MessageTemplates.Tag | PYTHON_PREDICT/output_actions/output_actions_inited.py:202-221 | a `#NAME#` tag is a placeholder exactly when its name is written with capitals, digits and underscores |
| MessageTemplates.NotAcrossBlock | PYTHON_PREDICT/output_actions/output_actions.py:74-96 | a placeholder apart from a block's tags and content cannot be found in the block |
| MessageTemplates.PlaceholderNotInside | PYTHON_PREDICT/output_actions/output_actions_inited.py:202-221 | a placeholder occurs inside another only at its head |
| MessageTemplates.PlaceholderFormatted | PYTHON_PREDICT/output_actions/output_actions.py:48-71 | formatting the message leaves a placeholder as it is |
| MessageTemplates.HashFreeReplaced | PYTHON_PREDICT/output_actions/output_actions_inited.py:202-206 | text without a hash is left as it is by every placeholder replacement |
| MessageTemplates.HashFreeBlocks | PYTHON_PREDICT/output_actions/output_actions.py:74-96 | text without a hash is left as it is by every conditional block |
| MessageTemplates.TaglessBlocks | PYTHON_PREDICT/output_actions/output_actions.py:74-96 | text holding none of the blocks' tags is left as it is by all the blocks |
| MessageTemplates.RenderPlaceholder | PYTHON_PREDICT/output_actions/output_actions_inited.py:199-221 | a template that is a listed placeholder becomes that placeholder's value, when no earlier placeholder starts it and the value holds no hash |
| MessageTemplates.RenderUnlisted | PYTHON_PREDICT/output_actions/output_actions_inited.py:199-221 | a placeholder that is neither listed nor a tag stays in the message |
| MessageTemplates.BlockReplaced | PYTHON_PREDICT/output_actions/output_actions.py:90-96 | a text that is exactly one block becomes its content when the condition holds and nothing when it fails |
| MessageTemplates.BlocksOnOneBlock | PYTHON_PREDICT/output_actions/output_actions.py:74-96 | a text that is one block loses its tags and keeps its content exactly when the block's condition holds, the other blocks leaving it alone |
| MessageTemplates.ApplyBlocksAppend | PYTHON_PREDICT/output_actions/output_actions_inited.py:209-217 | applying blocks in two runs is applying them in one |
| MessageTemplates.RenderOneBlock | PYTHON_PREDICT/output_actions/output_actions_inited.py:199-221 | a template that is one block becomes its content when its condition holds and the empty text otherwise, after formatting and every replacement |
| OutputCalculated.ScoresDetailedShape | PYTHON_PREDICT/output_actions/output_actions_calculated.py:152-172 | the detailed scores fail exactly when a non-empty table lacks GAMEDAY or SEASON_ID or keeps no other column with `_`; an empty table comes back unchanged with no user; otherwise the header is the two-level split of every column but GAMEDAY and SEASON_ID, each row keeps exactly its cells under those columns in order, and there is one user per row |
| OutputCalculated.DropCellsKeeps | PYTHON_PREDICT/output_actions/output_actions_calculated.py:158 | dropping columns keeps exactly the (column, cell) pairs of a row whose column is not dropped, in their order, and the row as wide as the new header |
| OutputCalculated.DropCellsColumns | PYTHON_PREDICT/output_actions/output_actions_calculated.py:158 | the header after the drop holds exactly the columns that were not dropped |
| OutputCalculated.HeaderLevelsRejoin | PYTHON_PREDICT/output_actions/output_actions_calculated.py:160-164 | a column's first header level holds no `_`; the two levels joined by `_` give the column back, except for NAME and PT, whose second level is empty; a column without `_` is its own first level with an empty second |
| OutputCalculated.GlobalFrame | PYTHON_PREDICT/output_actions/output_actions_calculated.py:192 | the global table has the six displayed columns and one row per user, in the given order |
| OutputCalculated.ScoresGlobal | PYTHON_PREDICT/output_actions/output_actions_calculated.py:174-193 | the count is the number of users; the table is the users sorted by rank, repeated ranks masked |
| OutputCalculated.GlobalFrameRows | PYTHON_PREDICT/output_actions/output_actions_calculated.py:174-193 | the global table is empty exactly when there are no users; it holds every user once, sorted by rank |
| OutputCalculated.RankedFrame | PYTHON_PREDICT/output_actions/output_actions.py:137-156 | a ranked table has RANK as its first column, then the given columns, one row per team |
| OutputCalculated.PredictchampRanking | PYTHON_PREDICT/output_actions/output_actions_calculated.py:335-355 | the team ranking is the teams sorted by rank, repeated ranks masked |
| OutputCalculated.RankedFrameRows | PYTHON_PREDICT/output_actions/output_actions_calculated.py:335-355 | the team ranking has one row per team, is empty exactly when there are none, and starts with RANK |
| OutputCalculated.SeasonUsers | PYTHON_PREDICT/output_actions/output_actions_calculated.py:471-477 | the season scores are read once and given to the global and the average rankings alike |
| OutputCalculated.PredictchampParameters | PYTHON_PREDICT/output_actions/output_actions_calculated.py:483-501 | without championship games, IS_FOR_RANK and HAS_HOME_ADV are 0 and there are no results; otherwise they come from the first game; the team ranking is read exactly when IS_FOR_RANK is not 0 |
| OutputCalculated.MonthMvpParameters | PYTHON_PREDICT/output_actions/output_actions_calculated.py:505-514 | the month figures are read exactly when the month flag is 1, and are None, None and 0 otherwise; a missing column raises KeyError |
| OutputCalculated.CompetMvpParameters | PYTHON_PREDICT/output_actions/output_actions_calculated.py:516-524 | the competition figures are read exactly when the competition flag is 1, and are None, None and 0 otherwise; a missing column raises KeyError |
| OutputCalculated.ScoresParameters | PYTHON_PREDICT/output_actions/output_actions_calculated.py:466-480 | the score parameters exist exactly when the detailed scores do, and otherwise fail with the detailed scores' error; every score parameter comes from its query, and each user count is 0 exactly when its table is empty |
| OutputCalculated.QueriesJoined | PYTHON_PREDICT/output_actions/output_actions_calculated.py:463-526 | the six first queries always run, the optional ones exactly when their part of the message needs them |
| OutputCalculated.GetCalculatedParameters | PYTHON_PREDICT/output_actions/output_actions_calculated.py:451-526 | the parameters exist exactly when the gameday row has every column read and the detailed scores do not fail; any error is a missing column's KeyError or the detailed scores' error; the parameters are coherent and each comes from its query; the optional queries run exactly when their conditions hold |
| OutputCalculated.KeyNameInjective | PYTHON_PREDICT/output_actions/output_actions_calculated.py:605 | two parameters have the same name only when they are the same parameter |
| OutputCalculated.Candidates | PYTHON_PREDICT/output_actions/output_actions_calculated.py:605-608 | the parameters looked at are the eight listed ones, in their order, each with its value |
| OutputCalculated.ToDerive | PYTHON_PREDICT/output_actions/output_actions_calculated.py:603-613 | a listed parameter is derived exactly when its value is neither None nor an empty table |
| OutputCalculated.DeriveFilter | PYTHON_PREDICT/output_actions/output_actions_calculated.py:603-613 | a parameter is derived exactly when it has a value that is not an empty table, and a derived table is one of the three tables |
| OutputCalculated.DeriveCalculatedForCountry | PYTHON_PREDICT/output_actions/output_actions_calculated.py:529-584 | the derived parameters of a country are the translations and, for each table, its capture file name and URL |
| OutputCalculated.DerivedNothing | PYTHON_PREDICT/output_actions/output_actions_calculated.py:546-584 | nothing to derive gives an empty map |
| OutputCalculated.TranslatedKeyInjective | PYTHON_PREDICT/output_actions/output_actions_calculated.py:551-552 | two parameters suffixed with the same country give the same key only when they are the same |
| OutputCalculated.TranslatedKeys | PYTHON_PREDICT/output_actions/output_actions_calculated.py:551-552 | a translated key is present exactly when its parameter is derived |
| OutputCalculated.ListedTranslated | PYTHON_PREDICT/output_actions/output_actions_calculated.py:551-552 | every derived parameter's key, suffixed with the country, is among the translated keys |
| OutputCalculated.TranslatedValue | PYTHON_PREDICT/output_actions/output_actions_calculated.py:551-552 | each translated key holds the translation of its parameter's value |
| OutputCalculated.UrlNotTranslated | PYTHON_PREDICT/output_actions/output_actions_calculated.py:581-584 | a URL key is never a translated key, so the merge loses nothing |
| OutputCalculated.UrlKeyInjective | PYTHON_PREDICT/output_actions/output_actions_calculated.py:582 | the URL keys of two tables differ |
| OutputCalculated.UrlNotCaptureKey | PYTHON_PREDICT/output_actions/output_actions_calculated.py:581-582 | a URL key is never a capture key |
| OutputCalculated.UrlNotName | PYTHON_PREDICT/output_actions/output_actions_calculated.py:582 | no table name with `_URL` added is the name of a parameter |
| OutputCalculated.UrlNotCapture | PYTHON_PREDICT/output_actions/output_actions_calculated.py:581-582 | no table name with `_URL` added is one with `_CAPTURE` added |
| OutputCalculated.CapturedTexts | PYTHON_PREDICT/output_actions/output_actions_calculated.py:570-582 | the captures add only texts, file names and URLs |
| OutputCalculated.CapturesKeep | PYTHON_PREDICT/output_actions/output_actions_calculated.py:570-584 | a key that is neither a capture key nor a URL key keeps its value |
| OutputCalculated.CapturedUrl | PYTHON_PREDICT/output_actions/output_actions_calculated.py:570-582 | a translated table gets its URL, the pushed file named after its prefix, the gameday and the country |
| OutputCalculated.CapturedUrlOnly | PYTHON_PREDICT/output_actions/output_actions_calculated.py:570-582 | a table's URL is present only when the table was translated |
| OutputCalculated.CaptureNotTranslated | PYTHON_PREDICT/output_actions/output_actions_calculated.py:581-584 | a capture key is never a translated key |
| OutputCalculated.TranslatedKeysOnly | PYTHON_PREDICT/output_actions/output_actions_calculated.py:551-552 | every translated key comes from a derived parameter |
| OutputCalculated.CapturedKeys | PYTHON_PREDICT/output_actions/output_actions_calculated.py:570-584 | every key after the captures was there before or is a table's capture or URL key |
| OutputCalculated.CapturesOk | PYTHON_PREDICT/output_actions/output_actions_calculated.py:570-582 | the captures succeed exactly when no table is translated or the gameday row has SEASON_ID and GAMEDAY; otherwise they raise KeyError for one of those |
| OutputCalculated.CaptureConfigsTables | PYTHON_PREDICT/output_actions/output_actions_calculated.py:555-568 | the three capture configurations are for the three tables, each once |
| OutputCalculated.DerivedForCountryOk | PYTHON_PREDICT/output_actions/output_actions_calculated.py:529-584 | derivation for a country succeeds exactly when it has a table (or there is nothing to translate) and, when a table is derived, the gameday row has SEASON_ID and GAMEDAY |
| OutputCalculated.CapturedNotTranslated | PYTHON_PREDICT/output_actions/output_actions_calculated.py:581-584 | the captures never overwrite a translated key |
| OutputCalculated.DerivedTranslated | PYTHON_PREDICT/output_actions/output_actions_calculated.py:529-584 | after derivation a translated key is present exactly when its parameter is derived, and holds the translation of its value |
| OutputCalculated.DerivedUrl | PYTHON_PREDICT/output_actions/output_actions_calculated.py:529-584 | after derivation a table's URL is present exactly when the table is derived, and is the URL of its pushed capture |
| OutputCalculated.DeriveCalculated | PYTHON_PREDICT/output_actions/output_actions_calculated.py:586-620 | the derived parameters of all countries are merged in the order of the countries |
| OutputCalculated.DerivedFromOk | PYTHON_PREDICT/output_actions/output_actions_calculated.py:615-619 | derivation succeeds exactly when it succeeds for every country |
| OutputCalculated.DerivedFromKeys | PYTHON_PREDICT/output_actions/output_actions_calculated.py:615-619 | a derived key is one that some country gives |
| OutputCalculated.DerivedFromValues | PYTHON_PREDICT/output_actions/output_actions_calculated.py:615-619 | every derived value is the value that some country gives for that key |
| CalculatedTemplate.FieldIndex | PYTHON_PREDICT/output_actions/output_actions_calculated.py:646-701 | every replaced field has its place in the order of the replacements |
| CalculatedTemplate.Resolve | PYTHON_PREDICT/output_actions/output_actions_calculated.py:646-701 | the values are found exactly when every looked-up key is in the parameters; they come in the order of the fields; otherwise the first missing key raises KeyError |
| CalculatedTemplate.TextPairs | PYTHON_PREDICT/output_actions/output_actions_calculated.py:703-704 | one replacement per field, in order |
| CalculatedTemplate.CalculatedBlocks | PYTHON_PREDICT/output_actions/output_actions_calculated.py:707-722 | the fourteen blocks in the source's order, each kept exactly when its condition holds |
| CalculatedTemplate.CreateCalculatedMessage | PYTHON_PREDICT/output_actions/output_actions_calculated.py:622-729 | the message is the template formatted, filled with the replacements of the shown fields, its blocks applied, and named by the country's file name |
| CalculatedTemplate.FillMessage | PYTHON_PREDICT/output_actions/output_actions_calculated.py:703-727 | the filled message is the replacements then the blocks, or the first error |
| CalculatedTemplate.ReplaceFields | PYTHON_PREDICT/output_actions/output_actions_calculated.py:703-704 | every value that is text replaces its placeholder in order; a value that is not text raises TypeError |
| CalculatedTemplate.ApplyEachBlock | PYTHON_PREDICT/output_actions/output_actions_calculated.py:724-725 | the loop applies every block in order |
| CalculatedTemplate.ShownEntriesHas | PYTHON_PREDICT/output_actions/output_actions_calculated.py:656-701 | a field is replaced exactly when it is listed and its condition holds |
| CalculatedTemplate.ShownEntriesOnly | PYTHON_PREDICT/output_actions/output_actions_calculated.py:656-701 | every replaced field is listed and shown |
| CalculatedTemplate.EntriesShown | PYTHON_PREDICT/output_actions/output_actions_calculated.py:646-701 | a field is replaced exactly when its condition holds: always for the first seven, after its count is positive (or IS_FOR_RANK is 1) for the others |
| CalculatedTemplate.EntriesOnly | PYTHON_PREDICT/output_actions/output_actions_calculated.py:646-701 | every replacement is that of a shown field |
| CalculatedTemplate.ResolvedTexts | PYTHON_PREDICT/output_actions/output_actions_calculated.py:646-704 | the replacements can all be made exactly when every looked-up key is present and holds text |
| CalculatedTemplate.CalculatedMessageOk | PYTHON_PREDICT/output_actions/output_actions_calculated.py:622-729 | the message is created exactly when every looked-up key of a shown field holds text and the gameday row has SEASON_ID and GAMEDAY |
| CalculatedTemplate.FilledMessageOk | PYTHON_PREDICT/output_actions/output_actions_calculated.py:703-727 | filling succeeds exactly when every value is text and the row has SEASON_ID and GAMEDAY |
| CalculatedTemplate.ShownDerived | PYTHON_PREDICT/output_actions/output_actions_calculated.py:586-701 | every looked-up key of a shown field is produced, as text, by the derivation for that country |
| CalculatedTemplate.CalculatedMessageSucceeds | PYTHON_PREDICT/output_actions/output_actions_calculated.py:586-729 | for coherent parameters, a country with a table and a complete gameday row, derivation and message creation both succeed |
| CalculatedTemplate.EntriesDerived | PYTHON_PREDICT/output_actions/output_actions_calculated.py:586-701 | after a successful derivation every looked-up key of the message is present and holds text |
| CalculatedTemplate.RankingWithoutRowsFails | PYTHON_PREDICT/output_actions/output_actions_calculated.py:684-686 | IS_FOR_RANK 1 with an empty team ranking raises, because an empty ranking is not derived and its URL is missing |
| CalculatedTemplate.ShownMissingFails | PYTHON_PREDICT/output_actions/output_actions_calculated.py:646-701 | a shown field whose key is missing makes the message fail |
| CalculatedTemplate.TaglessMessage | PYTHON_PREDICT/output_actions/output_actions_calculated.py:622-729 | a template without placeholders, line-break marks or bars is the message as it is |
| CalculatedTemplate.TaglessFilled | PYTHON_PREDICT/output_actions/output_actions_calculated.py:703-727 | filling a template without placeholders, line-break marks or bars leaves it as it is |
| CalculatedTemplate.SectionsPaired | PYTHON_PREDICT/output_actions/output_actions_calculated.py:707-722 | of each with/without pair of blocks exactly one is kept; of the home-advantage pair at most one, and one exactly when HAS_HOME_ADV is 0 or 1 |
| PlayoffsTable.MatchupsStrings | PYTHON_PREDICT/exe_playoffs_table.py:21-37 | one text per round, in order, each the round's teams joined by line breaks; no rounds give no texts |
| PlayoffsTable.ResultsStrings | PYTHON_PREDICT/exe_playoffs_table.py:39-58 | one text per round, in order: empty when every score is "0", the scores joined by line breaks otherwise |
| PlayoffsTable.JoinEmpty | PYTHON_PREDICT/exe_playoffs_table.py:36 | a joined round is empty exactly when it has no entry or a single empty one |
| PlayoffsTable.RoundLines | PYTHON_PREDICT/exe_playoffs_table.py:36 | a round's text, split on line breaks, gives back its entries when none holds a line break |
| PlayoffsTable.ResultShown | PYTHON_PREDICT/exe_playoffs_table.py:53-57 | a results text is empty exactly when the round is unplayed or a single empty score; a played round's text gives back its scores |
| PlayoffsTable.HasWinner | PYTHON_PREDICT/exe_playoffs_table.py:174 | there is a winner when the first entry of the last round is not the placeholder; an empty bracket or last round raises IndexError |
| PlayoffsTable.WinnerFromFinal | PYTHON_PREDICT/exe_playoffs_table.py:174 | only the last round decides whether there is a winner |

## Left out

- External systems:
  - The database and its queries: Snowflake connections, SQL text and dbt subprocesses. Query results enter as values.
  - File transfer: Dropbox through rclone, and the creation and removal of the temporary folders. A file the program writes is recorded as a value.
  - Network clients: forum posting, the LNB game API, and the image host. The image upload is the `push` parameter of the calculated derivation; it gives the link of a captured file.
- Rendering and parsing libraries:
  - The rendering of tables and of the playoffs bracket as images (matplotlib and PIL).
  - HTML traversal (BeautifulSoup). Each extractor receives the texts and attributes the parser would hand it.
  - `datetime.strptime` on the forum's dates, and the conversion of UTC times to a forum's local time zone. Both are function parameters.
  - The dependency sort by networkx. `FileActions.FilterData` receives the sorted rules, and its precondition states only the ordering they satisfy.
- FileActions.FilterData: rule sets with a cycle are not modelled, including a rule whose filtering file is its own file. On them `nx.topological_sort` raises NetworkXUnfeasible and the program exits. The precondition admits only sequences where every filtering file's rule comes strictly before the rules it filters, which no cyclic rule set has.
- Timestamps.Parse: reads only `YYYY-MM-DD`, `YYYY-MM-DD HH:MM:SS` (with ' ' or 'T') and that layout with a dotted fraction of 1 to 9 digits. Other texts pandas reads, such as a time without seconds, a "Z" or "+00:00" offset, or a slashed date, give `None`. `Timestamps.ToDatetime`, `CalendarActions.ConvertColumn` and `CalendarActions.CoerceColumn` then raise or give null where pandas gives a timestamp. The texts the program writes itself (`%Y-%m-%d %H:%M:%S.000`) are covered. A fraction of a second is kept only to the millisecond: digits below it are dropped, so two texts that differ only there (`…00.0001` and `…00.0004`) parse to equal timestamps, where pandas keeps nanoseconds and orders them.
- Concurrency: `multithreading_run` is a sequential map. Its results come in the order of its arguments, not the order in which threads finish. The fan-out over countries and topics is modelled the same way.
- Not modelled:
  - `process_output_message_inited`, `process_output_message_calculated` and `post_message`: fetching the topics, posting each country's message to its topics, and writing the message files.
  - Capturing a table as an image. It lies behind `push`, like the upload.
- Floating point: AVERAGE_POINTS and POINTS_BONUS come from the database as floats. The model takes them as integers, so formatting a fractional value is not modelled.
- Unicode NFD normalisation is restricted to the Latin-1 letters and the combining marks U+0300 to U+036F. Other decompositions are outside `OutputActions.StripMarks`.
- OutputActions.NormalizedName: lower-casing covers only A to Z and À to Þ (without ×). Python's `str.lower()` lowers every cased letter, such as 'Ł', 'Œ' and the Greek and Cyrillic capitals, and turns 'İ' into two characters. A name holding such a letter gets a different file name in the model.
- Strings.ParseInt: `IsDigit` and `ParseInt` accept the ASCII digits only. Python's `\d` and `int()` accept every Unicode decimal digit, and `int()` also accepts `_` between digits. This affects the message ids of `get_ids_bi` and the DATEGAME1 clock fields, which the model reads as not numeric when they hold such characters.
- OutputCalculated.ScoresDetailedShape: cells are text with no missing value. So the model leaves out `dropna(axis=1, how='all')`, `fillna(0).astype(int)` on the numeric columns and `fillna('')` on the others. The table it receives is the one left once its all-empty columns are dropped.
- Paging over a topic has a `fuel` bound on the number of pages read. An exhausted bound is reported as `OutOfFuel` rather than as an endless loop. `MessageActions.EmptyPageNeverStops` shows that a source that keeps returning an empty page never stops, whatever the bound.
- Translation tables with repeated keys: `OutputInited.DerivedValue` assumes the parameter's key is not repeated later in the list. With a repeated key, the last value wins, as in the dictionary the source builds.
- OutputRanks.SortByRank: pandas' default sort is not guaranteed to be stable. The model uses a stable sort, whose order the source's tests expect.
- OutputRanks.SortDescending: `sort_values(ascending=False)` uses pandas' default quicksort, which is not stable, so the source leaves the order of tied rows open. The model keeps tied rows in their input order.
- PlayoffsTable.MatchupsStrings and PlayoffsTable.ResultsStrings: entries are strings. A non-string entry makes the source's join raise and the program exit; that case is not modelled.
- The gameday row's cells are text. The MVP display flags are set when their cell holds "1", so a number formatted differently ("1.0") is not recognised. The upload flag of a paths row is a boolean, read as Python's truth value of the cell.
- OutputCalculated.GetCalculatedParameters: the source's two tests of IS_FOR_RANK are modelled as written. The parameters test it against 0 and the message tests it against 1, so a value other than 0 and 1 reads the ranking but does not show it. With IS_FOR_RANK equal to 1 and an empty team ranking, the ranking is not derived. The message then raises KeyError on its link (`CalculatedTemplate.RankingWithoutRowsFails`).
- CalculatedTemplate.CreateCalculatedMessage: receives the parameters and the derived map of its own country, not the whole merged dictionary. Keys of other countries are never looked up.
