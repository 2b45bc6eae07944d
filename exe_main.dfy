/**
 * One run of the main program: select the need, process games and
 * messages (where the gate may turn the need into a CHECK), update the
 * database, commit the need to the ledger and recompute the next run,
 * post the forum output, and terminate.
 */
module ExeMain {
  import opened Wrappers
  import opened Strings
  import opened Timestamps
  import opened CalendarActions
  import opened OutputNeed
  import opened Config

  // ---------------------------------------------------------------------
  // New messages and the gate (`process_messages`)
  // ---------------------------------------------------------------------

  /**
   * The messages whose content does not start with the program's prefix.
   * `str.startswith(prefix, na)` receives the technical prefix as its `na`
   * argument, so technical messages are not excluded.
   */
  function NewMessages(contents: seq<string>): (r: seq<string>)
    ensures |r| <= |contents|
    ensures forall m :: m in r <==> m in contents && !StartsWith(m, ProgramPrefix)
  {
    if |contents| == 0 then []
    else
      var rest := NewMessages(contents[1..]);
      assert forall m :: m in contents <==> m == contents[0] || m in contents[1..];
      if StartsWith(contents[0], ProgramPrefix) then rest else [contents[0]] + rest
  }

  /** A technical message counts as new. */
  lemma TechnicalMessagesAreNew(contents: seq<string>, m: string)
    requires m in contents && StartsWith(m, TechnicalPrefix)
    ensures m in NewMessages(contents)
  {
    assert m[0] == '*';
  }

  /** The gate fires iff there are new messages and the need was to run messages. */
  predicate GateFires(newCount: nat, messageAction: string)
  {
    newCount > 0 && messageAction == ActionRun
  }

  /**
   * `process_messages` after the extraction: counts the new messages; with
   * some, a RUN need is rewritten in place to CHECK; with none, the checked
   * messages become the message table.
   */
  method ProcessMessages(need: Need, contents: seq<string>) returns (newCount: nat, message: Option<seq<string>>)
    modifies need
    ensures newCount == |NewMessages(contents)|
    ensures GateFires(newCount, old(need.messageAction)) ==> need.Record() == CheckStatus(old(need.Record()))
    ensures !GateFires(newCount, old(need.messageAction)) ==> need.Record() == old(need.Record())
    ensures message == if newCount == 0 then Some(contents) else None
  {
    newCount := |NewMessages(contents)|;
    message := None;
    if newCount > 0 {
      if need.messageAction == ActionRun {
        need.SetToCheckStatus();
      }
    } else {
      message := Some(contents);
    }
  }

  // ---------------------------------------------------------------------
  // The check string (`display_check_string`)
  // ---------------------------------------------------------------------

  const NoNeedToCheck := "No need to check - no new messages"

  /** `str()` of a timestamp cell as an f-string shows it. */
  function CellText(c: Cell): string
  {
    match c
    case Null => "None"
    case Text(s) => s
    case Stamp(t) => Render(t)
  }

  const CheckHeader := "check messages at ==> \n;SELECT * FROM "

  /** The instruction shown when messages were posted or edited since the last check. */
  function CheckInstruction(databaseProd: string, seasonId: string, from: Cell, to: Cell): string
  {
    CheckHeader
    + (databaseProd + ".CURATED.VW_MESSAGE_CHECKING WHERE SEASON_ID = '" + seasonId
       + "' AND EDITION_TIME_UTC between '" + CellText(from) + "' AND '" + CellText(to) + "'; \n"
       + "If ok replace SEASON_ID " + seasonId + " check time with:\n" + CellText(to) + "\n")
  }

  /** Whether the last check (as `pd.Timestamp`) is strictly before the extraction time; a null compares false. */
  predicate CheckedBefore(lastCheck: Cell, extractionTime: Cell)
  {
    match (ToDatetime(lastCheck), ToDatetime(extractionTime))
    case (Ok(Some(a)), Ok(Some(b))) => Before(a, b)
    case _ => false
  }

  /**
   * `display_check_string`: nothing unless the need's message action is
   * CHECK; then the instruction when the last check is strictly before the
   * extraction time, else the "no need" text. `pd.Timestamp` raises on
   * unreadable text.
   */
  function DisplayCheckString(need: NeedRecord, extractionTime: Cell, databaseProd: string)
    : (r: Result<Option<string>>)
    requires need.slot.attrs.SlotAttrs?
    ensures need.slot.attrs.messageAction != ActionCheck ==> r == Ok(None)
    ensures need.slot.attrs.messageAction == ActionCheck ==>
              (r.Ok? <==> ToDatetime(need.lastMessageCheckTs).Ok? && ToDatetime(extractionTime).Ok?)
    ensures r.Ok? && r.value.Some? ==> need.slot.attrs.messageAction == ActionCheck
  {
    if need.slot.attrs.messageAction != ActionCheck then Ok(None)
    else
      var from :- ToDatetime(need.lastMessageCheckTs);
      var to :- ToDatetime(extractionTime);
      if from.Some? && to.Some? && Before(from.value, to.value) then
        Ok(Some(CheckInstruction(databaseProd, need.slot.seasonId, need.lastMessageCheckTs, extractionTime)))
      else Ok(Some(NoNeedToCheck))
  }

  /** The instruction never reads as the "no need" text: it starts with `check`. */
  lemma InstructionIsNotNoNeed(databaseProd: string, seasonId: string, from: Cell, to: Cell)
    ensures CheckInstruction(databaseProd, seasonId, from, to) != NoNeedToCheck
  {
    assert CheckInstruction(databaseProd, seasonId, from, to)[0] == CheckHeader[0] == 'c';
    assert NoNeedToCheck[0] == 'N';
  }

  /**
   * For a CHECK need whose timestamps are readable, the "no need" text is
   * shown exactly when the last check is not strictly before the extraction.
   */
  lemma NoNeedIff(need: NeedRecord, extractionTime: Cell, databaseProd: string)
    requires need.slot.attrs.SlotAttrs? && need.slot.attrs.messageAction == ActionCheck
    requires DisplayCheckString(need, extractionTime, databaseProd).Ok?
    ensures var r := DisplayCheckString(need, extractionTime, databaseProd).value;
            r.Some? && (r.value == NoNeedToCheck <==> !CheckedBefore(need.lastMessageCheckTs, extractionTime))
  {
    InstructionIsNotNoNeed(databaseProd, need.slot.seasonId, need.lastMessageCheckTs, extractionTime);
  }

  // ---------------------------------------------------------------------
  // The run (`exe_main`)
  // ---------------------------------------------------------------------

  /**
   * What the run reads from outside (files, the database, the forum, the
   * environment) and the outcome of each step whose work lies outside the
   * model: an error there raises through `exit_program`.
   */
  datatype Environment = Environment(
    isOutputAuto: Option<string>,      // IS_OUTPUT_AUTO
    manual: seq<Row>,                  // output_need_manual
    calendar: seq<Row>,                // the calendar before the database update
    ledger: seq<Row>,                  // task_done.csv
    previousNextRun: string,           // next_run_time_utc.txt, the current run time
    marks: seq<Watermark>,             // message_check_ts
    download: Result<()>,              // download_needed_files
    games: Result<()>,                 // process_games: the need's games, then filter_data
    messages: Result<seq<string>>,     // process_messages: MESSAGE_CONTENT of the extracted messages,
                                       // or the error of extract_messages or filter_data
    extractionTime: Cell,              // extraction_time_utc
    database: Result<()>,              // delete_tables_data_from_python, then update_snowflake
    calendarAfterUpdate: seq<Row>,     // the calendar after the database update
    output: Result<()>,                // generate_output_message
    terminate: Result<()>,             // terminate_local_environment, which uploads the local files
    databaseProd: string)              // DATABASE_PROD of the account

  /** The steps of a run, in the order `exe_main` takes them. */
  datatype Step =
    | SelectStep | DownloadStep | GamesStep | MessagesStep
    | DatabaseStep | CalendarStep | OutputStep | TerminateStep

  function Rank(s: Step): nat
  {
    match s
    case SelectStep => 0
    case DownloadStep => 1
    case GamesStep => 2
    case MessagesStep => 3
    case DatabaseStep => 4
    case CalendarStep => 5
    case OutputStep => 6
    case TerminateStep => 7
  }

  /** Each step has its own rank. */
  lemma RankInjective()
    ensures forall x: Step, y: Step :: Rank(x) == Rank(y) ==> x == y
    ensures forall x: Step :: Rank(x) <= 7
  {
  }

  /**
   * A step in its place: skipped when not planned; a planned step is taken,
   * and the steps after it follow only when it did not raise.
   */
  function Then(planned: set<Step>, raising: set<Step>, s: Step, rest: seq<Step>): seq<Step>
  {
    if s !in planned then rest else if s in raising then [s] else [s] + rest
  }

  /**
   * The steps of a run that selected a need, from the steps its need plans
   * and the steps that raise.
   */
  function StepsTaken(planned: set<Step>, raising: set<Step>): seq<Step>
  {
    [SelectStep]
    + Then(planned, raising, DownloadStep, Then(planned, raising, GamesStep,
      Then(planned, raising, MessagesStep, Then(planned, raising, DatabaseStep,
      Then(planned, raising, CalendarStep, Then(planned, raising, OutputStep,
      Then(planned, raising, TerminateStep, [])))))))
  }

  /** Whether some planned step raised. */
  predicate SomeStepRaised(planned: set<Step>, raising: set<Step>)
  {
    exists s :: s in planned && s in raising
  }

  /** Whether a run reaches step `x`: `x` is planned and no planned step before it raised. */
  predicate Reached(planned: set<Step>, raising: set<Step>, x: Step)
  {
    x in planned && forall y :: y in planned && y in raising ==> Rank(x) <= Rank(y)
  }

  /** What the terminate step uploaded of the ledger and the next-run file. */
  datatype Uploads = Uploads(taskDone: Option<seq<Row>>, nextRunTime: Option<string>)

  /** The values written to exe_output.json. */
  datatype Report = Report(need: NeedRecord, nextRun: string, checkString: Option<string>)

  datatype RunResult = RunResult(outcome: Termination<Report>, steps: seq<Step>, uploads: Uploads)

  const NoUploads := Uploads(None, None)

  predicate MessagesToProcess(messageAction: string)
  {
    messageAction == ActionRun || messageAction == ActionCheck
  }

  /** The need after processing messages: gated to CHECK, or as selected (also when the extraction raised). */
  function GatedNeed(n: NeedRecord, messages: Result<seq<string>>): NeedRecord
    requires n.slot.attrs.SlotAttrs?
  {
    if MessagesToProcess(n.slot.attrs.messageAction) && messages.Ok?
       && GateFires(|NewMessages(messages.value)|, n.slot.attrs.messageAction)
    then CheckStatus(n) else n
  }

  /** Whether the database and calendar update runs for this need. */
  predicate Updates(n: NeedRecord)
    requires n.slot.attrs.SlotAttrs?
  {
    MessagesToProcess(n.slot.attrs.messageAction) || n.slot.attrs.gameAction == ActionRun
  }

  /** Whether the need posts to the forum. */
  predicate Posts(n: NeedRecord)
  {
    n.slot.taskRun == TaskInit || n.slot.taskRun == TaskCalculate
  }

  /** The ledger rows after selection: the automatic search coerces the ledger's TS in place. */
  function LedgerAfterSelection(env: Environment): seq<Row>
  {
    if ManualMode(env.isOutputAuto) then env.ledger else CoerceColumn(env.ledger)
  }

  /** The selected need, when selection succeeded and the need has all its columns. */
  function SelectedNeed(env: Environment): Option<NeedRecord>
  {
    match OutputNeedOf(env.isOutputAuto, env.manual, env.calendar, env.ledger, env.previousNextRun, env.marks)
    case Err(_) => None
    case Ok(n) => if n.slot.attrs.SlotAttrs? then Some(n) else None
  }

  /** The next run time after the update branch: the commit's result, or the current run time when skipped. */
  function Committed(env: Environment, n: NeedRecord): Result<string>
    requires n.slot.attrs.SlotAttrs?
  {
    if Updates(n)
    then RelatedFilesNextRun(CallerMain, LedgerAfterSelection(env), Some(n.slot), env.calendarAfterUpdate)
    else Ok(env.previousNextRun)
  }

  const AllSteps: set<Step> :=
    {SelectStep, DownloadStep, GamesStep, MessagesStep, DatabaseStep, CalendarStep, OutputStep, TerminateStep}

  /**
   * Whether a selected need `n0` plans step `s`: the download and the
   * terminate step always, games and messages as `n0` asks, the database
   * and calendar update as the gated need `n` asks, the output for INIT
   * and CALCULATE.
   */
  predicate Plans(n0: NeedRecord, n: NeedRecord, s: Step)
    requires n0.slot.attrs.SlotAttrs? && n.slot.attrs.SlotAttrs?
  {
    match s
    case SelectStep => false
    case DownloadStep => true
    case GamesStep => n0.slot.attrs.gameAction == ActionRun
    case MessagesStep => MessagesToProcess(n0.slot.attrs.messageAction)
    case DatabaseStep => Updates(n)
    case CalendarStep => Updates(n)
    case OutputStep => Posts(n)
    case TerminateStep => true
  }

  /** Whether step `s` raises when taken: its outcome is an error, the calendar commit included. */
  predicate Raises(env: Environment, committed: Result<string>, s: Step)
  {
    match s
    case SelectStep => false
    case DownloadStep => env.download.Err?
    case GamesStep => env.games.Err?
    case MessagesStep => env.messages.Err?
    case DatabaseStep => env.database.Err?
    case CalendarStep => committed.Err?
    case OutputStep => env.output.Err?
    case TerminateStep => env.terminate.Err?
  }

  function PlannedSteps(n0: NeedRecord, n: NeedRecord): set<Step>
    requires n0.slot.attrs.SlotAttrs? && n.slot.attrs.SlotAttrs?
  {
    set s | s in AllSteps && Plans(n0, n, s)
  }

  function RaisingSteps(env: Environment, committed: Result<string>): set<Step>
  {
    set s | s in AllSteps && Raises(env, committed, s)
  }

  /** The steps a need plans, one by one. */
  lemma PlannedMembers(n0: NeedRecord, n: NeedRecord)
    requires n0.slot.attrs.SlotAttrs? && n.slot.attrs.SlotAttrs?
    ensures var p := PlannedSteps(n0, n);
      SelectStep !in p && DownloadStep in p && TerminateStep in p &&
      (GamesStep in p <==> n0.slot.attrs.gameAction == ActionRun) &&
      (MessagesStep in p <==> MessagesToProcess(n0.slot.attrs.messageAction)) &&
      (DatabaseStep in p <==> Updates(n)) && (CalendarStep in p <==> Updates(n)) &&
      (OutputStep in p <==> Posts(n))
  {
  }

  /** The steps that raise, one by one. */
  lemma RaisingMembers(env: Environment, committed: Result<string>)
    ensures var r := RaisingSteps(env, committed);
      SelectStep !in r && (DownloadStep in r <==> env.download.Err?) &&
      (GamesStep in r <==> env.games.Err?) && (MessagesStep in r <==> env.messages.Err?) &&
      (DatabaseStep in r <==> env.database.Err?) && (CalendarStep in r <==> committed.Err?) &&
      (OutputStep in r <==> env.output.Err?) && (TerminateStep in r <==> env.terminate.Err?)
  {
  }

  /**
   * The run once a need `n0` is selected: a planned step that raises ends
   * the run through `exit_program`, before the terminate step has uploaded
   * anything; otherwise the report is written unless the check string raises.
   */
  function RunSelected(env: Environment, n0: NeedRecord): RunResult
    requires n0.slot.attrs.SlotAttrs?
  {
    var exit := ExitProgram<Report>(Err(""));
    var n := GatedNeed(n0, env.messages);
    var committed := Committed(env, n);
    var planned := PlannedSteps(n0, n);
    var raising := RaisingSteps(env, committed);
    var steps := StepsTaken(planned, raising);
    if SomeStepRaised(planned, raising) || committed.Err? then RunResult(exit, steps, NoUploads)
    else
      var uploads := if Updates(n)
        then Uploads(Some([LedgerRecord(n.slot)] + LedgerAfterSelection(env)), Some(committed.value))
        else NoUploads;
      match DisplayCheckString(n, env.extractionTime, env.databaseProd)
      case Err(_) => RunResult(exit, steps, uploads)
      case Ok(check) => RunResult(Completed(Report(n, committed.value, check)), steps, uploads)
  }

  /** The run, step by step, as `exe_main` takes it. */
  function Run(env: Environment): RunResult
  {
    match SelectedNeed(env)
    case None => RunResult(ExitProgram<Report>(Err("")), [SelectStep], NoUploads)
    case Some(n0) => RunSelected(env, n0)
  }

  /**
   * `exe_main`: selection over the ledger frame, then the rest of the run
   * over the need object and the local folder; every step that raises ends
   * the run with the exit outcome.
   */
  method Execute(env: Environment) returns (result: RunResult)
    ensures result == Run(env)
  {
    var ledger := new Frame(env.ledger);
    var selected := GenerateOutputNeed(env.isOutputAuto, env.manual, env.calendar, ledger,
                                       env.previousNextRun, env.marks);
    if selected.Err? || selected.value.slot.attrs.KeyOnly? {
      return RunResult(ExitProgram<Report>(Err("")), [SelectStep], NoUploads);
    }
    assert SelectedNeed(env) == Some(selected.value);
    result := ExecuteSelected(env, selected.value, ledger);
  }

  /** The steps of a selected need from the database step on. */
  function StepsFromUpdate(planned: set<Step>, raising: set<Step>): seq<Step>
  {
    Then(planned, raising, DatabaseStep, Then(planned, raising, CalendarStep,
    Then(planned, raising, OutputStep, Then(planned, raising, TerminateStep, []))))
  }

  /**
   * A step in its place, after the steps `done`: a skipped step adds
   * nothing, a raising one ends the steps, any other is followed by the rest.
   */
  lemma ThenStep(planned: set<Step>, raising: set<Step>, s: Step, rest: seq<Step>, done: seq<Step>, total: seq<Step>)
    requires total == done + Then(planned, raising, s, rest)
    ensures s !in planned ==> total == done + rest
    ensures s in planned && s in raising ==> total == done + [s]
    ensures s in planned && s !in raising ==> total == (done + [s]) + rest
    ensures s in planned && rest == [] ==> total == done + [s]
  {
    if s in planned && s !in raising {
      assert done + ([s] + rest) == (done + [s]) + rest;
      if rest == [] {
        assert [s] + rest == [s];
      }
    }
  }

  /** A planned step that raises ends the run with the steps taken so far. */
  lemma RunSelectedRaised(env: Environment, n0: NeedRecord, s: Step)
    requires n0.slot.attrs.SlotAttrs?
    requires var n := GatedNeed(n0, env.messages);
             s in PlannedSteps(n0, n) && s in RaisingSteps(env, Committed(env, n))
    ensures var n := GatedNeed(n0, env.messages);
            RunSelected(env, n0)
            == RunResult(ExitProgram<Report>(Err("")), StepsTaken(PlannedSteps(n0, n), RaisingSteps(env, Committed(env, n))), NoUploads)
  {
  }

  /** When every planned step's outcome is a success, no planned step raised. */
  lemma NothingRaised(env: Environment, n0: NeedRecord, n: NeedRecord)
    requires n0.slot.attrs.SlotAttrs? && n == GatedNeed(n0, env.messages)
    requires env.download.Ok? && env.terminate.Ok?
    requires n0.slot.attrs.gameAction == ActionRun ==> env.games.Ok?
    requires MessagesToProcess(n0.slot.attrs.messageAction) ==> env.messages.Ok?
    requires Updates(n) ==> env.database.Ok? && Committed(env, n).Ok?
    requires Posts(n) ==> env.output.Ok?
    ensures !SomeStepRaised(PlannedSteps(n0, n), RaisingSteps(env, Committed(env, n)))
  {
    forall s | s in PlannedSteps(n0, n)
      ensures s !in RaisingSteps(env, Committed(env, n))
    {
    }
  }

  /** The run after selection, from the selected need and the ledger frame. */
  method ExecuteSelected(env: Environment, n0: NeedRecord, ledger: Frame) returns (result: RunResult)
    requires n0.slot.attrs.SlotAttrs?
    requires ledger.rows == LedgerAfterSelection(env)
    modifies ledger
    ensures result == RunSelected(env, n0)
  {
    var exit := ExitProgram<Report>(Err(""));
    ghost var gated := GatedNeed(n0, env.messages);
    ghost var planned := PlannedSteps(n0, gated);
    ghost var raising := RaisingSteps(env, Committed(env, gated));
    ghost var total := StepsTaken(planned, raising);
    ghost var t4 := StepsFromUpdate(planned, raising);
    ghost var t3 := Then(planned, raising, MessagesStep, t4);
    ghost var t2 := Then(planned, raising, GamesStep, t3);
    var need := new Need(n0);
    var steps := [SelectStep];
    ThenStep(planned, raising, DownloadStep, t2, steps, total);
    steps := steps + [DownloadStep];
    if env.download.Err? {
      RunSelectedRaised(env, n0, DownloadStep);
      return RunResult(exit, steps, NoUploads);
    }
    ThenStep(planned, raising, GamesStep, t3, steps, total);
    if need.gameAction == ActionRun {
      steps := steps + [GamesStep];
      if env.games.Err? {
        RunSelectedRaised(env, n0, GamesStep);
        return RunResult(exit, steps, NoUploads);
      }
    }
    ThenStep(planned, raising, MessagesStep, t4, steps, total);
    if MessagesToProcess(need.messageAction) {
      steps := steps + [MessagesStep];
      if env.messages.Err? {
        RunSelectedRaised(env, n0, MessagesStep);
        return RunResult(exit, steps, NoUploads);
      }
      var newCount, message := ProcessMessages(need, env.messages.value);
    }
    result := ExecuteUpdate(env, n0, need.Record(), ledger, steps);
  }

  /**
   * The run after the messages step, from the gated need: the database and
   * calendar update, the output, the terminate step and the check string.
   */
  method ExecuteUpdate(env: Environment, n0: NeedRecord, n: NeedRecord, ledger: Frame, steps0: seq<Step>)
    returns (result: RunResult)
    requires n0.slot.attrs.SlotAttrs? && n == GatedNeed(n0, env.messages)
    requires ledger.rows == LedgerAfterSelection(env)
    requires env.download.Ok?
    requires n0.slot.attrs.gameAction == ActionRun ==> env.games.Ok?
    requires MessagesToProcess(n0.slot.attrs.messageAction) ==> env.messages.Ok?
    requires StepsTaken(PlannedSteps(n0, n), RaisingSteps(env, Committed(env, n)))
             == steps0 + StepsFromUpdate(PlannedSteps(n0, n), RaisingSteps(env, Committed(env, n)))
    modifies ledger
    ensures result == RunSelected(env, n0)
  {
    var exit := ExitProgram<Report>(Err(""));
    ghost var planned := PlannedSteps(n0, n);
    ghost var raising := RaisingSteps(env, Committed(env, n));
    ghost var total := StepsTaken(planned, raising);
    ghost var t7 := Then(planned, raising, TerminateStep, []);
    ghost var t6 := Then(planned, raising, OutputStep, t7);
    ghost var t5 := Then(planned, raising, CalendarStep, t6);
    var folder := new LocalFolder();
    var steps := steps0;
    var nextRun := env.previousNextRun;
    ThenStep(planned, raising, DatabaseStep, t5, steps, total);
    if Updates(n) {
      steps := steps + [DatabaseStep];
      if env.database.Err? {
        RunSelectedRaised(env, n0, DatabaseStep);
        return RunResult(exit, steps, NoUploads);
      }
      ThenStep(planned, raising, CalendarStep, t6, steps, total);
      steps := steps + [CalendarStep];
      var committed := UpdateCalendarRelatedFiles(CallerMain, ledger, Some(n.slot),
                                                  env.calendarAfterUpdate, folder);
      if committed.Err? {
        RunSelectedRaised(env, n0, CalendarStep);
        return RunResult(exit, steps, NoUploads);
      }
      nextRun := committed.value;
    } else {
      ThenStep(planned, raising, CalendarStep, t6, steps, total);
    }
    ThenStep(planned, raising, OutputStep, t7, steps, total);
    if Posts(n) {
      steps := steps + [OutputStep];
      if env.output.Err? {
        RunSelectedRaised(env, n0, OutputStep);
        return RunResult(exit, steps, NoUploads);
      }
    }
    ThenStep(planned, raising, TerminateStep, [], steps, total);
    steps := steps + [TerminateStep];
    if env.terminate.Err? {
      RunSelectedRaised(env, n0, TerminateStep);
      return RunResult(exit, steps, NoUploads);
    }
    NothingRaised(env, n0, n);
    var uploads := Uploads(folder.taskDone, folder.nextRunTime);
    var check := DisplayCheckString(n, env.extractionTime, env.databaseProd);
    if check.Err? {
      return RunResult(exit, steps, uploads);
    }
    result := RunResult(Completed(Report(n, nextRun, check.value)), steps, uploads);
  }

  // ---------------------------------------------------------------------
  // Properties of a run
  // ---------------------------------------------------------------------

  predicate InOrder(steps: seq<Step>)
  {
    forall i, j :: 0 <= i < j < |steps| ==> Rank(steps[i]) < Rank(steps[j])
  }

  /** Putting a step before steps of higher rank keeps the order. */
  lemma ThenInOrder(planned: set<Step>, raising: set<Step>, s: Step, rest: seq<Step>)
    requires InOrder(rest) && forall x :: x in rest ==> Rank(s) < Rank(x)
    ensures InOrder(Then(planned, raising, s, rest))
    ensures forall x :: x in Then(planned, raising, s, rest) ==> Rank(s) <= Rank(x)
  {
    var all := Then(planned, raising, s, rest);
    if s in planned && s !in raising {
      forall i, j | 0 <= i < j < |all|
        ensures Rank(all[i]) < Rank(all[j])
      {
        if i == 0 {
          assert all[j] == rest[j - 1];
          assert all[j] in rest;
        } else {
          assert all[i] == rest[i - 1] && all[j] == rest[j - 1];
        }
      }
    }
  }

  /** The steps of a selected need are in `exe_main`'s order, each at most once, selection first. */
  lemma {:induction false} StepsTakenInOrder(planned: set<Step>, raising: set<Step>)
    ensures var steps := StepsTaken(planned, raising);
            |steps| > 0 && steps[0] == SelectStep && InOrder(steps)
  {
    var t7 := Then(planned, raising, TerminateStep, []);
    ThenInOrder(planned, raising, TerminateStep, []);
    ThenInOrder(planned, raising, OutputStep, t7);
    var t6 := Then(planned, raising, OutputStep, t7);
    ThenInOrder(planned, raising, CalendarStep, t6);
    var t5 := Then(planned, raising, CalendarStep, t6);
    ThenInOrder(planned, raising, DatabaseStep, t5);
    var t4 := Then(planned, raising, DatabaseStep, t5);
    ThenInOrder(planned, raising, MessagesStep, t4);
    var t3 := Then(planned, raising, MessagesStep, t4);
    ThenInOrder(planned, raising, GamesStep, t3);
    var t2 := Then(planned, raising, GamesStep, t3);
    ThenInOrder(planned, raising, DownloadStep, t2);
    var t1 := Then(planned, raising, DownloadStep, t2);
    ThenInOrder(planned, raising, SelectStep, t1);
    assert StepsTaken(planned, raising) == Then({SelectStep}, {}, SelectStep, t1);
  }

  /** Whether `x` is reached when the steps before rank `k` are left aside. */
  predicate ReachedFrom(planned: set<Step>, raising: set<Step>, k: nat, x: Step)
  {
    x in planned && k <= Rank(x) && forall y :: y in planned && y in raising && k <= Rank(y) ==> Rank(x) <= Rank(y)
  }

  /** A step in its place: the steps from its rank on are the ones reached from there. */
  lemma ThenReached(planned: set<Step>, raising: set<Step>, s: Step, rest: seq<Step>)
    requires forall x :: x in rest <==> ReachedFrom(planned, raising, Rank(s) + 1, x)
    ensures forall x :: x in Then(planned, raising, s, rest) <==> ReachedFrom(planned, raising, Rank(s), x)
  {
    RankInjective();
    forall x
      ensures x in Then(planned, raising, s, rest) <==> ReachedFrom(planned, raising, Rank(s), x)
    {
      if ReachedFrom(planned, raising, Rank(s), x) && x != s {
        assert ReachedFrom(planned, raising, Rank(s) + 1, x);
      }
    }
  }

  /**
   * A step other than selection is taken exactly when the run reaches it:
   * it is planned and no planned step before it raised.
   */
  lemma {:induction false} StepsTakenContents(planned: set<Step>, raising: set<Step>)
    requires SelectStep !in planned
    ensures SelectStep in StepsTaken(planned, raising)
    ensures forall x :: x != SelectStep ==> (x in StepsTaken(planned, raising) <==> Reached(planned, raising, x))
  {
    RankInjective();
    var t7 := Then(planned, raising, TerminateStep, []);
    ThenReached(planned, raising, TerminateStep, []);
    var t6 := Then(planned, raising, OutputStep, t7);
    ThenReached(planned, raising, OutputStep, t7);
    var t5 := Then(planned, raising, CalendarStep, t6);
    ThenReached(planned, raising, CalendarStep, t6);
    var t4 := Then(planned, raising, DatabaseStep, t5);
    ThenReached(planned, raising, DatabaseStep, t5);
    var t3 := Then(planned, raising, MessagesStep, t4);
    ThenReached(planned, raising, MessagesStep, t4);
    var t2 := Then(planned, raising, GamesStep, t3);
    ThenReached(planned, raising, GamesStep, t3);
    var t1 := Then(planned, raising, DownloadStep, t2);
    ThenReached(planned, raising, DownloadStep, t2);
    forall x | x != SelectStep
      ensures x in StepsTaken(planned, raising) <==> Reached(planned, raising, x)
    {
      assert x in StepsTaken(planned, raising) <==> x in t1;
      if Reached(planned, raising, x) {
        assert ReachedFrom(planned, raising, 1, x);
      }
    }
  }

  /** The steps of a run that selected `n0`: its planned steps up to the first that raises. */
  lemma SelectedSteps(env: Environment, n0: NeedRecord)
    requires SelectedNeed(env) == Some(n0)
    ensures var n := GatedNeed(n0, env.messages);
            var planned := PlannedSteps(n0, n);
            var raising := RaisingSteps(env, Committed(env, n));
            Run(env).steps == StepsTaken(planned, raising)
            && SelectStep !in planned
            && (Run(env).outcome.Completed? ==> !SomeStepRaised(planned, raising))
            && (SomeStepRaised(planned, raising) ==> Run(env).outcome.Exited? && Run(env).uploads == NoUploads)
  {
  }

  /** The steps are always taken in `exe_main`'s order, each at most once, starting with the selection. */
  lemma StepsInOrder(env: Environment)
    ensures var steps := Run(env).steps;
            |steps| > 0 && steps[0] == SelectStep && InOrder(steps)
  {
    match SelectedNeed(env)
    case None =>
    case Some(n0) =>
      var n := GatedNeed(n0, env.messages);
      SelectedSteps(env, n0);
      StepsTakenInOrder(PlannedSteps(n0, n), RaisingSteps(env, Committed(env, n)));
  }

  /**
   * A planned step that raises ends the run: it exits, nothing is
   * uploaded, and no step after the raising one is taken.
   */
  lemma RaisingStepEndsRun(env: Environment, s: Step)
    requires SelectedNeed(env).Some?
    requires var n0 := SelectedNeed(env).value;
             var n := GatedNeed(n0, env.messages);
             s in PlannedSteps(n0, n) && s in RaisingSteps(env, Committed(env, n))
    ensures Run(env).outcome.Exited? && Run(env).uploads == NoUploads
    ensures forall x :: x in Run(env).steps ==> Rank(x) <= Rank(s)
  {
    var n0 := SelectedNeed(env).value;
    var n := GatedNeed(n0, env.messages);
    var planned, raising := PlannedSteps(n0, n), RaisingSteps(env, Committed(env, n));
    SelectedSteps(env, n0);
    StepsTakenContents(planned, raising);
  }

  /** A run that completes took every step its need planned, and no planned step raised. */
  lemma CompletedRunTakesPlannedSteps(env: Environment)
    requires Run(env).outcome.Completed?
    ensures SelectedNeed(env).Some?
    ensures var n0 := SelectedNeed(env).value;
            var n := GatedNeed(n0, env.messages);
            var planned := PlannedSteps(n0, n);
            !SomeStepRaised(planned, RaisingSteps(env, Committed(env, n)))
            && forall x :: x != SelectStep ==> (x in Run(env).steps <==> x in planned)
  {
    var n0 := SelectedNeed(env).value;
    var n := GatedNeed(n0, env.messages);
    var planned, raising := PlannedSteps(n0, n), RaisingSteps(env, Committed(env, n));
    SelectedSteps(env, n0);
    StepsTakenContents(planned, raising);
  }

  /** Games are processed iff the selected need's game action is RUN and the download did not raise. */
  lemma GamesIff(env: Environment)
    ensures GamesStep in Run(env).steps <==>
            SelectedNeed(env).Some? && SelectedNeed(env).value.slot.attrs.gameAction == ActionRun
            && env.download.Ok?
  {
    if SelectedNeed(env).Some? {
      var n0 := SelectedNeed(env).value;
      var n := GatedNeed(n0, env.messages);
      SelectedSteps(env, n0);
      PlannedMembers(n0, n);
      RaisingMembers(env, Committed(env, n));
      StepsTakenContents(PlannedSteps(n0, n), RaisingSteps(env, Committed(env, n)));
    }
  }

  /**
   * Messages are processed iff the selected need's message action is RUN
   * or CHECK and neither the download nor a planned games step raised.
   */
  lemma MessagesIff(env: Environment)
    ensures MessagesStep in Run(env).steps <==>
            SelectedNeed(env).Some? && MessagesToProcess(SelectedNeed(env).value.slot.attrs.messageAction)
            && env.download.Ok?
            && (SelectedNeed(env).value.slot.attrs.gameAction == ActionRun ==> env.games.Ok?)
  {
    if SelectedNeed(env).Some? {
      var n0 := SelectedNeed(env).value;
      var n := GatedNeed(n0, env.messages);
      SelectedSteps(env, n0);
      PlannedMembers(n0, n);
      RaisingMembers(env, Committed(env, n));
      StepsTakenContents(PlannedSteps(n0, n), RaisingSteps(env, Committed(env, n)));
    }
  }

  /**
   * The ledger and the next-run file are uploaded only when the update
   * branch ran and the terminate step was reached and did not raise; the
   * ledger then holds the (possibly gated) need's record first and every
   * earlier record after it.
   */
  lemma CommitOnlyAfterUpdate(env: Environment)
    ensures Run(env).uploads.taskDone.Some? ==>
              SelectedNeed(env).Some? && CalendarStep in Run(env).steps && TerminateStep in Run(env).steps
              && env.terminate.Ok?
              && Run(env).uploads.taskDone.value ==
                 [LedgerRecord(GatedNeed(SelectedNeed(env).value, env.messages).slot)]
                 + LedgerAfterSelection(env)
    ensures Run(env).uploads.taskDone.Some? <==> Run(env).uploads.nextRunTime.Some?
  {
    if SelectedNeed(env).Some? {
      var n0 := SelectedNeed(env).value;
      var n := GatedNeed(n0, env.messages);
      SelectedSteps(env, n0);
      assert Run(env) == RunSelected(env, n0);
      PlannedMembers(n0, n);
      RaisingMembers(env, Committed(env, n));
      StepsTakenContents(PlannedSteps(n0, n), RaisingSteps(env, Committed(env, n)));
    }
  }

  /**
   * A gated need never posts: its task is CHECK, so the output step is
   * skipped, while the update runs and its CHECK-keyed record is committed.
   */
  lemma GatedNeedNeverPosts(env: Environment)
    requires SelectedNeed(env).Some? && env.messages.Ok?
    requires var n0 := SelectedNeed(env).value;
             GateFires(|NewMessages(env.messages.value)|, n0.slot.attrs.messageAction)
    ensures OutputStep !in Run(env).steps
    ensures Run(env).outcome.Completed? ==> CalendarStep in Run(env).steps
    ensures Run(env).uploads.taskDone.Some? ==>
              KeyOf(Run(env).uploads.taskDone.value[0])
              == KeyOf(SelectedNeed(env).value.slot).(taskRun := TaskCheck)
  {
    var n0 := SelectedNeed(env).value;
    var n := GatedNeed(n0, env.messages);
    GatedKey(n0);
    SelectedSteps(env, n0);
    assert Run(env) == RunSelected(env, n0);
    PlannedMembers(n0, n);
    RaisingMembers(env, Committed(env, n));
    StepsTakenContents(PlannedSteps(n0, n), RaisingSteps(env, Committed(env, n)));
  }

  /**
   * In automatic mode a gated slot stays pending: the committed record
   * carries the CHECK task, so the slot's own key is still in no ledger
   * record and a later run can select it again.
   */
  lemma GatedSlotStaysPending(env: Environment)
    requires !ManualMode(env.isOutputAuto)
    requires SelectedNeed(env).Some? && env.messages.Ok?
    requires var n0 := SelectedNeed(env).value;
             GateFires(|NewMessages(env.messages.value)|, n0.slot.attrs.messageAction)
             && n0.slot.taskRun != TaskCheck
    requires Run(env).uploads.taskDone.Some?
    ensures KeyOf(SelectedNeed(env).value.slot) !in KeySet(Run(env).uploads.taskDone.value)
  {
    var n0 := SelectedNeed(env).value;
    AutoNeed(env.isOutputAuto, env.manual, env.calendar, env.ledger, env.previousNextRun, env.marks);
    GatedKey(n0);
    CommitOnlyAfterUpdate(env);
    assert GatedNeed(n0, env.messages) == CheckStatus(n0);
    assert LedgerAfterSelection(env) == CoerceColumn(env.ledger);
    KeySetCons(LedgerRecord(CheckStatus(n0).slot), CoerceColumn(env.ledger));
  }

  /** Without new messages, or when the extraction raised, the need is not rewritten. */
  lemma NoNewMessagesKeepsNeed(n: NeedRecord, messages: Result<seq<string>>)
    requires n.slot.attrs.SlotAttrs?
    requires messages.Ok? ==> |NewMessages(messages.value)| == 0
    ensures GatedNeed(n, messages) == n
  {
  }

  /** A CHECK need is never rewritten, even with new messages. */
  lemma CheckNeedNotGated(n: NeedRecord, messages: Result<seq<string>>)
    requires n.slot.attrs.SlotAttrs? && n.slot.attrs.messageAction == ActionCheck
    ensures GatedNeed(n, messages) == n
  {
  }
}
