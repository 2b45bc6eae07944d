/**
 * The run calendar and the task-done ledger: which calendar slots have not
 * run yet (an anti-join on the key TASK_RUN, SEASON_ID, GAMEDAY,
 * TS_TASK_UTC), the next-run time (the earliest pending timestamp, or
 * "NONE"), and the ledger commit that prepends the executed need.
 */
module CalendarActions {
  import opened Wrappers
  import opened Timestamps
  import opened Collections
  import Config

  /** The columns of a calendar row other than its key; a ledger record has none. */
  datatype Attrs =
    | KeyOnly
    | SlotAttrs(messageAction: string, gameAction: string, isToInit: int,
                isToCalculate: int, isToDelete: int, isToRecalculate: int)

  /** A row of the calendar or of the task-done ledger. */
  datatype Row = Row(taskRun: string, seasonId: string, gameday: string, ts: Cell, attrs: Attrs)

  /** The merge key once TS_TASK_UTC is parsed; pandas matches a null key with a null key. */
  datatype Key = Key(taskRun: string, seasonId: string, gameday: string, ts: Option<DateTime>)

  function StampOf(c: Cell): Option<DateTime>
  {
    if c.Stamp? then Some(c.at) else None
  }

  function CellOf(t: Option<DateTime>): (c: Cell)
    ensures !c.Text? && StampOf(c) == t
  {
    if t.Some? then Stamp(t.value) else Null
  }

  function KeyOf(r: Row): Key
  {
    Key(r.taskRun, r.seasonId, r.gameday, StampOf(r.ts))
  }

  /** Every TS_TASK_UTC is a timestamp or null, as after `pd.to_datetime`. */
  predicate Converted(rows: seq<Row>)
  {
    forall i :: 0 <= i < |rows| ==> !rows[i].ts.Text?
  }

  function KeySet(rows: seq<Row>): set<Key>
  {
    set i | 0 <= i < |rows| :: KeyOf(rows[i])
  }

  /** The keys of a ledger with one record put in front. */
  lemma KeySetCons(r: Row, rows: seq<Row>)
    ensures KeySet([r] + rows) == {KeyOf(r)} + KeySet(rows)
  {
    var all := [r] + rows;
    forall k | k in KeySet(rows)
      ensures k in KeySet(all)
    {
      var i :| 0 <= i < |rows| && KeyOf(rows[i]) == k;
      assert all[i + 1] == rows[i];
    }
    forall k | k in KeySet(all)
      ensures k in {KeyOf(r)} + KeySet(rows)
    {
      var i :| 0 <= i < |all| && KeyOf(all[i]) == k;
      if i > 0 {
        assert all[i] == rows[i - 1];
      }
    }
    assert all[0] == r;
  }

  /** The same rows reduced to the four key columns. */
  function Project(rows: seq<Row>): (r: seq<Row>)
    ensures |r| == |rows|
    ensures forall i :: 0 <= i < |rows| ==> r[i].attrs == KeyOnly && KeyOf(r[i]) == KeyOf(rows[i])
  {
    seq(|rows|, i requires 0 <= i < |rows| => rows[i].(attrs := KeyOnly))
  }

  /**
   * `pd.to_datetime` applied to the TS_TASK_UTC column: it fails as a whole
   * when one cell cannot be read; otherwise only that column changes.
   */
  function ConvertColumn(rows: seq<Row>): (r: Result<seq<Row>>)
    ensures r.Ok? <==> forall i :: 0 <= i < |rows| ==> ToDatetime(rows[i].ts).Ok?
    ensures r.Ok? ==> |r.value| == |rows| && Converted(r.value)
    ensures r.Ok? ==> forall i :: 0 <= i < |rows| ==>
              r.value[i] == rows[i].(ts := CellOf(ToDatetime(rows[i].ts).value))
  {
    if |rows| == 0 then Ok([])
    else match ToDatetime(rows[0].ts)
      case Err(e) => Err(e)
      case Ok(t) =>
        match ConvertColumn(rows[1..])
        case Err(e) => Err(e)
        case Ok(rest) => Ok([rows[0].(ts := CellOf(t))] + rest)
  }

  /**
   * `pd.to_datetime(..., errors='coerce')` applied to the TS_TASK_UTC column:
   * it never fails, agrees with the strict conversion wherever that one
   * succeeds, and makes unreadable cells null.
   */
  function CoerceColumn(rows: seq<Row>): (r: seq<Row>)
    ensures |r| == |rows| && Converted(r)
    ensures ConvertColumn(rows).Ok? ==> r == ConvertColumn(rows).value
    ensures forall i :: 0 <= i < |rows| ==> KeyOf(r[i]).ts == ToDatetimeCoerce(rows[i].ts)
    ensures forall i :: 0 <= i < |rows| ==> r[i].(ts := rows[i].ts) == rows[i]
  {
    seq(|rows|, i requires 0 <= i < |rows| => rows[i].(ts := CellOf(ToDatetimeCoerce(rows[i].ts))))
  }

  /** Converting an already converted column changes nothing. */
  lemma {:induction false} ConvertConverted(rows: seq<Row>)
    requires Converted(rows)
    ensures ConvertColumn(rows) == Ok(rows)
    decreases |rows|
  {
    if |rows| > 0 {
      assert Converted(rows[1..]) by {
        forall i | 0 <= i < |rows[1..]| ensures !rows[1..][i].ts.Text? {
          assert rows[1..][i] == rows[i + 1];
        }
      }
      ConvertConverted(rows[1..]);
      assert rows[0].(ts := CellOf(ToDatetime(rows[0].ts).value)) == rows[0];
      assert rows == [rows[0]] + rows[1..];
    }
  }

  /**
   * The rows of `rows` whose key no ledger record has, in calendar order
   * (`merge(how='left', indicator=True)` keeping the `left_only` rows).
   */
  function AntiJoin(rows: seq<Row>, done: seq<Row>): seq<Row>
  {
    if |rows| == 0 then []
    else (if KeyOf(rows[0]) in KeySet(done) then [] else [rows[0]]) + AntiJoin(rows[1..], done)
  }

  /** A row is pending iff it is a calendar row whose key matches no ledger record. */
  lemma {:induction false} PendingIff(rows: seq<Row>, done: seq<Row>, x: Row)
    ensures x in AntiJoin(rows, done) <==> x in rows && KeyOf(x) !in KeySet(done)
    decreases |rows|
  {
    if |rows| > 0 {
      PendingIff(rows[1..], done, x);
      assert rows == [rows[0]] + rows[1..];
    }
  }

  /**
   * Each pending row occurs exactly as often as in the calendar: the ledger
   * neither drops a row whose key it lacks nor duplicates any row.
   */
  lemma {:induction false} PendingCount(rows: seq<Row>, done: seq<Row>, x: Row)
    ensures multiset(AntiJoin(rows, done))[x] ==
            if KeyOf(x) in KeySet(done) then 0 else multiset(rows)[x]
    decreases |rows|
  {
    if |rows| > 0 {
      PendingCount(rows[1..], done, x);
      assert rows == [rows[0]] + rows[1..];
    }
  }

  /** The pending rows keep the calendar's order. */
  lemma {:induction false} PendingIsSubsequence(rows: seq<Row>, done: seq<Row>)
    ensures SubsequenceOf(AntiJoin(rows, done), rows)
    decreases |rows|
  {
    if |rows| > 0 {
      PendingIsSubsequence(rows[1..], done);
      var tail := AntiJoin(rows[1..], done);
      if KeyOf(rows[0]) !in KeySet(done) {
        assert AntiJoin(rows, done) == [rows[0]] + tail;
        assert ([rows[0]] + tail)[1..] == tail;
      } else if |tail| > 0 {
        assert AntiJoin(rows, done) == tail;
        assert rows[1..] == rows[1..];
      }
    }
  }

  /** Only the set of ledger keys matters, so duplicate ledger records change nothing. */
  lemma {:induction false} PendingDependsOnKeySet(rows: seq<Row>, d1: seq<Row>, d2: seq<Row>)
    requires KeySet(d1) == KeySet(d2)
    ensures AntiJoin(rows, d1) == AntiJoin(rows, d2)
    decreases |rows|
  {
    if |rows| > 0 {
      PendingDependsOnKeySet(rows[1..], d1, d2);
    }
  }

  lemma DuplicatedLedger(done: seq<Row>)
    ensures KeySet(done + done) == KeySet(done)
  {
    forall k | k in KeySet(done + done)
      ensures k in KeySet(done)
    {
      var i :| 0 <= i < |done + done| && KeyOf((done + done)[i]) == k;
      if i >= |done| {
        assert (done + done)[i] == done[i - |done|];
      } else {
        assert (done + done)[i] == done[i];
      }
    }
    forall k | k in KeySet(done)
      ensures k in KeySet(done + done)
    {
      var i :| 0 <= i < |done| && KeyOf(done[i]) == k;
      assert (done + done)[i] == done[i];
    }
  }

  /** Projection works row by row. */
  lemma ProjectCons(rows: seq<Row>)
    requires |rows| > 0
    ensures Project(rows) == [rows[0].(attrs := KeyOnly)] + Project(rows[1..])
  {
    assert Project(rows)[1..] == Project(rows[1..]);
  }

  /** Columns outside the key play no part: projecting first gives the projected result. */
  lemma {:induction false} PendingIgnoresOtherColumns(rows: seq<Row>, done: seq<Row>)
    ensures AntiJoin(Project(rows), done) == Project(AntiJoin(rows, done))
    decreases |rows|
  {
    if |rows| > 0 {
      var p := rows[0].(attrs := KeyOnly);
      ProjectCons(rows);
      assert KeyOf(p) == KeyOf(rows[0]);
      PendingIgnoresOtherColumns(rows[1..], done);
      var tail := AntiJoin(rows[1..], done);
      assert AntiJoin(Project(rows), done)
          == (if KeyOf(p) in KeySet(done) then [] else [p]) + Project(tail);
      if KeyOf(rows[0]) in KeySet(done) {
        assert AntiJoin(rows, done) == tail;
      } else {
        assert AntiJoin(rows, done) == [rows[0]] + tail;
        ProjectCons([rows[0]] + tail);
        assert ([rows[0]] + tail)[1..] == tail;
      }
    }
  }

  /** What `get_notrun_task` returns for the two frames' rows as they were before. */
  function NotRun(calendar: seq<Row>, done: seq<Row>): Result<seq<Row>>
  {
    match ConvertColumn(calendar)
    case Err(e) => Err(e)
    case Ok(c) =>
      match ConvertColumn(done)
      case Err(e) => Err(e)
      case Ok(d) => Ok(AntiJoin(c, d))
  }

  /** The non-null TS_TASK_UTC values of the rows, in order. */
  function Stamps(rows: seq<Row>): (ts: seq<DateTime>)
    ensures forall t :: t in ts <==> exists i :: 0 <= i < |rows| && rows[i].ts == Stamp(t)
  {
    if |rows| == 0 then []
    else
      var rest := Stamps(rows[1..]);
      assert forall i :: 1 <= i < |rows| ==> rows[i] == rows[1..][i - 1];
      if rows[0].ts.Stamp? then [rows[0].ts.at] + rest else rest
  }

  /** The earliest of a non-empty list of timestamps (pandas' `Series.min()`). */
  function MinStamp(ts: seq<DateTime>): (m: DateTime)
    requires |ts| > 0
    ensures m in ts
    ensures forall t :: t in ts ==> NotAfter(m, t)
  {
    if |ts| == 1 then ts[0]
    else
      var m := MinStamp(ts[1..]);
      assert forall t :: t in ts ==> t == ts[0] || t in ts[1..];
      BeforeTotal(ts[0], m);
      if Before(ts[0], m) then
        assert forall t :: t in ts[1..] ==> NotAfter(ts[0], t) by {
          forall t | t in ts[1..] ensures NotAfter(ts[0], t) {
            NotAfterTransitive(ts[0], m, t);
          }
        }
        ts[0]
      else m
  }

  /** The text written to the next-run file when no slot is pending. */
  const NoNextRun := "NONE"

  /**
   * `update_nextrun`'s choice: "NONE" when no pending row carries a timestamp,
   * otherwise the earliest pending timestamp rendered with ".000".
   */
  function NextRunText(pending: seq<Row>): (s: string)
    ensures (forall i :: 0 <= i < |pending| ==> !pending[i].ts.Stamp?) ==> s == NoNextRun
    ensures (exists i :: 0 <= i < |pending| && pending[i].ts.Stamp?) ==>
              exists i :: 0 <= i < |pending| && pending[i].ts.Stamp?
                && s == RenderNextRun(pending[i].ts.at)
                && forall j :: 0 <= j < |pending| && pending[j].ts.Stamp? ==>
                     NotAfter(pending[i].ts.at, pending[j].ts.at)
  {
    var ts := Stamps(pending);
    if |ts| == 0 then
      NoNextRun
    else
      var m := MinStamp(ts);
      assert forall j :: 0 <= j < |pending| && pending[j].ts.Stamp? ==> pending[j].ts.at in ts;
      RenderNextRun(m)
  }

  /** A rendered timestamp is never the sentinel. */
  lemma RenderIsNotSentinel(t: DateTime)
    ensures RenderNextRun(t) != NoNextRun
  {
    assert |RenderNextRun(t)| >= 19;
  }

  /** The next-run time is "NONE" exactly when the pending set is empty or all its timestamps are null. */
  lemma NextRunNoneIff(pending: seq<Row>)
    requires Converted(pending)
    ensures NextRunText(pending) == NoNextRun <==>
            (|pending| == 0 || forall i :: 0 <= i < |pending| ==> pending[i].ts.Null?)
  {
    if exists i :: 0 <= i < |pending| && pending[i].ts.Stamp? {
      var i :| 0 <= i < |pending| && pending[i].ts.Stamp?
                && NextRunText(pending) == RenderNextRun(pending[i].ts.at);
      RenderIsNotSentinel(pending[i].ts.at);
    }
  }

  /** The ledger record `add_task_to_taskdone` builds from the need's four key fields. */
  function LedgerRecord(need: Row): (rec: Row)
    ensures KeyOf(rec) == KeyOf(need) && rec.ts == need.ts && rec.attrs == KeyOnly
  {
    Row(need.taskRun, need.seasonId, need.gameday, need.ts, KeyOnly)
  }

  /**
   * Once a record is in the ledger, no calendar row with the same converted
   * key is pending any more: a committed slot never runs twice.
   */
  lemma CommittedSlotNotPending(calendar: seq<Row>, done: seq<Row>, need: Row)
    requires NotRun(calendar, [LedgerRecord(need)] + done).Ok?
    ensures forall i :: 0 <= i < |NotRun(calendar, [LedgerRecord(need)] + done).value| ==>
              KeyOf(NotRun(calendar, [LedgerRecord(need)] + done).value[i])
              != KeyOf(ConvertColumn([LedgerRecord(need)] + done).value[0])
  {
    var c := ConvertColumn(calendar).value;
    var d := ConvertColumn([LedgerRecord(need)] + done).value;
    assert KeyOf(d[0]) in KeySet(d);
    forall i | 0 <= i < |AntiJoin(c, d)|
      ensures KeyOf(AntiJoin(c, d)[i]) != KeyOf(d[0])
    {
      PendingIff(c, d, AntiJoin(c, d)[i]);
    }
  }

  /** What `update_nextrun` returns for the two frames' rows as they were before. */
  function NextRunOf(calendar: seq<Row>, done: seq<Row>): Result<string>
  {
    match NotRun(calendar, done)
    case Err(e) => Err(e)
    case Ok(p) => Ok(NextRunText(p))
  }

  /**
   * What `update_calendar_related_files` returns: for the main caller the
   * need is prepended to the ledger first; the calendar is always refetched
   * and reduced to its key columns.
   */
  function RelatedFilesNextRun(calledBy: string, done: seq<Row>, need: Option<Row>,
                               calendarNow: seq<Row>): Result<string>
  {
    if calledBy == Config.CallerMain then
      if need.None? then Err("'NoneType' object is not subscriptable")
      else NextRunOf(Project(calendarNow), [LedgerRecord(need.value)] + done)
    else NextRunOf(Project(calendarNow), done)
  }

  /** A pandas DataFrame of calendar or ledger rows; its TS column is rewritten in place. */
  class Frame {
    var rows: seq<Row>

    constructor (initial: seq<Row>)
      ensures rows == initial
    {
      rows := initial;
    }

    /** `df['TS_TASK_UTC'] = pd.to_datetime(df['TS_TASK_UTC'])`: nothing is assigned when it raises. */
    method ConvertTimestamps() returns (r: Result<()>)
      modifies this
      ensures r.Ok? <==> ConvertColumn(old(rows)).Ok?
      ensures r.Ok? ==> rows == ConvertColumn(old(rows)).value
      ensures r.Err? ==> rows == old(rows) && r.error == ConvertColumn(old(rows)).error
    {
      var converted := ConvertColumn(rows);
      if converted.Err? {
        return Err(converted.error);
      }
      rows := converted.value;
      return Ok(());
    }

    /** `df['TS_TASK_UTC'] = pd.to_datetime(df['TS_TASK_UTC'], errors='coerce')`. */
    method CoerceTimestamps()
      modifies this
      ensures rows == CoerceColumn(old(rows))
    {
      rows := CoerceColumn(rows);
    }
  }

  /** The files a run writes into its local working folder, recorded as values. */
  class LocalFolder {
    var taskDone: Option<seq<Row>>
    var nextRunTime: Option<string>

    constructor ()
      ensures taskDone == None && nextRunTime == None
    {
      taskDone := None;
      nextRunTime := None;
    }
  }

  /**
   * `get_notrun_task`: converts the TS column of the calendar, then of the
   * ledger, in place, and returns the calendar rows the ledger lacks.
   */
  method GetNotrunTask(calendar: Frame, done: Frame) returns (r: Result<seq<Row>>)
    requires calendar != done
    modifies calendar, done
    ensures r == NotRun(old(calendar.rows), old(done.rows))
    ensures ConvertColumn(old(calendar.rows)).Ok? ==>
              calendar.rows == ConvertColumn(old(calendar.rows)).value
    ensures ConvertColumn(old(calendar.rows)).Err? ==>
              calendar.rows == old(calendar.rows) && done.rows == old(done.rows)
    ensures ConvertColumn(old(calendar.rows)).Ok? && ConvertColumn(old(done.rows)).Ok? ==>
              done.rows == ConvertColumn(old(done.rows)).value
    ensures ConvertColumn(old(done.rows)).Err? ==> done.rows == old(done.rows)
  {
    var c := calendar.ConvertTimestamps();
    if c.Err? {
      return Err(c.error);
    }
    var d := done.ConvertTimestamps();
    if d.Err? {
      return Err(d.error);
    }
    r := Ok(AntiJoin(calendar.rows, done.rows));
  }

  /** `update_nextrun`: computes the next-run time and writes it to next_run_time_utc.txt. */
  method UpdateNextrun(calendar: Frame, done: Frame, folder: LocalFolder) returns (r: Result<string>)
    requires calendar != done
    modifies calendar, done, folder
    ensures r == NextRunOf(old(calendar.rows), old(done.rows))
    ensures r.Ok? ==> folder.nextRunTime == Some(r.value)
    ensures r.Err? ==> folder.nextRunTime == old(folder.nextRunTime)
    ensures folder.taskDone == old(folder.taskDone)
    ensures done.rows == if ConvertColumn(old(calendar.rows)).Ok? && ConvertColumn(old(done.rows)).Ok?
                         then ConvertColumn(old(done.rows)).value else old(done.rows)
  {
    var notRun := GetNotrunTask(calendar, done);
    if notRun.Err? {
      return Err(notRun.error);
    }
    var text := NextRunText(notRun.value);
    folder.nextRunTime := Some(text);
    return Ok(text);
  }

  /**
   * `add_task_to_taskdone`: a new ledger frame with the need's record first
   * and every earlier record after it, also written to task_done.csv.
   */
  method AddTaskToTaskDone(need: Row, done: Frame, folder: LocalFolder) returns (updated: Frame)
    modifies folder
    ensures fresh(updated)
    ensures updated.rows == [LedgerRecord(need)] + done.rows
    ensures folder.taskDone == Some(updated.rows)
    ensures folder.nextRunTime == old(folder.nextRunTime)
  {
    updated := new Frame([LedgerRecord(need)] + done.rows);
    folder.taskDone := Some(updated.rows);
  }

  /**
   * `update_calendar_related_files`: only the main caller commits the need;
   * every caller then recomputes the next-run time against the refetched calendar
   * reduced to its key columns. The caller's own ledger frame is rewritten
   * in place only when no commit replaced it.
   */
  method UpdateCalendarRelatedFiles(calledBy: string, done: Frame, need: Option<Row>,
                                    calendarNow: seq<Row>, folder: LocalFolder)
    returns (r: Result<string>)
    modifies done, folder
    ensures r == RelatedFilesNextRun(calledBy, old(done.rows), need, calendarNow)
    ensures calledBy == Config.CallerMain && need.Some? ==>
              folder.taskDone == Some([LedgerRecord(need.value)] + old(done.rows))
              && done.rows == old(done.rows)
    ensures calledBy != Config.CallerMain ==> folder.taskDone == old(folder.taskDone)
    ensures calledBy != Config.CallerMain ==>
              done.rows == if ConvertColumn(Project(calendarNow)).Ok? && ConvertColumn(old(done.rows)).Ok?
                           then ConvertColumn(old(done.rows)).value else old(done.rows)
    ensures r.Ok? ==> folder.nextRunTime == Some(r.value)
  {
    var ledger := done;
    if calledBy == Config.CallerMain {
      if need.None? {
        return Err("'NoneType' object is not subscriptable");
      }
      ledger := AddTaskToTaskDone(need.value, done, folder);
    }
    var calendar := new Frame(Project(calendarNow));
    r := UpdateNextrun(calendar, ledger, folder);
  }

  /** The calendar and ledger of the scheduler's reference scenario. */
  function ExampleCalendar(): seq<Row>
  {
    [Row("UPDATEGAMES", "S1", "1ere journee", Text("2024-01-01 10:00:00"), KeyOnly),
     Row("CHECK", "S1", "2eme journee", Text("2024-01-02 10:00:00"), KeyOnly)]
  }

  function ExampleLedger(): seq<Row>
  {
    [Row("UPDATEGAMES", "S1", "1ere journee", Text("2024-01-01 10:00:00"), KeyOnly)]
  }

  /** Ten o'clock on any day of January 2024 lies inside pandas' range. */
  lemma JanuaryValid(d: nat)
    requires 1 <= d <= 31
    ensures Valid(DateTime(2024, 1, d, 10, 0, 0, 0))
  {
    var t := DateTime(2024, 1, d, 10, 0, 0, 0);
    assert Fields(Earliest)[0] < Fields(t)[0];
    assert Fields(t)[0] < Fields(Latest)[0];
  }

  /** The digit strings of the reference scenario's fields. */
  lemma ExampleDigits()
    ensures Digits4(2024) == "2024" && Digits2(1) == "01" && Digits2(2) == "02"
    ensures Digits2(10) == "10" && Digits2(0) == "00"
  {
  }

  /** The text of ten o'clock on a day of January 2024 whose two digits are `dd`. */
  lemma JanuaryText(d: nat, dd: string)
    requires 1 <= d <= 31 && Digits2(d) == dd
    ensures Render(DateTime(2024, 1, d, 10, 0, 0, 0)) == "2024-01-" + dd + " 10:00:00"
  {
    RenderDigits(DateTime(2024, 1, d, 10, 0, 0, 0));
    ExampleDigits();
    assert Layout6("2024", "01", dd, "10", "00", "00", "") == "2024-01-" + dd + " 10:00:00";
  }

  lemma FirstText()
    ensures Render(DateTime(2024, 1, 1, 10, 0, 0, 0)) == "2024-01-01 10:00:00"
  {
    ExampleDigits();
    JanuaryText(1, "01");
  }

  lemma ExampleFirstTime()
    ensures ToDatetime(Text("2024-01-01 10:00:00")) == Ok(Some(DateTime(2024, 1, 1, 10, 0, 0, 0)))
  {
    JanuaryValid(1);
    FirstText();
    RenderedTextConverts(DateTime(2024, 1, 1, 10, 0, 0, 0));
  }

  lemma SecondText()
    ensures Render(DateTime(2024, 1, 2, 10, 0, 0, 0)) == "2024-01-02 10:00:00"
  {
    ExampleDigits();
    JanuaryText(2, "02");
  }

  lemma ExampleSecondTime()
    ensures ToDatetime(Text("2024-01-02 10:00:00")) == Ok(Some(DateTime(2024, 1, 2, 10, 0, 0, 0)))
  {
    JanuaryValid(2);
    SecondText();
    RenderedTextConverts(DateTime(2024, 1, 2, 10, 0, 0, 0));
  }

  /** The CHECK row of the reference scenario once its TS is parsed. */
  function ExamplePendingRow(): Row
  {
    Row("CHECK", "S1", "2eme journee", Stamp(DateTime(2024, 1, 2, 10, 0, 0, 0)), KeyOnly)
  }

  /** Only the CHECK slot is pending. */
  lemma ExamplePending()
    ensures NotRun(ExampleCalendar(), ExampleLedger()) == Ok([ExamplePendingRow()])
  {
    ExampleFirstTime();
    ExampleSecondTime();
    var c := ConvertColumn(ExampleCalendar()).value;
    var d := ConvertColumn(ExampleLedger()).value;
    assert KeyOf(c[0]) == KeyOf(d[0]);
    assert KeyOf(c[1]) !in KeySet(d);
    assert AntiJoin(c, d) == [c[1]];
  }

  lemma SecondNextRunText()
    ensures RenderNextRun(DateTime(2024, 1, 2, 10, 0, 0, 0)) == "2024-01-02 10:00:00.000"
  {
    RenderDigits(DateTime(2024, 1, 2, 10, 0, 0, 0));
    ExampleDigits();
  }

  lemma ExampleNextRunText()
    ensures NextRunText([ExamplePendingRow()]) == "2024-01-02 10:00:00.000"
  {
    var t := DateTime(2024, 1, 2, 10, 0, 0, 0);
    assert Stamps([ExamplePendingRow()]) == [t];
    assert MinStamp([t]) == t;
    SecondNextRunText();
  }

  /** The next-run time after the reference scenario is the CHECK slot's time with ".000". */
  lemma ExampleNextRun()
    ensures NextRunOf(ExampleCalendar(), ExampleLedger()) == Ok("2024-01-02 10:00:00.000")
  {
    ExamplePending();
    ExampleNextRunText();
  }
}
