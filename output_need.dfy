/**
 * Choosing the run's need: the automatic search for the slot due at the
 * current run time (or the manual table), the join with the per-season
 * message watermark, and the in-place rewrite of a need to CHECK status.
 */
module OutputNeed {
  import opened Wrappers
  import opened Order
  import opened Timestamps
  import opened CalendarActions
  import Config

  /** A row of the message-check table: the last forum check of a season. */
  datatype Watermark = Watermark(seasonId: string, lastCheckTs: Cell)

  /** A selected slot with its season's LAST_MESSAGE_CHECK_TS_UTC. */
  datatype NeedRecord = NeedRecord(slot: Row, lastMessageCheckTs: Cell)

  // ---------------------------------------------------------------------
  // Order of `sort_values(by=['TASK_RUN','SEASON_ID','GAMEDAY','TS_TASK_UTC'])`
  // ---------------------------------------------------------------------

  /** Timestamps ascending, null (NaT) last. */
  predicate StampLess(a: Option<DateTime>, b: Option<DateTime>)
  {
    match (a, b)
    case (Some(x), Some(y)) => Before(x, y)
    case (Some(_), None) => true
    case (None, _) => false
  }

  /** Lexicographic order on the four key columns. */
  predicate KeyLess(a: Key, b: Key)
  {
    StrLess(a.taskRun, b.taskRun)
    || (a.taskRun == b.taskRun
        && (StrLess(a.seasonId, b.seasonId)
            || (a.seasonId == b.seasonId
                && (StrLess(a.gameday, b.gameday)
                    || (a.gameday == b.gameday && StampLess(a.ts, b.ts))))))
  }

  lemma KeyLessIrreflexive(a: Key)
    ensures !KeyLess(a, a)
  {
    StrLessIrreflexive(a.taskRun);
    StrLessIrreflexive(a.seasonId);
    StrLessIrreflexive(a.gameday);
    if a.ts.Some? {
      BeforeIrreflexive(a.ts.value);
    }
  }

  lemma KeyLessTransitive(a: Key, b: Key, c: Key)
    requires KeyLess(a, b) && KeyLess(b, c)
    ensures KeyLess(a, c)
  {
    if StrLess(a.taskRun, b.taskRun) && StrLess(b.taskRun, c.taskRun) {
      StrLessTransitive(a.taskRun, b.taskRun, c.taskRun);
    } else if a.taskRun == b.taskRun == c.taskRun {
      if StrLess(a.seasonId, b.seasonId) && StrLess(b.seasonId, c.seasonId) {
        StrLessTransitive(a.seasonId, b.seasonId, c.seasonId);
      } else if a.seasonId == b.seasonId == c.seasonId {
        if StrLess(a.gameday, b.gameday) && StrLess(b.gameday, c.gameday) {
          StrLessTransitive(a.gameday, b.gameday, c.gameday);
        } else if a.gameday == b.gameday == c.gameday {
          if a.ts.Some? && b.ts.Some? && c.ts.Some? {
            BeforeTransitive(a.ts.value, b.ts.value, c.ts.value);
          }
        }
      }
    }
  }

  lemma KeyLessTotal(a: Key, b: Key)
    ensures a == b || KeyLess(a, b) || KeyLess(b, a)
  {
    StrLessTotal(a.taskRun, b.taskRun);
    StrLessTotal(a.seasonId, b.seasonId);
    StrLessTotal(a.gameday, b.gameday);
    if a.ts.Some? && b.ts.Some? {
      BeforeTotal(a.ts.value, b.ts.value);
    }
  }

  lemma KeyLessAsymmetric(a: Key, b: Key)
    requires KeyLess(a, b)
    ensures !KeyLess(b, a)
  {
    if KeyLess(b, a) {
      KeyLessTransitive(a, b, a);
      KeyLessIrreflexive(a);
    }
  }

  /** "Not before" is transitive, as for any total order. */
  lemma KeyNotLessTransitive(a: Key, b: Key, c: Key)
    requires !KeyLess(b, a) && !KeyLess(c, b)
    ensures !KeyLess(c, a)
  {
    KeyLessTotal(a, b);
    if KeyLess(c, a) && KeyLess(a, b) {
      KeyLessTransitive(c, a, b);
    }
  }

  predicate SortedByKey(s: seq<Row>)
  {
    forall i, j :: 0 <= i < j < |s| ==> !KeyLess(KeyOf(s[j]), KeyOf(s[i]))
  }

  /** Inserts `x` before the first row it does not follow, so equal keys keep their order. */
  function InsertRow(x: Row, s: seq<Row>): seq<Row>
  {
    if |s| == 0 then [x]
    else if KeyLess(KeyOf(s[0]), KeyOf(x)) then [s[0]] + InsertRow(x, s[1..])
    else [x] + s
  }

  /** A stable sort of the rows by their key. */
  function SortRows(s: seq<Row>): seq<Row>
  {
    if |s| == 0 then [] else InsertRow(s[0], SortRows(s[1..]))
  }

  lemma {:induction false} InsertRowPermutes(x: Row, s: seq<Row>)
    ensures multiset(InsertRow(x, s)) == multiset(s) + multiset{x}
    decreases |s|
  {
    if |s| > 0 && KeyLess(KeyOf(s[0]), KeyOf(x)) {
      InsertRowPermutes(x, s[1..]);
      assert s == [s[0]] + s[1..];
    }
  }

  /** The head of a sorted list followed by a sorted tail it does not follow is sorted. */
  lemma SortedCons(h: Row, t: seq<Row>)
    requires SortedByKey(t)
    requires forall j :: 0 <= j < |t| ==> !KeyLess(KeyOf(t[j]), KeyOf(h))
    ensures SortedByKey([h] + t)
  {
    var r := [h] + t;
    forall i, j | 0 <= i < j < |r|
      ensures !KeyLess(KeyOf(r[j]), KeyOf(r[i]))
    {
      assert r[j] == t[j - 1];
      if i > 0 {
        assert r[i] == t[i - 1];
      }
    }
  }

  lemma {:induction false} InsertRowSorted(x: Row, s: seq<Row>)
    requires SortedByKey(s)
    ensures SortedByKey(InsertRow(x, s))
    decreases |s|
  {
    if |s| == 0 {
    } else if KeyLess(KeyOf(s[0]), KeyOf(x)) {
      var rest := InsertRow(x, s[1..]);
      assert SortedByKey(s[1..]) by {
        forall i, j | 0 <= i < j < |s[1..]|
          ensures !KeyLess(KeyOf(s[1..][j]), KeyOf(s[1..][i]))
        {
          assert s[1..][j] == s[j + 1] && s[1..][i] == s[i + 1];
        }
      }
      InsertRowSorted(x, s[1..]);
      InsertRowPermutes(x, s[1..]);
      forall j | 0 <= j < |rest|
        ensures !KeyLess(KeyOf(rest[j]), KeyOf(s[0]))
      {
        assert rest[j] in multiset(rest);
        if rest[j] == x {
          KeyLessAsymmetric(KeyOf(s[0]), KeyOf(x));
        } else {
          assert rest[j] in multiset(s[1..]);
          var k :| 0 <= k < |s[1..]| && s[1..][k] == rest[j];
          assert s[k + 1] == rest[j];
        }
      }
      SortedCons(s[0], rest);
    } else {
      forall j | 0 <= j < |s|
        ensures !KeyLess(KeyOf(s[j]), KeyOf(x))
      {
        if j > 0 {
          KeyNotLessTransitive(KeyOf(x), KeyOf(s[0]), KeyOf(s[j]));
        }
      }
      SortedCons(x, s);
    }
  }

  /** The sorted candidates are the same rows, in key order. */
  lemma SortRowsCorrect(s: seq<Row>)
    ensures SortedByKey(SortRows(s))
    ensures multiset(SortRows(s)) == multiset(s)
  {
    SortRowsSorted(s);
    SortRowsPermutes(s);
  }

  lemma {:induction false} SortRowsSorted(s: seq<Row>)
    ensures SortedByKey(SortRows(s))
    decreases |s|
  {
    if |s| > 0 {
      SortRowsSorted(s[1..]);
      InsertRowSorted(s[0], SortRows(s[1..]));
    }
  }

  lemma {:induction false} SortRowsPermutes(s: seq<Row>)
    ensures multiset(SortRows(s)) == multiset(s)
    decreases |s|
  {
    if |s| > 0 {
      SortRowsPermutes(s[1..]);
      InsertRowPermutes(s[0], SortRows(s[1..]));
      assert s == [s[0]] + s[1..];
      assert multiset(s) == multiset(s[1..]) + multiset{s[0]};
    }
  }

  // ---------------------------------------------------------------------
  // Automatic selection (`create_output_need_auto`)
  // ---------------------------------------------------------------------

  /** `df[df['TS_TASK_UTC'] == ts]`: a null instant, like NaT, equals nothing. */
  function AtInstant(rows: seq<Row>, now: Option<DateTime>): (r: seq<Row>)
    ensures forall x :: x in r <==> x in rows && now.Some? && StampOf(x.ts) == now
    ensures forall i :: 0 <= i < |r| ==> StampOf(r[i].ts) == now
  {
    if |rows| == 0 || now.None? then []
    else
      var rest := AtInstant(rows[1..], now);
      assert forall x :: x in rows <==> x == rows[0] || x in rows[1..];
      if StampOf(rows[0].ts) == now then [rows[0]] + rest else rest
  }

  const NoMatchingNeed := "OUTPUTNEED -> Not found a matching output need"

  /** `pd.to_datetime(str_current_run_time_utc, errors='coerce')`. */
  function RunInstant(currentRunTime: string): Option<DateTime>
  {
    ToDatetimeCoerce(Text(currentRunTime))
  }

  /**
   * What `create_output_need_auto` returns: the calendar and ledger rows
   * whose coerced TS equals the coerced current run time, anti-joined and
   * sorted; raising when nothing is left.
   */
  function SelectAuto(calendar: seq<Row>, done: seq<Row>, currentRunTime: string): Result<seq<Row>>
  {
    var now := RunInstant(currentRunTime);
    var calendarNow := AtInstant(CoerceColumn(calendar), now);
    var doneNow := AtInstant(CoerceColumn(done), now);
    match NotRun(calendarNow, doneNow)
    case Err(e) => Err(e)
    case Ok(notRun) =>
      if |notRun| == 0 then Err(NoMatchingNeed) else Ok(SortRows(notRun))
  }

  /** The calendar slots due at the current run time. */
  function Due(calendar: seq<Row>, currentRunTime: string): seq<Row>
  {
    AtInstant(CoerceColumn(calendar), RunInstant(currentRunTime))
  }

  /** The due slots whose key is in no (coerced) ledger record, whatever its instant. */
  function DuePending(calendar: seq<Row>, done: seq<Row>, currentRunTime: string): seq<Row>
  {
    AntiJoin(Due(calendar, currentRunTime), CoerceColumn(done))
  }

  lemma AtInstantConverted(rows: seq<Row>, now: Option<DateTime>)
    requires Converted(rows)
    ensures Converted(AtInstant(rows, now))
  {
    var r := AtInstant(rows, now);
    forall i | 0 <= i < |r| ensures !r[i].ts.Text? {
      assert r[i] in rows;
    }
  }

  /** Filtering the ledger to the instant first changes nothing: only completions at that instant can match. */
  lemma {:induction false} LedgerFilterIrrelevant(rows: seq<Row>, done: seq<Row>, now: Option<DateTime>)
    requires now.Some?
    requires forall i :: 0 <= i < |rows| ==> StampOf(rows[i].ts) == now
    ensures AntiJoin(rows, AtInstant(done, now)) == AntiJoin(rows, done)
    decreases |rows|
  {
    if |rows| > 0 {
      LedgerFilterIrrelevant(rows[1..], done, now);
      var k := KeyOf(rows[0]);
      var filtered := AtInstant(done, now);
      if k in KeySet(done) {
        var i :| 0 <= i < |done| && KeyOf(done[i]) == k;
        assert done[i] in filtered;
        var j :| 0 <= j < |filtered| && filtered[j] == done[i];
        assert KeyOf(filtered[j]) == k;
      }
      if k in KeySet(filtered) {
        var j :| 0 <= j < |filtered| && KeyOf(filtered[j]) == k;
        assert filtered[j] in done;
        var i :| 0 <= i < |done| && done[i] == filtered[j];
        assert KeyOf(done[i]) == k;
      }
      assert (k in KeySet(done)) == (k in KeySet(filtered));
    }
  }

  /**
   * The selection is the due, not-yet-run slots sorted by key, or the
   * "not found" error when there are none; the strict conversion inside
   * never fails on the already coerced frames.
   */
  lemma SelectAutoIsSortedPending(calendar: seq<Row>, done: seq<Row>, currentRunTime: string)
    ensures var pending := DuePending(calendar, done, currentRunTime);
            SelectAuto(calendar, done, currentRunTime)
            == if |pending| == 0 then Err(NoMatchingNeed) else Ok(SortRows(pending))
  {
    var now := RunInstant(currentRunTime);
    var due := AtInstant(CoerceColumn(calendar), now);
    var doneNow := AtInstant(CoerceColumn(done), now);
    AtInstantConverted(CoerceColumn(calendar), now);
    AtInstantConverted(CoerceColumn(done), now);
    ConvertConverted(due);
    ConvertConverted(doneNow);
    assert NotRun(due, doneNow) == Ok(AntiJoin(due, doneNow));
    if now.Some? {
      LedgerFilterIrrelevant(due, CoerceColumn(done), now);
    }
  }

  /** A due, not-yet-run slot is a calendar row at the readable current run time with no ledger record. */
  lemma DuePendingRow(calendar: seq<Row>, done: seq<Row>, currentRunTime: string, x: Row)
    requires x in DuePending(calendar, done, currentRunTime)
    ensures RunInstant(currentRunTime).Some? && x in CoerceColumn(calendar)
    ensures x.ts == Stamp(RunInstant(currentRunTime).value)
    ensures KeyOf(x) !in KeySet(CoerceColumn(done))
  {
    PendingIff(Due(calendar, currentRunTime), CoerceColumn(done), x);
  }

  /** Every selected row is a calendar row due exactly at the readable current run time, with no ledger record. */
  lemma SelectedRowsAreDue(calendar: seq<Row>, done: seq<Row>, currentRunTime: string)
    requires SelectAuto(calendar, done, currentRunTime).Ok?
    ensures var need := SelectAuto(calendar, done, currentRunTime).value;
            RunInstant(currentRunTime).Some? && |need| > 0
            && forall x :: x in need ==>
                 x in CoerceColumn(calendar) && x.ts == Stamp(RunInstant(currentRunTime).value)
                 && KeyOf(x) !in KeySet(CoerceColumn(done))
  {
    var pending := DuePending(calendar, done, currentRunTime);
    SelectAutoIsSortedPending(calendar, done, currentRunTime);
    SortRowsCorrect(pending);
    DuePendingRow(calendar, done, currentRunTime, pending[0]);
    forall x | x in SortRows(pending)
      ensures x in CoerceColumn(calendar) && x.ts == Stamp(RunInstant(currentRunTime).value)
              && KeyOf(x) !in KeySet(CoerceColumn(done))
    {
      assert x in multiset(SortRows(pending));
      DuePendingRow(calendar, done, currentRunTime, x);
    }
  }

  /** The selection holds each due, not-yet-run slot exactly as often as the calendar does, in key order. */
  lemma SelectionIsSortedPermutation(calendar: seq<Row>, done: seq<Row>, currentRunTime: string)
    requires SelectAuto(calendar, done, currentRunTime).Ok?
    ensures var need := SelectAuto(calendar, done, currentRunTime).value;
            SortedByKey(need) && multiset(need) == multiset(DuePending(calendar, done, currentRunTime))
  {
    SelectAutoIsSortedPending(calendar, done, currentRunTime);
    SortRowsCorrect(DuePending(calendar, done, currentRunTime));
  }

  /** An unreadable current run time coerces to null, so nothing matches and selection raises. */
  lemma UnreadableRunTimeSelectsNothing(calendar: seq<Row>, done: seq<Row>, currentRunTime: string)
    requires RunInstant(currentRunTime).None?
    ensures SelectAuto(calendar, done, currentRunTime) == Err(NoMatchingNeed)
  {
    SelectAutoIsSortedPending(calendar, done, currentRunTime);
  }

  // ---------------------------------------------------------------------
  // Watermark join and the need (`generate_output_need`)
  // ---------------------------------------------------------------------

  predicate HasMark(seasonId: string, marks: seq<Watermark>)
  {
    exists j :: 0 <= j < |marks| && marks[j].seasonId == seasonId
  }

  /** The watermarks of a season, in table order. */
  function MarksFor(seasonId: string, marks: seq<Watermark>): seq<Cell>
  {
    if |marks| == 0 then []
    else
      (if marks[0].seasonId == seasonId then [marks[0].lastCheckTs] else [])
      + MarksFor(seasonId, marks[1..])
  }

  /** A season has watermarks iff it has a row, and its first is that of its first row. */
  lemma {:induction false} MarksForFirst(seasonId: string, marks: seq<Watermark>)
    ensures |MarksFor(seasonId, marks)| > 0 <==> HasMark(seasonId, marks)
    ensures |MarksFor(seasonId, marks)| > 0 ==>
              exists j :: 0 <= j < |marks| && marks[j].seasonId == seasonId
                && MarksFor(seasonId, marks)[0] == marks[j].lastCheckTs
                && forall i :: 0 <= i < j ==> marks[i].seasonId != seasonId
    decreases |marks|
  {
    if |marks| > 0 {
      MarksForFirst(seasonId, marks[1..]);
      var rest := MarksFor(seasonId, marks[1..]);
      if HasMark(seasonId, marks[1..]) {
        var j :| 0 <= j < |marks[1..]| && marks[1..][j].seasonId == seasonId;
        assert marks[j + 1].seasonId == seasonId;
      }
      if HasMark(seasonId, marks) && marks[0].seasonId != seasonId {
        var j :| 0 <= j < |marks| && marks[j].seasonId == seasonId;
        assert marks[1..][j - 1].seasonId == seasonId;
      }
      if |rest| > 0 && marks[0].seasonId != seasonId {
        var j :| 0 <= j < |marks[1..]| && marks[1..][j].seasonId == seasonId
                 && rest[0] == marks[1..][j].lastCheckTs
                 && forall i :: 0 <= i < j ==> marks[1..][i].seasonId != seasonId;
        assert marks[j + 1] == marks[1..][j];
        assert forall i :: 1 <= i < j + 1 ==> marks[i] == marks[1..][i - 1];
      }
    }
  }

  /**
   * `pd.merge(need, watermarks, on='SEASON_ID', how='inner')` with
   * LAST_CHECK_TS_UTC renamed: each row paired with every watermark of its
   * season, in the rows' order.
   */
  function JoinWatermarks(rows: seq<Row>, marks: seq<Watermark>): seq<NeedRecord>
  {
    if |rows| == 0 then []
    else
      var ms := MarksFor(rows[0].seasonId, marks);
      seq(|ms|, i requires 0 <= i < |ms| => NeedRecord(rows[0], ms[i]))
      + JoinWatermarks(rows[1..], marks)
  }

  /**
   * The join is empty exactly when no row's season has a watermark;
   * otherwise its first record is the first such row with its season's
   * first watermark.
   */
  lemma {:induction false} JoinFirst(rows: seq<Row>, marks: seq<Watermark>)
    ensures |JoinWatermarks(rows, marks)| > 0 <==>
            exists i :: 0 <= i < |rows| && MarksFor(rows[i].seasonId, marks) != []
    ensures |JoinWatermarks(rows, marks)| > 0 ==>
            exists k :: FirstMarkedAt(rows, marks, k)
              && JoinWatermarks(rows, marks)[0] == NeedRecord(rows[k], MarksFor(rows[k].seasonId, marks)[0])
    decreases |rows|
  {
    if |rows| > 0 {
      JoinFirst(rows[1..], marks);
      var ms := MarksFor(rows[0].seasonId, marks);
      var head := seq(|ms|, i requires 0 <= i < |ms| => NeedRecord(rows[0], ms[i]));
      var rest := JoinWatermarks(rows[1..], marks);
      assert JoinWatermarks(rows, marks) == head + rest;
      if |ms| == 0 {
        assert JoinWatermarks(rows, marks) == rest;
        if exists i :: 0 <= i < |rows| && MarksFor(rows[i].seasonId, marks) != [] {
          var i :| 0 <= i < |rows| && MarksFor(rows[i].seasonId, marks) != [];
          assert rows[1..][i - 1] == rows[i];
        }
        if |rest| > 0 {
          var k :| FirstMarkedAt(rows[1..], marks, k)
                   && rest[0] == NeedRecord(rows[1..][k], MarksFor(rows[1..][k].seasonId, marks)[0]);
          FirstMarkedShift(rows, marks, k);
          assert rows[k + 1] == rows[1..][k];
        }
      } else {
        assert JoinWatermarks(rows, marks)[0] == head[0] == NeedRecord(rows[0], ms[0]);
        assert FirstMarkedAt(rows, marks, 0);
      }
    }
  }

  /** Row `k` is the first row whose season has a watermark. */
  predicate FirstMarkedAt(rows: seq<Row>, marks: seq<Watermark>, k: int)
  {
    0 <= k < |rows| && MarksFor(rows[k].seasonId, marks) != []
    && forall i :: 0 <= i < k ==> MarksFor(rows[i].seasonId, marks) == []
  }

  /** Behind an unmarked row, the first marked row moves one place down. */
  lemma FirstMarkedShift(rows: seq<Row>, marks: seq<Watermark>, k: int)
    requires |rows| > 0 && MarksFor(rows[0].seasonId, marks) == [] && FirstMarkedAt(rows[1..], marks, k)
    ensures FirstMarkedAt(rows, marks, k + 1)
  {
    assert forall i :: 1 <= i < k + 1 ==> rows[i] == rows[1..][i - 1];
  }

  /** The environment variable IS_OUTPUT_AUTO selects the manual table only when it is exactly "0". */
  predicate ManualMode(isOutputAuto: Option<string>)
  {
    isOutputAuto == Some("0")
  }

  const NoNeedRow := "single positional indexer is out-of-bounds"

  /**
   * What `generate_output_need` returns: the manual table or the automatic
   * selection, joined with the watermarks; the first joined record, or an
   * error when there is none.
   */
  function OutputNeedOf(isOutputAuto: Option<string>, manual: seq<Row>, calendar: seq<Row>,
                        done: seq<Row>, currentRunTime: string, marks: seq<Watermark>)
    : Result<NeedRecord>
  {
    var rows :- if ManualMode(isOutputAuto) then Ok(manual)
                else SelectAuto(calendar, done, currentRunTime);
    var joined := JoinWatermarks(rows, marks);
    if |joined| == 0 then Err(NoNeedRow) else Ok(joined[0])
  }

  /** Manual mode takes the manual table as it is: its first row whose season has a watermark. */
  lemma ManualNeed(manual: seq<Row>, calendar: seq<Row>, done: seq<Row>, currentRunTime: string,
                   marks: seq<Watermark>)
    ensures var r := OutputNeedOf(Some("0"), manual, calendar, done, currentRunTime, marks);
            (r.Ok? <==> exists i :: 0 <= i < |manual| && HasMark(manual[i].seasonId, marks))
            && (r.Ok? ==> exists k :: 0 <= k < |manual| && r.value.slot == manual[k]
                            && HasMark(manual[k].seasonId, marks)
                            && forall i :: 0 <= i < k ==> !HasMark(manual[i].seasonId, marks))
  {
    JoinFirst(manual, marks);
    forall i | 0 <= i < |manual| {
      MarksForFirst(manual[i].seasonId, marks);
    }
  }

  /**
   * In automatic mode the need is a due, not-yet-run calendar slot whose
   * season has a watermark, with no such slot of a smaller key, paired
   * with that season's first watermark.
   */
  lemma AutoNeed(isOutputAuto: Option<string>, manual: seq<Row>, calendar: seq<Row>,
                 done: seq<Row>, currentRunTime: string, marks: seq<Watermark>)
    requires !ManualMode(isOutputAuto)
    requires OutputNeedOf(isOutputAuto, manual, calendar, done, currentRunTime, marks).Ok?
    ensures var n := OutputNeedOf(isOutputAuto, manual, calendar, done, currentRunTime, marks).value;
            var rows := SelectAuto(calendar, done, currentRunTime).value;
            RunInstant(currentRunTime).Some? && n.slot in CoerceColumn(calendar)
            && n.slot.ts == Stamp(RunInstant(currentRunTime).value)
            && KeyOf(n.slot) !in KeySet(CoerceColumn(done))
            && MarksFor(n.slot.seasonId, marks) != []
            && n.lastMessageCheckTs == MarksFor(n.slot.seasonId, marks)[0]
            && forall x :: (x in rows && MarksFor(x.seasonId, marks) != []) ==>
                 !KeyLess(KeyOf(x), KeyOf(n.slot))
  {
    var rows := SelectAuto(calendar, done, currentRunTime).value;
    assert OutputNeedOf(isOutputAuto, manual, calendar, done, currentRunTime, marks)
           == Ok(JoinWatermarks(rows, marks)[0]);
    SelectedRowsAreDue(calendar, done, currentRunTime);
    SelectionIsSortedPermutation(calendar, done, currentRunTime);
    FirstMarkedIsLeast(rows, marks);
  }

  /** In key order, the join's first record is a marked row whose key no other marked row undercuts. */
  lemma FirstMarkedIsLeast(rows: seq<Row>, marks: seq<Watermark>)
    requires SortedByKey(rows) && |JoinWatermarks(rows, marks)| > 0
    ensures var n := JoinWatermarks(rows, marks)[0];
            n.slot in rows && MarksFor(n.slot.seasonId, marks) != []
            && n.lastMessageCheckTs == MarksFor(n.slot.seasonId, marks)[0]
            && forall x :: (x in rows && MarksFor(x.seasonId, marks) != []) ==>
                 !KeyLess(KeyOf(x), KeyOf(n.slot))
  {
    JoinFirst(rows, marks);
    var k :| FirstMarkedAt(rows, marks, k)
             && JoinWatermarks(rows, marks)[0] == NeedRecord(rows[k], MarksFor(rows[k].seasonId, marks)[0]);
    assert rows[k] in rows;
    forall x | x in rows && MarksFor(x.seasonId, marks) != []
      ensures !KeyLess(KeyOf(x), KeyOf(rows[k]))
    {
      var i :| 0 <= i < |rows| && rows[i] == x;
      if i == k {
        KeyLessIrreflexive(KeyOf(x));
      }
    }
  }

  /**
   * `create_output_need_auto` with its side effect: the caller's ledger
   * frame gets its TS column coerced in place.
   */
  method CreateOutputNeedAuto(calendar: seq<Row>, done: Frame, currentRunTime: string)
    returns (r: Result<seq<Row>>)
    modifies done
    ensures r == SelectAuto(calendar, old(done.rows), currentRunTime)
    ensures done.rows == CoerceColumn(old(done.rows))
  {
    var before := done.rows;
    var calendarNow := AtInstant(CoerceColumn(calendar), ToDatetimeCoerce(Text(currentRunTime)));
    done.CoerceTimestamps();
    var doneNow := AtInstant(done.rows, ToDatetimeCoerce(Text(currentRunTime)));
    var notRun := NotRun(calendarNow, doneNow);
    if notRun.Err? {
      return Err(notRun.error);
    }
    if |notRun.value| == 0 {
      return Err(NoMatchingNeed);
    }
    return Ok(SortRows(notRun.value));
  }

  /**
   * `generate_output_need`: the need record, and the ledger frame coerced
   * in place when the automatic search ran.
   */
  method GenerateOutputNeed(isOutputAuto: Option<string>, manual: seq<Row>, calendar: seq<Row>,
                            done: Frame, currentRunTime: string, marks: seq<Watermark>)
    returns (r: Result<NeedRecord>)
    modifies done
    ensures r == OutputNeedOf(isOutputAuto, manual, calendar, old(done.rows), currentRunTime, marks)
    ensures ManualMode(isOutputAuto) ==> done.rows == old(done.rows)
    ensures !ManualMode(isOutputAuto) ==> done.rows == CoerceColumn(old(done.rows))
  {
    var rows := manual;
    if !ManualMode(isOutputAuto) {
      var selected := CreateOutputNeedAuto(calendar, done, currentRunTime);
      if selected.Err? {
        return Err(selected.error);
      }
      rows := selected.value;
    }
    var joined := JoinWatermarks(rows, marks);
    if |joined| == 0 {
      return Err(NoNeedRow);
    }
    return Ok(joined[0]);
  }

  // ---------------------------------------------------------------------
  // The gate rewrite (`set_output_need_to_check_status`)
  // ---------------------------------------------------------------------

  /** The six fields the gate overwrites; everything else is kept. */
  function CheckStatus(n: NeedRecord): (c: NeedRecord)
    ensures c.slot.taskRun == Config.TaskCheck
    ensures c.slot.attrs.SlotAttrs? <==> n.slot.attrs.SlotAttrs?
    ensures c.slot.attrs.SlotAttrs? ==>
              c.slot.attrs.messageAction == Config.ActionCheck
              && c.slot.attrs.gameAction == Config.ActionAvoid
              && c.slot.attrs.isToCalculate == 0 && c.slot.attrs.isToDelete == 0
              && c.slot.attrs.isToRecalculate == 0
              && c.slot.attrs.isToInit == n.slot.attrs.isToInit
    ensures c.slot.seasonId == n.slot.seasonId && c.slot.gameday == n.slot.gameday
    ensures c.slot.ts == n.slot.ts && c.lastMessageCheckTs == n.lastMessageCheckTs
  {
    var attrs := match n.slot.attrs
      case KeyOnly => KeyOnly
      case SlotAttrs(_, _, init, _, _, _) =>
        SlotAttrs(Config.ActionCheck, Config.ActionAvoid, init, 0, 0, 0);
    n.(slot := n.slot.(taskRun := Config.TaskCheck, attrs := attrs))
  }

  /** Gating twice is gating once. */
  lemma CheckStatusIdempotent(n: NeedRecord)
    ensures CheckStatus(CheckStatus(n)) == CheckStatus(n)
  {
  }

  /** A gated need's ledger key differs from the slot's own key unless the slot was already a CHECK slot. */
  lemma GatedKey(n: NeedRecord)
    ensures KeyOf(CheckStatus(n).slot) == KeyOf(n.slot).(taskRun := Config.TaskCheck)
    ensures KeyOf(CheckStatus(n).slot) == KeyOf(n.slot) <==> n.slot.taskRun == Config.TaskCheck
  {
  }

  /** The need as a pandas Series whose fields the gate assigns in place. */
  class Need {
    var taskRun: string
    var seasonId: string
    var gameday: string
    var ts: Cell
    var messageAction: string
    var gameAction: string
    var isToInit: int
    var isToCalculate: int
    var isToDelete: int
    var isToRecalculate: int
    var lastMessageCheckTs: Cell

    function Record(): NeedRecord
      reads this
    {
      NeedRecord(Row(taskRun, seasonId, gameday, ts,
                     SlotAttrs(messageAction, gameAction, isToInit, isToCalculate,
                               isToDelete, isToRecalculate)),
                 lastMessageCheckTs)
    }

    /** The need's four key fields, as a ledger record takes them. */
    function KeyRow(): (r: Row)
      reads this
      ensures r == LedgerRecord(Record().slot)
    {
      Row(taskRun, seasonId, gameday, ts, KeyOnly)
    }

    constructor (n: NeedRecord)
      requires n.slot.attrs.SlotAttrs?
      ensures Record() == n
    {
      taskRun := n.slot.taskRun;
      seasonId := n.slot.seasonId;
      gameday := n.slot.gameday;
      ts := n.slot.ts;
      messageAction := n.slot.attrs.messageAction;
      gameAction := n.slot.attrs.gameAction;
      isToInit := n.slot.attrs.isToInit;
      isToCalculate := n.slot.attrs.isToCalculate;
      isToDelete := n.slot.attrs.isToDelete;
      isToRecalculate := n.slot.attrs.isToRecalculate;
      lastMessageCheckTs := n.lastMessageCheckTs;
    }

    /** `set_output_need_to_check_status`: six fields assigned, the others untouched. */
    method SetToCheckStatus()
      modifies this
      ensures Record() == CheckStatus(old(Record()))
      ensures taskRun == Config.TaskCheck && messageAction == Config.ActionCheck
      ensures gameAction == Config.ActionAvoid
      ensures isToCalculate == 0 && isToDelete == 0 && isToRecalculate == 0
      ensures seasonId == old(seasonId) && gameday == old(gameday) && ts == old(ts)
      ensures isToInit == old(isToInit) && lastMessageCheckTs == old(lastMessageCheckTs)
    {
      taskRun := Config.TaskCheck;
      messageAction := Config.ActionCheck;
      gameAction := Config.ActionAvoid;
      isToCalculate := 0;
      isToDelete := 0;
      isToRecalculate := 0;
    }
  }
}
