/**
 * The decision rules around the database update: which tables a run
 * refreshes (from the paths table's categories), how a table name gives
 * its schema and its input file, which update steps run, and the
 * `#DATABASE#` placeholder. The database itself, the queries and dbt are
 * outside the model.
 */
module SnowflakeActions {
  import opened Wrappers
  import opened Strings
  import opened Collections
  import opened Config
  import opened CalendarActions

  /** A row of the paths table: a table name with its python and dbt categories. */
  datatype PathRow = PathRow(name: string, pythonCategories: seq<string>, dbtCategories: seq<string>,
                             isEncapsulated: int)

  /** The landing table of the need, always refreshed by python for the main program. */
  const LandingOutputNeed := "landing_output_need"

  /** The categories of python tables a caller and a need's actions select. */
  predicate PythonCategorySelected(calledBy: string, messageAction: Option<string>, gameAction: Option<string>,
                                   c: string)
  {
    (calledBy == CallerCompet && c == CategoryInitCompet)
    || (calledBy == CallerMain
        && ((c == CategoryMessageCheck && messageAction == Some(ActionCheck))
            || (c == CategoryMessageRun && messageAction == Some(ActionRun))
            || (c == CategoryGameRun && gameAction == Some(ActionRun))))
  }

  /** The categories of dbt tables: as for python, except that a RUN also refreshes the CHECK tables and may calculate. */
  predicate DbtCategorySelected(calledBy: string, messageAction: Option<string>, gameAction: Option<string>,
                                calculationNeeded: bool, c: string)
  {
    (calledBy == CallerCompet && c == CategoryInitCompet)
    || (calledBy == CallerMain
        && ((c == CategoryMessageCheck && (messageAction == Some(ActionCheck) || messageAction == Some(ActionRun)))
            || (c == CategoryMessageRun && messageAction == Some(ActionRun))
            || (c == CategoryGameRun && gameAction == Some(ActionRun))
            || (c == CategoryCalculation && messageAction == Some(ActionRun) && calculationNeeded)))
  }

  /** Whether one of the row's (exploded) categories is among `categories`. */
  predicate InCategories(row: PathRow, python: bool, categories: seq<string>)
  {
    var own := if python then row.pythonCategories else row.dbtCategories;
    exists c :: c in own && c in categories
  }

  /** `explode` + `isin` + `['NAME']`: the name of every row having a selected category, in table order. */
  function NamesIn(paths: seq<PathRow>, python: bool, categories: seq<string>): (r: seq<string>)
    ensures forall t :: t in r <==>
              exists i :: 0 <= i < |paths| && paths[i].name == t && InCategories(paths[i], python, categories)
    decreases |paths|
  {
    if |paths| == 0 then []
    else
      var rest := NamesIn(paths[1..], python, categories);
      assert forall i :: 0 < i < |paths| ==> paths[i] == paths[1..][i - 1];
      assert forall i :: 0 <= i < |paths| - 1 ==> paths[1..][i] == paths[i + 1];
      if InCategories(paths[0], python, categories) then [paths[0].name] + rest else rest
  }

  /**
   * The category lists of `get_list_tables_to_update`, extended branch by
   * branch. Comparisons are exact, so an action spelled "check" selects nothing.
   */
  method SelectCategories(calledBy: string, messageAction: Option<string>, gameAction: Option<string>,
                          calculationNeeded: bool)
    returns (pythonCategories: seq<string>, dbtCategories: seq<string>)
    ensures forall c :: c in pythonCategories <==> PythonCategorySelected(calledBy, messageAction, gameAction, c)
    ensures forall c :: c in dbtCategories <==>
                        DbtCategorySelected(calledBy, messageAction, gameAction, calculationNeeded, c)
  {
    pythonCategories := [];
    dbtCategories := [];
    if calledBy == CallerCompet {
      pythonCategories := pythonCategories + [CategoryInitCompet];
      dbtCategories := dbtCategories + [CategoryInitCompet];
    } else if calledBy == CallerMain {
      if messageAction == Some(ActionCheck) {
        pythonCategories := pythonCategories + [CategoryMessageCheck];
        dbtCategories := dbtCategories + [CategoryMessageCheck];
      }
      if messageAction == Some(ActionRun) {
        pythonCategories := pythonCategories + [CategoryMessageRun];
        dbtCategories := dbtCategories + [CategoryMessageCheck];
        dbtCategories := dbtCategories + [CategoryMessageRun];
      }
      if gameAction == Some(ActionRun) {
        pythonCategories := pythonCategories + [CategoryGameRun];
        dbtCategories := dbtCategories + [CategoryGameRun];
      }
      if messageAction == Some(ActionRun) && calculationNeeded {
        dbtCategories := dbtCategories + [CategoryCalculation];
      }
    }
  }

  /**
   * `get_list_tables_to_update`: every table having a selected category is
   * listed once; the main program always adds the need's landing table.
   */
  method ListTablesToUpdate(calledBy: string, paths: seq<PathRow>, messageAction: Option<string>,
                            gameAction: Option<string>, calculationNeeded: bool)
    returns (pythonTables: seq<string>, dbtTables: seq<string>)
    ensures NoDuplicates(pythonTables) && NoDuplicates(dbtTables)
    ensures forall t :: t in pythonTables <==>
              (calledBy == CallerMain && t == LandingOutputNeed)
              || exists i :: 0 <= i < |paths| && paths[i].name == t
                             && exists c :: c in paths[i].pythonCategories
                                            && PythonCategorySelected(calledBy, messageAction, gameAction, c)
    ensures forall t :: t in dbtTables <==>
              exists i :: 0 <= i < |paths| && paths[i].name == t
                          && exists c :: c in paths[i].dbtCategories
                                         && DbtCategorySelected(calledBy, messageAction, gameAction,
                                                                calculationNeeded, c)
  {
    var pythonCategories, dbtCategories := SelectCategories(calledBy, messageAction, gameAction, calculationNeeded);
    pythonTables := Distinct(NamesIn(paths, true, pythonCategories));
    dbtTables := Distinct(NamesIn(paths, false, dbtCategories));
    if calledBy == CallerMain {
      pythonTables := pythonTables + [LandingOutputNeed];
    }
    pythonTables := Distinct(pythonTables);
    dbtTables := Distinct(dbtTables);
  }

  /**
   * The main program with the action spelled "check": only the landing
   * table, and no dbt table, whatever the paths table holds.
   */
  method LowercaseActionSelectsLandingOnly(paths: seq<PathRow>)
    returns (pythonTables: seq<string>, dbtTables: seq<string>)
    ensures forall t :: t in pythonTables <==> t == LandingOutputNeed
    ensures forall t :: t !in dbtTables
  {
    assert "check" != ActionCheck by { assert "check"[0] != ActionCheck[0]; }
    assert "check" != ActionRun by { assert "check"[0] != ActionRun[0]; }
    pythonTables, dbtTables := ListTablesToUpdate(CallerMain, paths, Some("check"), None, false);
  }

  /** `calculation_needed`: something to calculate, delete or recalculate. */
  predicate CalculationNeeded(attrs: Attrs)
    requires attrs.SlotAttrs?
  {
    attrs.isToCalculate + attrs.isToDelete + attrs.isToRecalculate > 0
  }

  // ---------------------------------------------------------------------
  // Names of one python update (`update_snowflake_from_python`)
  // ---------------------------------------------------------------------

  /** `table_name.split('_')[0]`. */
  function SchemaOf(table: string): string
  {
    Split(table, "_")[0]
  }

  /** `'_'.join(table_name.split('_')[1:])`. */
  function AfterFirstPart(table: string): string
  {
    Join(Split(table, "_")[1..], "_")
  }

  /**
   * The schema is the text before the first `_` (the whole name without
   * one) and holds no `_`; the remainder is the text after it, so the two
   * put back together with `_` are the name.
   */
  lemma SchemaAndRemainder(table: string)
    ensures '_' !in SchemaOf(table)
    ensures '_' in table ==> SchemaOf(table) + "_" + AfterFirstPart(table) == table
    ensures '_' !in table ==> SchemaOf(table) == table && AfterFirstPart(table) == ""
  {
    SplitFirst(table, "_");
    match IndexFrom(table, "_", 0)
    case None =>
      IndexFromNoneIffAbsent(table, "_");
      if '_' in table {
        var k :| 0 <= k < |table| && table[k] == '_';
        assert table[k..k + 1] == "_";
        assert OccursAt(table, "_", k);
      }
    case Some(i) =>
      forall k | 0 <= k < i
        ensures table[k] != '_'
      {
        assert !OccursAt(table, "_", k);
        assert table[k..k + 1] == [table[k]];
      }
      assert table[i..i + 1] == "_";
      assert table == table[..i] + "_" + table[i + 1..];
  }

  /** The python input file of a table: the remainder for main and init_compet, the name itself for init_snowflake. */
  function InputFileName(calledBy: string, table: string): (r: Result<string>)
    ensures r.Ok? <==> calledBy in {CallerMain, CallerCompet, CallerSnowflake}
    ensures calledBy == CallerSnowflake ==> r == Ok(table)
  {
    if calledBy == CallerMain || calledBy == CallerCompet then Ok(AfterFirstPart(table))
    else if calledBy == CallerSnowflake then Ok(table)
    else Err("local variable 'file_name' referenced before assignment")
  }

  /** What one python update loads: the schema, the table and the local csv path. */
  datatype PythonUpdate = PythonUpdate(schema: string, table: string, filePath: string, enclosed: bool,
                                       recreatesFile: bool)

  /** The encapsulation flag of the first paths row with that name; `.iloc[0]` raises when there is none. */
  function EncapsulationOf(paths: seq<PathRow>, table: string): (r: Result<int>)
    ensures r.Ok? <==> exists i :: 0 <= i < |paths| && paths[i].name == table
    ensures r.Ok? ==> exists i :: 0 <= i < |paths| && paths[i].name == table && paths[i].isEncapsulated == r.value
                                  && forall j :: 0 <= j < i ==> paths[j].name != table
    decreases |paths|
  {
    if |paths| == 0 then Err("single positional indexer is out-of-bounds")
    else if paths[0].name == table then Ok(paths[0].isEncapsulated)
    else
      var r := EncapsulationOf(paths[1..], table);
      assert forall i :: 0 < i < |paths| ==> paths[i] == paths[1..][i - 1];
      r
  }

  /**
   * `update_snowflake_from_python`: the staged file is
   * `<local folder>/<input file>.csv`; the insert encloses fields iff the
   * table is encapsulated; main and init_compet recreate the table file.
   */
  function UpdateFromPython(calledBy: string, table: string, paths: seq<PathRow>, localFolder: string)
    : (r: Result<PythonUpdate>)
    ensures r.Ok? <==> InputFileName(calledBy, table).Ok? && EncapsulationOf(paths, table).Ok?
    ensures r.Ok? ==> r.value.table == table && r.value.schema == SchemaOf(table)
                      && r.value.filePath == localFolder + "/" + InputFileName(calledBy, table).value + ".csv"
                      && (r.value.enclosed <==> EncapsulationOf(paths, table).value == 1)
                      && (r.value.recreatesFile <==> calledBy != CallerSnowflake)
  {
    var fileName :- InputFileName(calledBy, table);
    var encapsulated :- EncapsulationOf(paths, table);
    Ok(PythonUpdate(SchemaOf(table), table, localFolder + "/" + fileName + ".csv", encapsulated == 1,
                    calledBy == CallerMain || calledBy == CallerCompet))
  }

  // ---------------------------------------------------------------------
  // The update plan (`update_snowflake`)
  // ---------------------------------------------------------------------

  /**
   * The updates `update_snowflake` launches: one python update per listed
   * table (each as `update_snowflake_from_python` would do it), then at most
   * one dbt build over the listed dbt tables (`dbtTables`), or the dbt build
   * of every seed and view (`seedsAndViews`).
   */
  datatype UpdatePlan = UpdatePlan(pythonTables: seq<string>, pythonUpdates: seq<Result<PythonUpdate>>,
                                   dbtTables: Option<seq<string>>, seedsAndViews: bool)

  /** The need's message action, game action and `calculation_needed`, as the main program passes them. */
  function NeedActions(calledBy: string, need: Row): (Option<string>, Option<string>, bool)
    requires calledBy == CallerMain ==> need.attrs.SlotAttrs?
  {
    if calledBy == CallerMain
    then (Some(need.attrs.messageAction), Some(need.attrs.gameAction), CalculationNeeded(need.attrs))
    else (None, None, false)
  }

  /** Every python update succeeded; the first that fails exits the program inside its worker. */
  predicate AllSucceeded(updates: seq<Result<PythonUpdate>>)
  {
    forall i :: 0 <= i < |updates| ==> updates[i].Ok?
  }

  /** Some row of the paths table carries a dbt category the caller selects. */
  predicate SomeDbtSelected(calledBy: string, paths: seq<PathRow>, messageAction: Option<string>,
                            gameAction: Option<string>, calculationNeeded: bool)
  {
    exists i, c :: 0 <= i < |paths| && c in paths[i].dbtCategories
                   && DbtCategorySelected(calledBy, messageAction, gameAction, calculationNeeded, c)
  }

  /**
   * `update_snowflake`: main and init_compet refresh the listed tables,
   * skipping the python step or the dbt step when its list is empty;
   * init_snowflake reloads every downloaded file (by its stem) from python
   * and then builds the seeds and views instead of listed tables; any other
   * caller updates nothing. A failed python update raises `SystemExit`
   * through `multithreading_run`, which the `exit_program` wrapper does not
   * catch, so no dbt build follows it.
   */
  method UpdateSnowflake(calledBy: string, paths: seq<PathRow>, need: Row, localStems: seq<string>,
                         localFolder: string)
    returns (plan: UpdatePlan)
    requires calledBy == CallerMain ==> need.attrs.SlotAttrs?
    ensures |plan.pythonUpdates| == |plan.pythonTables|
    ensures forall i :: 0 <= i < |plan.pythonTables| ==>
              plan.pythonUpdates[i] == UpdateFromPython(calledBy, plan.pythonTables[i], paths, localFolder)
    ensures plan.dbtTables.Some? ==>
              |plan.dbtTables.value| > 0 && NoDuplicates(plan.dbtTables.value)
              && calledBy in {CallerMain, CallerCompet} && AllSucceeded(plan.pythonUpdates)
    ensures calledBy == CallerSnowflake ==> plan.pythonTables == localStems && plan.dbtTables.None?
    ensures plan.seedsAndViews <==> calledBy == CallerSnowflake && AllSucceeded(plan.pythonUpdates)
    ensures calledBy !in {CallerMain, CallerCompet, CallerSnowflake} ==>
              plan.pythonTables == [] && plan.dbtTables.None?
    ensures calledBy in {CallerMain, CallerCompet} ==>
              var (messageAction, gameAction, _) := NeedActions(calledBy, need);
              forall t :: t in plan.pythonTables <==>
                (calledBy == CallerMain && t == LandingOutputNeed)
                || exists i :: 0 <= i < |paths| && paths[i].name == t
                               && exists c :: c in paths[i].pythonCategories
                                              && PythonCategorySelected(calledBy, messageAction, gameAction, c)
    ensures calledBy in {CallerMain, CallerCompet} ==>
              var (messageAction, gameAction, calculationNeeded) := NeedActions(calledBy, need);
              (plan.dbtTables.Some? <==>
                 AllSucceeded(plan.pythonUpdates)
                 && SomeDbtSelected(calledBy, paths, messageAction, gameAction, calculationNeeded))
              && (plan.dbtTables.Some? ==>
                    forall t :: t in plan.dbtTables.value <==>
                      exists i :: 0 <= i < |paths| && paths[i].name == t
                                  && exists c :: c in paths[i].dbtCategories
                                                 && DbtCategorySelected(calledBy, messageAction, gameAction,
                                                                        calculationNeeded, c))
  {
    plan := UpdatePlan([], [], None, false);
    var update := (t: string) => UpdateFromPython(calledBy, t, paths, localFolder);
    if calledBy == CallerMain || calledBy == CallerCompet {
      var (messageAction, gameAction, calculationNeeded) := NeedActions(calledBy, need);
      var pythonTables, dbtTables := ListTablesToUpdate(calledBy, paths, messageAction, gameAction,
                                                        calculationNeeded);
      if |pythonTables| != 0 {
        var launched := MultithreadingRun(update, pythonTables);
        plan := plan.(pythonTables := pythonTables, pythonUpdates := launched);
      }
      assert |dbtTables| != 0 <==> SomeDbtSelected(calledBy, paths, messageAction, gameAction, calculationNeeded) by {
        if |dbtTables| != 0 {
          assert dbtTables[0] in dbtTables;
        }
        if SomeDbtSelected(calledBy, paths, messageAction, gameAction, calculationNeeded) {
          var i, c :| 0 <= i < |paths| && c in paths[i].dbtCategories
                      && DbtCategorySelected(calledBy, messageAction, gameAction, calculationNeeded, c);
          assert paths[i].name in dbtTables;
        }
      }
      if AllSucceeded(plan.pythonUpdates) && |dbtTables| != 0 {
        plan := plan.(dbtTables := Some(dbtTables));
      }
    } else if calledBy == CallerSnowflake {
      var launched := MultithreadingRun(update, localStems);
      plan := UpdatePlan(localStems, launched, None, AllSucceeded(launched));
    }
  }

  // ---------------------------------------------------------------------
  // The database placeholder
  // ---------------------------------------------------------------------

  /** The database a query runs on: production iff `IS_TESTRUN` is "0". */
  function DatabaseFor(isTestrun: Option<string>, databaseProd: string, databaseTest: string): (db: string)
    ensures isTestrun == Some("0") ==> db == databaseProd
    ensures isTestrun != Some("0") ==> db == databaseTest
  {
    if isTestrun == Some("0") then databaseProd else databaseTest
  }

  const DatabasePlaceholder := "#DATABASE#"

  /** `query.replace("#DATABASE#", database)`. */
  function PersonalizeQuery(query: string, isTestrun: Option<string>, databaseProd: string, databaseTest: string)
    : string
  {
    ReplaceAll(query, DatabasePlaceholder, DatabaseFor(isTestrun, databaseProd, databaseTest))
  }

  /**
   * Each placeholder becomes the database name and the text around it is
   * kept: `SELECT * FROM #DATABASE#.TABLE1;` runs on `prod.TABLE1` in a
   * production run.
   */
  lemma PersonalizeAroundPlaceholder(before: string, after: string, isTestrun: Option<string>,
                                     databaseProd: string, databaseTest: string)
    requires '#' !in before
    ensures PersonalizeQuery(before + DatabasePlaceholder + after, isTestrun, databaseProd, databaseTest)
            == before + DatabaseFor(isTestrun, databaseProd, databaseTest)
               + PersonalizeQuery(after, isTestrun, databaseProd, databaseTest)
  {
    var db := DatabaseFor(isTestrun, databaseProd, databaseTest);
    assert before + DatabasePlaceholder + after == before + (DatabasePlaceholder + after);
    ReplaceAfterPlain(before, DatabasePlaceholder + after, DatabasePlaceholder, db);
    ReplaceAtHead(DatabasePlaceholder, after, db);
  }

  /** A query without a placeholder runs unchanged on either database. */
  lemma PersonalizeWithoutPlaceholder(query: string, isTestrun: Option<string>, databaseProd: string,
                                      databaseTest: string)
    requires !Contains(query, DatabasePlaceholder)
    ensures PersonalizeQuery(query, isTestrun, databaseProd, databaseTest) == query
  {
    ReplaceAbsent(query, DatabasePlaceholder, DatabaseFor(isTestrun, databaseProd, databaseTest));
  }
}
