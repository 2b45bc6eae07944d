/**
 * The file-level rules of a run: the schema check of a loaded csv, the
 * run log, the dbt profile's placeholders, the dependency-ordered
 * filtering of downloaded tables, the download categories and the names
 * under which local files are uploaded. Reading and writing the files,
 * Dropbox and the dependency sort itself are outside the model.
 */
module FileActions {
  import opened Wrappers
  import opened Strings
  import opened Collections
  import opened Config

  // ---------------------------------------------------------------------
  // The csv schema check (`read_and_check_csv`)
  // ---------------------------------------------------------------------

  /** A column of a loaded csv: its name, its pandas dtype, and whether every value is null. */
  datatype Column = Column(name: string, dtype: string, allNull: bool)

  /** An expected column of `file_check.json` with its dtype. */
  datatype Expected = Expected(name: string, dtype: string)

  datatype Mismatch = Mismatch(column: string, expected: string, actual: string)

  function Names(columns: seq<Column>): (r: seq<string>)
    ensures |r| == |columns| && forall k :: 0 <= k < |columns| ==> r[k] == columns[k].name
  {
    seq(|columns|, k requires 0 <= k < |columns| => columns[k].name)
  }

  /** The expected columns of a file: none when the file has no schema. */
  function SchemaFor(schemas: map<string, seq<Expected>>, fileName: string): seq<Expected>
  {
    if fileName in schemas then schemas[fileName] else []
  }

  /** The expected columns the file lacks, in schema order. */
  function MissingColumns(expected: seq<Expected>, actual: seq<Column>): (r: seq<string>)
    ensures forall c :: c in r <==>
              c !in Names(actual) && exists k :: 0 <= k < |expected| && expected[k].name == c
    decreases |expected|
  {
    if |expected| == 0 then []
    else
      var rest := MissingColumns(expected[1..], actual);
      assert forall k :: 0 < k < |expected| ==> expected[k] == expected[1..][k - 1];
      assert forall k :: 0 <= k < |expected| - 1 ==> expected[1..][k] == expected[k + 1];
      if expected[0].name in Names(actual) then rest else [expected[0].name] + rest
  }

  predicate AllPresent(expected: seq<Expected>, actual: seq<Column>)
  {
    forall k :: 0 <= k < |expected| ==> expected[k].name in Names(actual)
  }

  /** `df[col]`: the first column with that name. */
  function ColumnNamed(actual: seq<Column>, name: string): (c: Column)
    requires name in Names(actual)
    ensures c in actual && c.name == name
    decreases |actual|
  {
    if actual[0].name == name then actual[0]
    else
      assert Names(actual[1..]) == Names(actual)[1..];
      ColumnNamed(actual[1..], name)
  }

  /** A dtype mismatch, forgiven for an all-null column expected as "object". */
  predicate Mismatched(e: Expected, actual: seq<Column>)
    requires e.name in Names(actual)
  {
    var c := ColumnNamed(actual, e.name);
    !(c.allNull && e.dtype == "object") && c.dtype != e.dtype
  }

  /** The mismatches in schema order. */
  function MismatchList(expected: seq<Expected>, actual: seq<Column>): seq<Mismatch>
    requires AllPresent(expected, actual)
    decreases |expected|
  {
    if |expected| == 0 then []
    else
      var e := expected[|expected| - 1];
      var init := MismatchList(expected[..|expected| - 1], actual);
      if Mismatched(e, actual) then init + [Mismatch(e.name, e.dtype, ColumnNamed(actual, e.name).dtype)]
      else init
  }

  /** There is no mismatch exactly when no expected column is mismatched. */
  lemma {:induction false} MismatchListEmpty(expected: seq<Expected>, actual: seq<Column>)
    requires AllPresent(expected, actual)
    ensures MismatchList(expected, actual) == [] <==>
            forall k :: 0 <= k < |expected| ==> !Mismatched(expected[k], actual)
    decreases |expected|
  {
    if |expected| > 0 {
      var init := expected[..|expected| - 1];
      MismatchListEmpty(init, actual);
      assert forall k :: 0 <= k < |init| ==> init[k] == expected[k];
    }
  }

  /** The loop of `read_and_check_csv` collecting the dtype mismatches. */
  method TypeMismatches(expected: seq<Expected>, actual: seq<Column>) returns (mismatches: seq<Mismatch>)
    requires AllPresent(expected, actual)
    ensures mismatches == MismatchList(expected, actual)
  {
    mismatches := [];
    for i := 0 to |expected|
      invariant mismatches == MismatchList(expected[..i], actual)
    {
      var e := expected[i];
      assert expected[..i + 1][..i] == expected[..i];
      var c := ColumnNamed(actual, e.name);
      if c.allNull && e.dtype == "object" {
        continue;
      }
      if c.dtype != e.dtype {
        mismatches := mismatches + [Mismatch(e.name, e.dtype, c.dtype)];
      }
    }
    assert expected[..|expected|] == expected;
  }

  /**
   * `read_and_check_csv`: the frame is returned when every expected column
   * is there with its dtype; a file without a schema accepts any columns.
   */
  method ReadAndCheckCsv(fileName: string, actual: seq<Column>, schemas: map<string, seq<Expected>>)
    returns (r: Result<seq<Column>>)
    ensures var expected := SchemaFor(schemas, fileName);
            r.Ok? <==> MissingColumns(expected, actual) == []
                       && forall k :: 0 <= k < |expected| ==>
                            expected[k].name in Names(actual) && !Mismatched(expected[k], actual)
    ensures r.Ok? ==> r.value == actual
    ensures fileName !in schemas ==> r == Ok(actual)
  {
    var expected := SchemaFor(schemas, fileName);
    var missing := MissingColumns(expected, actual);
    if |missing| > 0 {
      assert missing[0] in missing;
      return Err("Columns missing in " + fileName);
    }
    assert AllPresent(expected, actual) by {
      forall k | 0 <= k < |expected|
        ensures expected[k].name in Names(actual)
      {
        assert expected[k].name !in missing;
      }
    }
    var mismatches := TypeMismatches(expected, actual);
    MismatchListEmpty(expected, actual);
    if |mismatches| > 0 {
      return Err("Type mismatches in " + fileName);
    }
    return Ok(actual);
  }

  // ---------------------------------------------------------------------
  // The run log (`modify_run_file`)
  // ---------------------------------------------------------------------

  /** A row of RUN_TYPE.csv; a missing value is a null. */
  datatype RunLogRow = RunLogRow(runTime: Option<string>, event: Option<string>, runType: Option<string>,
                                 runMethod: Option<string>, outputAuto: Option<string>,
                                 plannedRunTime: Option<string>)

  const EmptyRunLogRow := RunLogRow(None, None, None, None, None, None)

  /**
   * `df.at[0, 'EVENT'] = event`: the first row's EVENT is set, every other
   * value kept; on an empty frame pandas adds that row, its other values null.
   */
  function WithFirstEvent(rows: seq<RunLogRow>, event: string): (r: seq<RunLogRow>)
    ensures |r| == if |rows| == 0 then 1 else |rows|
    ensures |rows| > 0 ==> r[0] == rows[0].(event := Some(event)) && r[1..] == rows[1..]
  {
    if |rows| == 0 then [EmptyRunLogRow.(event := Some(event))]
    else [rows[0].(event := Some(event))] + rows[1..]
  }

  /** The terminate step marks the row its own run's initiate step added, and no earlier run's row. */
  lemma TerminateMarksOwnRow(row: RunLogRow, earlier: seq<RunLogRow>)
    ensures WithFirstEvent([row] + earlier, "terminate") == [row.(event := Some("terminate"))] + earlier
  {
    assert ([row] + earlier)[1..] == earlier;
  }

  /** The run log frame; the terminate step changes it in place. */
  class RunLog {
    var rows: seq<RunLogRow>

    constructor (rows: seq<RunLogRow>)
      ensures this.rows == rows
    {
      this.rows := rows;
    }
  }

  /**
   * `modify_run_file`: "initiate" returns a new frame with the run's row
   * first and leaves the given one alone; "terminate" sets the EVENT of
   * row 0 of the given frame in place and returns that same frame; any
   * other event leaves the result unbound, which raises.
   */
  method ModifyRunFile(log: RunLog, calledBy: string, event: string, runTime: string,
                       runMethod: Option<string>, outputAuto: Option<string>, plannedRunTime: Option<string>)
    returns (r: Result<RunLog>)
    modifies log
    ensures event == "initiate" ==>
              r.Ok? && fresh(r.value) && log.rows == old(log.rows)
              && r.value.rows == [RunLogRow(Some(runTime), Some(event), Some(calledBy), runMethod, outputAuto,
                                            plannedRunTime)] + old(log.rows)
    ensures event == "terminate" ==> r == Ok(log) && log.rows == WithFirstEvent(old(log.rows), event)
    ensures event != "initiate" && event != "terminate" ==> r.Err? && log.rows == old(log.rows)
  {
    if event == "initiate" {
      var row := RunLogRow(Some(runTime), Some(event), Some(calledBy), runMethod, outputAuto, plannedRunTime);
      var modified := new RunLog([row] + log.rows);
      return Ok(modified);
    } else if event == "terminate" {
      log.rows := WithFirstEvent(log.rows, event);
      return Ok(log);
    }
    return Err("local variable 'df_RUN_TYPE_MODIFIED' referenced before assignment");
  }

  // ---------------------------------------------------------------------
  // The dbt profile (`personalize_yml_dbt_file`, `parametrize_yml_dbt_file`)
  // ---------------------------------------------------------------------

  const AccountPlaceholder := "#ACCOUNT#"
  const DatabasePlaceholder := "#DATABASE#"
  const WarehousePlaceholder := "#WAREHOUSE#"
  const UserPlaceholder := "#USER#"
  const PasswordPlaceholder := "#PASSWORD#"

  /** The connection values the profile is personalised with; the user and password come from the environment. */
  datatype Account = Account(account: string, databaseProd: string, databaseTest: string, warehouse: string)

  /**
   * `personalize_yml_dbt_file`: a profile that still holds `#DATABASE#`
   * gets its five placeholders replaced in order and is written back (the
   * new text); otherwise nothing is written (`None`). A missing user or
   * password makes `replace` raise.
   */
  function PersonalizeYml(text: string, acc: Account, isTestrun: Option<string>,
                          user: Option<string>, password: Option<string>): (r: Result<Option<string>>)
    ensures !Contains(text, DatabasePlaceholder) ==> r == Ok(None)
    ensures Contains(text, DatabasePlaceholder) ==> (r.Ok? <==> user.Some? && password.Some?)
  {
    if !Contains(text, DatabasePlaceholder) then Ok(None)
    else if user.None? || password.None? then Err("replace() argument 2 must be str, not None")
    else
      var database := if isTestrun == Some("0") then acc.databaseProd else acc.databaseTest;
      Ok(Some(ReplaceEach(text, [(AccountPlaceholder, acc.account), (DatabasePlaceholder, database),
                                 (WarehousePlaceholder, acc.warehouse), (UserPlaceholder, user.value),
                                 (PasswordPlaceholder, password.value)])))
  }

  /** A text without `#` is left unchanged by every placeholder replacement. */
  lemma NoHashUnchanged(s: string, p: string, v: string)
    requires '#' !in s && |p| > 0 && p[0] == '#'
    ensures ReplaceAll(s, p, v) == s
  {
    AbsentFirstChar(s, p);
    ReplaceAbsent(s, p, v);
  }

  /** A `#` followed by text without `#` holds no other `#`-delimited placeholder. */
  lemma HashThenPlain(after: string, p: string, v: string)
    requires '#' !in after
    requires |p| >= 2 && p[0] == '#' && p[|p| - 1] == '#'
    ensures ReplaceAll("#" + after, p, v) == "#" + after
  {
    var hashTail := "#" + after;
    if |hashTail| >= |p| {
      assert hashTail[|p| - 1] == after[|p| - 2] != '#';
      assert !StartsWith(hashTail, p);
      ReplaceSkipHead(hashTail, p, v);
      assert hashTail[1..] == after;
      NoHashUnchanged(after, p, v);
    }
  }

  /** A placeholder other than `#DATABASE#` leaves a text whose only `#` are those of `#DATABASE#` unchanged. */
  lemma OtherPlaceholderAbsent(before: string, after: string, p: string, v: string)
    requires '#' !in before && '#' !in after
    requires |p| >= 2 && p[0] == '#' && p[|p| - 1] == '#' && p[1] != 'D'
    ensures ReplaceAll(before + DatabasePlaceholder + after, p, v) == before + DatabasePlaceholder + after
  {
    var tail := DatabasePlaceholder + after;
    assert before + DatabasePlaceholder + after == before + tail;
    ReplaceAfterPlain(before, tail, p, v);
    var word := "DATABASE";
    assert tail == "#" + (word + ("#" + after));
    if |tail| >= |p| {
      assert tail[1] == 'D';
      assert !StartsWith(tail, p);
      ReplaceSkipHead(tail, p, v);
      assert tail[1..] == word + ("#" + after);
      ReplaceAfterPlain(word, "#" + after, p, v);
      HashThenPlain(after, p, v);
    }
  }

  /** `#DATABASE#` itself becomes the database name. */
  lemma DatabasePlaceholderReplaced(before: string, after: string, v: string)
    requires '#' !in before && '#' !in after
    ensures ReplaceAll(before + DatabasePlaceholder + after, DatabasePlaceholder, v) == before + v + after
  {
    var tail := DatabasePlaceholder + after;
    assert before + DatabasePlaceholder + after == before + tail;
    ReplaceAfterPlain(before, tail, DatabasePlaceholder, v);
    ReplaceAtHead(DatabasePlaceholder, after, v);
    AbsentFirstChar(after, DatabasePlaceholder);
    ReplaceAbsent(after, DatabasePlaceholder, v);
  }

  /**
   * Personalising a profile whose only placeholder is `#DATABASE#` puts the
   * database in its place, and a second personalisation writes nothing:
   * the profile is personalised once.
   */
  lemma PersonalizeOnce(before: string, after: string, acc: Account, isTestrun: Option<string>,
                        user: string, password: string)
    requires '#' !in before && '#' !in after
    requires '#' !in acc.databaseProd && '#' !in acc.databaseTest
    ensures var database := if isTestrun == Some("0") then acc.databaseProd else acc.databaseTest;
            var once := PersonalizeYml(before + DatabasePlaceholder + after, acc, isTestrun, Some(user), Some(password));
            once == Ok(Some(before + database + after))
            && PersonalizeYml(once.value.value, acc, isTestrun, Some(user), Some(password)) == Ok(None)
  {
    var text := before + DatabasePlaceholder + after;
    var database := if isTestrun == Some("0") then acc.databaseProd else acc.databaseTest;
    assert text[|before|..|before| + |DatabasePlaceholder|] == DatabasePlaceholder;
    assert OccursAt(text, DatabasePlaceholder, |before|);
    var pairs := [(AccountPlaceholder, acc.account), (DatabasePlaceholder, database),
                  (WarehousePlaceholder, acc.warehouse), (UserPlaceholder, user), (PasswordPlaceholder, password)];
    OtherPlaceholderAbsent(before, after, AccountPlaceholder, acc.account);
    DatabasePlaceholderReplaced(before, after, database);
    var done := before + database + after;
    assert ReplaceEach(text, pairs) == ReplaceEach(text, pairs[1..]);
    assert ReplaceEach(text, pairs[1..]) == ReplaceEach(done, pairs[2..]);
    ReplaceEachNoHash(done, pairs[2..]);
    AbsentFirstChar(done, DatabasePlaceholder);
  }

  /** Replacements of `#`-placeholders leave a text without `#` alone. */
  lemma {:induction false} ReplaceEachNoHash(s: string, pairs: seq<(string, string)>)
    requires '#' !in s
    requires forall k :: 0 <= k < |pairs| ==> |pairs[k].0| > 0 && pairs[k].0[0] == '#'
    ensures ReplaceEach(s, pairs) == s
    decreases |pairs|
  {
    if |pairs| > 0 {
      NoHashUnchanged(s, pairs[0].0, pairs[0].1);
      ReplaceEachNoHash(s, pairs[1..]);
    }
  }

  /** The end of the run of whitespace (`\s*`) starting at `j`. */
  function SpaceRunEnd(s: string, j: nat): (w: nat)
    requires j <= |s|
    ensures j <= w <= |s|
    ensures forall k :: j <= k < w ==> IsSpace(s[k])
    ensures w == |s| || !IsSpace(s[w])
    decreases |s| - j
  {
    if j < |s| && IsSpace(s[j]) then SpaceRunEnd(s, j + 1) else j
  }

  /** The last position in `[a, w)` that is not a newline. */
  function LastNonNewline(s: string, a: nat, w: nat): (r: Option<nat>)
    requires a <= w <= |s|
    ensures r.Some? ==> a <= r.value < w && s[r.value] != '\n'
    ensures r.None? ==> forall k :: a <= k < w ==> s[k] == '\n'
    decreases w - a
  {
    if w == a then None
    else if s[w - 1] != '\n' then Some(w - 1)
    else LastNonNewline(s, a, w - 1)
  }

  /**
   * Where `.+` starts once the key matched and `\s*` took all the whitespace
   * from `a`: right there when a character follows, else the whitespace is
   * given back until `.` (anything but a newline) can match.
   */
  function ValueStart(s: string, a: nat): (r: Option<nat>)
    requires a <= |s|
    ensures r.Some? ==> a <= r.value < |s| && s[r.value] != '\n'
                        && forall k :: a <= k < r.value ==> IsSpace(s[k])
  {
    var w := SpaceRunEnd(s, a);
    if w < |s| then Some(w) else LastNonNewline(s, a, w)
  }

  /** The first newline at or after `j`, or the end of the text. */
  function LineEnd(s: string, j: nat): (e: nat)
    requires j <= |s|
    ensures j <= e <= |s| && (e == |s| || s[e] == '\n')
    ensures forall k :: j <= k < e ==> s[k] != '\n'
    decreases |s| - j
  {
    if j == |s| || s[j] == '\n' then j else LineEnd(s, j + 1)
  }

  /**
   * `re.sub(key + r'\s*).+', r'\1' + placeholder, s)` with the group opened
   * before the key: every leftmost match keeps the key and the whitespace
   * after it and replaces the rest of the line by the placeholder.
   */
  function SubstituteValue(s: string, key: string, placeholder: string): string
    requires |key| > 0
    decreases |s|
  {
    if |s| == 0 then ""
    else if StartsWith(s, key) && ValueStart(s, |key|).Some? then
      var j := ValueStart(s, |key|).value;
      var e := LineEnd(s, j);
      s[..j] + placeholder + SubstituteValue(s[e..], key, placeholder)
    else [s[0]] + SubstituteValue(s[1..], key, placeholder)
  }

  /** A text without the key is left as it is. */
  lemma {:induction false} SubstituteWithoutKey(s: string, key: string, placeholder: string)
    requires |key| > 0 && !Contains(s, key)
    ensures SubstituteValue(s, key, placeholder) == s
    decreases |s|
  {
    if |s| > 0 {
      assert !OccursAt(s, key, 0);
      assert !Contains(s[1..], key) by {
        forall i: nat | i <= |s[1..]|
          ensures !OccursAt(s[1..], key, i)
        {
          assert !OccursAt(s, key, i + 1);
          if i + |key| <= |s[1..]| {
            assert s[1..][i..i + |key|] == s[i + 1..i + 1 + |key|];
          }
        }
      }
      SubstituteWithoutKey(s[1..], key, placeholder);
      assert s == [s[0]] + s[1..];
    }
  }

  /**
   * A `key: value` line loses its value: the key and the spaces after it
   * stay, the value up to the end of the line becomes the placeholder.
   */
  lemma SubstituteLine(key: string, spaces: string, value: string, rest: string, placeholder: string)
    requires |key| > 0
    requires forall k :: 0 <= k < |spaces| ==> IsSpace(spaces[k])
    requires |value| > 0 && !IsSpace(value[0]) && '\n' !in value
    requires rest == [] || rest[0] == '\n'
    ensures SubstituteValue(key + spaces + value + rest, key, placeholder)
            == key + spaces + placeholder + SubstituteValue(rest, key, placeholder)
  {
    var s := key + spaces + value + rest;
    var a := |key|;
    var j := a + |spaces|;
    assert s[..a] == key;
    assert forall k :: a <= k < j ==> s[k] == spaces[k - a];
    assert s[j] == value[0];
    assert forall k :: a <= k < j ==> IsSpace(s[k]);
    assert !IsSpace(s[j]);
    assert SpaceRunEnd(s, a) == j;
    assert forall k :: j <= k < j + |value| ==> s[k] == value[k - j];
    assert forall k :: j <= k < j + |value| ==> s[k] != '\n';
    assert j + |value| == |s| || s[j + |value|] == '\n';
    var e := LineEnd(s, j);
    assert e == j + |value|;
    assert s[..j] == key + spaces;
    assert s[e..] == rest;
  }

  /** `parametrize_yml_dbt_file`: account, database, password and user lose their values; the warehouse keeps its. */
  function ParametrizeYml(text: string): string
  {
    var t1 := SubstituteValue(text, "account:", AccountPlaceholder);
    var t2 := SubstituteValue(t1, "database:", DatabasePlaceholder);
    var t3 := SubstituteValue(t2, "password:", PasswordPlaceholder);
    SubstituteValue(t3, "user:", UserPlaceholder)
  }

  /** A line none of the four keys occurs in (the warehouse line) is not parametrised. */
  lemma ParametrizeLeavesOtherText(text: string)
    requires !Contains(text, "account:") && !Contains(text, "database:")
    requires !Contains(text, "password:") && !Contains(text, "user:")
    ensures ParametrizeYml(text) == text
  {
    SubstituteWithoutKey(text, "account:", AccountPlaceholder);
    SubstituteWithoutKey(text, "database:", DatabasePlaceholder);
    SubstituteWithoutKey(text, "password:", PasswordPlaceholder);
    SubstituteWithoutKey(text, "user:", UserPlaceholder);
  }

  // ---------------------------------------------------------------------
  // Dependency-ordered filtering (`filter_data`)
  // ---------------------------------------------------------------------

  /** A loaded table: its column names and its rows, one value per column. */
  datatype Table = Table(columns: seq<string>, rows: seq<seq<string>>)

  /** A paths row's filtering rule. */
  datatype FilterRule = FilterRule(name: string, category: string, filteringFile: string,
                                   filteringColumns: seq<string>)

  /** The data dictionary key of a file. */
  function DataKey(name: string): string
  {
    "df_" + name
  }

  lemma DataKeyInjective(a: string, b: string)
    requires DataKey(a) == DataKey(b)
    ensures a == b
  {
    assert a == DataKey(a)[3..] && b == DataKey(b)[3..];
  }

  /** The position of the first occurrence of a present value. */
  function FirstIndex(columns: seq<string>, c: string): (i: nat)
    requires c in columns
    ensures i < |columns| && columns[i] == c && c !in columns[..i]
    decreases |columns|
  {
    if columns[0] == c then 0
    else
      var i := FirstIndex(columns[1..], c) + 1;
      assert columns[..i] == [columns[0]] + columns[1..][..i - 1];
      i
  }

  /** The position of each column, or the `KeyError` of a missing one. */
  function ColumnIndices(columns: seq<string>, wanted: seq<string>): (r: Result<seq<nat>>)
    ensures r.Ok? ==> |r.value| == |wanted| && forall k :: 0 <= k < |wanted| ==> r.value[k] < |columns|
    ensures r.Ok? <==> forall k :: 0 <= k < |wanted| ==> wanted[k] in columns
    decreases |wanted|
  {
    if |wanted| == 0 then Ok([])
    else if wanted[0] !in columns then Err("KeyError")
    else
      var i := FirstIndex(columns, wanted[0]);
      var rest := ColumnIndices(columns, wanted[1..]);
      assert forall k :: 0 < k < |wanted| ==> wanted[k] == wanted[1..][k - 1];
      if rest.Err? then Err("KeyError") else Ok([i] + rest.value)
  }

  predicate WellFormed(t: Table)
  {
    forall r :: r in t.rows ==> |r| == |t.columns|
  }

  function Project(row: seq<string>, indices: seq<nat>): seq<string>
    requires forall k :: 0 <= k < |indices| ==> indices[k] < |row|
  {
    seq(|indices|, k requires 0 <= k < |indices| => row[indices[k]])
  }

  /** The filtering frame's values at `indices`, duplicates dropped (`drop_duplicates`). */
  function FilterKeys(rows: seq<seq<string>>, indices: seq<nat>): (keys: seq<seq<string>>)
    requires forall x :: x in rows ==> forall k :: 0 <= k < |indices| ==> indices[k] < |x|
    ensures NoDuplicates(keys)
    ensures forall v :: v in keys <==> exists x :: x in rows && Project(x, indices) == v
  {
    var projected := seq(|rows|, k requires 0 <= k < |rows| => Project(rows[k], indices));
    assert forall x :: x in rows ==> Project(x, indices) in projected by {
      forall x | x in rows ensures Project(x, indices) in projected {
        var k :| 0 <= k < |rows| && rows[k] == x;
        assert projected[k] == Project(x, indices);
      }
    }
    Distinct(projected)
  }

  /** The rows whose values at `indices` are among `keys`, in their order. */
  function KeepMatching(rows: seq<seq<string>>, indices: seq<nat>, keys: seq<seq<string>>): (r: seq<seq<string>>)
    requires forall x :: x in rows ==> forall k :: 0 <= k < |indices| ==> indices[k] < |x|
    ensures SubsequenceOf(r, rows)
    ensures forall x :: x in r <==> x in rows && Project(x, indices) in keys
    decreases |rows|
  {
    if |rows| == 0 then []
    else
      var rest := KeepMatching(rows[1..], indices, keys);
      assert forall x :: x in rows <==> x == rows[0] || x in rows[1..];
      if Project(rows[0], indices) in keys then [rows[0]] + rest else rest
  }

  /**
   * `left.merge(filtering[cols].drop_duplicates(), on=cols, how='inner')`:
   * the left rows whose values on `cols` occur in the filtering table, in
   * the left order, each once, with the left columns.
   */
  function SemiJoin(left: Table, filtering: Table, cols: seq<string>): (r: Result<Table>)
    requires WellFormed(left) && WellFormed(filtering)
    ensures r.Ok? ==> r.value.columns == left.columns && WellFormed(r.value)
                      && SubsequenceOf(r.value.rows, left.rows)
  {
    var li :- ColumnIndices(left.columns, cols);
    var fi :- ColumnIndices(filtering.columns, cols);
    Ok(Table(left.columns, KeepMatching(left.rows, li, FilterKeys(filtering.rows, fi))))
  }

  predicate AllWellFormed(files: map<string, Table>)
  {
    forall k :: k in files ==> WellFormed(files[k])
  }

  /** Whether a rule filters: its table is loaded, it names columns and a filtering file. */
  predicate Applies(files: map<string, Table>, rule: FilterRule)
  {
    DataKey(rule.name) in files && |rule.filteringColumns| > 0 && rule.filteringFile != ""
  }

  /** One iteration of `filter_data`'s loop. */
  function FilterStep(files: map<string, Table>, rule: FilterRule): (r: Result<map<string, Table>>)
    requires AllWellFormed(files)
    ensures r.Ok? ==> r.value.Keys == files.Keys && AllWellFormed(r.value)
    ensures r.Ok? ==> forall k :: k in files && k != DataKey(rule.name) ==> r.value[k] == files[k]
    ensures r.Ok? && !Applies(files, rule) ==> r.value == files
  {
    if Applies(files, rule) then
      var key := DataKey(rule.name);
      var filteringKey := DataKey(rule.filteringFile);
      if filteringKey !in files then Err("KeyError: " + filteringKey)
      else
        var filtered :- SemiJoin(files[key], files[filteringKey], rule.filteringColumns);
        Ok(files[key := filtered])
    else Ok(files)
  }

  /** The loop over the sorted rules. */
  function FilterAll(files: map<string, Table>, rules: seq<FilterRule>): (r: Result<map<string, Table>>)
    requires AllWellFormed(files)
    ensures r.Ok? ==> r.value.Keys == files.Keys && AllWellFormed(r.value)
    decreases |rules|
  {
    if |rules| == 0 then Ok(files)
    else
      var next :- FilterStep(files, rules[0]);
      FilterAll(next, rules[1..])
  }

  /** Running the rules in two stretches is running them at once. */
  lemma {:induction false} FilterAllSplit(files: map<string, Table>, a: seq<FilterRule>, b: seq<FilterRule>)
    requires AllWellFormed(files)
    ensures FilterAll(files, a + b) == match FilterAll(files, a)
                                       case Err(e) => Err(e)
                                       case Ok(f) => FilterAll(f, b)
    decreases |a|
  {
    if |a| > 0 {
      assert (a + b)[1..] == a[1..] + b;
      assert (a + b)[0] == a[0];
      var next := FilterStep(files, a[0]);
      if next.Ok? {
        FilterAllSplit(next.value, a[1..], b);
      }
    } else {
      assert a + b == b;
    }
  }

  /** A table no rule is about is left as it was. */
  lemma {:induction false} FilterAllUntouched(files: map<string, Table>, rules: seq<FilterRule>, name: string)
    requires AllWellFormed(files) && FilterAll(files, rules).Ok? && DataKey(name) in files
    requires forall k :: 0 <= k < |rules| ==> rules[k].name != name
    ensures FilterAll(files, rules).value[DataKey(name)] == files[DataKey(name)]
    decreases |rules|
  {
    if |rules| > 0 {
      var next := FilterStep(files, rules[0]).value;
      if DataKey(rules[0].name) == DataKey(name) {
        DataKeyInjective(rules[0].name, name);
      }
      FilterAllUntouched(next, rules[1..], name);
    }
  }

  predicate UniqueNames(rules: seq<FilterRule>)
  {
    forall i, j :: 0 <= i < j < |rules| ==> rules[i].name != rules[j].name
  }

  /** The run around rule `j`: the rules before it, then its step, then the rules after it. */
  lemma FilterAllAround(files: map<string, Table>, rules: seq<FilterRule>, j: nat)
    requires AllWellFormed(files) && FilterAll(files, rules).Ok? && j < |rules|
    ensures FilterAll(files, rules[..j]).Ok?
    ensures var mid := FilterAll(files, rules[..j]).value;
            FilterStep(mid, rules[j]).Ok? && FilterAll(FilterStep(mid, rules[j]).value, rules[j + 1..]) == FilterAll(files, rules)
  {
    var post := [rules[j]] + rules[j + 1..];
    assert rules == rules[..j] + post;
    FilterAllSplit(files, rules[..j], post);
    assert post[1..] == rules[j + 1..];
  }

  /** A rule that applies and succeeds replaces its file by the semi-join with its filtering file. */
  lemma FilterStepApplied(files: map<string, Table>, rule: FilterRule)
    requires AllWellFormed(files) && FilterStep(files, rule).Ok? && Applies(files, rule)
    ensures DataKey(rule.filteringFile) in files
    ensures SemiJoin(files[DataKey(rule.name)], files[DataKey(rule.filteringFile)], rule.filteringColumns)
            == Ok(FilterStep(files, rule).value[DataKey(rule.name)])
  {
  }

  /**
   * A file is filtered against its filtering file AS ALREADY FILTERED:
   * when the filtering file's rule comes first, the file's final table is
   * the semi-join of its loaded table with the filtering file's final table.
   */
  lemma FilteredAgainstFilteredSource(files: map<string, Table>, rules: seq<FilterRule>, i: nat, j: nat)
    requires AllWellFormed(files) && FilterAll(files, rules).Ok? && UniqueNames(rules)
    requires i < j < |rules| && rules[j].filteringFile == rules[i].name && Applies(files, rules[j])
    ensures var out := FilterAll(files, rules).value;
            var b := DataKey(rules[j].name);
            var a := DataKey(rules[i].name);
            b in files && a in out && WellFormed(files[b]) && WellFormed(out[a])
            && SemiJoin(files[b], out[a], rules[j].filteringColumns) == Ok(out[b])
  {
    FilterAllAround(files, rules, j);
    var mid := FilterAll(files, rules[..j]).value;
    var stepped := FilterStep(mid, rules[j]).value;
    UntouchedBefore(files, rules, j);
    FilterStepApplied(mid, rules[j]);
    UntouchedAfter(stepped, rules, i, j);
    UntouchedAfter(stepped, rules, j, j);
    var a := DataKey(rules[i].name);
    var b := DataKey(rules[j].name);
    assert a != b by {
      if a == b {
        DataKeyInjective(rules[i].name, rules[j].name);
      }
    }
    assert stepped[a] == mid[a];
  }

  /** The rules before rule `j` leave its file as loaded. */
  lemma UntouchedBefore(files: map<string, Table>, rules: seq<FilterRule>, j: nat)
    requires AllWellFormed(files) && j < |rules| && FilterAll(files, rules[..j]).Ok? && UniqueNames(rules)
    requires DataKey(rules[j].name) in files
    ensures FilterAll(files, rules[..j]).value[DataKey(rules[j].name)] == files[DataKey(rules[j].name)]
  {
    assert forall k :: 0 <= k < j ==> rules[..j][k] == rules[k];
    FilterAllUntouched(files, rules[..j], rules[j].name);
  }

  /** The rules after rule `j` leave the file of rule `i`, for `i <= j`, as they find it. */
  lemma UntouchedAfter(files: map<string, Table>, rules: seq<FilterRule>, i: nat, j: nat)
    requires AllWellFormed(files) && i <= j < |rules| && FilterAll(files, rules[j + 1..]).Ok? && UniqueNames(rules)
    requires DataKey(rules[i].name) in files
    ensures FilterAll(files, rules[j + 1..]).value[DataKey(rules[i].name)] == files[DataKey(rules[i].name)]
  {
    assert forall k :: j < k < |rules| ==> rules[j + 1..][k - j - 1] == rules[k];
    FilterAllUntouched(files, rules[j + 1..], rules[i].name);
  }

  /** The data dictionary of a run; `filter_data` rewrites its entries in place. */
  class DataDict {
    var frames: map<string, Table>

    constructor (frames: map<string, Table>)
      ensures this.frames == frames
    {
      this.frames := frames;
    }
  }

  /**
   * Each file's rule comes strictly after the rule of its filtering file, so a
   * rule filtering its own file (a self-loop the sort refuses) cannot occur.
   */
  predicate DependencyOrdered(rules: seq<FilterRule>)
  {
    forall i, j :: 0 <= i < |rules| && 0 <= j < |rules| && rules[j].filteringFile == rules[i].name ==> i < j
  }

  /** A rule filtering its own file is a self-loop: no dependency order contains it. */
  lemma SelfFilteringUnordered(rules: seq<FilterRule>, i: nat)
    requires i < |rules| && rules[i].filteringFile == rules[i].name
    ensures !DependencyOrdered(rules)
  {
  }

  /** The paths rows of one filtering category, in table order. */
  function CategoryRules(paths: seq<FilterRule>, category: string): (r: seq<FilterRule>)
    ensures forall x :: x in r <==> x in paths && x.category == category
    decreases |paths|
  {
    if |paths| == 0 then []
    else
      var rest := CategoryRules(paths[1..], category);
      assert forall x :: x in paths <==> x == paths[0] || x in paths[1..];
      if paths[0].category == category then [paths[0]] + rest else rest
  }

  /**
   * `filter_data`: the category's rules, sorted so that a filtering file
   * comes before the files it filters (`sorted`, as the topological sort
   * gives it), are applied one after the other to the data dictionary.
   */
  method FilterData(data: DataDict, paths: seq<FilterRule>, category: string, sorted: seq<FilterRule>)
    returns (r: Result<()>)
    requires AllWellFormed(data.frames)
    requires |sorted| == |CategoryRules(paths, category)|
    requires forall x :: x in sorted <==> x in CategoryRules(paths, category)
    requires DependencyOrdered(sorted)
    modifies data
    ensures r.Ok? <==> FilterAll(old(data.frames), sorted).Ok?
    ensures r.Ok? ==> data.frames == FilterAll(old(data.frames), sorted).value
  {
    ghost var start := data.frames;
    for i := 0 to |sorted|
      invariant AllWellFormed(data.frames)
      invariant FilterAll(start, sorted) == FilterAll(data.frames, sorted[i..])
    {
      var rule := sorted[i];
      assert sorted[i..][0] == rule && sorted[i..][1..] == sorted[i + 1..];
      var key := DataKey(rule.name);
      if key in data.frames && |rule.filteringColumns| > 0 && rule.filteringFile != "" {
        var filteringKey := DataKey(rule.filteringFile);
        if filteringKey !in data.frames {
          return Err("KeyError: " + filteringKey);
        }
        var filtered := SemiJoin(data.frames[key], data.frames[filteringKey], rule.filteringColumns);
        if filtered.Err? {
          return Err(filtered.error);
        }
        data.frames := data.frames[key := filtered.value];
      }
    }
    return Ok(());
  }

  /** On a single shared column, the semi-join keeps the rows found in the filtering frame. */
  lemma SemiJoinSingle(c: string, left: seq<seq<string>>, filtering: seq<seq<string>>)
    requires forall r :: r in left ==> |r| == 1
    requires forall r :: r in filtering ==> |r| == 1
    ensures SemiJoin(Table([c], left), Table([c], filtering), [c])
            == Ok(Table([c], KeepMatching(left, [0], FilterKeys(filtering, [0]))))
  {
    SingleColumn(c);
  }

  /** Filtering `[y, z]` on a column by `[x, y]` keeps `[y]` when `z` is neither `x` nor `y`. */
  lemma SemiJoinKeepsShared(c: string, x: string, y: string, z: string)
    requires z != x && z != y
    ensures SemiJoin(Table([c], [[y], [z]]), Table([c], [[x], [y]]), [c]) == Ok(Table([c], [[y]]))
  {
    KeepShared(x, y, z);
    SemiJoinSingle(c, [[y], [z]], [[x], [y]]);
  }

  /** The matching step of the example: `[y]` has a partner, `[z]` has none. */
  lemma KeepShared(x: string, y: string, z: string)
    requires z != x && z != y
    ensures KeepMatching([[y], [z]], [0], FilterKeys([[x], [y]], [0])) == [[y]]
  {
    var keys := FilterKeys([[x], [y]], [0]);
    SingleKeys([[x], [y]]);
    PairMembers(x, y, z);
    KeepExample(y, z, keys);
  }

  /** Filtering `[2, 3]` on `col` by `[1, 2]` keeps `[2]`. */
  lemma SemiJoinExample()
    ensures SemiJoin(Table(["col"], [["2"], ["3"]]), Table(["col"], [["1"], ["2"]]), ["col"])
            == Ok(Table(["col"], [["2"]]))
  {
    assert "3"[0] != "1"[0] && "3"[0] != "2"[0];
    SemiJoinKeepsShared("col", "1", "2", "3");
  }

  lemma PairMembers(x: string, y: string, z: string)
    requires z != x && z != y
    ensures [y] in [[x], [y]] && [z] !in [[x], [y]]
  {
    assert [z] != [x] && [z] != [y] by { assert [z][0] == z; }
    assert [[x], [y]][1] == [y];
  }

  /** On one column the keys are the filtering rows themselves. */
  lemma SingleKeys(rows: seq<seq<string>>)
    requires forall r :: r in rows ==> |r| == 1
    ensures forall v :: v in FilterKeys(rows, [0]) <==> v in rows
  {
    forall x | x in rows
      ensures Project(x, [0]) == x
    {
      assert x == [x[0]];
    }
  }

  lemma KeepExample(y: string, z: string, keys: seq<seq<string>>)
    requires [y] in keys && [z] !in keys
    ensures KeepMatching([[y], [z]], [0], keys) == [[y]]
  {
    ProjectSingle(y);
    ProjectSingle(z);
    assert KeepMatching([[z]], [0], keys) == [];
  }

  lemma SingleColumn(c: string)
    ensures ColumnIndices([c], [c]) == Ok([0])
  {
    assert FirstIndex([c], c) == 0;
    assert [c][1..] == [];
    assert ColumnIndices([c], []) == Ok([]);
    assert [0] + [] == [0];
  }

  lemma ProjectSingle(v: string)
    ensures Project([v], [0]) == [v]
  {
  }

  /** A rule without a filtering file leaves every frame as it is. */
  lemma UnfilteredRule(files: map<string, Table>, rule: FilterRule)
    requires AllWellFormed(files) && rule.filteringFile == ""
    ensures FilterStep(files, rule) == Ok(files)
  {
  }

  /** The example's second rule filters `df_df2` by `df_df1`. */
  lemma ExampleSecondRule(files: map<string, Table>)
    requires AllWellFormed(files)
    requires "df_df1" in files && files["df_df1"] == Table(["col"], [["1"], ["2"]])
    requires "df_df2" in files && files["df_df2"] == Table(["col"], [["2"], ["3"]])
    ensures FilterStep(files, FilterRule("df2", "cat", "df1", ["col"]))
            == Ok(files["df_df2" := Table(["col"], [["2"]])])
  {
    assert DataKey("df1") == "df_df1";
    assert DataKey("df2") == "df_df2";
    SemiJoinExample();
  }

  /** With `df1` unfiltered and `df2` filtered on `col` by `df1`, `df2` keeps only the value both hold. */
  lemma FilterExample()
    ensures var files := map["df_df1" := Table(["col"], [["1"], ["2"]]),
                             "df_df2" := Table(["col"], [["2"], ["3"]])];
            var rules := [FilterRule("df1", "cat", "", ["col"]), FilterRule("df2", "cat", "df1", ["col"])];
            FilterAll(files, rules) == Ok(files["df_df2" := Table(["col"], [["2"]])])
  {
    var files := map["df_df1" := Table(["col"], [["1"], ["2"]]),
                     "df_df2" := Table(["col"], [["2"], ["3"]])];
    var first := FilterRule("df1", "cat", "", ["col"]);
    var second := FilterRule("df2", "cat", "df1", ["col"]);
    var result := files["df_df2" := Table(["col"], [["2"]])];
    assert AllWellFormed(files);
    UnfilteredRule(files, first);
    ExampleSecondRule(files);
    assert FilterAll(result, []) == Ok(result);
    assert FilterAll(files, [second]) == Ok(result);
    assert [first, second][1..] == [second];
  }

  // ---------------------------------------------------------------------
  // Download categories (`download_needed_files`)
  // ---------------------------------------------------------------------

  const DownloadMessage := "MESSAGE"
  const DownloadGameRun := "GAME_RUN"

  /**
   * The download categories of a need: MESSAGE for a CHECK or RUN message
   * action; GAME_RUN when the game action is `in ("RUN")`, a substring test
   * on the string "RUN"; the task itself for INIT and CALCULATE.
   */
  function DownloadCategories(messageAction: string, gameAction: string, taskRun: string): (r: seq<string>)
    ensures DownloadMessage in r <==> messageAction == ActionCheck || messageAction == ActionRun
    ensures DownloadGameRun in r <==> Contains(ActionRun, gameAction)
    ensures taskRun == TaskInit || taskRun == TaskCalculate ==> taskRun in r
    ensures forall c :: c in r ==>
              c == DownloadMessage || c == DownloadGameRun || (c == taskRun && (taskRun == TaskInit || taskRun == TaskCalculate))
  {
    (if messageAction == ActionCheck || messageAction == ActionRun then [DownloadMessage] else [])
    + (if Contains(ActionRun, gameAction) then [DownloadGameRun] else [])
    + (if taskRun == TaskInit || taskRun == TaskCalculate then [taskRun] else [])
  }

  /** The substring test lets "RUN", "R" and even the empty action through, but not "AVOID". */
  lemma GameRunSubstring()
    ensures Contains(ActionRun, "RUN") && Contains(ActionRun, "R") && Contains(ActionRun, "")
    ensures !Contains(ActionRun, ActionAvoid)
  {
    assert OccursAt(ActionRun, "RUN", 0);
    assert OccursAt(ActionRun, "R", 0);
    assert OccursAt(ActionRun, "", 0);
  }

  /** A paths row for downloads: the file name and its download categories. */
  datatype DownloadRow = DownloadRow(name: string, categories: seq<string>)

  /** The files having one of the categories, in paths order. */
  function FilesToDownload(paths: seq<DownloadRow>, categories: seq<string>): (r: seq<string>)
    ensures forall n :: n in r <==>
              exists i :: 0 <= i < |paths| && paths[i].name == n
                          && exists c :: c in paths[i].categories && c in categories
    decreases |paths|
  {
    if |paths| == 0 then []
    else
      var rest := FilesToDownload(paths[1..], categories);
      assert forall i :: 0 < i < |paths| ==> paths[i] == paths[1..][i - 1];
      assert forall i :: 0 <= i < |paths| - 1 ==> paths[1..][i] == paths[i + 1];
      if exists c :: c in paths[0].categories && c in categories then [paths[0].name] + rest else rest
  }

  // ---------------------------------------------------------------------
  // Upload names (`terminate_local_environment`)
  // ---------------------------------------------------------------------

  /** `name.rfind('.')`. */
  function LastDot(name: string): (r: Option<nat>)
    ensures r.Some? ==> r.value < |name| && name[r.value] == '.'
                        && forall k :: r.value < k < |name| ==> name[k] != '.'
    ensures r.None? ==> '.' !in name
    decreases |name|
  {
    if |name| == 0 then None
    else if name[|name| - 1] == '.' then Some(|name| - 1)
    else
      var r := LastDot(name[..|name| - 1]);
      assert name == name[..|name| - 1] + [name[|name| - 1]];
      r
  }

  /** Where `PurePath.suffix` starts: at the last dot, unless the dot is first or last; otherwise the suffix is empty. */
  function SuffixStart(name: string): (i: nat)
    ensures i <= |name|
  {
    match LastDot(name)
    case None => |name|
    case Some(d) => if 0 < d < |name| - 1 then d else |name|
  }

  /** `PurePath.suffix`. */
  function Suffix(name: string): string
  {
    name[SuffixStart(name)..]
  }

  /** `PurePath.stem`: the name without its suffix. */
  function Stem(name: string): string
  {
    name[..SuffixStart(name)]
  }

  /** A suffix is empty or a dot, at least one other character and no further dot, after a non-empty stem. */
  lemma SuffixShape(name: string)
    ensures Stem(name) + Suffix(name) == name
    ensures var r := Suffix(name);
            r == "" || (|r| >= 2 && r[0] == '.' && |Stem(name)| > 0 && forall k :: 1 <= k < |r| ==> r[k] != '.')
  {
  }

  const JpgUploadName := "*_jpg"
  const ForumOutputUploadName := "forumoutput_*_txt"

  /**
   * The paths name a local file is uploaded under: every jpg under one
   * name, every forum output text under another, any other file under its stem.
   */
  function UploadName(fileName: string): string
  {
    var extension := Lower(Suffix(fileName));
    var stem := Stem(fileName);
    if extension == ".jpg" then JpgUploadName
    else if extension == ".txt" && StartsWith(Lower(stem), "forumoutput_") then ForumOutputUploadName
    else stem
  }

  lemma SuffixOf(stem: string, extension: string)
    requires |stem| > 0 && |extension| >= 2 && extension[0] == '.'
    requires forall k :: 1 <= k < |extension| ==> extension[k] != '.'
    ensures Suffix(stem + extension) == extension && Stem(stem + extension) == stem
  {
    var name := stem + extension;
    var i := |stem|;
    assert name[i] == '.';
    assert forall k :: i < k < |name| ==> name[k] == extension[k - i];
    assert LastDot(name) == Some(i);
    assert name[i..] == extension;
  }

  /** Every jpg, whatever the case of its extension, is uploaded as `*_jpg`. */
  lemma JpgUpload(stem: string, extension: string)
    requires |stem| > 0 && Lower(extension) == ".jpg" && extension[0] == '.'
    ensures UploadName(stem + extension) == JpgUploadName
  {
    assert forall k :: 1 <= k < |extension| ==> extension[k] != '.' by {
      forall k | 1 <= k < |extension|
        ensures extension[k] != '.'
      {
        assert LowerChar(extension[k]) == Lower(extension)[k] != '.';
      }
    }
    SuffixOf(stem, extension);
  }

  /** A forum output text, whatever the case of its prefix, is uploaded as `forumoutput_*_txt`. */
  lemma ForumOutputUpload(prefix: string, rest: string)
    requires Lower(prefix) == "forumoutput_" && '.' !in rest
    ensures UploadName(prefix + rest + ".txt") == ForumOutputUploadName
  {
    var stem := prefix + rest;
    SuffixOf(stem, ".txt");
    assert Lower(".txt") == ".txt";
    assert Lower(stem)[..|prefix|] == Lower(prefix);
  }

  /** A paths row for uploads: the name, the remote path and the upload flag. */
  datatype UploadRow = UploadRow(name: string, path: string, isForUpload: bool)

  /** `df_paths[df_paths['NAME'] == name].iloc[0]`: the first row with the name, or an IndexError. */
  function PathDetails(paths: seq<UploadRow>, name: string): (r: Result<UploadRow>)
    ensures r.Ok? <==> exists k :: 0 <= k < |paths| && paths[k].name == name
    ensures r.Ok? ==> r.value in paths && r.value.name == name
    decreases |paths|
  {
    if |paths| == 0 then Err("single positional indexer is out-of-bounds")
    else if paths[0].name == name then Ok(paths[0])
    else
      var r := PathDetails(paths[1..], name);
      assert forall k :: 0 < k < |paths| ==> paths[k] == paths[1..][k - 1];
      r
  }

  /** A local file: its folder and its name. */
  datatype LocalFile = LocalFile(folder: string, name: string)

  /** Each local file with the paths row of its upload name, or the lookup's IndexError. */
  function Lookups(files: seq<LocalFile>, paths: seq<UploadRow>): (r: seq<(LocalFile, Result<UploadRow>)>)
    ensures |r| == |files|
    ensures forall k :: 0 <= k < |files| ==> r[k] == (files[k], PathDetails(paths, UploadName(files[k].name)))
  {
    seq(|files|, k requires 0 <= k < |files| => (files[k], PathDetails(paths, UploadName(files[k].name))))
  }

  /** The flagged files with their remote paths, in order; the first failed lookup raises. */
  function Flagged(lookups: seq<(LocalFile, Result<UploadRow>)>): Result<seq<(LocalFile, string)>>
    decreases |lookups|
  {
    if |lookups| == 0 then Ok([])
    else
      var init :- Flagged(lookups[..|lookups| - 1]);
      var last := lookups[|lookups| - 1];
      var details :- last.1;
      Ok(init + if details.isForUpload then [(last.0, details.path)] else [])
  }

  /** The uploads of some local files. */
  function UploadsOf(files: seq<LocalFile>, paths: seq<UploadRow>): Result<seq<(LocalFile, string)>>
  {
    Flagged(Lookups(files, paths))
  }

  /** The upload list exists exactly when every lookup succeeds. */
  lemma {:induction false} FlaggedOk(lookups: seq<(LocalFile, Result<UploadRow>)>)
    ensures Flagged(lookups).Ok? <==> forall k :: 0 <= k < |lookups| ==> lookups[k].1.Ok?
    decreases |lookups|
  {
    if |lookups| > 0 {
      var n := |lookups| - 1;
      FlaggedOk(lookups[..n]);
      assert forall k :: 0 <= k < n ==> lookups[..n][k] == lookups[k];
    }
  }

  /** The upload list holds every file whose row flags it for upload, with that row's path, and nothing else. */
  lemma {:induction false} FlaggedMembers(lookups: seq<(LocalFile, Result<UploadRow>)>)
    requires Flagged(lookups).Ok?
    ensures forall u :: u in Flagged(lookups).value <==>
              exists k :: 0 <= k < |lookups| && lookups[k].0 == u.0 && lookups[k].1.Ok?
                          && lookups[k].1.value.isForUpload && lookups[k].1.value.path == u.1
    decreases |lookups|
  {
    if |lookups| > 0 {
      var n := |lookups| - 1;
      FlaggedMembers(lookups[..n]);
      assert forall k :: 0 <= k < n ==> lookups[..n][k] == lookups[k];
    }
  }

  /**
   * The upload list of `terminate_local_environment`: every file of the
   * caller's folders, in folder and listing order; a caller without
   * folders cannot iterate `None`.
   */
  method UploadList(calledBy: string, listing: map<string, seq<string>>, paths: seq<UploadRow>)
    returns (r: Result<seq<(LocalFile, string)>>)
    requires LocalFolder in listing && LocalDatabase in listing
    ensures calledBy !in UploadFolderMap ==> r.Err?
    ensures calledBy in UploadFolderMap ==>
              var expected := UploadsOf(LocalFiles(UploadFolderMap[calledBy], listing), paths);
              (r.Ok? <==> expected.Ok?) && (r.Ok? ==> r == expected)
  {
    if calledBy !in UploadFolderMap {
      return Err("'NoneType' object is not iterable");
    }
    var files := ListLocalFiles(UploadFolderMap[calledBy], listing);
    r := CollectUploads(files, paths);
  }

  /** The loop over the folders and their listings. */
  method ListLocalFiles(folders: seq<string>, listing: map<string, seq<string>>) returns (files: seq<LocalFile>)
    requires forall k :: 0 <= k < |folders| ==> folders[k] in listing
    ensures files == LocalFiles(folders, listing)
  {
    files := [];
    for i := 0 to |folders|
      invariant files == LocalFiles(folders[..i], listing)
    {
      assert folders[..i + 1][..i] == folders[..i];
      var names := listing[folders[i]];
      for k := 0 to |names|
        invariant files == LocalFiles(folders[..i], listing) + Listed(folders[i], names[..k])
      {
        files := files + [LocalFile(folders[i], names[k])];
      }
      assert names[..|names|] == names;
    }
    assert folders[..|folders|] == folders;
  }

  /** One more successful lookup extends the upload list by its file when flagged. */
  lemma FlaggedStep(lookups: seq<(LocalFile, Result<UploadRow>)>, i: nat, uploads: seq<(LocalFile, string)>)
    requires i < |lookups| && Flagged(lookups[..i]) == Ok(uploads) && lookups[i].1.Ok?
    ensures Flagged(lookups[..i + 1])
            == Ok(uploads + if lookups[i].1.value.isForUpload then [(lookups[i].0, lookups[i].1.value.path)] else [])
  {
    var next := lookups[..i + 1];
    assert next[..i] == lookups[..i];
    assert next[i] == lookups[i];
  }

  /** The loop that looks up each file's paths row and keeps the flagged ones. */
  method CollectUploads(files: seq<LocalFile>, paths: seq<UploadRow>) returns (r: Result<seq<(LocalFile, string)>>)
    ensures r.Ok? <==> UploadsOf(files, paths).Ok?
    ensures r.Ok? ==> r == UploadsOf(files, paths)
  {
    ghost var lookups := Lookups(files, paths);
    var uploads: seq<(LocalFile, string)> := [];
    for i := 0 to |files|
      invariant Flagged(lookups[..i]) == Ok(uploads)
    {
      var details := PathDetails(paths, UploadName(files[i].name));
      assert lookups[i] == (files[i], details);
      if details.Err? {
        FlaggedOk(lookups);
        return Err("single positional indexer is out-of-bounds");
      }
      FlaggedStep(lookups, i, uploads);
      if details.value.isForUpload {
        uploads := uploads + [(files[i], details.value.path)];
      } else {
        assert uploads + [] == uploads;
      }
    }
    assert lookups[..|files|] == lookups;
    return Ok(uploads);
  }

  /** The files of one folder listing. */
  function Listed(folder: string, names: seq<string>): (r: seq<LocalFile>)
    ensures |r| == |names| && forall k :: 0 <= k < |names| ==> r[k] == LocalFile(folder, names[k])
  {
    seq(|names|, k requires 0 <= k < |names| => LocalFile(folder, names[k]))
  }

  /** The files of the folders, folder after folder. */
  function LocalFiles(folders: seq<string>, listing: map<string, seq<string>>): seq<LocalFile>
    requires forall k :: 0 <= k < |folders| ==> folders[k] in listing
    decreases |folders|
  {
    if |folders| == 0 then []
    else LocalFiles(folders[..|folders| - 1], listing) + Listed(folders[|folders| - 1], listing[folders[|folders| - 1]])
  }
}
