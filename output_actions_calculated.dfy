/**
 * The calculated gameday message of `output_actions_calculated.py`: the
 * parameters gathered from the query results of a calculated gameday, their
 * derivation for each country (translation, then a capture of each table
 * with the link of its image) and the message filled for a country from its
 * template. Query results are given as a `Database` value; the image
 * capture and its upload are the parameter `push`, which gives the link of
 * a captured file.
 */
module OutputCalculated {
  import opened Wrappers
  import opened Strings
  import opened Config
  import opened OutputActions
  import opened OutputRanks
  import opened MessageTemplates
  import opened CalculatedLines
  import OutputInited

  // ---------------------------------------------------------------------
  // The tables: `get_calculated_scores_detailed`,
  // `get_calculated_scores_global`, `get_calculated_predictchamp_ranking`
  // ---------------------------------------------------------------------

  /** The columns the query filtered on, dropped before display. */
  const FilterColumns: set<string> := {"GAMEDAY", "SEASON_ID"}

  /** A row's cells without those under a dropped column (`cells` is the header itself for the new header). */
  function DropCells(columns: seq<string>, cells: seq<string>, dropped: set<string>): seq<string>
    decreases |columns|
  {
    if |columns| == 0 || |cells| == 0 then []
    else (if columns[0] in dropped then [] else [cells[0]]) + DropCells(columns[1..], cells[1..], dropped)
  }

  /** `drop(columns=...)` on a table whose header holds every dropped name. */
  function DropColumns(f: Frame, dropped: set<string>): Frame
  {
    Frame(DropCells(f.columns, f.columns, dropped),
          seq(|f.rows|, k requires 0 <= k < |f.rows| => DropCells(f.columns, f.rows[k], dropped)))
  }

  /** The (column, cell) pairs of a row. */
  function Cells(columns: seq<string>, row: seq<string>): seq<(string, string)>
    requires |row| == |columns|
    decreases |columns|
  {
    if |columns| == 0 then [] else [(columns[0], row[0])] + Cells(columns[1..], row[1..])
  }

  /** The pairs whose column is not dropped, in order. */
  function KeptCells(cells: seq<(string, string)>, dropped: set<string>): seq<(string, string)>
  {
    if |cells| == 0 then []
    else (if cells[0].0 in dropped then [] else [cells[0]]) + KeptCells(cells[1..], dropped)
  }

  /** A row as wide as its header stays as wide as the new header. */
  lemma {:induction false} DropCellsWidth(columns: seq<string>, row: seq<string>, dropped: set<string>)
    requires |row| == |columns|
    ensures |DropCells(columns, row, dropped)| == |DropCells(columns, columns, dropped)|
    decreases |columns|
  {
    if |columns| > 0 {
      DropCellsWidth(columns[1..], row[1..], dropped);
    }
  }

  /** The new header holds exactly the columns that were not dropped. */
  lemma {:induction false} DropCellsColumns(columns: seq<string>, dropped: set<string>)
    ensures forall c :: c in DropCells(columns, columns, dropped) <==> c in columns && c !in dropped
    decreases |columns|
  {
    if |columns| > 0 {
      DropCellsColumns(columns[1..], dropped);
      assert forall c :: c in columns <==> c == columns[0] || c in columns[1..];
    }
  }

  /**
   * Dropping columns keeps exactly the (column, cell) pairs of a row whose
   * column is not dropped, in their order.
   */
  lemma {:induction false} DropCellsKeeps(columns: seq<string>, row: seq<string>, dropped: set<string>)
    requires |row| == |columns|
    ensures |DropCells(columns, row, dropped)| == |DropCells(columns, columns, dropped)|
    ensures Cells(DropCells(columns, columns, dropped), DropCells(columns, row, dropped))
            == KeptCells(Cells(columns, row), dropped)
    decreases |columns|
  {
    DropCellsWidth(columns, row, dropped);
    if |columns| > 0 {
      DropCellsKeeps(columns[1..], row[1..], dropped);
      var cells := Cells(columns, row);
      assert cells[0] == (columns[0], row[0]) && cells[1..] == Cells(columns[1..], row[1..]);
      if columns[0] !in dropped {
        var header := DropCells(columns, columns, dropped);
        var kept := DropCells(columns, row, dropped);
        assert header[0] == columns[0] && header[1..] == DropCells(columns[1..], columns[1..], dropped);
        assert kept[0] == row[0] && kept[1..] == DropCells(columns[1..], row[1..], dropped);
        assert Cells(header, kept) == [(columns[0], row[0])] + Cells(header[1..], kept[1..]);
        assert KeptCells(cells, dropped) == [cells[0]] + KeptCells(cells[1..], dropped);
      } else {
        assert DropCells(columns, columns, dropped) == DropCells(columns[1..], columns[1..], dropped);
        assert DropCells(columns, row, dropped) == DropCells(columns[1..], row[1..], dropped);
      }
    }
  }

  /**
   * The two header levels of a column: `str.split('_', n=1)` gives the
   * text before the first `_` and the text after it, a column without `_`
   * having an empty second level, and NAME and PT get an empty second level.
   */
  function HeaderLevels(column: string): (string, string)
  {
    var top := TextBefore(column, "_");
    (top, if Contains(column, "_") && top != "NAME" && top != "PT" then TextAfter(column, "_") else "")
  }

  /**
   * The first level holds no `_`; put back together with `_`, the two
   * levels give the column again, except for NAME and PT, and a column
   * without `_` is its own first level.
   */
  lemma HeaderLevelsRejoin(column: string)
    ensures var (top, sub) := HeaderLevels(column);
      !Contains(top, "_") &&
      (Contains(column, "_") && top != "NAME" && top != "PT" ==> top + "_" + sub == column) &&
      (!Contains(column, "_") ==> top == column && sub == "") &&
      (top == "NAME" || top == "PT" ==> sub == "")
  {
    BeforeExcludes(column, "_");
    IndexFromNoneIffAbsent(column, "_");
    match IndexFrom(column, "_", 0)
    case None =>
    case Some(i) =>
      assert column[i..i + 1] == "_";
      assert column == column[..i] + column[i..i + 1] + column[i + 1..];
  }

  /** The two-level header of the remaining columns (`pd.MultiIndex.from_frame`). */
  function TwoLevelHeader(f: Frame): (r: Frame)
    ensures r.TwoLevelFrame? && r.rows == f.rows
    ensures |r.columns| == |f.columns| == |r.subColumns|
    ensures forall k :: 0 <= k < |f.columns| ==> (r.columns[k], r.subColumns[k]) == HeaderLevels(f.columns[k])
  {
    TwoLevelFrame(seq(|f.columns|, k requires 0 <= k < |f.columns| => HeaderLevels(f.columns[k]).0),
                  seq(|f.columns|, k requires 0 <= k < |f.columns| => HeaderLevels(f.columns[k]).1),
                  f.rows)
  }

  /**
   * `get_calculated_scores_detailed` on the table left once its all-empty
   * columns are dropped: a table without column or row comes back as it is
   * with no user. Otherwise GAMEDAY and SEASON_ID are dropped (KeyError
   * when one is missing) and the header split in two levels; the split
   * has a second level only when some remaining column holds `_`, and
   * reading that level raises KeyError otherwise. The result has one user
   * per row.
   */
  function ScoresDetailed(predictGames: Frame): (r: Result<(Frame, nat)>)
  {
    if predictGames.Empty() then Ok((predictGames, 0))
    else if "GAMEDAY" !in predictGames.columns then Err(KeyError("GAMEDAY"))
    else if "SEASON_ID" !in predictGames.columns then Err(KeyError("SEASON_ID"))
    else
      var remaining := DropColumns(predictGames, FilterColumns);
      if forall k :: 0 <= k < |remaining.columns| ==> !Contains(remaining.columns[k], "_") then Err(KeyError("1"))
      else Ok((TwoLevelHeader(remaining), |predictGames.rows|))
  }

  /**
   * The detailed scores fail exactly when a non-empty table lacks GAMEDAY
   * or SEASON_ID, or keeps no other column with `_`; they have no user
   * exactly when the table is empty, and then come back unchanged.
   * Otherwise the header is the two-level split of the table's columns
   * other than GAMEDAY and SEASON_ID, every row keeps exactly its cells
   * under those columns, and there is one user per row.
   */
  lemma ScoresDetailedShape(predictGames: Frame)
    ensures var r := ScoresDetailed(predictGames);
      r.Err? <==> !predictGames.Empty() &&
                  ("GAMEDAY" !in predictGames.columns || "SEASON_ID" !in predictGames.columns ||
                   forall c :: c in predictGames.columns && c !in FilterColumns ==> !Contains(c, "_"))
    ensures var r := ScoresDetailed(predictGames);
      r.Ok? ==> (r.value.1 == 0 <==> predictGames.Empty()) && (r.value.1 == 0 <==> r.value.0.Empty()) &&
                (predictGames.Empty() ==> r.value.0 == predictGames)
    ensures var r := ScoresDetailed(predictGames);
      r.Ok? && !predictGames.Empty() ==>
        var remaining := DropCells(predictGames.columns, predictGames.columns, FilterColumns);
        var t := r.value.0;
        r.value.1 == |predictGames.rows| && t.TwoLevelFrame? && |t.rows| == |predictGames.rows| &&
        |t.columns| == |remaining| &&
        (forall j :: 0 <= j < |remaining| ==> (t.columns[j], t.subColumns[j]) == HeaderLevels(remaining[j])) &&
        (forall c :: c in remaining <==> c in predictGames.columns && c !in FilterColumns) &&
        forall k :: 0 <= k < |predictGames.rows| && |predictGames.rows[k]| == |predictGames.columns| ==>
          |t.rows[k]| == |remaining| &&
          Cells(remaining, t.rows[k]) == KeptCells(Cells(predictGames.columns, predictGames.rows[k]), FilterColumns)
  {
    if !predictGames.Empty() {
      var columns := predictGames.columns;
      var remaining := DropCells(columns, columns, FilterColumns);
      DropCellsColumns(columns, FilterColumns);
      forall k | 0 <= k < |predictGames.rows| && |predictGames.rows[k]| == |columns|
        ensures |DropCells(columns, predictGames.rows[k], FilterColumns)| == |remaining|
        ensures Cells(remaining, DropCells(columns, predictGames.rows[k], FilterColumns))
                == KeptCells(Cells(columns, predictGames.rows[k]), FilterColumns)
      {
        DropCellsKeeps(columns, predictGames.rows[k], FilterColumns);
      }
      if "GAMEDAY" in columns && "SEASON_ID" in columns {
        assert (forall k :: 0 <= k < |remaining| ==> !Contains(remaining[k], "_")) <==>
               (forall c :: c in columns && c !in FilterColumns ==> !Contains(c, "_"));
      }
    }
  }

  /** The six columns of the season scores table. */
  const GlobalColumns: seq<string> :=
    ["RANK", "USER_NAME", "TOTAL_POINTS", "NB_GAMEDAY_PREDICT", "NB_GAMEDAY_FIRST", "NB_TOTAL_PREDICT"]

  function GlobalRow(d: Displayed<SeasonScore>): seq<string>
  {
    [RankText(d.cell), d.row.user, IntToString(d.row.totalPoints), IntToString(d.row.nbGamedayPredict),
     IntToString(d.row.nbGamedayFirst), IntToString(d.row.nbTotalPredict)]
  }

  /** The season scores table: one row per displayed user, its rank first. */
  function GlobalFrame(shown: seq<Displayed<SeasonScore>>): (f: Frame)
    ensures f.columns == GlobalColumns && |f.rows| == |shown|
    ensures forall k :: 0 <= k < |shown| ==> f.rows[k] == GlobalRow(shown[k])
  {
    Frame(GlobalColumns, seq(|shown|, k requires 0 <= k < |shown| => GlobalRow(shown[k])))
  }

  /**
   * `get_calculated_scores_global`: the season scores displayed by rank,
   * on their six columns, and the number of users.
   */
  method ScoresGlobal(rows: seq<Ranked<SeasonScore>>) returns (table: Frame, count: nat)
    ensures count == |rows|
    ensures table == GlobalFrame(MaskRepeats(SortByRank(rows)))
  {
    var shown := DisplayRank(rows);
    table := GlobalFrame(shown);
    count := |rows|;
  }

  /**
   * The season scores table lists every user of the query once, in rank
   * order, with the rank first; it is empty exactly when there is no user.
   */
  lemma GlobalFrameRows(rows: seq<Ranked<SeasonScore>>)
    ensures var f := GlobalFrame(MaskRepeats(SortByRank(rows)));
      (f.Empty() <==> |rows| == 0) &&
      |f.rows| == |rows| &&
      (forall k :: 0 <= k < |rows| ==> f.rows[k][1] == SortByRank(rows)[k].row.user) &&
      multiset(SortByRank(rows)) == multiset(rows) && SortedByRank(SortByRank(rows))
  {
    SortByRankPermutes(rows);
    SortByRankSorted(rows);
    assert |SortByRank(rows)| == |rows| by {
      assert |multiset(SortByRank(rows))| == |multiset(rows)|;
    }
  }

  /**
   * `get_calculated_predictchamp_ranking`: the team scores displayed by
   * rank, the rank moved to the first column.
   */
  function RankedFrame(columns: seq<string>, shown: seq<Displayed<seq<string>>>): (f: Frame)
    ensures f.columns == ["RANK"] + columns && |f.rows| == |shown|
    ensures forall k :: 0 <= k < |shown| ==> f.rows[k] == [RankText(shown[k].cell)] + shown[k].row
  {
    Frame(["RANK"] + columns, seq(|shown|, k requires 0 <= k < |shown| => [RankText(shown[k].cell)] + shown[k].row))
  }

  method PredictchampRanking(columns: seq<string>, rows: seq<Ranked<seq<string>>>) returns (table: Frame)
    ensures table == RankedFrame(columns, MaskRepeats(SortByRank(rows)))
  {
    var shown := DisplayRank(rows);
    table := RankedFrame(columns, shown);
  }

  /** The ranking has a row per team; with no team it is an empty table that still has its columns. */
  lemma RankedFrameRows(columns: seq<string>, rows: seq<Ranked<seq<string>>>)
    ensures var f := RankedFrame(columns, MaskRepeats(SortByRank(rows)));
      |f.rows| == |rows| && (f.Empty() <==> |rows| == 0) && f.columns[0] == "RANK"
  {
    SortByRankPermutes(rows);
    assert |SortByRank(rows)| == |rows| by {
      assert |multiset(SortByRank(rows))| == |multiset(rows)|;
    }
  }

  // ---------------------------------------------------------------------
  // `get_calculated_parameters`
  // ---------------------------------------------------------------------

  /** What the queries of a calculated gameday return. */
  datatype Database = Database(
    games: seq<GameResult>,
    predictGames: Frame,
    userScoresGlobal: seq<Ranked<SeasonScore>>,
    gamedaysCalculated: seq<GamedayCount>,
    userScoresGameday: seq<Ranked<GamedayScore>>,
    champGames: seq<ChampGame>,
    champDetails: seq<ChampDetail>,
    teamColumns: seq<string>,
    teamScores: seq<Ranked<seq<string>>>,
    corrections: seq<Correction>,
    monthRace: seq<MvpRow>,
    competRace: seq<MvpRow>)

  /** The queries run while gathering the parameters. */
  datatype Query =
    | GameQuery | PredictGameQuery | UserScoresGlobalQuery | GamedayCalculatedQuery
    | UserScoresGamedayQuery | GamePredictchampQuery | GamePredictchampDetailQuery
    | TeamScoresQuery | CorrectionQuery | MonthMvpQuery | CompetMvpQuery

  /** The parameters of the calculated message; `None` is Python's None. */
  datatype CalculatedParams = CalculatedParams(
    gameday: string,
    seasonDivision: string,
    resultGames: string,
    nbGames: nat,
    scoresDetailed: Frame,
    nbUserDetail: nat,
    scoresGlobal: Frame,
    nbUserGlobal: nat,
    nbGamedayCalculated: nat,
    nbTotalPredict: int,
    scoresAverage: string,
    nbUserAverage: nat,
    nbMinPrediction: int,
    scoresGameday: string,
    nbUserGameday: nat,
    listGamedayCalculated: string,
    nbGamePredictchamp: nat,
    isForRank: int,
    resultsPredictchamp: Option<string>,
    hasHomeAdv: int,
    rankPredictchamp: Option<Frame>,
    listCorrection: string,
    nbCorrection: nat,
    gamedayMonth: Option<string>,
    listUserMonth: Option<string>,
    nbUserMonth: nat,
    gamedayCompetition: Option<string>,
    listUserCompetition: Option<string>,
    nbUserCompetition: nat)

  /** A display flag of the row is on: its column holds 1. */
  predicate FlagSet(row: GamedayRow, column: string)
  {
    column in row && row[column] == "1"
  }

  /** The columns of the gameday row the parameters read; the MVP columns only when their flag is set. */
  predicate ColumnsRead(row: GamedayRow)
  {
    "GAMEDAY" in row && "SEASON_DIVISION" in row && "SEASON_ID" in row &&
    "DISPLAY_MONTH_MVP_RANKING" in row &&
    (FlagSet(row, "DISPLAY_MONTH_MVP_RANKING") ==> "END_MONTH_LOCAL" in row && "END_YEARMONTH_LOCAL" in row) &&
    "DISPLAY_COMPET_MVP_RANKING" in row &&
    (FlagSet(row, "DISPLAY_COMPET_MVP_RANKING") ==> "COMPETITION_LABEL" in row)
  }

  /** The season users of the global query, without their rank. */
  function SeasonUsers(rows: seq<Ranked<SeasonScore>>): (r: seq<SeasonScore>)
    ensures |r| == |rows| && forall k :: 0 <= k < |rows| ==> r[k] == rows[k].row
  {
    seq(|rows|, k requires 0 <= k < |rows| => rows[k].row)
  }

  /**
   * How the parameters hang together, whatever the query results: a table
   * has users exactly when it is not empty, the championship results exist
   * exactly when there are championship games, the ranking exactly when
   * the games count for it, and the MVP texts whenever they have users.
   */
  predicate Coherent(p: CalculatedParams)
  {
    (p.nbUserDetail == 0 <==> p.scoresDetailed.Empty()) &&
    (p.nbUserGlobal == 0 <==> p.scoresGlobal.Empty()) &&
    (p.resultsPredictchamp.Some? <==> p.nbGamePredictchamp > 0) &&
    (p.rankPredictchamp.Some? <==> p.isForRank != 0) &&
    (p.nbUserMonth > 0 ==> p.gamedayMonth.Some? && p.listUserMonth.Some?) &&
    (p.nbUserCompetition > 0 ==> p.gamedayCompetition.Some? && p.listUserCompetition.Some?)
  }

  /** The scores parameters, as the queries' results give them. */
  predicate ScoresFrom(db: Database, p: CalculatedParams)
  {
    (p.resultGames, p.nbGames) == GamesResult(db.games) &&
    ScoresDetailed(db.predictGames) == Ok((p.scoresDetailed, p.nbUserDetail)) &&
    p.scoresGlobal == GlobalFrame(MaskRepeats(SortByRank(db.userScoresGlobal))) &&
    p.nbUserGlobal == |db.userScoresGlobal| &&
    p.nbGamedayCalculated == |db.gamedaysCalculated| &&
    p.nbTotalPredict == TotalPredictions(db.gamedaysCalculated) &&
    p.nbMinPrediction == MinPrediction(p.nbTotalPredict) &&
    p.nbUserAverage == |Regulars(SeasonUsers(db.userScoresGlobal), p.nbMinPrediction)| &&
    p.scoresAverage == Join(AverageLines(MaskRepeats(RankRows(SortDescending(ByAverage(
                         Regulars(SeasonUsers(db.userScoresGlobal), p.nbMinPrediction)))))), "\n") &&
    p.scoresGameday == Join(GamedayLines(MaskRepeats(SortByRank(db.userScoresGameday))), "\n") &&
    p.nbUserGameday == |db.userScoresGameday| &&
    p.listGamedayCalculated == GamedayList(db.gamedaysCalculated) &&
    (p.listCorrection, p.nbCorrection) == CorrectionList(db.corrections)
  }

  /**
   * The prediction championship parameters: with no championship game the
   * games count for no ranking, have no results and no home advantage;
   * otherwise the first game says whether they count and whether the home
   * team has an advantage, and the results are built from the games and
   * their details. The ranking exists exactly when the games count for it.
   */
  predicate PredictchampFrom(db: Database, p: CalculatedParams)
  {
    p.nbGamePredictchamp == |db.champGames| &&
    (|db.champGames| == 0 ==> p.isForRank == 0 && p.resultsPredictchamp == None && p.hasHomeAdv == 0) &&
    (|db.champGames| > 0 ==>
       p.isForRank == db.champGames[0].isForRank && p.hasHomeAdv == db.champGames[0].hasHomeAdv &&
       p.resultsPredictchamp == Some(PredictchampResult(db.champGames, db.champDetails))) &&
    (p.isForRank == 0 ==> p.rankPredictchamp == None) &&
    (p.isForRank != 0 ==> p.rankPredictchamp == Some(RankedFrame(db.teamColumns, MaskRepeats(SortByRank(db.teamScores)))))
  }

  /**
   * An MVP race's heading, list and number of users: the race under the
   * heading read from the row when the flag is 1, and None, None, 0
   * otherwise.
   */
  predicate MvpFrom(row: GamedayRow, flagColumn: string, headingColumn: string, rows: seq<MvpRow>,
                    fields: (Option<string>, Option<string>, nat))
  {
    flagColumn in row &&
    if FlagSet(row, flagColumn) then
      headingColumn in row &&
      var race := MvpRace(row[headingColumn], rows);
      fields == (Some(race.0), Some(race.1), race.2)
    else
      fields == (None, None, 0)
  }

  /** The error a missing column of the row raises. */
  function KeyError(column: string): string
  {
    "KeyError: " + column
  }

  /**
   * `get_calculated_predictchamp_result`, `get_calculated_predictchamp_ranking`
   * and the branches around them: the details are queried only when there
   * are games, the team scores only when the games count for the ranking.
   */
  method PredictchampParameters(db: Database)
    returns (isForRank: int, results: Option<string>, hasHomeAdv: int, ranking: Option<Frame>, queries: seq<Query>)
    ensures |db.champGames| == 0 ==> isForRank == 0 && results == None && hasHomeAdv == 0
    ensures |db.champGames| > 0 ==>
      isForRank == db.champGames[0].isForRank && hasHomeAdv == db.champGames[0].hasHomeAdv &&
      results == Some(PredictchampResult(db.champGames, db.champDetails))
    ensures isForRank == 0 ==> ranking == None
    ensures isForRank != 0 ==> ranking == Some(RankedFrame(db.teamColumns, MaskRepeats(SortByRank(db.teamScores))))
    ensures GamePredictchampDetailQuery in queries <==> |db.champGames| > 0
    ensures TeamScoresQuery in queries <==> isForRank != 0
    ensures forall q :: q in queries ==> q == GamePredictchampDetailQuery || q == TeamScoresQuery
  {
    queries := [];
    if |db.champGames| == 0 {
      isForRank, results, hasHomeAdv := 0, None, 0;
    } else {
      isForRank := db.champGames[0].isForRank;
      queries := [GamePredictchampDetailQuery];
      results := Some(PredictchampResult(db.champGames, db.champDetails));
      hasHomeAdv := db.champGames[0].hasHomeAdv;
    }
    ranking := None;
    if isForRank != 0 {
      queries := queries + [TeamScoresQuery];
      var table := PredictchampRanking(db.teamColumns, db.teamScores);
      ranking := Some(table);
    }
  }

  /**
   * `get_mvp_month_race_figure` behind its flag: the month's heading and
   * list when the flag is 1, read from the row; a missing column raises
   * KeyError.
   */
  method MonthMvpParameters(row: GamedayRow, rows: seq<MvpRow>)
    returns (r: Result<(Option<string>, Option<string>, nat)>, queries: seq<Query>)
    ensures r.Ok? <==> ("DISPLAY_MONTH_MVP_RANKING" in row &&
      (FlagSet(row, "DISPLAY_MONTH_MVP_RANKING") ==> "END_MONTH_LOCAL" in row && "END_YEARMONTH_LOCAL" in row))
    ensures r.Err? ==> exists column :: column !in row && r.error == KeyError(column)
    ensures r.Ok? ==> MvpFrom(row, "DISPLAY_MONTH_MVP_RANKING", "END_MONTH_LOCAL", rows, r.value)
    ensures r.Ok? ==> queries == if FlagSet(row, "DISPLAY_MONTH_MVP_RANKING") then [MonthMvpQuery] else []
  {
    queries := [];
    if "DISPLAY_MONTH_MVP_RANKING" !in row {
      return Err(KeyError("DISPLAY_MONTH_MVP_RANKING")), queries;
    }
    if !FlagSet(row, "DISPLAY_MONTH_MVP_RANKING") {
      return Ok((None, None, 0)), queries;
    }
    if "END_MONTH_LOCAL" !in row {
      return Err(KeyError("END_MONTH_LOCAL")), queries;
    }
    if "END_YEARMONTH_LOCAL" !in row {
      return Err(KeyError("END_YEARMONTH_LOCAL")), queries;
    }
    queries := [MonthMvpQuery];
    var race := MvpRace(row["END_MONTH_LOCAL"], rows);
    return Ok((Some(race.0), Some(race.1), race.2)), queries;
  }

  /**
   * `get_mvp_compet_race_figure` behind its flag: the competition's label
   * and list when the flag is 1; a missing column raises KeyError.
   */
  method CompetMvpParameters(row: GamedayRow, rows: seq<MvpRow>)
    returns (r: Result<(Option<string>, Option<string>, nat)>, queries: seq<Query>)
    ensures r.Ok? <==> ("DISPLAY_COMPET_MVP_RANKING" in row &&
      (FlagSet(row, "DISPLAY_COMPET_MVP_RANKING") ==> "COMPETITION_LABEL" in row))
    ensures r.Err? ==> exists column :: column !in row && r.error == KeyError(column)
    ensures r.Ok? ==> MvpFrom(row, "DISPLAY_COMPET_MVP_RANKING", "COMPETITION_LABEL", rows, r.value)
    ensures r.Ok? ==> queries == if FlagSet(row, "DISPLAY_COMPET_MVP_RANKING") then [CompetMvpQuery] else []
  {
    queries := [];
    if "DISPLAY_COMPET_MVP_RANKING" !in row {
      return Err(KeyError("DISPLAY_COMPET_MVP_RANKING")), queries;
    }
    if !FlagSet(row, "DISPLAY_COMPET_MVP_RANKING") {
      return Ok((None, None, 0)), queries;
    }
    if "COMPETITION_LABEL" !in row {
      return Err(KeyError("COMPETITION_LABEL")), queries;
    }
    queries := [CompetMvpQuery];
    var race := MvpRace(row["COMPETITION_LABEL"], rows);
    return Ok((Some(race.0), Some(race.1), race.2)), queries;
  }

  /** The queries that always run, in their order, before the optional ones. */
  const FirstQueries: seq<Query> :=
    [GameQuery, PredictGameQuery, UserScoresGlobalQuery, GamedayCalculatedQuery, UserScoresGamedayQuery, GamePredictchampQuery]

  /**
   * The scores part of `get_calculated_parameters`: the games' results,
   * the detailed, global, average and gameday scores, the calculated
   * gamedays and the corrections, each from its own query; the detailed
   * scores' error ends it. The other parameters are left at their neutral
   * values for the caller to fill in.
   */
  method ScoresParameters(db: Database) returns (r: Result<CalculatedParams>)
    ensures r.Ok? <==> ScoresDetailed(db.predictGames).Ok?
    ensures r.Err? ==> r.error == ScoresDetailed(db.predictGames).error
    ensures r.Ok? ==> ScoresFrom(db, r.value)
    ensures r.Ok? ==> (r.value.nbUserDetail == 0 <==> r.value.scoresDetailed.Empty())
    ensures r.Ok? ==> (r.value.nbUserGlobal == 0 <==> r.value.scoresGlobal.Empty())
  {
    var (resultGames, nbGames) := GamesResult(db.games);
    var detailed := ScoresDetailed(db.predictGames);
    if detailed.Err? {
      return Err(detailed.error);
    }
    var (scoresDetailed, nbUserDetail) := detailed.value;
    ScoresDetailedShape(db.predictGames);
    var scoresGlobal, nbUserGlobal := ScoresGlobal(db.userScoresGlobal);
    var nbTotalPredict := TotalPredictions(db.gamedaysCalculated);
    var scoresAverage, nbUserAverage, nbMinPrediction := ScoresAverage(nbTotalPredict, SeasonUsers(db.userScoresGlobal));
    var scoresGameday, nbUserGameday := ScoresGameday(db.userScoresGameday);
    var listGameday := GamedayList(db.gamedaysCalculated);
    var (listCorrection, nbCorrection) := CorrectionList(db.corrections);
    var p := CalculatedParams(
      "", "", resultGames, nbGames, scoresDetailed, nbUserDetail,
      scoresGlobal, nbUserGlobal, |db.gamedaysCalculated|, nbTotalPredict, scoresAverage, nbUserAverage,
      nbMinPrediction, scoresGameday, nbUserGameday, listGameday, 0, 0, None,
      0, None, listCorrection, nbCorrection, None, None, 0, None, None, 0);
    assert scoresGlobal.Empty() <==> nbUserGlobal == 0 by {
      GlobalFrameRows(db.userScoresGlobal);
    }
    return Ok(p);
  }

  /** Where the optional queries can appear in the joined list of queries. */
  lemma QueriesJoined(champ: seq<Query>, month: seq<Query>, compet: seq<Query>)
    requires forall q :: q in champ ==> q == GamePredictchampDetailQuery || q == TeamScoresQuery
    requires month == [] || month == [MonthMvpQuery]
    requires compet == [] || compet == [CompetMvpQuery]
    ensures var all := FirstQueries + champ + [CorrectionQuery] + month + compet;
      |all| >= 6 && all[..6] == FirstQueries &&
      (GamePredictchampDetailQuery in all <==> GamePredictchampDetailQuery in champ) &&
      (TeamScoresQuery in all <==> TeamScoresQuery in champ) &&
      (MonthMvpQuery in all <==> month != []) &&
      (CompetMvpQuery in all <==> compet != [])
  {
    var all := FirstQueries + champ + [CorrectionQuery] + month + compet;
    assert all[..6] == FirstQueries;
    assert all == FirstQueries + (champ + ([CorrectionQuery] + (month + compet)));
  }

  /**
   * `get_calculated_parameters`: every parameter of the message from the
   * gameday row and the query results, with the queries in the order they
   * run. The championship details are queried only when there are
   * championship games, the team scores only when the games count for the
   * ranking, each MVP race only when its display flag is 1; a column of
   * the row that is read and missing raises KeyError.
   */
  method GetCalculatedParameters(row: GamedayRow, db: Database) returns (r: Result<CalculatedParams>, queries: seq<Query>)
    ensures r.Ok? <==> ColumnsRead(row) && ScoresDetailed(db.predictGames).Ok?
    ensures r.Err? ==> (exists column :: column !in row && r.error == KeyError(column))
                       || (ScoresDetailed(db.predictGames).Err? && r.error == ScoresDetailed(db.predictGames).error)
    ensures r.Ok? ==> Coherent(r.value)
    ensures r.Ok? ==> r.value.gameday == row["GAMEDAY"] && r.value.seasonDivision == row["SEASON_DIVISION"]
    ensures r.Ok? ==> ScoresFrom(db, r.value) && PredictchampFrom(db, r.value)
    ensures r.Ok? ==> MvpFrom(row, "DISPLAY_MONTH_MVP_RANKING", "END_MONTH_LOCAL", db.monthRace,
                              (r.value.gamedayMonth, r.value.listUserMonth, r.value.nbUserMonth))
    ensures r.Ok? ==> MvpFrom(row, "DISPLAY_COMPET_MVP_RANKING", "COMPETITION_LABEL", db.competRace,
                              (r.value.gamedayCompetition, r.value.listUserCompetition, r.value.nbUserCompetition))
    ensures r.Ok? ==> |queries| >= 6 && queries[..6] == FirstQueries
    ensures r.Ok? ==> (GamePredictchampDetailQuery in queries <==> |db.champGames| > 0)
    ensures r.Ok? ==> (TeamScoresQuery in queries <==> r.value.isForRank != 0)
    ensures r.Ok? ==> (MonthMvpQuery in queries <==> FlagSet(row, "DISPLAY_MONTH_MVP_RANKING"))
    ensures r.Ok? ==> (CompetMvpQuery in queries <==> FlagSet(row, "DISPLAY_COMPET_MVP_RANKING"))
  {
    queries := [];
    if "GAMEDAY" !in row {
      return Err(KeyError("GAMEDAY")), queries;
    }
    if "SEASON_DIVISION" !in row {
      return Err(KeyError("SEASON_DIVISION")), queries;
    }
    if "SEASON_ID" !in row {
      return Err(KeyError("SEASON_ID")), queries;
    }
    var scores := ScoresParameters(db);
    if scores.Err? {
      return Err(scores.error), FirstQueries[..2];
    }
    queries := FirstQueries;

    var isForRank, results, hasHomeAdv, ranking, champQueries := PredictchampParameters(db);
    queries := queries + champQueries + [CorrectionQuery];

    var month, monthQueries := MonthMvpParameters(row, db.monthRace);
    if month.Err? {
      return Err(month.error), queries;
    }
    var compet, competQueries := CompetMvpParameters(row, db.competRace);
    if compet.Err? {
      return Err(compet.error), queries + monthQueries;
    }
    QueriesJoined(champQueries, monthQueries, competQueries);
    queries := queries + monthQueries + competQueries;

    var p := scores.value.(
      gameday := row["GAMEDAY"], seasonDivision := row["SEASON_DIVISION"],
      nbGamePredictchamp := |db.champGames|, isForRank := isForRank, resultsPredictchamp := results,
      hasHomeAdv := hasHomeAdv, rankPredictchamp := ranking,
      gamedayMonth := month.value.0, listUserMonth := month.value.1, nbUserMonth := month.value.2,
      gamedayCompetition := compet.value.0, listUserCompetition := compet.value.1,
      nbUserCompetition := compet.value.2);
    return Ok(p), queries;
  }

  // ---------------------------------------------------------------------
  // `derive_calculated_parameters_for_country` and
  // `derive_calculated_parameters`
  // ---------------------------------------------------------------------

  /** The eight parameters that may be derived for each country. */
  datatype ParamKey = DetailedDf | GlobalDf | RankDf | ChampResults | MonthLabel | MonthList | CompetLabel | CompetList

  function KeyName(k: ParamKey): string
  {
    match k
    case DetailedDf => "SCORES_DETAILED_DF"
    case GlobalDf => "SCORES_GLOBAL_DF"
    case RankDf => "RANK_PREDICTCHAMP_DF"
    case ChampResults => "RESULTS_PREDICTCHAMP"
    case MonthLabel => "GAMEDAY_MONTH"
    case MonthList => "LIST_USER_MONTH"
    case CompetLabel => "GAMEDAY_COMPETITION"
    case CompetList => "LIST_USER_COMPETITION"
  }

  /** Two parameters never share a name. */
  lemma KeyNameInjective(a: ParamKey, b: ParamKey)
    ensures KeyName(a) == KeyName(b) ==> a == b
  {
    if (a == RankDf && b == ChampResults) || (a == ChampResults && b == RankDf) {
      assert KeyName(a)[1] != KeyName(b)[1];
    }
  }

  function StrOf(v: Option<string>): Option<Param>
  {
    if v.Some? then Some(Str(v.value)) else None
  }

  /** The eight parameters in the order they are checked. */
  const ParamKeys: seq<ParamKey> :=
    [DetailedDf, GlobalDf, RankDf, ChampResults, MonthLabel, MonthList, CompetLabel, CompetList]

  /** Where a parameter stands in that order. */
  function KeyIndex(k: ParamKey): (i: nat)
    ensures i < |ParamKeys| && ParamKeys[i] == k
  {
    match k
    case DetailedDf => 0
    case GlobalDf => 1
    case RankDf => 2
    case ChampResults => 3
    case MonthLabel => 4
    case MonthList => 5
    case CompetLabel => 6
    case CompetList => 7
  }

  /** A parameter's value, or None: `param_dict.get(key)`. */
  function ValueOf(p: CalculatedParams, k: ParamKey): Option<Param>
  {
    match k
    case DetailedDf => Some(Df(p.scoresDetailed))
    case GlobalDf => Some(Df(p.scoresGlobal))
    case RankDf => if p.rankPredictchamp.Some? then Some(Df(p.rankPredictchamp.value)) else None
    case ChampResults => StrOf(p.resultsPredictchamp)
    case MonthLabel => StrOf(p.gamedayMonth)
    case MonthList => StrOf(p.listUserMonth)
    case CompetLabel => StrOf(p.gamedayCompetition)
    case CompetList => StrOf(p.listUserCompetition)
  }

  /** The eight parameters in order, each with its value or None. */
  function Candidates(p: CalculatedParams): (r: seq<(ParamKey, Option<Param>)>)
    ensures |r| == |ParamKeys|
    ensures forall i :: 0 <= i < |r| ==> r[i] == (ParamKeys[i], ValueOf(p, ParamKeys[i]))
  {
    seq(|ParamKeys|, i requires 0 <= i < |ParamKeys| => (ParamKeys[i], ValueOf(p, ParamKeys[i])))
  }

  /** A value worth deriving: not None, and not an empty table. */
  predicate Kept(v: Option<Param>)
  {
    v.Some? && !(v.value.Df? && v.value.frame.Empty())
  }

  /** The candidates kept for derivation, in order. */
  function ToDerive(cands: seq<(ParamKey, Option<Param>)>): (r: seq<(ParamKey, Param)>)
    ensures forall j :: 0 <= j < |r| ==> Kept(Some(r[j].1)) && (r[j].0, Some(r[j].1)) in cands
    ensures forall j :: 0 <= j < |cands| && Kept(cands[j].1) ==> (cands[j].0, cands[j].1.value) in r
    decreases |cands|
  {
    if |cands| == 0 then []
    else
      var rest := ToDerive(cands[1..]);
      assert forall x :: x in cands[1..] ==> x in cands;
      assert forall j :: 1 <= j < |cands| ==> cands[j] == cands[1..][j - 1];
      if Kept(cands[0].1) then [(cands[0].0, cands[0].1.value)] + rest else rest
  }

  /** Whether a parameter appears among those to derive. */
  predicate Listed(params: seq<(ParamKey, Param)>, k: ParamKey)
  {
    exists j :: 0 <= j < |params| && params[j].0 == k
  }

  /** When each parameter is derived, as the parameters' values decide it. */
  predicate Derivable(p: CalculatedParams, k: ParamKey)
  {
    match k
    case DetailedDf => !p.scoresDetailed.Empty()
    case GlobalDf => !p.scoresGlobal.Empty()
    case RankDf => p.rankPredictchamp.Some? && !p.rankPredictchamp.value.Empty()
    case ChampResults => p.resultsPredictchamp.Some?
    case MonthLabel => p.gamedayMonth.Some?
    case MonthList => p.listUserMonth.Some?
    case CompetLabel => p.gamedayCompetition.Some?
    case CompetList => p.listUserCompetition.Some?
  }

  /** The three tables among the parameters; the others are texts. */
  predicate IsTable(k: ParamKey)
  {
    k == DetailedDf || k == GlobalDf || k == RankDf
  }

  /**
   * `derive_calculated_parameters`' filter: a parameter is derived
   * exactly when its value is not None and not an empty table, and with
   * that value, a table for the three tables and a text for the others.
   */
  lemma DeriveFilter(p: CalculatedParams, k: ParamKey)
    ensures Listed(ToDerive(Candidates(p)), k) <==> Derivable(p, k)
    ensures forall v :: (k, v) in ToDerive(Candidates(p)) ==> Some(v) == ValueOf(p, k) && (v.Df? <==> IsTable(k))
  {
    var cands := Candidates(p);
    var params := ToDerive(cands);
    var i := KeyIndex(k);
    assert cands[i] == (k, ValueOf(p, k));
    assert Derivable(p, k) <==> Kept(ValueOf(p, k));
    if Derivable(p, k) {
      assert (k, ValueOf(p, k).value) in params;
    }
    forall v | (k, v) in params
      ensures Some(v) == ValueOf(p, k)
    {
      var j :| 0 <= j < |cands| && cands[j] == (k, Some(v));
    }
    if Listed(params, k) {
      var j :| 0 <= j < |params| && params[j].0 == k;
      assert (k, params[j].1) in params;
    }
  }

  /** The key a parameter is stored under for one country: the parameter's name, `_` and the country. */
  function TranslatedKey(k: ParamKey, country: string): string
  {
    OutputInited.CountryKey(KeyName(k), country)
  }

  function CaptureKey(k: ParamKey, country: string): string
  {
    KeyName(k) + "_CAPTURE_" + country
  }

  function UrlKey(k: ParamKey, country: string): string
  {
    KeyName(k) + "_URL_" + country
  }

  /** The parameters translated with a country's table, each under its country key. */
  function TranslatedParams(params: seq<(ParamKey, Param)>, country: string, table: seq<(string, string)>): map<string, Param>
    decreases |params|
  {
    if |params| == 0 then map[]
    else
      var last := params[|params| - 1];
      TranslatedParams(params[..|params| - 1], country, table)[TranslatedKey(last.0, country) := Translated(last.1, table)]
  }

  /** The tables captured as images, with the file-name prefix of each. */
  const CaptureConfigs: seq<(ParamKey, string)> :=
    [(DetailedDf, "table_score_details"), (GlobalDf, "table_global_scores"), (RankDf, "table_predictchamp_ranking")]

  /**
   * The captures of the tables that were translated, in the order of the
   * configurations, added to `acc`: each adds its file name and the link
   * of its image; a file name that cannot be built raises its KeyError.
   */
  function CapturesFrom(acc: map<string, Param>, translated: map<string, Param>, configs: seq<(ParamKey, string)>,
                        row: GamedayRow, country: string, push: string -> string): Result<map<string, Param>>
    decreases |configs|
  {
    if |configs| == 0 then Ok(acc)
    else
      var key := configs[0].0;
      if TranslatedKey(key, country) !in translated then CapturesFrom(acc, translated, configs[1..], row, country, push)
      else match FileName(configs[0].1, row, "jpg", Some(country))
        case Err(e) => Err(e)
        case Ok(file) =>
          CapturesFrom(acc[CaptureKey(key, country) := Str(file)][UrlKey(key, country) := Str(push(file))],
                       translated, configs[1..], row, country, push)
  }

  /**
   * What `derive_calculated_parameters_for_country` gives: the translated
   * parameters merged with the captures, the captures winning; a country
   * without a translation table raises KeyError when there is something to
   * translate.
   */
  function DerivedForCountry(params: seq<(ParamKey, Param)>, row: GamedayRow, country: string,
                             translations: map<string, seq<(string, string)>>, push: string -> string): Result<map<string, Param>>
  {
    if |params| > 0 && country !in translations then Err("KeyError: " + country)
    else
      var translated := if |params| == 0 then map[] else TranslatedParams(params, country, translations[country]);
      match CapturesFrom(map[], translated, CaptureConfigs, row, country, push)
      case Err(e) => Err(e)
      case Ok(captured) => Ok(translated + captured)
  }

  /**
   * `derive_calculated_parameters_for_country`: each parameter translated
   * under its country key, then each translated table captured, its file
   * name and its link stored under their own keys.
   */
  method DeriveCalculatedForCountry(params: seq<(ParamKey, Param)>, row: GamedayRow, country: string,
                                    translations: map<string, seq<(string, string)>>, push: string -> string)
    returns (r: Result<map<string, Param>>)
    ensures r == DerivedForCountry(params, row, country, translations, push)
  {
    var translated: map<string, Param> := map[];
    for i := 0 to |params|
      invariant i > 0 ==> country in translations
      invariant translated == if i == 0 then map[] else TranslatedParams(params[..i], country, translations[country])
    {
      var t := TranslateValue(params[i].1, country, translations);
      if t.Err? {
        return Err(t.error);
      }
      assert params[..i + 1][..i] == params[..i];
      translated := translated[TranslatedKey(params[i].0, country) := t.value];
    }
    assert |params| > 0 ==> params[..|params|] == params;

    var captured: map<string, Param> := map[];
    for i := 0 to |CaptureConfigs|
      invariant CapturesFrom(captured, translated, CaptureConfigs[i..], row, country, push)
             == CapturesFrom(map[], translated, CaptureConfigs, row, country, push)
    {
      var (key, prefix) := CaptureConfigs[i];
      assert CaptureConfigs[i..][1..] == CaptureConfigs[i + 1..];
      if TranslatedKey(key, country) in translated {
        var file := FileName(prefix, row, "jpg", Some(country));
        if file.Err? {
          return Err(file.error);
        }
        captured := captured[CaptureKey(key, country) := Str(file.value)][UrlKey(key, country) := Str(push(file.value))];
      }
    }
    return Ok(translated + captured);
  }

  /** With nothing to derive, a country gets nothing, even one without a translation table. */
  lemma DerivedNothing(row: GamedayRow, country: string, translations: map<string, seq<(string, string)>>, push: string -> string)
    ensures DerivedForCountry([], row, country, translations, push) == Ok(map[])
  {
    assert CaptureConfigs[1..][1..][1..] == [];
  }

  /** Two parameters' country keys are the same only for the same parameter. */
  lemma TranslatedKeyInjective(a: ParamKey, b: ParamKey, country: string)
    ensures TranslatedKey(a, country) == TranslatedKey(b, country) ==> a == b
  {
    if TranslatedKey(a, country) == TranslatedKey(b, country) {
      OutputInited.SuffixCancels(KeyName(a), KeyName(b), country);
      KeyNameInjective(a, b);
    }
  }

  /** A parameter's country key is among the translated ones exactly when the parameter is listed. */
  lemma TranslatedKeys(params: seq<(ParamKey, Param)>, country: string, table: seq<(string, string)>, k: ParamKey)
    ensures TranslatedKey(k, country) in TranslatedParams(params, country, table) <==> Listed(params, k)
  {
    if Listed(params, k) {
      var j :| 0 <= j < |params| && params[j].0 == k;
      ListedTranslated(params, country, table, j);
    }
    if TranslatedKey(k, country) in TranslatedParams(params, country, table) {
      TranslatedKeysOnly(params, country, table, TranslatedKey(k, country));
      var j :| 0 <= j < |params| && TranslatedKey(k, country) == TranslatedKey(params[j].0, country);
      TranslatedKeyInjective(params[j].0, k, country);
    }
  }

  /** Every listed parameter's country key is translated. */
  lemma {:induction false} ListedTranslated(params: seq<(ParamKey, Param)>, country: string, table: seq<(string, string)>, j: nat)
    requires j < |params|
    ensures TranslatedKey(params[j].0, country) in TranslatedParams(params, country, table)
    decreases |params|
  {
    var init := params[..|params| - 1];
    if j < |params| - 1 {
      ListedTranslated(init, country, table, j);
      assert init[j] == params[j];
    }
  }


  /** The value under a parameter's country key is the translation of a value listed for it. */
  lemma {:induction false} TranslatedValue(params: seq<(ParamKey, Param)>, country: string, table: seq<(string, string)>, k: ParamKey)
    requires TranslatedKey(k, country) in TranslatedParams(params, country, table)
    ensures exists v :: (k, v) in params && TranslatedParams(params, country, table)[TranslatedKey(k, country)] == Translated(v, table)
    decreases |params|
  {
    var init, last := params[..|params| - 1], params[|params| - 1];
    TranslatedKeyInjective(last.0, k, country);
    if last.0 == k {
      assert last in params;
    } else {
      TranslatedValue(init, country, table, k);
      var v :| (k, v) in init && TranslatedParams(init, country, table)[TranslatedKey(k, country)] == Translated(v, table);
      assert (k, v) in params;
    }
  }

  /** A link key is none of the country keys of the parameters. */
  lemma UrlNotTranslated(k: ParamKey, other: ParamKey, country: string)
    requires IsTable(k)
    ensures UrlKey(k, country) != TranslatedKey(other, country)
  {
    if UrlKey(k, country) == TranslatedKey(other, country) {
      assert UrlKey(k, country) == (KeyName(k) + "_URL") + ("_" + country);
      assert TranslatedKey(other, country) == KeyName(other) + ("_" + country);
      AppendCancels(KeyName(k) + "_URL", KeyName(other), "_" + country);
      UrlNotName(k, other);
    }
  }


  /** Two tables' link keys are the same only for the same table. */
  lemma UrlKeyInjective(k: ParamKey, other: ParamKey, country: string)
    ensures UrlKey(k, country) == UrlKey(other, country) ==> k == other
  {
    if UrlKey(k, country) == UrlKey(other, country) {
      assert UrlKey(k, country) == KeyName(k) + ("_URL_" + country);
      assert UrlKey(other, country) == KeyName(other) + ("_URL_" + country);
      AppendCancels(KeyName(k), KeyName(other), "_URL_" + country);
      KeyNameInjective(k, other);
    }
  }


  /** A table's link key is no table's capture key. */
  lemma UrlNotCaptureKey(k: ParamKey, other: ParamKey, country: string)
    requires IsTable(k) && IsTable(other)
    ensures UrlKey(k, country) != CaptureKey(other, country)
  {
    if UrlKey(k, country) == CaptureKey(other, country) {
      assert UrlKey(k, country) == (KeyName(k) + "_URL") + ("_" + country);
      assert CaptureKey(other, country) == (KeyName(other) + "_CAPTURE") + ("_" + country);
      AppendCancels(KeyName(k) + "_URL", KeyName(other) + "_CAPTURE", "_" + country);
      UrlNotCapture(k, other);
    }
  }


  lemma UrlNotName(k: ParamKey, other: ParamKey)
    requires IsTable(k)
    ensures KeyName(k) + "_URL" != KeyName(other)
  {
    if k == GlobalDf && (other == RankDf || other == ChampResults) {
      assert (KeyName(k) + "_URL")[0] != KeyName(other)[0];
    }
  }

  lemma UrlNotCapture(k: ParamKey, other: ParamKey)
    requires IsTable(k) && IsTable(other)
    ensures KeyName(k) + "_URL" != KeyName(other) + "_CAPTURE"
  {
    if k == RankDf && other == GlobalDf {
      assert (KeyName(k) + "_URL")[0] != (KeyName(other) + "_CAPTURE")[0];
    }
  }

  /** The configurations name three different tables. */
  predicate TableConfigs(configs: seq<(ParamKey, string)>)
  {
    (forall j :: 0 <= j < |configs| ==> IsTable(configs[j].0)) &&
    (forall i, j :: 0 <= i < j < |configs| ==> configs[i].0 != configs[j].0)
  }

  lemma TableConfigsTail(configs: seq<(ParamKey, string)>)
    requires |configs| > 0 && TableConfigs(configs)
    ensures TableConfigs(configs[1..])
    ensures forall j :: 0 <= j < |configs[1..]| ==> configs[1..][j].0 != configs[0].0
  {
    assert forall j :: 0 <= j < |configs[1..]| ==> configs[1..][j] == configs[j + 1];
  }

  /** Every value the captures add is a text. */
  lemma {:induction false} CapturedTexts(acc: map<string, Param>, translated: map<string, Param>, configs: seq<(ParamKey, string)>,
                                        row: GamedayRow, country: string, push: string -> string)
    requires CapturesFrom(acc, translated, configs, row, country, push).Ok?
    ensures forall v :: v in CapturesFrom(acc, translated, configs, row, country, push).value.Values ==> v in acc.Values || v.Str?
    decreases |configs|
  {
    if |configs| > 0 {
      var key := configs[0].0;
      if TranslatedKey(key, country) !in translated {
        CapturedTexts(acc, translated, configs[1..], row, country, push);
      } else {
        var file := FileName(configs[0].1, row, "jpg", Some(country)).value;
        var acc' := acc[CaptureKey(key, country) := Str(file)][UrlKey(key, country) := Str(push(file))];
        CapturedTexts(acc', translated, configs[1..], row, country, push);
        assert forall v :: v in acc'.Values ==> v in acc.Values || v.Str?;
      }
    }
  }

  /** A value stored before the captures stays when no capture is stored under its key. */
  lemma {:induction false} CapturesKeep(acc: map<string, Param>, translated: map<string, Param>, configs: seq<(ParamKey, string)>,
                                       row: GamedayRow, country: string, push: string -> string, key: string)
    requires CapturesFrom(acc, translated, configs, row, country, push).Ok? && key in acc
    requires forall j :: 0 <= j < |configs| ==> key != UrlKey(configs[j].0, country) && key != CaptureKey(configs[j].0, country)
    ensures key in CapturesFrom(acc, translated, configs, row, country, push).value
    ensures CapturesFrom(acc, translated, configs, row, country, push).value[key] == acc[key]
    decreases |configs|
  {
    if |configs| > 0 {
      assert forall j :: 1 <= j < |configs| ==> configs[1..][j - 1] == configs[j];
      var k := configs[0].0;
      if TranslatedKey(k, country) !in translated {
        CapturesKeep(acc, translated, configs[1..], row, country, push, key);
      } else {
        var file := FileName(configs[0].1, row, "jpg", Some(country)).value;
        var acc' := acc[CaptureKey(k, country) := Str(file)][UrlKey(k, country) := Str(push(file))];
        CapturesKeep(acc', translated, configs[1..], row, country, push, key);
      }
    }
  }

  /** A translated table gets its image: its file name is built and its link stored under its link key. */
  lemma {:induction false} CapturedUrl(acc: map<string, Param>, translated: map<string, Param>, configs: seq<(ParamKey, string)>,
                                      row: GamedayRow, country: string, push: string -> string, j: nat)
    requires TableConfigs(configs) && j < |configs|
    requires CapturesFrom(acc, translated, configs, row, country, push).Ok?
    requires TranslatedKey(configs[j].0, country) in translated
    ensures FileName(configs[j].1, row, "jpg", Some(country)).Ok?
    ensures var out := CapturesFrom(acc, translated, configs, row, country, push).value;
      UrlKey(configs[j].0, country) in out &&
      out[UrlKey(configs[j].0, country)] == Str(push(FileName(configs[j].1, row, "jpg", Some(country)).value))
    decreases |configs|
  {
    TableConfigsTail(configs);
    var k := configs[0].0;
    if j == 0 {
      var file := FileName(configs[0].1, row, "jpg", Some(country)).value;
      var acc' := acc[CaptureKey(k, country) := Str(file)][UrlKey(k, country) := Str(push(file))];
      forall i | 0 <= i < |configs[1..]|
        ensures UrlKey(k, country) != UrlKey(configs[1..][i].0, country)
        ensures UrlKey(k, country) != CaptureKey(configs[1..][i].0, country)
      {
        UrlKeyInjective(k, configs[1..][i].0, country);
        UrlNotCaptureKey(k, configs[1..][i].0, country);
      }
      CapturesKeep(acc', translated, configs[1..], row, country, push, UrlKey(k, country));
    } else if TranslatedKey(k, country) !in translated {
      CapturedUrl(acc, translated, configs[1..], row, country, push, j - 1);
    } else {
      var file := FileName(configs[0].1, row, "jpg", Some(country)).value;
      var acc' := acc[CaptureKey(k, country) := Str(file)][UrlKey(k, country) := Str(push(file))];
      CapturedUrl(acc', translated, configs[1..], row, country, push, j - 1);
    }
  }

  /** A link key is stored only for a configured table that was translated. */
  lemma {:induction false} CapturedUrlOnly(acc: map<string, Param>, translated: map<string, Param>, configs: seq<(ParamKey, string)>,
                                          row: GamedayRow, country: string, push: string -> string, k: ParamKey)
    requires TableConfigs(configs) && IsTable(k)
    requires CapturesFrom(acc, translated, configs, row, country, push).Ok?
    requires UrlKey(k, country) in CapturesFrom(acc, translated, configs, row, country, push).value
    ensures UrlKey(k, country) in acc ||
      (TranslatedKey(k, country) in translated && exists j :: 0 <= j < |configs| && configs[j].0 == k)
    decreases |configs|
  {
    if |configs| > 0 {
      TableConfigsTail(configs);
      var key := configs[0].0;
      if TranslatedKey(key, country) !in translated {
        CapturedUrlOnly(acc, translated, configs[1..], row, country, push, k);
      } else {
        var file := FileName(configs[0].1, row, "jpg", Some(country)).value;
        var acc' := acc[CaptureKey(key, country) := Str(file)][UrlKey(key, country) := Str(push(file))];
        CapturedUrlOnly(acc', translated, configs[1..], row, country, push, k);
        UrlKeyInjective(k, key, country);
        UrlNotCaptureKey(k, key, country);
      }
      if exists j :: 0 <= j < |configs[1..]| && configs[1..][j].0 == k {
        var j :| 0 <= j < |configs[1..]| && configs[1..][j].0 == k;
        assert configs[j + 1].0 == k;
      }
    }
  }

  /** A table's capture key is none of the country keys of the parameters. */
  lemma CaptureNotTranslated(k: ParamKey, other: ParamKey, country: string)
    requires IsTable(k)
    ensures CaptureKey(k, country) != TranslatedKey(other, country)
  {
  }

  /** Every key the translation stores is the country key of a listed parameter. */
  lemma {:induction false} TranslatedKeysOnly(params: seq<(ParamKey, Param)>, country: string, table: seq<(string, string)>, key: string)
    requires key in TranslatedParams(params, country, table)
    ensures exists j :: 0 <= j < |params| && key == TranslatedKey(params[j].0, country)
    decreases |params|
  {
    var init, last := params[..|params| - 1], params[|params| - 1];
    if key != TranslatedKey(last.0, country) {
      TranslatedKeysOnly(init, country, table, key);
      var j :| 0 <= j < |init| && key == TranslatedKey(init[j].0, country);
      assert params[j] == init[j];
    }
  }

  /** Every key the captures add is the link key or the capture key of a configured table. */
  lemma {:induction false} CapturedKeys(acc: map<string, Param>, translated: map<string, Param>, configs: seq<(ParamKey, string)>,
                                       row: GamedayRow, country: string, push: string -> string, key: string)
    requires CapturesFrom(acc, translated, configs, row, country, push).Ok?
    requires key in CapturesFrom(acc, translated, configs, row, country, push).value
    ensures key in acc ||
      exists j :: 0 <= j < |configs| && (key == UrlKey(configs[j].0, country) || key == CaptureKey(configs[j].0, country))
    decreases |configs|
  {
    if |configs| > 0 {
      var k := configs[0].0;
      var acc' := acc;
      if TranslatedKey(k, country) in translated {
        var file := FileName(configs[0].1, row, "jpg", Some(country)).value;
        acc' := acc[CaptureKey(k, country) := Str(file)][UrlKey(k, country) := Str(push(file))];
      }
      CapturedKeys(acc', translated, configs[1..], row, country, push, key);
      if exists j :: 0 <= j < |configs[1..]| && (key == UrlKey(configs[1..][j].0, country) || key == CaptureKey(configs[1..][j].0, country)) {
        var j :| 0 <= j < |configs[1..]| && (key == UrlKey(configs[1..][j].0, country) || key == CaptureKey(configs[1..][j].0, country));
        assert configs[1..][j] == configs[j + 1];
      }
    }
  }

  /**
   * The captures fail exactly when a table was translated and the row
   * lacks a column of the file name; the error is then that column's
   * KeyError.
   */
  lemma {:induction false} CapturesOk(acc: map<string, Param>, translated: map<string, Param>, configs: seq<(ParamKey, string)>,
                                     row: GamedayRow, country: string, push: string -> string)
    ensures CapturesFrom(acc, translated, configs, row, country, push).Ok? <==>
      ((forall j :: 0 <= j < |configs| ==> TranslatedKey(configs[j].0, country) !in translated) ||
       ("SEASON_ID" in row && "GAMEDAY" in row))
    ensures CapturesFrom(acc, translated, configs, row, country, push).Err? ==>
      CapturesFrom(acc, translated, configs, row, country, push).error in {"KeyError: SEASON_ID", "KeyError: GAMEDAY"}
    decreases |configs|
  {
    if |configs| > 0 {
      var k := configs[0].0;
      assert forall j :: 1 <= j < |configs| ==> configs[1..][j - 1] == configs[j];
      if TranslatedKey(k, country) !in translated {
        CapturesOk(acc, translated, configs[1..], row, country, push);
      } else if "SEASON_ID" in row && "GAMEDAY" in row {
        var file := FileName(configs[0].1, row, "jpg", Some(country)).value;
        var acc' := acc[CaptureKey(k, country) := Str(file)][UrlKey(k, country) := Str(push(file))];
        CapturesOk(acc', translated, configs[1..], row, country, push);
      }
    }
  }

  /** Where a table stands among the capture configurations. */
  function ConfigIndex(k: ParamKey): (i: nat)
    requires IsTable(k)
    ensures i < |CaptureConfigs| && CaptureConfigs[i].0 == k
  {
    if k == DetailedDf then 0 else if k == GlobalDf then 1 else 2
  }

  /** The file-name prefix of a table's image. */
  function ImagePrefix(k: ParamKey): string
    requires IsTable(k)
  {
    CaptureConfigs[ConfigIndex(k)].1
  }

  lemma CaptureConfigsTables()
    ensures TableConfigs(CaptureConfigs)
  {
  }

  /**
   * A country's derivation succeeds exactly when the country has a
   * translation table (or there is nothing to translate) and, when a table
   * is to be captured, the row has the columns of the image's file name.
   */
  lemma DerivedForCountryOk(params: seq<(ParamKey, Param)>, row: GamedayRow, country: string,
                            translations: map<string, seq<(string, string)>>, push: string -> string)
    ensures DerivedForCountry(params, row, country, translations, push).Ok? <==>
      (|params| == 0 || country in translations) &&
      ((!Listed(params, DetailedDf) && !Listed(params, GlobalDf) && !Listed(params, RankDf)) ||
       ("SEASON_ID" in row && "GAMEDAY" in row))
  {
    if |params| == 0 || country in translations {
      var translated := if |params| == 0 then map[] else TranslatedParams(params, country, translations[country]);
      CapturesOk(map[], translated, CaptureConfigs, row, country, push);
      if |params| > 0 {
        forall j | 0 <= j < |CaptureConfigs|
          ensures TranslatedKey(CaptureConfigs[j].0, country) in translated <==> Listed(params, CaptureConfigs[j].0)
        {
          TranslatedKeys(params, country, translations[country], CaptureConfigs[j].0);
        }
      }
    }
  }

  /** The captures of any tables never store a value under a parameter's country key. */
  lemma CapturedNotTranslated(translated: map<string, Param>, configs: seq<(ParamKey, string)>, row: GamedayRow,
                              country: string, push: string -> string, k: ParamKey)
    requires forall j :: 0 <= j < |configs| ==> IsTable(configs[j].0)
    requires CapturesFrom(map[], translated, configs, row, country, push).Ok?
    ensures TranslatedKey(k, country) !in CapturesFrom(map[], translated, configs, row, country, push).value
  {
    var key := TranslatedKey(k, country);
    if key in CapturesFrom(map[], translated, configs, row, country, push).value {
      CapturedKeys(map[], translated, configs, row, country, push, key);
      var j :| 0 <= j < |configs| && (key == UrlKey(configs[j].0, country) || key == CaptureKey(configs[j].0, country));
      UrlNotTranslated(configs[j].0, k, country);
      CaptureNotTranslated(configs[j].0, k, country);
    }
  }

  /**
   * After a country's derivation, a parameter's country key is present
   * exactly when the parameter was to be derived, and holds the
   * translation of its value.
   */
  lemma DerivedTranslated(params: seq<(ParamKey, Param)>, row: GamedayRow, country: string,
                          translations: map<string, seq<(string, string)>>, push: string -> string, k: ParamKey)
    requires DerivedForCountry(params, row, country, translations, push).Ok?
    ensures TranslatedKey(k, country) in DerivedForCountry(params, row, country, translations, push).value <==> Listed(params, k)
    ensures Listed(params, k) ==> exists v :: (k, v) in params &&
                                      DerivedForCountry(params, row, country, translations, push).value[TranslatedKey(k, country)]
                                        == Translated(v, translations[country])
  {
    var translated := if |params| == 0 then map[] else TranslatedParams(params, country, translations[country]);
    CapturedNotTranslated(translated, CaptureConfigs, row, country, push, k);
    if |params| > 0 {
      TranslatedKeys(params, country, translations[country], k);
      if Listed(params, k) {
        TranslatedValue(params, country, translations[country], k);
      }
    }
  }

  /**
   * After a country's derivation, a table's link key is present exactly
   * when the table was to be derived, and holds the link of the image
   * pushed under the table's file name.
   */
  lemma DerivedUrl(params: seq<(ParamKey, Param)>, row: GamedayRow, country: string,
                   translations: map<string, seq<(string, string)>>, push: string -> string, k: ParamKey)
    requires DerivedForCountry(params, row, country, translations, push).Ok? && IsTable(k)
    ensures UrlKey(k, country) in DerivedForCountry(params, row, country, translations, push).value <==> Listed(params, k)
    ensures Listed(params, k) ==> (FileName(ImagePrefix(k), row, "jpg", Some(country)).Ok? &&
      DerivedForCountry(params, row, country, translations, push).value[UrlKey(k, country)]
        == Str(push(FileName(ImagePrefix(k), row, "jpg", Some(country)).value)))
  {
    var translated := if |params| == 0 then map[] else TranslatedParams(params, country, translations[country]);
    var captured := CapturesFrom(map[], translated, CaptureConfigs, row, country, push).value;
    var url := UrlKey(k, country);
    CaptureConfigsTables();
    if url in translated {
      TranslatedKeysOnly(params, country, translations[country], url);
      var j :| 0 <= j < |params| && url == TranslatedKey(params[j].0, country);
      UrlNotTranslated(k, params[j].0, country);
    }
    if |params| > 0 {
      TranslatedKeys(params, country, translations[country], k);
    }
    if Listed(params, k) {
      CapturedUrl(map[], translated, CaptureConfigs, row, country, push, ConfigIndex(k));
    }
    if url in captured {
      CapturedUrlOnly(map[], translated, CaptureConfigs, row, country, push, k);
    }
  }

  /**
   * The countries' derivations merged in the order of the countries,
   * added to `acc`, a later country's value winning on a shared key; the
   * first country that fails stops the program with its error.
   */
  function DerivedFrom(acc: map<string, Param>, params: seq<(ParamKey, Param)>, row: GamedayRow, countries: seq<string>,
                       translations: map<string, seq<(string, string)>>, push: string -> string): Result<map<string, Param>>
    decreases |countries|
  {
    if |countries| == 0 then Ok(acc)
    else match DerivedForCountry(params, row, countries[0], translations, push)
      case Err(e) => Err(e)
      case Ok(m) => DerivedFrom(acc + m, params, row, countries[1..], translations, push)
  }

  /**
   * `derive_calculated_parameters`: the parameters worth deriving (not
   * None, not an empty table) derived for each country, the results merged
   * in the order of the countries.
   */
  method DeriveCalculated(p: CalculatedParams, row: GamedayRow, countries: seq<string>,
                          translations: map<string, seq<(string, string)>>, push: string -> string)
    returns (r: Result<map<string, Param>>)
    ensures r == DerivedFrom(map[], ToDerive(Candidates(p)), row, countries, translations, push)
  {
    var params := ToDerive(Candidates(p));
    var merged: map<string, Param> := map[];
    for i := 0 to |countries|
      invariant DerivedFrom(merged, params, row, countries[i..], translations, push)
             == DerivedFrom(map[], params, row, countries, translations, push)
    {
      assert countries[i..][1..] == countries[i + 1..];
      var m := DeriveCalculatedForCountry(params, row, countries[i], translations, push);
      if m.Err? {
        return Err(m.error);
      }
      merged := merged + m.value;
    }
    return Ok(merged);
  }

  /** The merge succeeds exactly when every country's derivation does. */
  lemma {:induction false} DerivedFromOk(acc: map<string, Param>, params: seq<(ParamKey, Param)>, row: GamedayRow, countries: seq<string>,
                                        translations: map<string, seq<(string, string)>>, push: string -> string)
    ensures DerivedFrom(acc, params, row, countries, translations, push).Ok? <==>
      forall i :: 0 <= i < |countries| ==> DerivedForCountry(params, row, countries[i], translations, push).Ok?
    decreases |countries|
  {
    if |countries| > 0 {
      assert forall i :: 1 <= i < |countries| ==> countries[1..][i - 1] == countries[i];
      var m := DerivedForCountry(params, row, countries[0], translations, push);
      if m.Ok? {
        DerivedFromOk(acc + m.value, params, row, countries[1..], translations, push);
      }
    }
  }

  /** The merged parameters are exactly those of `acc` and of the countries' derivations. */
  lemma {:induction false} DerivedFromKeys(acc: map<string, Param>, params: seq<(ParamKey, Param)>, row: GamedayRow, countries: seq<string>,
                                          translations: map<string, seq<(string, string)>>, push: string -> string, key: string)
    requires DerivedFrom(acc, params, row, countries, translations, push).Ok?
    ensures key in DerivedFrom(acc, params, row, countries, translations, push).value <==>
      key in acc || exists i :: 0 <= i < |countries| && CountryHas(params, row, countries[i], translations, push, key)
    decreases |countries|
  {
    if |countries| > 0 {
      var m := DerivedForCountry(params, row, countries[0], translations, push).value;
      var rest := countries[1..];
      DerivedFromKeys(acc + m, params, row, rest, translations, push, key);
      if exists i :: 0 <= i < |rest| && CountryHas(params, row, rest[i], translations, push, key) {
        var i :| 0 <= i < |rest| && CountryHas(params, row, rest[i], translations, push, key);
        assert countries[i + 1] == rest[i];
      }
      if exists i :: 0 <= i < |countries| && CountryHas(params, row, countries[i], translations, push, key) {
        var i :| 0 <= i < |countries| && CountryHas(params, row, countries[i], translations, push, key);
        if i > 0 {
          assert rest[i - 1] == countries[i];
        }
      }
    }
  }

  /** Each merged parameter has the value `acc` or one of the countries' derivations gives it. */
  lemma {:induction false} DerivedFromValues(acc: map<string, Param>, params: seq<(ParamKey, Param)>, row: GamedayRow, countries: seq<string>,
                                            translations: map<string, seq<(string, string)>>, push: string -> string, key: string)
    requires DerivedFrom(acc, params, row, countries, translations, push).Ok?
    requires key in DerivedFrom(acc, params, row, countries, translations, push).value
    ensures (key in acc && DerivedFrom(acc, params, row, countries, translations, push).value[key] == acc[key]) ||
      exists i :: 0 <= i < |countries| && CountryGives(params, row, countries[i], translations, push, key,
                                                       DerivedFrom(acc, params, row, countries, translations, push).value[key])
    decreases |countries|
  {
    if |countries| > 0 {
      var m := DerivedForCountry(params, row, countries[0], translations, push).value;
      var rest := countries[1..];
      var out := DerivedFrom(acc, params, row, countries, translations, push).value;
      assert out == DerivedFrom(acc + m, params, row, rest, translations, push).value;
      DerivedFromValues(acc + m, params, row, rest, translations, push, key);
      if exists i :: 0 <= i < |rest| && CountryGives(params, row, rest[i], translations, push, key, out[key]) {
        var i :| 0 <= i < |rest| && CountryGives(params, row, rest[i], translations, push, key, out[key]);
        assert countries[i + 1] == rest[i];
      } else if key in m {
        assert CountryGives(params, row, countries[0], translations, push, key, out[key]);
      }
    }
  }

  /** A country's derivation succeeds and gives the key this value. */
  predicate CountryGives(params: seq<(ParamKey, Param)>, row: GamedayRow, country: string,
                         translations: map<string, seq<(string, string)>>, push: string -> string, key: string, v: Param)
  {
    CountryHas(params, row, country, translations, push, key) &&
    DerivedForCountry(params, row, country, translations, push).value[key] == v
  }

  /** A country's derivation succeeds and gives the key. */
  predicate CountryHas(params: seq<(ParamKey, Param)>, row: GamedayRow, country: string,
                       translations: map<string, seq<(string, string)>>, push: string -> string, key: string)
  {
    DerivedForCountry(params, row, country, translations, push).Ok? &&
    key in DerivedForCountry(params, row, country, translations, push).value
  }
}
