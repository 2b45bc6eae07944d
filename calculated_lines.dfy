/**
 * The text pieces of the calculated gameday message, built by the
 * `get_calculated_*` and `get_mvp_*` functions of
 * `output_actions/output_actions_calculated.py` from the rows their queries
 * return: the game results, the gameday and average rankings, the
 * prediction championship results, the corrections, the list of calculated
 * gamedays and the MVP races. Query rows come in as sequences of records.
 */
module CalculatedLines {
  import opened Wrappers
  import opened Strings
  import opened Collections
  import opened OutputRanks

  // ---------------------------------------------------------------------
  // `get_calculated_games_result`
  // ---------------------------------------------------------------------

  /**
   * The RESULT column as shown: a plus sign before a positive difference,
   * zero and negative differences as `str` writes them. The sign tells
   * the difference's sign and the text reads back as the difference.
   */
  function SignedResult(x: int): (r: string)
    ensures |r| > 0
    ensures r[0] == '+' <==> x > 0
    ensures r[0] == '-' <==> x < 0
    ensures ParseInt(r) == Some(x)
  {
    ParseIntRoundTrip(x);
    if x > 0 then
      ParsePlus(x);
      "+" + IntToString(x)
    else
      IntToString(x)
  }

  /** A game of the gameday with its result. */
  datatype GameResult = GameResult(messageShort: string, home: string, away: string, result: int, scoreHome: int, scoreAway: int)

  /** `MSG/ HOME vs AWAY: [b]RESULT[/b] [ SH - SA ]`. */
  function ResultLine(g: GameResult): string
  {
    g.messageShort + "/ " + g.home + " vs " + g.away + ": [b]" + SignedResult(g.result) + "[/b] [ "
      + IntToString(g.scoreHome) + " - " + IntToString(g.scoreAway) + " ]"
  }

  function ResultLines(games: seq<GameResult>): (r: seq<string>)
    ensures |r| == |games| && forall k :: 0 <= k < |r| ==> r[k] == ResultLine(games[k])
  {
    seq(|games|, k requires 0 <= k < |games| => ResultLine(games[k]))
  }

  /** `get_calculated_games_result`: one line per game, joined by newlines, and the number of games. */
  function GamesResult(games: seq<GameResult>): (r: (string, nat))
    ensures r.1 == |games|
  {
    (Join(ResultLines(games), "\n"), |games|)
  }

  /** A line break in no text field of the game. */
  predicate ResultOnOneLine(g: GameResult)
  {
    '\n' !in g.messageShort && '\n' !in g.home && '\n' !in g.away
  }

  lemma NumeralOnOneLine(n: int)
    ensures '\n' !in IntToString(n)
  {
    var d := NatToString(if n < 0 then -n else n);
    assert forall k :: 0 <= k < |d| ==> IsDigit(d[k]);
    if n < 0 {
      assert IntToString(n) == "-" + d;
    }
  }

  lemma ResultLineOnOneLine(g: GameResult)
    requires ResultOnOneLine(g)
    ensures '\n' !in ResultLine(g)
  {
    NumeralOnOneLine(g.scoreHome);
    NumeralOnOneLine(g.scoreAway);
    SignedOnOneLine(g.result);
    LiteralsOnOneLine();
    var a := g.messageShort + "/ ";
    NoBreakConcat(g.messageShort, "/ ");
    NoBreakConcat(a, g.home);
    NoBreakConcat(a + g.home, " vs ");
    var b := a + g.home + " vs ";
    NoBreakConcat(b, g.away);
    NoBreakConcat(b + g.away, ": [b]");
    var c := b + g.away + ": [b]";
    NoBreakConcat(c, SignedResult(g.result));
    NoBreakConcat(c + SignedResult(g.result), "[/b] [ ");
    var e := c + SignedResult(g.result) + "[/b] [ ";
    NoBreakConcat(e, IntToString(g.scoreHome));
    NoBreakConcat(e + IntToString(g.scoreHome), " - ");
    var f := e + IntToString(g.scoreHome) + " - ";
    NoBreakConcat(f, IntToString(g.scoreAway));
    NoBreakConcat(f + IntToString(g.scoreAway), " ]");
  }

  lemma NoBreakConcat(a: string, b: string)
    requires '\n' !in a && '\n' !in b
    ensures '\n' !in a + b
  {
  }

  lemma LiteralsOnOneLine()
    ensures '\n' !in "/ " && '\n' !in " vs " && '\n' !in ": [b]" && '\n' !in "[/b] [ "
    ensures '\n' !in " - " && '\n' !in " ]"
  {
  }

  lemma SignedOnOneLine(x: int)
    ensures '\n' !in SignedResult(x)
  {
    NumeralOnOneLine(x);
    if x > 0 {
      assert SignedResult(x) == "+" + IntToString(x);
    }
  }

  /** Splitting the result text on newlines gives back one line per game, in order. */
  lemma GamesResultLines(games: seq<GameResult>)
    requires |games| > 0 && forall k :: 0 <= k < |games| ==> ResultOnOneLine(games[k])
    ensures Split(GamesResult(games).0, "\n") == ResultLines(games)
  {
    var lines := ResultLines(games);
    forall k | 0 <= k < |lines|
      ensures '\n' !in lines[k]
    {
      ResultLineOnOneLine(games[k]);
    }
    SplitJoin(lines, '\n');
  }

  /** A lost game 0 - 2: "2/ X vs Y: [b]-2[/b] [ 0 - 2 ]". */
  lemma ResultLineExample(msg: string, home: string, away: string)
    ensures ResultLine(GameResult(msg, home, away, -2, 0, 2))
         == msg + "/ " + home + " vs " + away + ": [b]" + "-2" + "[/b] [ " + "0" + " - " + "2" + " ]"
  {
    assert NatToString(2) == "2" && NatToString(0) == "0";
    assert IntToString(-2) == "-" + "2" == "-2";
  }

  // ---------------------------------------------------------------------
  // `get_calculated_scores_gameday` and `get_calculated_scores_average`
  // ---------------------------------------------------------------------

  /** The rank column as text: the rank, or '-' for a rank shown above. */
  function RankText(c: RankCell): string
  {
    match c
    case Shown(r) => IntToString(r)
    case Dash => "-"
  }

  /** A user's points on the gameday. */
  datatype GamedayScore = GamedayScore(user: string, points: int)

  /** `RANK. USER - PTS pts ` (with a trailing space). */
  function GamedayLine(d: Displayed<GamedayScore>): string
  {
    RankText(d.cell) + ". " + d.row.user + " - " + IntToString(d.row.points) + " pts "
  }

  function GamedayLines(shown: seq<Displayed<GamedayScore>>): (r: seq<string>)
    ensures |r| == |shown| && forall k :: 0 <= k < |r| ==> r[k] == GamedayLine(shown[k])
  {
    seq(|shown|, k requires 0 <= k < |shown| => GamedayLine(shown[k]))
  }

  /**
   * `get_calculated_scores_gameday`: the users displayed by rank (a rank
   * repeated as '-'), one line each, and the number of users.
   */
  method ScoresGameday(rows: seq<Ranked<GamedayScore>>) returns (text: string, count: nat)
    ensures count == |rows|
    ensures text == Join(GamedayLines(MaskRepeats(SortByRank(rows))), "\n")
  {
    var shown := DisplayRank(rows);
    text := Join(GamedayLines(shown), "\n");
    count := |rows|;
  }

  /** The users of the gameday ranking are the users of the rows, each as often, in rank order. */
  lemma GamedayUsers(rows: seq<Ranked<GamedayScore>>)
    ensures |MaskRepeats(SortByRank(rows))| == |rows|
    ensures multiset(SortByRank(rows)) == multiset(rows) && SortedByRank(SortByRank(rows))
    ensures forall k :: 0 <= k < |rows| ==> MaskRepeats(SortByRank(rows))[k].row == SortByRank(rows)[k].row
  {
    SortByRankPermutes(rows);
    SortByRankSorted(rows);
  }

  /** A user of the season with the season's figures. */
  datatype SeasonScore = SeasonScore(user: string, totalPoints: int, nbGamedayPredict: int,
                                     nbGamedayFirst: int, nbTotalPredict: int, averagePoints: int)

  /** `int(nb / 2)`: Python's float division, truncated toward zero. */
  function MinPrediction(nbPrediction: int): (m: int)
  {
    if nbPrediction >= 0 then nbPrediction / 2 else -((-nbPrediction) / 2)
  }

  /** For a count of predictions the minimum is the lower half: 67 gives 33 and 4 gives 2. */
  lemma MinPredictionHalf(nb: nat)
    ensures 0 <= 2 * MinPrediction(nb) <= nb <= 2 * MinPrediction(nb) + 1
    ensures MinPrediction(67) == 33 && MinPrediction(4) == 2
  {
  }

  /** The users with strictly more predictions than the minimum, in their order. */
  function Regulars(users: seq<SeasonScore>, minimum: int): (r: seq<SeasonScore>)
    ensures forall u :: u in r <==> u in users && u.nbTotalPredict > minimum
    ensures |r| <= |users|
  {
    if |users| == 0 then []
    else
      var rest := Regulars(users[1..], minimum);
      assert forall u :: u in users <==> u == users[0] || u in users[1..];
      if users[0].nbTotalPredict > minimum then [users[0]] + rest else rest
  }

  /** The average as the single ranking column. */
  function ByAverage(users: seq<SeasonScore>): (r: seq<Scored<SeasonScore>>)
    ensures |r| == |users| && forall k :: 0 <= k < |r| ==> r[k] == Scored([users[k].averagePoints], users[k])
  {
    seq(|users|, k requires 0 <= k < |users| => Scored([users[k].averagePoints], users[k]))
  }

  /** `RANK. USER - AVG pts`. */
  function AverageLine(d: Displayed<Scored<SeasonScore>>): string
  {
    RankText(d.cell) + ". " + d.row.row.user + " - " + IntToString(d.row.row.averagePoints) + " pts"
  }

  function AverageLines(shown: seq<Displayed<Scored<SeasonScore>>>): (r: seq<string>)
    ensures |r| == |shown| && forall k :: 0 <= k < |r| ==> r[k] == AverageLine(shown[k])
  {
    seq(|shown|, k requires 0 <= k < |shown| => AverageLine(shown[k]))
  }

  /**
   * `get_calculated_scores_average`: the users with more predictions than
   * half the gamedays' predictions, ranked by descending average, one line
   * each; with their number and the minimum.
   */
  method ScoresAverage(nbPrediction: int, users: seq<SeasonScore>) returns (text: string, count: nat, minimum: int)
    ensures minimum == MinPrediction(nbPrediction)
    ensures count == |Regulars(users, minimum)|
    ensures text == Join(AverageLines(MaskRepeats(RankRows(SortDescending(ByAverage(Regulars(users, minimum)))))), "\n")
  {
    minimum := MinPrediction(nbPrediction);
    var kept := Regulars(users, minimum);
    var shown := CalculateAndDisplayRank(ByAverage(kept));
    text := Join(AverageLines(shown), "\n");
    count := |kept|;
  }

  /** Every ranked user has more predictions than the minimum, and every such user is ranked, as often as listed. */
  lemma AverageRanksRegulars(users: seq<SeasonScore>, minimum: int)
    ensures var ranked := SortDescending(ByAverage(Regulars(users, minimum)));
      (forall k :: 0 <= k < |ranked| ==> ranked[k].row.nbTotalPredict > minimum) &&
      multiset(ranked) == multiset(ByAverage(Regulars(users, minimum)))
  {
    var scored := ByAverage(Regulars(users, minimum));
    SortDescendingPermutes(scored);
    var ranked := SortDescending(scored);
    forall k | 0 <= k < |ranked|
      ensures ranked[k].row.nbTotalPredict > minimum
    {
      assert ranked[k] in multiset(scored);
      var j :| 0 <= j < |scored| && scored[j] == ranked[k];
      assert scored[j].row in Regulars(users, minimum);
    }
  }

  // ---------------------------------------------------------------------
  // `get_calculated_predictchamp_result`
  // ---------------------------------------------------------------------

  /** A prediction championship game: the winner is 1 (home), 2 (away) or neither. */
  datatype ChampGame = ChampGame(key: string, messageShort: string, home: string, away: string, winner: int,
                                 pointsHome: int, pointsAway: int, pointsBonus: Option<int>,
                                 isForRank: int, hasHomeAdv: int)

  /** A user's points for a team of a game, and the user's rank within the team. */
  datatype ChampDetail = ChampDetail(gameKey: string, team: string, user: string, points: int, rankInTeam: int)

  function Bold(s: string): string
  {
    "[b]" + s + "[/b]"
  }

  /** `MSG/ HOME vs AWAY : PH - PA`, the winning team in bold. */
  function ChampGameLine(g: ChampGame): string
  {
    g.messageShort + "/ " + (if g.winner == 1 then Bold(g.home) else g.home) + " vs "
      + (if g.winner == 2 then Bold(g.away) else g.away) + " : "
      + IntToString(g.pointsHome) + " - " + IntToString(g.pointsAway)
  }

  /** A leader of the team reads `USER: PTS pts`, any other user `USER (PTS)`. */
  function DetailText(d: ChampDetail): string
  {
    if d.rankInTeam == 1 then d.user + ": " + IntToString(d.points) + " pts"
    else d.user + " (" + IntToString(d.points) + ")"
  }

  /** The texts of the rows of rank 1 (`leaders`) or of any other rank, in order. */
  function TextsOf(g: seq<ChampDetail>, leaders: bool): (r: seq<string>)
    ensures |r| <= |g|
    ensures |r| == 0 <==> forall k :: 0 <= k < |g| ==> (g[k].rankInTeam == 1) != leaders
  {
    if |g| == 0 then []
    else
      var rest := TextsOf(g[1..], leaders);
      assert forall k :: 1 <= k < |g| ==> g[k] == g[1..][k - 1];
      if (g[0].rankInTeam == 1) == leaders then [DetailText(g[0])] + rest else rest
  }

  /** The leaders' part of a team: each leader after an arrow, one per line. */
  function LeadersPart(g: seq<ChampDetail>): string
  {
    "-> " + Join(TextsOf(g, true), "\n-> ")
  }

  /** `teams_group`: the leaders, then the users not counted when there are any. */
  function TeamsGroup(g: seq<ChampDetail>): string
  {
    var others := TextsOf(g, false);
    LeadersPart(g) + (if |others| > 0 then "   - [__Not counted__: " + Join(others, "/ ") + "]" else "")
  }

  /** Joining with "\n-> " after a first arrow puts every item after its own arrow, one per line. */
  lemma {:induction false} ArrowLines(items: seq<string>)
    requires |items| > 0
    ensures "-> " + Join(items, "\n-> ") == Join(seq(|items|, k requires 0 <= k < |items| => "-> " + items[k]), "\n")
    decreases |items|
  {
    var arrows := seq(|items|, k requires 0 <= k < |items| => "-> " + items[k]);
    if |items| > 1 {
      var tail := items[1..];
      ArrowLines(tail);
      var tailArrows := seq(|tail|, k requires 0 <= k < |tail| => "-> " + tail[k]);
      assert arrows[1..] == tailArrows;
      calc {
        "-> " + Join(items, "\n-> ");
        "-> " + (items[0] + "\n-> " + Join(tail, "\n-> "));
        ("-> " + items[0]) + "\n" + ("-> " + Join(tail, "\n-> "));
        arrows[0] + "\n" + Join(arrows[1..], "\n");
      }
    }
  }

  /** The team string is the leaders' part alone exactly when every user of the team is a leader. */
  lemma NotCountedOnlyWithOthers(g: seq<ChampDetail>)
    ensures TeamsGroup(g) == LeadersPart(g) <==> forall k :: 0 <= k < |g| ==> g[k].rankInTeam == 1
  {
    var others := TextsOf(g, false);
    if |others| > 0 {
      var suffix := "   - [__Not counted__: " + Join(others, "/ ") + "]";
      assert |TeamsGroup(g)| == |LeadersPart(g)| + |suffix|;
    }
  }

  /** `\n-> __Home bonus__: N pts`, only for a bonus that is not zero. */
  function BonusLine(bonus: int): string
  {
    if bonus != 0 then "\n-> __Home bonus__: " + IntToString(bonus) + " pts" else ""
  }

  /** A team's block: `[code]__FOR__ TEAM:` on its own line, the team string, the bonus line, `[/code]`. */
  function TeamBlock(team: string, g: seq<ChampDetail>, bonus: int): string
  {
    "[code]__FOR__ " + team + ":\n" + TeamsGroup(g) + BonusLine(bonus) + "[/code]"
  }

  /** The bonus line is written exactly when the bonus is not zero. */
  lemma BonusLineOnlyWhenNonZero(team: string, g: seq<ChampDetail>, bonus: int)
    ensures TeamBlock(team, g, bonus) == "[code]__FOR__ " + team + ":\n" + TeamsGroup(g) + "[/code]" <==> bonus == 0
  {
    if bonus != 0 {
      var line := BonusLine(bonus);
      assert |line| > 0;
      assert |TeamBlock(team, g, bonus)| == |"[code]__FOR__ " + team + ":\n" + TeamsGroup(g) + "[/code]"| + |line|;
    }
  }

  /**
   * The bonus merged onto a team: the bonus of the first game with that key
   * whose home team it is, a missing bonus counting as 0; any other team
   * gets 0.
   */
  function TeamBonus(games: seq<ChampGame>, key: string, team: string): (b: int)
    ensures b != 0 ==> exists k :: 0 <= k < |games| && games[k].key == key && games[k].home == team
  {
    if |games| == 0 then 0
    else if games[0].key == key && games[0].home == team then
      (match games[0].pointsBonus case None => 0 case Some(v) => v)
    else
      var b := TeamBonus(games[1..], key, team);
      assert b != 0 ==> exists k :: 1 <= k < |games| && games[k].key == key && games[k].home == team by {
        if b != 0 {
          var k :| 0 <= k < |games[1..]| && games[1..][k].key == key && games[1..][k].home == team;
          assert games[k + 1] == games[1..][k];
        }
      }
      b
  }

  /** The teams of a game's rows. */
  function TeamsOfGame(details: seq<ChampDetail>, key: string): (r: seq<string>)
    ensures forall t :: t in r <==> exists k :: 0 <= k < |details| && details[k].gameKey == key && details[k].team == t
  {
    if |details| == 0 then []
    else
      var rest := TeamsOfGame(details[1..], key);
      assert forall k :: 1 <= k < |details| ==> details[k] == details[1..][k - 1];
      if details[0].gameKey == key then [details[0].team] + rest else rest
  }

  /** The game's teams as `groupby` lists them: each once, by name. */
  function GameTeams(details: seq<ChampDetail>, key: string): seq<string>
  {
    SortStrings(Distinct(TeamsOfGame(details, key)))
  }

  /** A game's teams are listed once each, in increasing order of name, and they are exactly the teams of its rows. */
  lemma GameTeamsSorted(details: seq<ChampDetail>, key: string)
    ensures StrSorted(GameTeams(details, key))
    ensures forall t :: t in GameTeams(details, key) <==>
      exists k :: 0 <= k < |details| && details[k].gameKey == key && details[k].team == t
  {
    var d := Distinct(TeamsOfGame(details, key));
    SortStringsSorted(d);
    forall t
      ensures t in SortStrings(d) <==> t in d
    {
      assert t in SortStrings(d) <==> t in multiset(SortStrings(d));
    }
  }

  /** The rows of one team of one game, in order. */
  function TeamRows(details: seq<ChampDetail>, key: string, team: string): (r: seq<ChampDetail>)
    ensures forall d :: d in r <==> d in details && d.gameKey == key && d.team == team
  {
    if |details| == 0 then []
    else
      var rest := TeamRows(details[1..], key, team);
      assert forall d :: d in details <==> d == details[0] || d in details[1..];
      if details[0].gameKey == key && details[0].team == team then [details[0]] + rest else rest
  }

  /** The blocks of a game's teams, by team name. */
  function TeamBlocks(games: seq<ChampGame>, details: seq<ChampDetail>, key: string): (r: seq<string>)
    ensures |r| == |GameTeams(details, key)|
  {
    var teams := GameTeams(details, key);
    seq(|teams|, k requires 0 <= k < |teams| =>
      TeamBlock(teams[k], TeamRows(details, key, teams[k]), TeamBonus(games, key, teams[k])))
  }

  /** A game's line, followed on the next lines by its teams' blocks when it has rows. */
  function ChampResultLine(games: seq<ChampGame>, details: seq<ChampDetail>, g: ChampGame): string
  {
    var blocks := TeamBlocks(games, details, g.key);
    if |blocks| > 0 then ChampGameLine(g) + "\n" + Join(blocks, "\n") else ChampGameLine(g)
  }

  /** `get_calculated_predictchamp_result`: the games' texts, in the games' order, joined by newlines. */
  function PredictchampResult(games: seq<ChampGame>, details: seq<ChampDetail>): string
  {
    Join(seq(|games|, k requires 0 <= k < |games| => ChampResultLine(games, details, games[k])), "\n")
  }

  /** A game without rows is its game line alone. */
  lemma GameWithoutRows(games: seq<ChampGame>, details: seq<ChampDetail>, g: ChampGame)
    requires forall k :: 0 <= k < |details| ==> details[k].gameKey != g.key
    ensures ChampResultLine(games, details, g) == ChampGameLine(g)
  {
    HeadIn(TeamsOfGame(details, g.key));
  }

  lemma HeadIn(s: seq<string>)
    ensures |s| == 0 || s[0] in s
  {
  }

  // ---------------------------------------------------------------------
  // `get_calculated_correction`
  // ---------------------------------------------------------------------

  /** A prediction corrected for a user. */
  datatype Correction = Correction(user: string, predictId: int)

  function UsersOf(rows: seq<Correction>): (r: seq<string>)
    ensures |r| == |rows| && forall k :: 0 <= k < |r| ==> r[k] == rows[k].user
  {
    seq(|rows|, k requires 0 <= k < |rows| => rows[k].user)
  }

  /** The users corrected, as `groupby('USER_NAME')` lists them: once each, by name. */
  function CorrectedUsers(rows: seq<Correction>): seq<string>
  {
    SortStrings(Distinct(UsersOf(rows)))
  }

  /** The ids of a user's corrected predictions, in order, as text. */
  function IdsOf(rows: seq<Correction>, user: string): seq<string>
  {
    if |rows| == 0 then []
    else (if rows[0].user == user then [IntToString(rows[0].predictId)] else []) + IdsOf(rows[1..], user)
  }

  /** `USER : id1 / id2`. */
  function CorrectionLine(rows: seq<Correction>, user: string): string
  {
    user + " : " + Join(IdsOf(rows, user), " / ")
  }

  /** `get_calculated_correction`: one line per corrected user, and the number of users. */
  function CorrectionList(rows: seq<Correction>): (r: (string, nat))
  {
    var users := CorrectedUsers(rows);
    (Join(seq(|users|, k requires 0 <= k < |users| => CorrectionLine(rows, users[k])), "\n"), |users|)
  }

  /** No corrections: an empty list and no users. */
  lemma CorrectionListEmpty()
    ensures CorrectionList([]) == ("", 0)
  {
    assert UsersOf([]) == [];
  }

  /** The count is the number of distinct users, and the users are listed once each by name. */
  lemma CorrectionListUsers(rows: seq<Correction>)
    ensures CorrectionList(rows).1 == |(set k | 0 <= k < |rows| :: rows[k].user)|
    ensures StrSorted(CorrectedUsers(rows))
    ensures forall u :: u in CorrectedUsers(rows) <==> exists k :: 0 <= k < |rows| && rows[k].user == u
  {
    var d := Distinct(UsersOf(rows));
    SortStringsSorted(d);
    forall u
      ensures u in SortStrings(d) <==> u in d
    {
      assert u in SortStrings(d) <==> u in multiset(SortStrings(d));
    }
    DistinctCount(d);
    assert (set x | x in d) == (set k | 0 <= k < |rows| :: rows[k].user) by {
      forall x | x in d ensures x in set k | 0 <= k < |rows| :: rows[k].user {
        var k :| 0 <= k < |rows| && UsersOf(rows)[k] == x;
      }
    }
    assert |SortStrings(d)| == |d| by {
      assert |multiset(SortStrings(d))| == |multiset(d)|;
    }
  }

  /** A sequence without duplicates has as many values as elements. */
  lemma {:induction false} DistinctCount(s: seq<string>)
    requires NoDuplicates(s)
    ensures |(set x | x in s)| == |s|
    decreases |s|
  {
    if |s| > 0 {
      var init := s[..|s| - 1];
      DistinctCount(init);
      assert (set x | x in s) == (set x | x in init) + {s[|s| - 1]};
      assert s[|s| - 1] !in init;
    }
  }

  // ---------------------------------------------------------------------
  // `get_calculated_list_gameday`
  // ---------------------------------------------------------------------

  /** A calculated gameday with its number of predictions. */
  datatype GamedayCount = GamedayCount(gameday: string, nbPrediction: int)

  /** `GAMEDAY (N)`. */
  function GamedayEntry(g: GamedayCount): string
  {
    g.gameday + " (" + IntToString(g.nbPrediction) + ")"
  }

  /** The `STRING` column: one entry per gameday, in order. */
  function GamedayEntries(gamedays: seq<GamedayCount>): (r: seq<string>)
    ensures |r| == |gamedays| && forall k :: 0 <= k < |r| ==> r[k] == GamedayEntry(gamedays[k])
  {
    seq(|gamedays|, k requires 0 <= k < |gamedays| => GamedayEntry(gamedays[k]))
  }

  /** `get_calculated_list_gameday`: the gamedays with their counts, joined by " / ". */
  function GamedayList(gamedays: seq<GamedayCount>): string
  {
    Join(GamedayEntries(gamedays), " / ")
  }

  /**
   * Splitting the list on " / " gives back the entry of each gameday, in
   * order, when no entry holds " / " itself; no gameday gives the empty text.
   */
  lemma GamedayListSplits(gamedays: seq<GamedayCount>)
    requires forall k :: 0 <= k < |gamedays| ==> !Contains(GamedayEntry(gamedays[k]), " / ")
    ensures |gamedays| == 0 ==> GamedayList(gamedays) == ""
    ensures |gamedays| > 0 ==> Split(GamedayList(gamedays), " / ") == GamedayEntries(gamedays)
  {
    var entries := GamedayEntries(gamedays);
    if |gamedays| > 0 {
      forall k | 0 <= k < |entries| - 1
        ensures |entries[k]| == 0 || entries[k][|entries[k]| - 1] !in " / "
      {
        assert entries[k][|entries[k]| - 1] == ')';
      }
      SplitJoinSep(entries, " / ");
    }
  }

  /** The sum of the predictions over the calculated gamedays (`NB_TOTAL_PREDICT`). */
  function TotalPredictions(gamedays: seq<GamedayCount>): (r: int)
    ensures (forall k :: 0 <= k < |gamedays| ==> gamedays[k].nbPrediction >= 0) ==> r >= 0
  {
    if |gamedays| == 0 then 0 else gamedays[0].nbPrediction + TotalPredictions(gamedays[1..])
  }

  /** Two gamedays read "G1 (N1) / G2 (N2)". */
  lemma GamedayListTwo(a: GamedayCount, b: GamedayCount)
    ensures GamedayList([a, b]) == GamedayEntry(a) + " / " + GamedayEntry(b)
  {
    var entries := GamedayEntries([a, b]);
    assert entries == [GamedayEntry(a), GamedayEntry(b)];
    assert Join(entries[1..], " / ") == GamedayEntry(b) by {
      assert entries[1..] == [GamedayEntry(b)];
    }
  }

  /**
   * With the gamedays' total as `NB_TOTAL_PREDICT`, the average ranking
   * keeps exactly the users who predicted more than half of that total.
   */
  lemma RegularsAboveHalfTotal(gamedays: seq<GamedayCount>, users: seq<SeasonScore>)
    requires forall k :: 0 <= k < |gamedays| ==> gamedays[k].nbPrediction >= 0
    ensures forall u :: u in Regulars(users, MinPrediction(TotalPredictions(gamedays))) <==>
                        u in users && 2 * u.nbTotalPredict > TotalPredictions(gamedays)
  {
    MinPredictionHalf(TotalPredictions(gamedays));
  }

  // ---------------------------------------------------------------------
  // `get_mvp_month_race_figure` and `get_mvp_compet_race_figure`
  // ---------------------------------------------------------------------

  /** A user's figures in an MVP race. */
  datatype MvpRow = MvpRow(user: string, points: int, win: int, loss: int, listTeams: string)

  /** `USER - PTS pts / W__W__-L__L__ [__with__ TEAMS]`. */
  function MvpLine(r: MvpRow): string
  {
    r.user + " - " + IntToString(r.points) + " pts / " + IntToString(r.win) + "__W__-"
      + IntToString(r.loss) + "__L__ [__with__ " + r.listTeams + "]"
  }

  /** The `STRING` column: one line per user, in order. */
  function MvpLines(rows: seq<MvpRow>): (r: seq<string>)
    ensures |r| == |rows| && forall k :: 0 <= k < |r| ==> r[k] == MvpLine(rows[k])
  {
    seq(|rows|, k requires 0 <= k < |rows| => MvpLine(rows[k]))
  }

  /** The race's label (the month or the competition), its lines joined by newlines, and its number of users. */
  function MvpRace(heading: string, rows: seq<MvpRow>): (r: (string, string, nat))
    ensures r.0 == heading && r.2 == |rows|
  {
    (heading, Join(MvpLines(rows), "\n"), |rows|)
  }

  /** A race without users has an empty list. */
  lemma MvpRaceEmpty(heading: string)
    ensures MvpRace(heading, []) == (heading, "", 0)
  {
  }

  /** A user's line holds no line break when neither the user name nor the team list does. */
  lemma MvpLineOnOneLine(r: MvpRow)
    requires '\n' !in r.user && '\n' !in r.listTeams
    ensures '\n' !in MvpLine(r)
  {
    NumeralOnOneLine(r.points);
    NumeralOnOneLine(r.win);
    NumeralOnOneLine(r.loss);
    assert '\n' !in " - " && '\n' !in " pts / " && '\n' !in "__W__-" && '\n' !in "__L__ [__with__ " && '\n' !in "]";
  }

  /**
   * Splitting the race text on line breaks gives back one line per user, in
   * the rows' order, when no user name or team list holds a line break.
   */
  lemma MvpRaceLines(heading: string, rows: seq<MvpRow>)
    requires |rows| > 0
    requires forall k :: 0 <= k < |rows| ==> '\n' !in rows[k].user && '\n' !in rows[k].listTeams
    ensures Split(MvpRace(heading, rows).1, "\n") == MvpLines(rows)
  {
    var lines := MvpLines(rows);
    forall k | 0 <= k < |lines|
      ensures '\n' !in lines[k]
    {
      MvpLineOnOneLine(rows[k]);
    }
    SplitJoin(lines, '\n');
  }
}
