/**
 * The message posted when a gameday is opened (`output_actions_inited.py`):
 * its parameters (the list of games, the remaining games, the first game's
 * date, the bonus game), the translation of the date for each forum
 * country, and the filling of the country's template.
 */
module OutputInited {
  import opened Wrappers
  import opened Strings
  import opened Collections
  import opened Timestamps
  import opened OutputActions
  import opened MessageTemplates
  import opened Config

  // ---------------------------------------------------------------------
  // `get_inited_list_games` and `get_inited_remaining_games`
  // ---------------------------------------------------------------------

  /** One game of the gameday: its short message identifier and its two teams. */
  datatype Game = Game(message: string, home: string, away: string)

  /** `#GAME_MESSAGE# HOME vs AWAY ==> [i]+1[/i]`: the line a predictor copies to predict a home win. */
  function GameLine(g: Game): string
  {
    "#" + g.message + "# " + g.home + " vs " + g.away + " ==> [i]+1[/i]"
  }

  function GameLines(games: seq<Game>): (r: seq<string>)
    ensures |r| == |games| && forall k :: 0 <= k < |r| ==> r[k] == GameLine(games[k])
  {
    seq(|games|, k requires 0 <= k < |games| => GameLine(games[k]))
  }

  /** `get_inited_list_games`: the game lines joined by newlines, and the number of games. */
  function ListGames(games: seq<Game>): (r: (string, nat))
    ensures r.1 == |games|
  {
    (Join(GameLines(games), "\n"), |games|)
  }

  /** No games: an empty list and a count of zero. */
  lemma ListGamesEmpty()
    ensures ListGames([]) == ("", 0)
  {
  }

  predicate OnOneLine(g: Game)
  {
    '\n' !in g.message && '\n' !in g.home && '\n' !in g.away
  }

  lemma GameLineOnOneLine(g: Game)
    requires OnOneLine(g)
    ensures '\n' !in GameLine(g)
  {
    assert '\n' !in "#" && '\n' !in "# " && '\n' !in " vs " && '\n' !in " ==> [i]+1[/i]";
  }

  /** Splitting the list on newlines gives back one line per game, in order. */
  lemma ListGamesLines(games: seq<Game>)
    requires |games| > 0 && forall k :: 0 <= k < |games| ==> OnOneLine(games[k])
    ensures Split(ListGames(games).0, "\n") == GameLines(games)
  {
    var lines := GameLines(games);
    forall k | 0 <= k < |lines|
      ensures '\n' !in lines[k]
    {
      GameLineOnOneLine(games[k]);
    }
    assert "\n" == ['\n'];
    SplitJoin(lines, '\n');
  }

  /** One game still to be played in the season, with its gameday. */
  datatype RemainingRow = RemainingRow(gameday: string, game: Game)

  /** What `get_inited_remaining_games` returns. */
  datatype Remaining = Remaining(gamedays: string, games: string, count: nat)

  function RemainingGamedays(rows: seq<RemainingRow>): (r: seq<string>)
    ensures |r| == |rows| && forall k :: 0 <= k < |r| ==> r[k] == rows[k].gameday
  {
    seq(|rows|, k requires 0 <= k < |rows| => rows[k].gameday)
  }

  function RemainingGameList(rows: seq<RemainingRow>): (r: seq<Game>)
    ensures |r| == |rows| && forall k :: 0 <= k < |r| ==> r[k] == rows[k].game
  {
    seq(|rows|, k requires 0 <= k < |rows| => rows[k].game)
  }

  /** The gamedays of the remaining games, each once in order of first appearance. */
  function GamedayList(rows: seq<RemainingRow>): (r: seq<string>)
    ensures NoDuplicates(r)
    ensures forall d :: d in r <==> exists k :: 0 <= k < |rows| && rows[k].gameday == d
  {
    var all := RemainingGamedays(rows);
    assert forall d :: d in all <==> exists k :: 0 <= k < |rows| && rows[k].gameday == d by {
      forall d | d in all
        ensures exists k :: 0 <= k < |rows| && rows[k].gameday == d
      {
        var k :| 0 <= k < |all| && all[k] == d;
        assert rows[k].gameday == d;
      }
    }
    Distinct(all)
  }

  /**
   * `get_inited_remaining_games`: the distinct gamedays joined by " , ",
   * the remaining games listed as the gameday's games are, and their number.
   */
  function RemainingGames(rows: seq<RemainingRow>): (r: Remaining)
    ensures r.count == |rows|
  {
    Remaining(Join(GamedayList(rows), " , "), ListGames(RemainingGameList(rows)).0, |rows|)
  }

  /** The gamedays are listed in the order in which each first appears among the games. */
  lemma GamedaysInFirstOrder(rows: seq<RemainingRow>)
    ensures forall i, j :: 0 <= i < j < |GamedayList(rows)| ==>
      FirstIndex(RemainingGamedays(rows), GamedayList(rows)[i]) < FirstIndex(RemainingGamedays(rows), GamedayList(rows)[j])
  {
    DistinctFirstOccurrence(RemainingGamedays(rows));
  }

  /** Three remaining games, two on a first gameday and one on a second: the gamedays read "D1 , D2". */
  lemma RemainingGamesExample(d1: string, d2: string, g1: Game, g2: Game, g3: Game)
    requires d1 != d2
    ensures RemainingGames([RemainingRow(d1, g1), RemainingRow(d1, g2), RemainingRow(d2, g3)]).gamedays == d1 + " , " + d2
    ensures RemainingGames([RemainingRow(d1, g1), RemainingRow(d1, g2), RemainingRow(d2, g3)]).count == 3
  {
    var rows := [RemainingRow(d1, g1), RemainingRow(d1, g2), RemainingRow(d2, g3)];
    var all := RemainingGamedays(rows);
    assert all == [d1, d1, d2];
    assert all[..2] == [d1, d1] && all[..2][..1] == [d1] && all[..2][..1][..0] == [];
    assert Distinct(all) == [d1, d2];
    assert Join([d1, d2], " , ") == d1 + " , " + Join([d2], " , ");
  }

  /** No remaining games: empty gamedays and games, and a count of zero. */
  lemma RemainingGamesEmpty()
    ensures RemainingGames([]) == Remaining("", "", 0)
  {
    assert RemainingGamedays([]) == [];
    assert RemainingGameList([]) == [];
  }

  // ---------------------------------------------------------------------
  // `get_inited_dategame1`
  // ---------------------------------------------------------------------

  /**
   * `h, m, _ = map(int, str(time).split(":"))`: the hour and the minutes of
   * a time written as three integer fields; anything else raises ValueError.
   */
  function ClockFields(time: string): Option<(int, int)>
  {
    var parts := Split(time, ":");
    if |parts| != 3 then None
    else match (ParseInt(parts[0]), ParseInt(parts[1]), ParseInt(parts[2]))
      case (Some(h), Some(m), Some(_)) => Some((h, m))
      case _ => None
  }

  /** `f"{h}h"`, followed by the minutes, unpadded, only when there are some. */
  function HourText(h: int, m: int): string
  {
    IntToString(h) + "h" + (if m > 0 then IntToString(m) else "")
  }

  /**
   * `get_inited_dategame1`: the weekday, the date as `%d/%m` and the hour
   * of the first game, e.g. "Monday 01/02 20h15"; a time that is not three
   * integer fields raises ValueError.
   */
  function DateGame1(weekday: string, day: nat, month: nat, time: string): (r: Result<string>)
    ensures r.Ok? <==> ClockFields(time).Some?
  {
    match ClockFields(time)
    case None => Err("ValueError")
    case Some((h, m)) => Ok(weekday + " " + PadNat(day, 2) + "/" + PadNat(month, 2) + " " + HourText(h, m))
  }

  /** `HH:MM:SS`, the text of a time of day. */
  function ClockText(h: nat, m: nat, s: nat): string
  {
    PadNat(h, 2) + ":" + PadNat(m, 2) + ":" + PadNat(s, 2)
  }

  lemma PadNatReadsTwo(n: nat)
    requires n < 100
    ensures ParseInt(PadNat(n, 2)) == Some(n) && ':' !in PadNat(n, 2)
  {
    assert Pow10(2) == 100;
    PadNatReads(n, 2);
    ParseNumeral(PadNat(n, 2));
    assert forall k :: 0 <= k < |PadNat(n, 2)| ==> IsDigit(PadNat(n, 2)[k]);
  }

  /** Three fields without colons, joined by colons, split back into the three. */
  lemma ThreeFields(a: string, b: string, c: string)
    requires ':' !in a && ':' !in b && ':' !in c
    ensures Split(a + ":" + b + ":" + c, ":") == [a, b, c]
  {
    var parts := [a, b, c];
    assert Join(parts, [':']) == a + ":" + b + ":" + c by {
      assert parts[1..][1..] == [c];
      assert Join(parts[1..], [':']) == b + [':'] + c;
    }
    assert ":" == [':'];
    SplitJoin(parts, ':');
  }

  /** Splitting `HH:MM:SS` on colons gives its three fields. */
  lemma ClockTextSplit(h: nat, m: nat, s: nat)
    requires h < 100 && m < 100 && s < 100
    ensures Split(ClockText(h, m, s), ":") == [PadNat(h, 2), PadNat(m, 2), PadNat(s, 2)]
  {
    PadNatReadsTwo(h);
    PadNatReadsTwo(m);
    PadNatReadsTwo(s);
    ThreeFields(PadNat(h, 2), PadNat(m, 2), PadNat(s, 2));
  }

  /** A time of day written `HH:MM:SS` reads back as its hour and minutes. */
  lemma ClockFieldsOfText(h: nat, m: nat, s: nat)
    requires h < 24 && m < 60 && s < 60
    ensures ClockFields(ClockText(h, m, s)) == Some((h, m))
  {
    ClockTextSplit(h, m, s);
    PadNatReadsTwo(h);
    PadNatReadsTwo(m);
    PadNatReadsTwo(s);
  }

  /**
   * The first game's date for a time of day: the hour unpadded, then the
   * minutes unpadded only when they are not zero; the seconds are ignored.
   */
  lemma DateGame1OfClock(weekday: string, day: nat, month: nat, h: nat, m: nat, s: nat)
    requires h < 24 && m < 60 && s < 60
    ensures DateGame1(weekday, day, month, ClockText(h, m, s))
         == Ok(weekday + " " + PadNat(day, 2) + "/" + PadNat(month, 2) + " " + (NatToString(h) + "h" + (if m > 0 then NatToString(m) else "")))
  {
    ClockFieldsOfText(h, m, s);
  }

  /** A number from 10 to 99 is written with its two digits. */
  lemma TwoDigitNumeral(n: nat, d: string)
    requires 10 <= n < 100 && |d| == 2
    requires d[0] == DigitChar(n / 10) && d[1] == DigitChar(n % 10)
    ensures NatToString(n) == d
  {
    assert NatToString(n / 10) == [DigitChar(n / 10)];
  }

  /** The pieces of the 20:15:00 example, each rendered on its own. */
  lemma ExamplePieces()
    ensures ClockText(20, 15, 0) == "20:15:00"
    ensures PadNat(1, 2) == "01" && PadNat(2, 2) == "02"
    ensures NatToString(20) + "h" + NatToString(15) == "20h15"
  {
    PadTwo(20);
    PadTwo(15);
    PadTwo(0);
    PadTwo(1);
    PadTwo(2);
    TwoDigitNumeral(20, "20");
    TwoDigitNumeral(15, "15");
    assert "20" + "h" + "15" == "20h15";
  }

  /** 20:15:00 on the first of February reads "01/02 20h15" after the weekday. */
  lemma DateGame1Example(weekday: string, time: string)
    requires time == "20:15:00"
    ensures DateGame1(weekday, 1, 2, time) == Ok(weekday + " " + "01" + "/" + "02" + " " + "20h15")
  {
    ExamplePieces();
    DateGame1OfClock(weekday, 1, 2, 20, 15, 0);
  }

  /** Midnight reads "0h": no minutes are written when there are none. */
  lemma DateGame1Midnight(weekday: string, time: string)
    requires time == "00:00:00"
    ensures DateGame1(weekday, 1, 2, time) == Ok(weekday + " " + "01" + "/" + "02" + " " + "0h")
  {
    MidnightPieces();
    DateGame1OfClock(weekday, 1, 2, 0, 0, 0);
  }

  /** The pieces of the midnight example, each rendered on its own. */
  lemma MidnightPieces()
    ensures ClockText(0, 0, 0) == "00:00:00"
    ensures PadNat(1, 2) == "01" && PadNat(2, 2) == "02"
    ensures NatToString(0) + "h" + "" == "0h"
  {
    PadTwo(0);
    PadTwo(1);
    PadTwo(2);
  }


  /** A time without a colon, such as "invalid_time", raises ValueError. */
  lemma DateGame1WithoutColon(weekday: string, day: nat, month: nat, time: string)
    requires ':' !in time
    ensures DateGame1(weekday, day, month, time) == Err("ValueError")
  {
    SplitJoin([time], ':');
  }

  /** A time of two fields only, such as "20:15", raises ValueError. */
  lemma DateGame1TwoFields(weekday: string, day: nat, month: nat, hours: string, minutes: string)
    requires ':' !in hours && ':' !in minutes
    ensures DateGame1(weekday, day, month, hours + ":" + minutes) == Err("ValueError")
  {
    SplitJoin([hours, minutes], ':');
    assert Join([hours, minutes], [':']) == hours + ":" + minutes;
  }

  // ---------------------------------------------------------------------
  // `get_inited_parameters`
  // ---------------------------------------------------------------------

  /** The columns of the opened gameday the message reads. */
  datatype InitedGameday = InitedGameday(
    gameday: string, gamedayMessage: string, userCanChooseTeam: int,
    weekday: string, beginDay: nat, beginMonth: nat, beginTime: string)

  /** The parameters of the inited message, as `get_inited_parameters` gathers them. */
  datatype InitedParams = InitedParams(
    gameday: string, listGames: string, nbGames: nat, bonusGame: string,
    userCanChooseTeam: int, remainingGamedays: string, remainingGames: string,
    nbGamesRemaining: nat, dategame1: string)

  /** `#GM.BN# Identifiant du match bonus ==> [i]GM.01[/i]`, for the gameday message GM. */
  function BonusGame(gamedayMessage: string): string
  {
    "#" + gamedayMessage + ".BN# Identifiant du match bonus ==> [i]" + gamedayMessage + ".01[/i]"
  }

  /**
   * `get_inited_parameters`: the gameday's games and remaining games, the
   * bonus line, the choice flag and the first game's date; the date's
   * ValueError is the only failure.
   */
  function InitedParameters(g: InitedGameday, games: seq<Game>, remaining: seq<RemainingRow>): (r: Result<InitedParams>)
    ensures r.Ok? <==> DateGame1(g.weekday, g.beginDay, g.beginMonth, g.beginTime).Ok?
    ensures r.Ok? ==> r.value.nbGames == |games| && r.value.nbGamesRemaining == |remaining|
  {
    var date := DateGame1(g.weekday, g.beginDay, g.beginMonth, g.beginTime);
    if date.Err? then Err(date.error)
    else
      var rem := RemainingGames(remaining);
      var list := ListGames(games);
      Ok(InitedParams(g.gameday, list.0, list.1, BonusGame(g.gamedayMessage), g.userCanChooseTeam,
                      rem.gamedays, rem.games, rem.count, date.value))
  }

  /** With no remaining game the remaining parameters are empty and their count zero. */
  lemma NoRemainingParameters(g: InitedGameday, games: seq<Game>)
    requires InitedParameters(g, games, []).Ok?
    ensures InitedParameters(g, games, []).value.remainingGamedays == ""
    ensures InitedParameters(g, games, []).value.remainingGames == ""
    ensures InitedParameters(g, games, []).value.nbGamesRemaining == 0
  {
    RemainingGamesEmpty();
  }

  // ---------------------------------------------------------------------
  // `derive_inited_parameters_for_country` and `derive_inited_parameters`
  // ---------------------------------------------------------------------

  /** The key a parameter is stored under for one country. */
  function CountryKey(key: string, country: string): string
  {
    key + "_" + country
  }

  /** The parameters translated for one country, each under its country key; a later key wins. */
  function Derived(params: seq<(string, string)>, country: string, translations: map<string, seq<(string, string)>>): map<string, string>
    requires |params| == 0 || country in translations
    decreases |params|
  {
    if |params| == 0 then map[]
    else
      var last := params[|params| - 1];
      Derived(params[..|params| - 1], country, translations)[CountryKey(last.0, country) := ReplaceEach(last.1, translations[country])]
  }

  /**
   * `derive_inited_parameters_for_country`: each parameter translated and
   * stored under its key suffixed with `_` and the country; a country
   * without a translation table raises KeyError on the first parameter.
   */
  method DeriveForCountry(params: seq<(string, string)>, country: string, translations: map<string, seq<(string, string)>>)
    returns (r: Result<map<string, string>>)
    ensures |params| > 0 && country !in translations ==> r == Err("KeyError: " + country)
    ensures |params| == 0 || country in translations ==> r == Ok(Derived(params, country, translations))
  {
    var translated: map<string, string> := map[];
    for i := 0 to |params|
      invariant |params| == 0 || country in translations || i == 0
      invariant (i == 0 || country in translations) && translated == Derived(params[..i], country, translations)
    {
      var t := TranslateParam(params[i].1, country, translations);
      if t.Err? {
        return Err(t.error);
      }
      assert params[..i + 1][..i] == params[..i];
      translated := translated[CountryKey(params[i].0, country) := t.value];
    }
    assert params[..|params|] == params;
    return Ok(translated);
  }

  /** The keys of the derived parameters are the parameters' keys, each suffixed with the country. */
  lemma {:induction false} DerivedKeys(params: seq<(string, string)>, country: string, translations: map<string, seq<(string, string)>>)
    requires |params| == 0 || country in translations
    ensures Derived(params, country, translations).Keys == set k | 0 <= k < |params| :: CountryKey(params[k].0, country)
    decreases |params|
  {
    if |params| > 0 {
      var init := params[..|params| - 1];
      DerivedKeys(init, country, translations);
      assert forall k :: 0 <= k < |init| ==> init[k] == params[k];
    }
  }

  /** Each parameter, when its key is not repeated later, is found translated under its country key. */
  lemma {:induction false} DerivedValue(params: seq<(string, string)>, country: string, translations: map<string, seq<(string, string)>>, k: nat)
    requires country in translations && k < |params|
    requires forall j :: k < j < |params| ==> params[j].0 != params[k].0
    ensures CountryKey(params[k].0, country) in Derived(params, country, translations)
    ensures Derived(params, country, translations)[CountryKey(params[k].0, country)] == ReplaceEach(params[k].1, translations[country])
    decreases |params|
  {
    var n := |params|;
    if k < n - 1 {
      var init := params[..n - 1];
      assert init[k] == params[k];
      DerivedValue(init, country, translations, k);
      assert params[n - 1].0 != params[k].0;
      assert CountryKey(params[n - 1].0, country) != CountryKey(params[k].0, country) by {
        if CountryKey(params[n - 1].0, country) == CountryKey(params[k].0, country) {
          SuffixCancels(params[n - 1].0, params[k].0, country);
        }
      }
    }
  }

  lemma SuffixCancels(a: string, b: string, country: string)
    requires CountryKey(a, country) == CountryKey(b, country)
    ensures a == b
  {
    assert a == CountryKey(a, country)[..|a|];
    assert b == CountryKey(b, country)[..|b|];
  }

  /**
   * `derive_inited_parameters`: only the first game's date is derived, for
   * every country of the topics, and the results are merged; a country
   * without a translation table makes the whole derivation fail.
   */
  function DeriveInited(dategame1: string, countries: seq<string>, translations: map<string, seq<(string, string)>>): (r: Result<map<string, string>>)
    decreases |countries|
  {
    if |countries| == 0 then Ok(map[])
    else if countries[0] !in translations then Err("KeyError: " + countries[0])
    else match DeriveInited(dategame1, countries[1..], translations)
      case Err(e) => Err(e)
      case Ok(rest) => Ok(Derived([("DATEGAME1", dategame1)], countries[0], translations) + rest)
  }

  /**
   * The derivation succeeds exactly when every country has a translation
   * table; then it holds one key per country, `DATEGAME1_` and the
   * country, whose value is the date translated for that country.
   */
  lemma {:induction false} DeriveInitedResult(dategame1: string, countries: seq<string>, translations: map<string, seq<(string, string)>>)
    ensures DeriveInited(dategame1, countries, translations).Ok? <==> forall c :: c in countries ==> c in translations
    ensures DeriveInited(dategame1, countries, translations).Ok? ==>
      DeriveInited(dategame1, countries, translations).value.Keys == set c | c in countries :: CountryKey("DATEGAME1", c)
    ensures DeriveInited(dategame1, countries, translations).Ok? ==>
      forall c :: c in countries ==>
        DeriveInited(dategame1, countries, translations).value[CountryKey("DATEGAME1", c)] == ReplaceEach(dategame1, translations[c])
    decreases |countries|
  {
    if |countries| > 0 {
      var c, tail := countries[0], countries[1..];
      DeriveInitedResult(dategame1, tail, translations);
      assert forall x :: x in countries <==> x == c || x in tail;
      var r := DeriveInited(dategame1, countries, translations);
      var rest := DeriveInited(dategame1, tail, translations);
      if c in translations && rest.Ok? {
        var one := Derived([("DATEGAME1", dategame1)], c, translations);
        OneCountry(dategame1, c, translations);
        assert r.value == one + rest.value;
        assert r.value.Keys == {CountryKey("DATEGAME1", c)} + rest.value.Keys;
        forall x | x in countries
          ensures x in translations && CountryKey("DATEGAME1", x) in r.value
          ensures r.value[CountryKey("DATEGAME1", x)] == ReplaceEach(dategame1, translations[x])
        {
          if x in tail {
            assert CountryKey("DATEGAME1", x) in rest.value.Keys;
            assert r.value[CountryKey("DATEGAME1", x)] == rest.value[CountryKey("DATEGAME1", x)];
          } else {
            assert x == c;
            assert CountryKey("DATEGAME1", c) !in rest.value.Keys by {
              forall y | y in tail
                ensures CountryKey("DATEGAME1", y) != CountryKey("DATEGAME1", c)
              {
                if CountryKey("DATEGAME1", y) == CountryKey("DATEGAME1", c) {
                  SuffixFirst(y, c);
                }
              }
            }
            assert r.value[CountryKey("DATEGAME1", c)] == one[CountryKey("DATEGAME1", c)];
          }
        }
      }
    }
  }

  /** Deriving the date alone for one country gives the one translated key. */
  lemma OneCountry(dategame1: string, c: string, translations: map<string, seq<(string, string)>>)
    requires c in translations
    ensures Derived([("DATEGAME1", dategame1)], c, translations)
         == map[CountryKey("DATEGAME1", c) := ReplaceEach(dategame1, translations[c])]
  {
    assert [("DATEGAME1", dategame1)][..0] == [];
    assert Derived([("DATEGAME1", dategame1)][..0], c, translations) == map[];
  }

  lemma SuffixFirst(x: string, c: string)
    requires CountryKey("DATEGAME1", x) == CountryKey("DATEGAME1", c)
    ensures x == c
  {
    assert x == CountryKey("DATEGAME1", x)[|"DATEGAME1_"|..];
    assert c == CountryKey("DATEGAME1", c)[|"DATEGAME1_"|..];
  }

  // ---------------------------------------------------------------------
  // `create_inited_messages_for_country`
  // ---------------------------------------------------------------------

  const PrefixKey := Tag("MESSAGE_PREFIX_PROGRAM_STRING")
  const DateKey := Tag("DATEGAME1")
  const GamedayKey := Tag("GAMEDAY")
  const ListGamesKey := Tag("LIST_GAMES")
  const BonusKey := Tag("BONUS_GAME")
  const RemainingGamedaysKey := Tag("REMAINING_GAMEDAYS")
  const RemainingGamesKey := Tag("REMAINING_GAMES")
  const TeamBegin := Tag("USER_CAN_CHOOSE_TEAM_FOR_PREDICTCHAMP_BEGIN")
  const TeamEnd := Tag("USER_CAN_CHOOSE_TEAM_FOR_PREDICTCHAMP_END")
  const RemainingBegin := Tag("REMAINING_GAMES_BEGIN")
  const RemainingEnd := Tag("REMAINING_GAMES_END")

  /** The five placeholders replaced in every inited message, in order, with the country's date. */
  function AlwaysPairs(p: InitedParams, dategame1: string): seq<(string, string)>
  {
    [(PrefixKey, ProgramPrefix), (DateKey, dategame1), (GamedayKey, p.gameday),
     (ListGamesKey, p.listGames), (BonusKey, p.bonusGame)]
  }

  /** The two placeholders replaced only when games remain. */
  function RemainingPairs(p: InitedParams): seq<(string, string)>
  {
    [(RemainingGamedaysKey, p.remainingGamedays), (RemainingGamesKey, p.remainingGames)]
  }

  /** The team-choice block is kept when users may choose their team, the remaining-games block when games remain. */
  function InitedBlocks(p: InitedParams): seq<Block>
  {
    [Block(TeamBegin, TeamEnd, p.userCanChooseTeam == 1),
     Block(RemainingBegin, RemainingEnd, p.nbGamesRemaining > 0)]
  }

  /** The inited message for a template and the country's translated date. */
  function InitedContent(p: InitedParams, dategame1: string, template: string): string
  {
    var body := FillTemplate(template, AlwaysPairs(p, dategame1), InitedBlocks(p));
    if p.nbGamesRemaining > 0 then ReplaceEach(body, RemainingPairs(p)) else body
  }

  /**
   * `create_inited_messages_for_country`: the template formatted, the five
   * placeholders replaced, the two blocks kept or dropped, and the
   * remaining-games placeholders replaced when games remain; the message is
   * returned with its country. The text file it is written to is named
   * from the gameday row, so a missing translated date or file-name column
   * raises KeyError.
   */
  method CreateInitedMessage(p: InitedParams, derived: map<string, string>, country: string, template: string, row: GamedayRow)
    returns (r: Result<(string, string)>)
    ensures CountryKey("DATEGAME1", country) !in derived ==> r == Err("KeyError: DATEGAME1_" + country)
    ensures CountryKey("DATEGAME1", country) in derived ==>
      var file := FileName("forumoutput_inited", row, "txt", Some(country));
      r == (if file.Err? then Err(file.error)
            else Ok((InitedContent(p, derived[CountryKey("DATEGAME1", country)], template), country)))
  {
    var content := FormatMessage(template);
    content := ReplaceAll(content, PrefixKey, ProgramPrefix);
    var dateKey := CountryKey("DATEGAME1", country);
    if dateKey !in derived {
      return Err("KeyError: DATEGAME1_" + country);
    }
    var date := derived[dateKey];
    content := ReplaceAll(content, DateKey, date);
    content := ReplaceAll(content, GamedayKey, p.gameday);
    content := ReplaceAll(content, ListGamesKey, p.listGames);
    content := ReplaceAll(content, BonusKey, p.bonusGame);
    ghost var replaced := ReplaceEach(FormatMessage(template), AlwaysPairs(p, date));
    assert content == replaced by {
      ReplaceEachSteps(FormatMessage(template), p, date);
    }

    content := ReplaceConditionally(content, TeamBegin, TeamEnd, p.userCanChooseTeam == 1);
    content := ReplaceConditionally(content, RemainingBegin, RemainingEnd, p.nbGamesRemaining > 0);
    assert content == FillTemplate(template, AlwaysPairs(p, date), InitedBlocks(p)) by {
      BlockSteps(replaced, p);
    }

    if p.nbGamesRemaining > 0 {
      ghost var body := content;
      content := ReplaceAll(content, RemainingGamedaysKey, p.remainingGamedays);
      content := ReplaceAll(content, RemainingGamesKey, p.remainingGames);
      assert content == ReplaceEach(body, RemainingPairs(p)) by {
        RemainingSteps(body, p);
      }
    }

    var file := FileName("forumoutput_inited", row, "txt", Some(country));
    if file.Err? {
      return Err(file.error);
    }
    return Ok((content, country));
  }

  /** The five replacements applied one by one are the five pairs applied in order. */
  lemma ReplaceEachSteps(s: string, p: InitedParams, date: string)
    ensures ReplaceEach(s, AlwaysPairs(p, date))
         == ReplaceAll(ReplaceAll(ReplaceAll(ReplaceAll(ReplaceAll(s, PrefixKey, ProgramPrefix),
              DateKey, date), GamedayKey, p.gameday), ListGamesKey, p.listGames), BonusKey, p.bonusGame)
  {
    var pairs := AlwaysPairs(p, date);
    var s1 := ReplaceAll(s, PrefixKey, ProgramPrefix);
    var s2 := ReplaceAll(s1, DateKey, date);
    var s3 := ReplaceAll(s2, GamedayKey, p.gameday);
    var s4 := ReplaceAll(s3, ListGamesKey, p.listGames);
    var s5 := ReplaceAll(s4, BonusKey, p.bonusGame);
    assert ReplaceEach(s, pairs) == ReplaceEach(s1, pairs[1..]);
    assert ReplaceEach(s1, pairs[1..]) == ReplaceEach(s2, pairs[2..]) by {
      assert pairs[1..][1..] == pairs[2..];
    }
    assert ReplaceEach(s2, pairs[2..]) == ReplaceEach(s3, pairs[3..]) by {
      assert pairs[2..][1..] == pairs[3..];
    }
    assert ReplaceEach(s3, pairs[3..]) == ReplaceEach(s4, pairs[4..]) by {
      assert pairs[3..][1..] == pairs[4..];
    }
    assert ReplaceEach(s4, pairs[4..]) == ReplaceEach(s5, pairs[5..]) by {
      assert pairs[4..][1..] == pairs[5..];
    }
    assert pairs[5..] == [];
  }

  /** The two blocks applied one by one are the blocks applied in order. */
  lemma BlockSteps(s: string, p: InitedParams)
    ensures ApplyBlocks(s, InitedBlocks(p))
         == ReplaceConditionally(ReplaceConditionally(s, TeamBegin, TeamEnd, p.userCanChooseTeam == 1),
              RemainingBegin, RemainingEnd, p.nbGamesRemaining > 0)
  {
    var blocks := InitedBlocks(p);
    var s1 := ReplaceConditionally(s, TeamBegin, TeamEnd, p.userCanChooseTeam == 1);
    var s2 := ReplaceConditionally(s1, RemainingBegin, RemainingEnd, p.nbGamesRemaining > 0);
    assert ApplyBlocks(s, blocks) == ApplyBlocks(s1, blocks[1..]);
    assert ApplyBlocks(s1, blocks[1..]) == ApplyBlocks(s2, blocks[2..]) by {
      assert blocks[1..][1..] == blocks[2..];
    }
    assert blocks[2..] == [];
  }

  /** The two remaining-games replacements applied one by one are the pairs applied in order. */
  lemma RemainingSteps(s: string, p: InitedParams)
    ensures ReplaceEach(s, RemainingPairs(p))
         == ReplaceAll(ReplaceAll(s, RemainingGamedaysKey, p.remainingGamedays), RemainingGamesKey, p.remainingGames)
  {
    var pairs := RemainingPairs(p);
    var s1 := ReplaceAll(s, RemainingGamedaysKey, p.remainingGamedays);
    var s2 := ReplaceAll(s1, RemainingGamesKey, p.remainingGames);
    assert ReplaceEach(s, pairs) == ReplaceEach(s1, pairs[1..]);
    assert ReplaceEach(s1, pairs[1..]) == ReplaceEach(s2, pairs[2..]) by {
      assert pairs[1..][1..] == pairs[2..];
    }
    assert pairs[2..] == [];
  }

  // ---------------------------------------------------------------------
  // What the inited message makes of each placeholder and block
  // ---------------------------------------------------------------------

  lemma PrefixName(name: string)
    requires name == "MESSAGE_PREFIX_PROGRAM_STRING"
    ensures IsName(name) && name[0] == 'M' && |name| == 29
  {
  }

  lemma DateName(name: string)
    requires name == "DATEGAME1"
    ensures IsName(name) && name[0] == 'D' && |name| == 9
  {
  }

  lemma GamedayName(name: string)
    requires name == "GAMEDAY"
    ensures IsName(name) && name[0] == 'G' && |name| == 7
  {
  }

  lemma ListGamesName(name: string)
    requires name == "LIST_GAMES"
    ensures IsName(name) && name[0] == 'L' && |name| == 10
  {
  }

  lemma BonusName(name: string)
    requires name == "BONUS_GAME"
    ensures IsName(name) && name[0] == 'B' && |name| == 10
  {
  }

  lemma RemainingGamedaysName(name: string)
    requires name == "REMAINING_GAMEDAYS"
    ensures IsName(name) && name[0] == 'R' && |name| == 18
  {
  }

  lemma RemainingGamesName(name: string)
    requires name == "REMAINING_GAMES"
    ensures IsName(name) && name[0] == 'R' && |name| == 15
  {
  }

  lemma TeamBeginName(name: string)
    requires name == "USER_CAN_CHOOSE_TEAM_FOR_PREDICTCHAMP_BEGIN"
    ensures IsName(name) && name[0] == 'U' && |name| == 43
  {
  }

  lemma TeamEndName(name: string)
    requires name == "USER_CAN_CHOOSE_TEAM_FOR_PREDICTCHAMP_END"
    ensures IsName(name) && name[0] == 'U' && |name| == 41
  {
  }

  lemma RemainingBeginName(name: string)
    requires name == "REMAINING_GAMES_BEGIN"
    ensures IsName(name) && name[0] == 'R' && |name| == 21
  {
  }

  lemma RemainingEndName(name: string)
    requires name == "REMAINING_GAMES_END"
    ensures IsName(name) && name[0] == 'R' && |name| == 19
  {
  }

  /** Every placeholder and tag of the inited message is a `#NAME#`, told apart by its first letter. */
  lemma InitedTags()
    ensures IsPlaceholder(PrefixKey) && PrefixKey[1] == 'M' && |PrefixKey| == 31
    ensures IsPlaceholder(DateKey) && DateKey[1] == 'D' && |DateKey| == 11
    ensures IsPlaceholder(GamedayKey) && GamedayKey[1] == 'G' && |GamedayKey| == 9
    ensures IsPlaceholder(ListGamesKey) && ListGamesKey[1] == 'L' && |ListGamesKey| == 12
    ensures IsPlaceholder(BonusKey) && BonusKey[1] == 'B' && |BonusKey| == 12
    ensures IsPlaceholder(RemainingGamedaysKey) && RemainingGamedaysKey[1] == 'R' && |RemainingGamedaysKey| == 20
    ensures IsPlaceholder(RemainingGamesKey) && RemainingGamesKey[1] == 'R' && |RemainingGamesKey| == 17
    ensures IsPlaceholder(TeamBegin) && TeamBegin[1] == 'U' && |TeamBegin| == 45
    ensures IsPlaceholder(TeamEnd) && TeamEnd[1] == 'U' && |TeamEnd| == 43
    ensures IsPlaceholder(RemainingBegin) && RemainingBegin[1] == 'R' && |RemainingBegin| == 23
    ensures IsPlaceholder(RemainingEnd) && RemainingEnd[1] == 'R' && |RemainingEnd| == 21
  {
    PrefixName("MESSAGE_PREFIX_PROGRAM_STRING");
    DateName("DATEGAME1");
    GamedayName("GAMEDAY");
    ListGamesName("LIST_GAMES");
    BonusName("BONUS_GAME");
    RemainingGamedaysName("REMAINING_GAMEDAYS");
    RemainingGamesName("REMAINING_GAMES");
    TeamBeginName("USER_CAN_CHOOSE_TEAM_FOR_PREDICTCHAMP_BEGIN");
    TeamEndName("USER_CAN_CHOOSE_TEAM_FOR_PREDICTCHAMP_END");
    RemainingBeginName("REMAINING_GAMES_BEGIN");
    RemainingEndName("REMAINING_GAMES_END");
  }

  /**
   * A template that is exactly one of the five placeholders always
   * replaced reads as that placeholder's value, whatever the flags, when
   * the value holds no hash.
   */
  lemma InitedPlaceholder(p: InitedParams, dategame1: string, i: nat)
    requires i < 5 && '#' !in AlwaysPairs(p, dategame1)[i].1
    ensures InitedContent(p, dategame1, AlwaysPairs(p, dategame1)[i].0) == AlwaysPairs(p, dategame1)[i].1
  {
    InitedTags();
    var pairs, blocks := AlwaysPairs(p, dategame1), InitedBlocks(p);
    forall j | 0 <= j < i
      ensures !StartsWith(pairs[i].0, pairs[j].0)
    {
      CharDiffers(pairs[i].0, pairs[j].0, 1);
    }
    RenderPlaceholder(pairs, blocks, i);
    if p.nbGamesRemaining > 0 {
      HashFreeReplaced(pairs[i].1, RemainingPairs(p));
    }
  }

  /** The always-replaced placeholders and the blocks leave a remaining-games placeholder alone. */
  lemma RemainingUntouched(p: InitedParams, dategame1: string, key: string)
    requires key == RemainingGamedaysKey || key == RemainingGamesKey
    ensures FillTemplate(key, AlwaysPairs(p, dategame1), InitedBlocks(p)) == key
  {
    InitedTags();
    var pairs, blocks := AlwaysPairs(p, dategame1), InitedBlocks(p);
    forall j | 0 <= j < |pairs|
      ensures !StartsWith(key, pairs[j].0)
    {
      CharDiffers(key, pairs[j].0, 1);
    }
    CharDiffers(key, TeamBegin, 1);
    CharDiffers(key, TeamEnd, 1);
    RenderUnlisted(key, pairs, blocks);
  }

  /** With no game remaining, both remaining-games placeholders stay in the message as they are. */
  lemma InitedRemainingKept(p: InitedParams, dategame1: string, key: string)
    requires key == RemainingGamedaysKey || key == RemainingGamesKey
    requires p.nbGamesRemaining == 0
    ensures InitedContent(p, dategame1, key) == key
  {
    RemainingUntouched(p, dategame1, key);
  }

  /** With games remaining, each remaining-games placeholder reads as its value when the value holds no hash. */
  lemma InitedRemainingReplaced(p: InitedParams, dategame1: string, i: nat)
    requires i < 2 && p.nbGamesRemaining > 0 && '#' !in RemainingPairs(p)[i].1
    ensures InitedContent(p, dategame1, RemainingPairs(p)[i].0) == RemainingPairs(p)[i].1
  {
    InitedTags();
    var pairs := RemainingPairs(p);
    RemainingUntouched(p, dategame1, pairs[i].0);
    if i == 0 {
      AbsentFirstChar(pairs[0].1, pairs[1].0);
    } else {
      assert !Contains(pairs[1].0, pairs[0].0);
    }
    ReplaceEachOnly(pairs[i].0, pairs, i);
  }

  /**
   * A block whose content holds no hash, newline or bar and does not name
   * one of the message's placeholders: the team-choice block keeps its
   * content exactly when users may choose their team, the remaining-games
   * block exactly when games remain; the tags always go.
   */
  lemma InitedBlocksKept(p: InitedParams, dategame1: string, inner: string)
    requires '#' !in inner && '\n' !in inner && '|' !in inner
    requires Tag(inner) !in [PrefixKey, DateKey, GamedayKey, ListGamesKey, BonusKey, TeamBegin, TeamEnd, RemainingBegin, RemainingEnd]
    ensures InitedContent(p, dategame1, TeamBegin + inner + TeamEnd) == (if p.userCanChooseTeam == 1 then inner else "")
    ensures InitedContent(p, dategame1, RemainingBegin + inner + RemainingEnd) == (if p.nbGamesRemaining > 0 then inner else "")
  {
    InitedBlock(p, dategame1, inner, 0);
    InitedBlock(p, dategame1, inner, 1);
  }

  lemma InitedBlock(p: InitedParams, dategame1: string, inner: string, i: nat)
    requires i < 2 && '#' !in inner && '\n' !in inner && '|' !in inner
    requires Tag(inner) !in [PrefixKey, DateKey, GamedayKey, ListGamesKey, BonusKey, TeamBegin, TeamEnd, RemainingBegin, RemainingEnd]
    ensures InitedContent(p, dategame1, InitedBlocks(p)[i].begin + inner + InitedBlocks(p)[i].end)
         == (if InitedBlocks(p)[i].keep then inner else "")
  {
    var pairs, blocks := AlwaysPairs(p, dategame1), InitedBlocks(p);
    InitedTags();
    BlockApartFromPairs(p, dategame1, inner, i);
    BlockApartFromBlocks(p, inner, i);
    RenderOneBlock(inner, pairs, blocks, i);
    if p.nbGamesRemaining > 0 {
      HashFreeReplaced(if blocks[i].keep then inner else "", RemainingPairs(p));
    }
  }

  /** Block `i`'s tags around the content are apart from every always-replaced placeholder. */
  lemma BlockApartFromPairs(p: InitedParams, dategame1: string, inner: string, i: nat)
    requires i < 2
    requires Tag(inner) !in [PrefixKey, DateKey, GamedayKey, ListGamesKey, BonusKey]
    ensures forall j :: 0 <= j < |AlwaysPairs(p, dategame1)| ==>
      ApartFrom(InitedBlocks(p)[i].begin, inner, InitedBlocks(p)[i].end, AlwaysPairs(p, dategame1)[j].0)
  {
    InitedTags();
    var pairs, blocks := AlwaysPairs(p, dategame1), InitedBlocks(p);
    var b, e := blocks[i].begin, blocks[i].end;
    forall j | 0 <= j < |pairs|
      ensures ApartFrom(b, inner, e, pairs[j].0)
    {
      CharDiffers(b, pairs[j].0, 1);
      CharDiffers(e, pairs[j].0, 1);
    }
  }

  /** Block `i`'s tags around the content are apart from the other block's tags. */
  lemma BlockApartFromBlocks(p: InitedParams, inner: string, i: nat)
    requires i < 2
    requires Tag(inner) !in [TeamBegin, TeamEnd, RemainingBegin, RemainingEnd]
    ensures !StartsWith(InitedBlocks(p)[i].end, InitedBlocks(p)[i].begin)
    ensures forall j :: 0 <= j < |InitedBlocks(p)| && j != i ==>
      ApartFrom(InitedBlocks(p)[i].begin, inner, InitedBlocks(p)[i].end, InitedBlocks(p)[j].begin) &&
      ApartFrom(InitedBlocks(p)[i].begin, inner, InitedBlocks(p)[i].end, InitedBlocks(p)[j].end)
  {
    InitedTags();
    var blocks := InitedBlocks(p);
    var b, e, o := blocks[i].begin, blocks[i].end, blocks[1 - i];
    CharDiffers(b, o.begin, 1);
    CharDiffers(e, o.begin, 1);
    CharDiffers(b, o.end, 1);
    CharDiffers(e, o.end, 1);
  }
}
