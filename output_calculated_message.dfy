/**
 * `create_calculated_messages_for_country` of `output_actions_calculated.py`:
 * the calculated message for one country, filled from its template. The
 * placeholders each group replaces are listed only when the group has
 * something to show (its count is positive), the images' links and the
 * translated texts are read from the derived parameters of the country,
 * and fourteen blocks are kept or dropped by the parameters.
 */
module CalculatedTemplate {
  import opened Wrappers
  import opened Strings
  import opened Config
  import opened OutputActions
  import opened MessageTemplates
  import opened OutputCalculated

  /** The placeholders of the calculated message, in the order they are replaced. */
  datatype Field =
    | Prefix | Gameday | SeasonDivision | ResultGames | NbGamedayCalculated | NbTotalPredict | ListGamedayCalculated
    | ScoresGamedayText | ImgDetail | NbGames | ListUserScoreauto0 | ImgSeason | NbMinPrediction | ScoresAverageText
    | ResultsPredictchamp | RankPredictchampImg | GamedayMonth | ListUserMonth | NbUserMonth
    | GamedayCompetition | ListUserCompetition | NbUserCompetition

  /** The name written between the hashes of a placeholder. */
  function FieldName(f: Field): string
  {
    match f
    case Prefix => "MESSAGE_PREFIX_PROGRAM_STRING"
    case Gameday => "GAMEDAY"
    case SeasonDivision => "SEASON_DIVISION"
    case ResultGames => "RESULT_GAMES"
    case NbGamedayCalculated => "NB_GAMEDAY_CALCULATED"
    case NbTotalPredict => "NB_TOTAL_PREDICT"
    case ListGamedayCalculated => "LIST_GAMEDAY_CALCULATED"
    case ScoresGamedayText => "SCORES_GAMEDAY"
    case ImgDetail => "IMGDETAIL"
    case NbGames => "NB_GAMES"
    case ListUserScoreauto0 => "LIST_USER_SCOREAUTO0"
    case ImgSeason => "IMGSEASON"
    case NbMinPrediction => "NB_MIN_PREDICTION"
    case ScoresAverageText => "SCORES_AVERAGE"
    case ResultsPredictchamp => "RESULTS_PREDICTCHAMP"
    case RankPredictchampImg => "RANK_PREDICTCHAMP_IMG"
    case GamedayMonth => "GAMEDAY_MONTH"
    case ListUserMonth => "LIST_USER_MONTH"
    case NbUserMonth => "NB_USER_MONTH"
    case GamedayCompetition => "GAMEDAY_COMPETITION"
    case ListUserCompetition => "LIST_USER_COMPETITION"
    case NbUserCompetition => "NB_USER_COMPETITION"
  }

  /**
   * One replacement of the list: a value taken from the parameters, or a
   * value to be read from the derived parameters under a key.
   */
  datatype Entry = Fixed(field: Field, text: string) | Looked(field: Field, key: string)

  /** The placeholders in the order the replacement list is built, group after group. */
  const FieldOrder: seq<Field> :=
    [Prefix, Gameday, SeasonDivision, ResultGames, NbGamedayCalculated, NbTotalPredict, ListGamedayCalculated,
     ScoresGamedayText, ImgDetail, NbGames, ListUserScoreauto0, ImgSeason, NbMinPrediction, ScoresAverageText,
     ResultsPredictchamp, RankPredictchampImg, GamedayMonth, ListUserMonth, NbUserMonth,
     GamedayCompetition, ListUserCompetition, NbUserCompetition]

  /** Where a placeholder stands in that order. */
  function FieldIndex(f: Field): (i: nat)
    ensures i < |FieldOrder| && FieldOrder[i] == f
  {
    match f
    case Prefix => 0
    case Gameday => 1
    case SeasonDivision => 2
    case ResultGames => 3
    case NbGamedayCalculated => 4
    case NbTotalPredict => 5
    case ListGamedayCalculated => 6
    case ScoresGamedayText => 7
    case ImgDetail => 8
    case NbGames => 9
    case ListUserScoreauto0 => 10
    case ImgSeason => 11
    case NbMinPrediction => 12
    case ScoresAverageText => 13
    case ResultsPredictchamp => 14
    case RankPredictchampImg => 15
    case GamedayMonth => 16
    case ListUserMonth => 17
    case NbUserMonth => 18
    case GamedayCompetition => 19
    case ListUserCompetition => 20
    case NbUserCompetition => 21
  }

  /** The entries of the fields whose group is shown, in the order of the fields. */
  function ShownEntries(p: CalculatedParams, country: string, fields: seq<Field>): seq<Entry>
    decreases |fields|
  {
    if |fields| == 0 then []
    else (if Shown(p, fields[0]) then [EntryOf(p, country, fields[0])] else []) + ShownEntries(p, country, fields[1..])
  }

  /**
   * The replacement list: the seven placeholders always replaced, then
   * each group only when its count is positive (the ranking's image only
   * when the games count for the ranking), in the order the groups are
   * added.
   */
  function Entries(p: CalculatedParams, country: string): seq<Entry>
  {
    ShownEntries(p, country, FieldOrder)
  }

  /** Whether a placeholder is replaced, field by field. */
  predicate Shown(p: CalculatedParams, f: Field)
  {
    match f
    case Prefix | Gameday | SeasonDivision | ResultGames | NbGamedayCalculated | NbTotalPredict | ListGamedayCalculated => true
    case ScoresGamedayText | ImgDetail | NbGames => p.nbUserDetail > 0
    case ListUserScoreauto0 => p.nbCorrection > 0
    case ImgSeason => p.nbUserGlobal > 0
    case NbMinPrediction | ScoresAverageText => p.nbUserAverage > 0
    case ResultsPredictchamp => p.nbGamePredictchamp > 0
    case RankPredictchampImg => p.isForRank == 1
    case GamedayMonth | ListUserMonth | NbUserMonth => p.nbUserMonth > 0
    case GamedayCompetition | ListUserCompetition | NbUserCompetition => p.nbUserCompetition > 0
  }

  /** What each placeholder is replaced with, field by field. */
  function EntryOf(p: CalculatedParams, country: string, f: Field): Entry
  {
    match f
    case Prefix => Fixed(f, ProgramPrefix)
    case Gameday => Fixed(f, p.gameday)
    case SeasonDivision => Fixed(f, p.seasonDivision)
    case ResultGames => Fixed(f, p.resultGames)
    case NbGamedayCalculated => Fixed(f, IntToString(p.nbGamedayCalculated))
    case NbTotalPredict => Fixed(f, IntToString(p.nbTotalPredict))
    case ListGamedayCalculated => Fixed(f, p.listGamedayCalculated)
    case ScoresGamedayText => Fixed(f, p.scoresGameday)
    case ImgDetail => Looked(f, UrlKey(DetailedDf, country))
    case NbGames => Fixed(f, IntToString(p.nbGames))
    case ListUserScoreauto0 => Fixed(f, p.listCorrection)
    case ImgSeason => Looked(f, UrlKey(GlobalDf, country))
    case NbMinPrediction => Fixed(f, IntToString(p.nbMinPrediction))
    case ScoresAverageText => Fixed(f, p.scoresAverage)
    case ResultsPredictchamp => Looked(f, TranslatedKey(ChampResults, country))
    case RankPredictchampImg => Looked(f, UrlKey(RankDf, country))
    case GamedayMonth => Looked(f, TranslatedKey(MonthLabel, country))
    case ListUserMonth => Looked(f, TranslatedKey(MonthList, country))
    case NbUserMonth => Fixed(f, IntToString(p.nbUserMonth))
    case GamedayCompetition => Looked(f, TranslatedKey(CompetLabel, country))
    case ListUserCompetition => Looked(f, TranslatedKey(CompetList, country))
    case NbUserCompetition => Fixed(f, IntToString(p.nbUserCompetition))
  }

  /** The value an entry stands for, once its key is found. */
  function EntryValue(e: Entry, derived: map<string, Param>): Param
    requires e.Looked? ==> e.key in derived
  {
    if e.Fixed? then Str(e.text) else derived[e.key]
  }

  /**
   * The replacement list as Python builds it: each entry with its value,
   * the first key missing from the parameters raising KeyError.
   */
  function Resolve(entries: seq<Entry>, derived: map<string, Param>): (r: Result<seq<(Field, Param)>>)
    ensures r.Ok? <==> forall i :: 0 <= i < |entries| && entries[i].Looked? ==> entries[i].key in derived
    ensures r.Ok? ==> |r.value| == |entries|
    ensures r.Ok? ==> forall i :: 0 <= i < |entries| ==> r.value[i] == (entries[i].field, EntryValue(entries[i], derived))
    ensures r.Err? ==> exists i :: FirstMissing(entries, derived, i) && r.error == KeyError(entries[i].key)
    decreases |entries|
  {
    if |entries| == 0 then Ok([])
    else
      var e := entries[0];
      if e.Looked? && e.key !in derived then Err(KeyError(e.key))
      else
        assert forall i :: 1 <= i < |entries| ==> entries[1..][i - 1] == entries[i];
        match Resolve(entries[1..], derived)
        case Err(err) => Err(err)
        case Ok(rest) => Ok([(e.field, EntryValue(e, derived))] + rest)
  }

  /** The `i`-th entry is the first whose key the parameters lack. */
  predicate FirstMissing(entries: seq<Entry>, derived: map<string, Param>, i: int)
  {
    0 <= i < |entries| && entries[i].Looked? && entries[i].key !in derived &&
    forall j :: 0 <= j < i && entries[j].Looked? ==> entries[j].key in derived
  }

  /** Every value of the list is a text. */
  predicate AllTexts(pairs: seq<(Field, Param)>)
  {
    forall i :: 0 <= i < |pairs| ==> pairs[i].1.Str?
  }

  function TextOf(v: Param): string
  {
    if v.Str? then v.text else ""
  }

  /** A field's placeholder `#NAME#`; it is the tag of its name. */
  function Placeholder(f: Field): string
  {
    "#" + FieldName(f) + "#"
  }

  /** The replacement `str.replace` applies for one entry: its placeholder with its text. */
  function Replacement(pair: (Field, Param)): (string, string)
  {
    (Placeholder(pair.0), TextOf(pair.1))
  }

  /** The replacements of the list, in order. */
  function TextPairs(pairs: seq<(Field, Param)>): (r: seq<(string, string)>)
    ensures |r| == |pairs|
    ensures forall i :: 0 <= i < |pairs| ==> r[i] == Replacement(pairs[i])
  {
    seq(|pairs|, i requires 0 <= i < |pairs| => Replacement(pairs[i]))
  }

  /** `replacement_substr`: each field's placeholder with its value, in order. */
  function Substitutions(pairs: seq<(Field, Param)>): (r: seq<(string, Param)>)
    ensures |r| == |pairs| && forall i :: 0 <= i < |pairs| ==> r[i] == (Placeholder(pairs[i].0), pairs[i].1)
  {
    seq(|pairs|, i requires 0 <= i < |pairs| => (Placeholder(pairs[i].0), pairs[i].1))
  }

  /** Every value handed to `str.replace` is a text. */
  predicate AllStr(substitutions: seq<(string, Param)>)
  {
    forall i :: 0 <= i < |substitutions| ==> substitutions[i].1.Str?
  }

  /** The placeholders with the texts of their values. */
  function Texts(substitutions: seq<(string, Param)>): (r: seq<(string, string)>)
    ensures |r| == |substitutions|
    ensures forall i :: 0 <= i < |r| ==> r[i] == (substitutions[i].0, TextOf(substitutions[i].1))
  {
    seq(|substitutions|, i requires 0 <= i < |substitutions| => (substitutions[i].0, TextOf(substitutions[i].1)))
  }

  /** The placeholder list gives the replacements of the fields, and holds only texts exactly when they do. */
  lemma SubstitutionTexts(pairs: seq<(Field, Param)>)
    ensures Texts(Substitutions(pairs)) == TextPairs(pairs)
    ensures AllStr(Substitutions(pairs)) <==> AllTexts(pairs)
  {
  }

  /** The conditional blocks of the calculated template. */
  datatype Section =
    | WithPredictorsGameday | WithoutPredictorsGameday | Scoreauto0
    | WithPredictorsGlobal | WithoutPredictorsGlobal
    | WithPredictorsAverage | WithoutPredictorsAverage
    | WithPredictchamp | WithoutPredictchamp
    | WithHomeAdv | WithoutHomeAdv
    | WithPredictchampRanking | WithMonthMvp | WithCompetitionMvp

  function SectionName(s: Section): string
  {
    match s
    case WithPredictorsGameday => "WITH_PREDICTORS_GAMEDAY"
    case WithoutPredictorsGameday => "WITHOUT_PREDICTORS_GAMEDAY"
    case Scoreauto0 => "SCOREAUTO0"
    case WithPredictorsGlobal => "WITH_PREDICTORS_GLOBAL"
    case WithoutPredictorsGlobal => "WITHOUT_PREDICTORS_GLOBAL"
    case WithPredictorsAverage => "WITH_PREDICTORS_AVERAGE"
    case WithoutPredictorsAverage => "WITHOUT_PREDICTORS_AVERAGE"
    case WithPredictchamp => "WITH_PREDICTCHAMP"
    case WithoutPredictchamp => "WITHOUT_PREDICTCHAMP"
    case WithHomeAdv => "WITH_HOME_ADV"
    case WithoutHomeAdv => "WITHOUT_HOME_ADV"
    case WithPredictchampRanking => "WITH_PREDICTCHAMPRANKING"
    case WithMonthMvp => "WITH_MONTH_MVP"
    case WithCompetitionMvp => "WITH_COMPETITION_MVP"
  }

  /** The order the blocks are applied in. */
  const SectionOrder: seq<Section> :=
    [WithPredictorsGameday, WithoutPredictorsGameday, Scoreauto0,
     WithPredictorsGlobal, WithoutPredictorsGlobal,
     WithPredictorsAverage, WithoutPredictorsAverage,
     WithPredictchamp, WithoutPredictchamp,
     WithHomeAdv, WithoutHomeAdv,
     WithPredictchampRanking, WithMonthMvp, WithCompetitionMvp]

  /** Whether a block is kept, as the parameters decide it. */
  predicate SectionKept(p: CalculatedParams, s: Section)
  {
    match s
    case WithPredictorsGameday => p.nbUserDetail > 0
    case WithoutPredictorsGameday => p.nbUserDetail == 0
    case Scoreauto0 => p.nbCorrection > 0
    case WithPredictorsGlobal => p.nbUserGlobal > 0
    case WithoutPredictorsGlobal => p.nbUserGlobal == 0
    case WithPredictorsAverage => p.nbUserAverage > 0
    case WithoutPredictorsAverage => p.nbUserAverage == 0
    case WithPredictchamp => p.nbGamePredictchamp > 0
    case WithoutPredictchamp => p.nbGamePredictchamp == 0
    case WithHomeAdv => p.hasHomeAdv == 1
    case WithoutHomeAdv => p.hasHomeAdv == 0
    case WithPredictchampRanking => p.isForRank == 1
    case WithMonthMvp => p.nbUserMonth > 0
    case WithCompetitionMvp => p.nbUserCompetition > 0
  }

  /** A block written `#NAME_BEGIN#` ... `#NAME_END#`. */
  function SectionBlock(s: Section, keep: bool): Block
  {
    Block("#" + SectionName(s) + "_BEGIN#", "#" + SectionName(s) + "_END#", keep)
  }

  /** The fourteen blocks in the order they are applied, each with the condition that keeps it. */
  function CalculatedBlocks(p: CalculatedParams): (r: seq<Block>)
    ensures |r| == |SectionOrder|
    ensures forall i :: 0 <= i < |r| ==> r[i] == SectionBlock(SectionOrder[i], SectionKept(p, SectionOrder[i]))
  {
    seq(|SectionOrder|, i requires 0 <= i < |SectionOrder| => SectionBlock(SectionOrder[i], SectionKept(p, SectionOrder[i])))
  }

  /** The error `str.replace` raises when handed a table instead of a text. */
  const TypeErrorText := "TypeError: replace() argument 2 must be str, not DataFrame"

  /**
   * The message filled with the resolved list: the template formatted,
   * the replacements applied, the blocks kept or dropped; a table among the
   * values raises TypeError, a missing column of the text file's name
   * KeyError.
   */
  function FilledMessage(p: CalculatedParams, pairs: seq<(Field, Param)>, country: string,
                         template: string, row: GamedayRow): Result<(string, string)>
  {
    if !AllTexts(pairs) then Err(TypeErrorText)
    else match FileName("forumoutput_calculated", row, "txt", Some(country))
      case Err(e) => Err(e)
      case Ok(_) => Ok((FillTemplate(template, TextPairs(pairs), CalculatedBlocks(p)), country))
  }

  /**
   * The calculated message for a country and its country, or the error
   * that stops the program: a missing derived parameter, a table where a
   * text is replaced, or a missing column of the text file's name.
   */
  function CalculatedMessage(p: CalculatedParams, derived: map<string, Param>, country: string,
                             template: string, row: GamedayRow): Result<(string, string)>
  {
    match Resolve(Entries(p, country), derived)
    case Err(e) => Err(e)
    case Ok(pairs) => FilledMessage(p, pairs, country, template, row)
  }

  /**
   * `create_calculated_messages_for_country`: the replacement list built,
   * then the message filled with it. Writing the message to its text file
   * is not modelled; the file's name is still built, so a missing column of
   * the name raises KeyError.
   */
  method CreateCalculatedMessage(p: CalculatedParams, derived: map<string, Param>, country: string,
                                 template: string, row: GamedayRow)
    returns (r: Result<(string, string)>)
    ensures r == CalculatedMessage(p, derived, country, template, row)
  {
    var resolved := Resolve(Entries(p, country), derived);
    if resolved.Err? {
      return Err(resolved.error);
    }
    r := FillMessage(p, resolved.value, country, template, row);
  }

  /**
   * The message filled in turn: each replacement of the list applied,
   * each block kept or dropped, and the message returned with its country.
   */
  method FillMessage(p: CalculatedParams, pairs: seq<(Field, Param)>, country: string,
                     template: string, row: GamedayRow)
    returns (r: Result<(string, string)>)
    ensures r == FilledMessage(p, pairs, country, template, row)
  {
    SubstitutionTexts(pairs);
    var replaced := ReplaceFields(FormatMessage(template), Substitutions(pairs));
    if replaced.Err? {
      return Err(replaced.error);
    }
    var content := ApplyEachBlock(replaced.value, CalculatedBlocks(p));
    var file := FileName("forumoutput_calculated", row, "txt", Some(country));
    if file.Err? {
      return Err(file.error);
    }
    return Ok((content, country));
  }

  /**
   * The replacement loop: each placeholder replaced in turn by its value;
   * a table among the values raises TypeError when its turn comes.
   */
  method ReplaceFields(text: string, substitutions: seq<(string, Param)>) returns (r: Result<string>)
    ensures AllStr(substitutions) ==> r == Ok(ReplaceEach(text, Texts(substitutions)))
    ensures !AllStr(substitutions) ==> r == Err(TypeErrorText)
  {
    var replacements := Texts(substitutions);
    var content := text;
    for i := 0 to |substitutions|
      invariant forall j :: 0 <= j < i ==> substitutions[j].1.Str?
      invariant content == ReplaceEach(text, replacements[..i])
    {
      if substitutions[i].1.Df? {
        return Err(TypeErrorText);
      }
      content := ReplaceNext(text, replacements, i, content);
    }
    assert replacements[..|substitutions|] == replacements;
    return Ok(content);
  }

  /** The block loop: each block kept or dropped in turn. */
  method ApplyEachBlock(text: string, blocks: seq<Block>) returns (content: string)
    ensures content == ApplyBlocks(text, blocks)
  {
    content := text;
    for i := 0 to |blocks|
      invariant ApplyBlocks(content, blocks[i..]) == ApplyBlocks(text, blocks)
    {
      assert blocks[i..][1..] == blocks[i + 1..];
      content := ReplaceConditionally(content, blocks[i].begin, blocks[i].end, blocks[i].keep);
    }
  }

  // ---------------------------------------------------------------------
  // What the replacement list holds
  // ---------------------------------------------------------------------

  /** An entry of the fields is in the list exactly when its field is listed and its group shown. */
  lemma {:induction false} ShownEntriesHas(p: CalculatedParams, country: string, fields: seq<Field>, f: Field)
    ensures EntryOf(p, country, f) in ShownEntries(p, country, fields) <==> f in fields && Shown(p, f)
    decreases |fields|
  {
    if |fields| > 0 {
      ShownEntriesHas(p, country, fields[1..], f);
      assert f in fields <==> f == fields[0] || f in fields[1..];
      assert EntryOf(p, country, f).field == f && EntryOf(p, country, fields[0]).field == fields[0];
    }
  }

  /** Every entry of the list is the one defined for its field, in a shown group. */
  lemma {:induction false} ShownEntriesOnly(p: CalculatedParams, country: string, fields: seq<Field>, e: Entry)
    requires e in ShownEntries(p, country, fields)
    ensures e == EntryOf(p, country, e.field) && Shown(p, e.field)
    decreases |fields|
  {
    if e !in (if Shown(p, fields[0]) then [EntryOf(p, country, fields[0])] else []) {
      ShownEntriesOnly(p, country, fields[1..], e);
    } else {
      assert e.field == fields[0];
    }
  }

  /** A placeholder is in the list exactly when its group is shown, with the value defined for it. */
  lemma EntriesShown(p: CalculatedParams, country: string, f: Field)
    ensures EntryOf(p, country, f) in Entries(p, country) <==> Shown(p, f)
  {
    ShownEntriesHas(p, country, FieldOrder, f);
    assert FieldOrder[FieldIndex(f)] == f;
  }

  /** The list holds nothing else: each entry is the one defined for its placeholder, in a shown group. */
  lemma EntriesOnly(p: CalculatedParams, country: string, e: Entry)
    requires e in Entries(p, country)
    ensures e == EntryOf(p, country, e.field) && Shown(p, e.field)
  {
    ShownEntriesOnly(p, country, FieldOrder, e);
  }

  /** The list resolves, all to texts, exactly when every looked-up key is derived as a text. */
  lemma ResolvedTexts(entries: seq<Entry>, derived: map<string, Param>)
    ensures Resolve(entries, derived).Ok? && AllTexts(Resolve(entries, derived).value) <==>
      forall e :: e in entries && e.Looked? ==> e.key in derived && derived[e.key].Str?
  {
    var res := Resolve(entries, derived);
    if res.Ok? {
      var pairs := res.value;
      if AllTexts(pairs) {
        forall e | e in entries && e.Looked?
          ensures e.key in derived && derived[e.key].Str?
        {
          var i :| 0 <= i < |entries| && entries[i] == e;
          assert pairs[i].1.Str?;
        }
      } else {
        var i :| 0 <= i < |pairs| && !pairs[i].1.Str?;
        assert entries[i] in entries;
      }
    } else {
      var i :| FirstMissing(entries, derived, i) && res.error == KeyError(entries[i].key);
      assert entries[i] in entries;
    }
  }

  /**
   * The message is built exactly when every parameter the template looks
   * up is derived, and derived as a text, and the gameday row has the two
   * columns the text file's name is made of.
   */
  lemma CalculatedMessageOk(p: CalculatedParams, derived: map<string, Param>, country: string,
                            template: string, row: GamedayRow)
    ensures CalculatedMessage(p, derived, country, template, row).Ok? <==>
      (forall e :: e in Entries(p, country) && e.Looked? ==> e.key in derived && derived[e.key].Str?) &&
      "SEASON_ID" in row && "GAMEDAY" in row
  {
    var entries := Entries(p, country);
    ResolvedTexts(entries, derived);
    var res := Resolve(entries, derived);
    if res.Ok? {
      FilledMessageOk(p, res.value, country, template, row);
    }
  }

  /** Filling succeeds exactly when every value is a text and the row names the text file. */
  lemma FilledMessageOk(p: CalculatedParams, pairs: seq<(Field, Param)>, country: string,
                        template: string, row: GamedayRow)
    ensures FilledMessage(p, pairs, country, template, row).Ok? <==>
      AllTexts(pairs) && "SEASON_ID" in row && "GAMEDAY" in row
  {
  }

  /** The parameter a looked-up field takes its value from. */
  function LookedKey(f: Field): ParamKey
  {
    match f
    case ImgDetail => DetailedDf
    case ImgSeason => GlobalDf
    case RankPredictchampImg => RankDf
    case ResultsPredictchamp => ChampResults
    case GamedayMonth => MonthLabel
    case ListUserMonth => MonthList
    case GamedayCompetition => CompetLabel
    case _ => CompetList
  }

  /**
   * A field the template shows and looks up is found, as a text, among a
   * country's derived parameters: the link of a captured table, or a
   * translated text.
   */
  lemma ShownDerived(p: CalculatedParams, row: GamedayRow, country: string,
                     translations: map<string, seq<(string, string)>>, push: string -> string, f: Field)
    requires Coherent(p) && Shown(p, f) && EntryOf(p, country, f).Looked?
    requires p.isForRank == 1 ==> p.rankPredictchamp.Some? && !p.rankPredictchamp.value.Empty()
    requires DerivedForCountry(ToDerive(Candidates(p)), row, country, translations, push).Ok?
    ensures EntryOf(p, country, f).key in DerivedForCountry(ToDerive(Candidates(p)), row, country, translations, push).value
    ensures DerivedForCountry(ToDerive(Candidates(p)), row, country, translations, push).value[EntryOf(p, country, f).key].Str?
  {
    var params := ToDerive(Candidates(p));
    var k := LookedKey(f);
    assert Derivable(p, k);
    DeriveFilter(p, k);
    if IsTable(k) {
      assert EntryOf(p, country, f).key == UrlKey(k, country);
      DerivedUrl(params, row, country, translations, push, k);
    } else {
      assert EntryOf(p, country, f).key == TranslatedKey(k, country);
      DerivedTranslated(params, row, country, translations, push, k);
      var v :| (k, v) in params &&
        DerivedForCountry(params, row, country, translations, push).value[TranslatedKey(k, country)] == Translated(v, translations[country]);
      assert v.Str?;
    }
  }

  /**
   * From parameters as the database gives them, a country with a
   * translation table and a gameday row naming its files, the country's
   * derivation and then its calculated message both succeed, provided the
   * ranking table has rows whenever the ranking is asked for.
   */
  lemma CalculatedMessageSucceeds(p: CalculatedParams, row: GamedayRow, country: string,
                                  translations: map<string, seq<(string, string)>>, push: string -> string,
                                  template: string)
    requires Coherent(p) && country in translations && "SEASON_ID" in row && "GAMEDAY" in row
    requires p.isForRank == 1 ==> p.rankPredictchamp.Some? && !p.rankPredictchamp.value.Empty()
    ensures DerivedForCountry(ToDerive(Candidates(p)), row, country, translations, push).Ok?
    ensures CalculatedMessage(p, DerivedForCountry(ToDerive(Candidates(p)), row, country, translations, push).value,
                              country, template, row).Ok?
  {
    var params := ToDerive(Candidates(p));
    DerivedForCountryOk(params, row, country, translations, push);
    var derived := DerivedForCountry(params, row, country, translations, push).value;
    EntriesDerived(p, row, country, translations, push);
    CalculatedMessageOk(p, derived, country, template, row);
  }

  /** Every field the template shows and looks up is derived, as a text. */
  lemma EntriesDerived(p: CalculatedParams, row: GamedayRow, country: string,
                       translations: map<string, seq<(string, string)>>, push: string -> string)
    requires Coherent(p)
    requires p.isForRank == 1 ==> p.rankPredictchamp.Some? && !p.rankPredictchamp.value.Empty()
    requires DerivedForCountry(ToDerive(Candidates(p)), row, country, translations, push).Ok?
    ensures var derived := DerivedForCountry(ToDerive(Candidates(p)), row, country, translations, push).value;
      forall e :: e in Entries(p, country) && e.Looked? ==> e.key in derived && derived[e.key].Str?
  {
    forall e | e in Entries(p, country) && e.Looked?
      ensures e == EntryOf(p, country, e.field) && Shown(p, e.field)
    {
      EntriesOnly(p, country, e);
    }
    forall f | Shown(p, f) && EntryOf(p, country, f).Looked?
      ensures var derived := DerivedForCountry(ToDerive(Candidates(p)), row, country, translations, push).value;
        EntryOf(p, country, f).key in derived && derived[EntryOf(p, country, f).key].Str?
    {
      ShownDerived(p, row, country, translations, push, f);
    }
  }

  /**
   * When the ranking is asked for but its table has no rows, no link is
   * derived for it and the message raises KeyError.
   */
  lemma RankingWithoutRowsFails(p: CalculatedParams, row: GamedayRow, country: string,
                                translations: map<string, seq<(string, string)>>, push: string -> string,
                                template: string)
    requires p.isForRank == 1 && p.rankPredictchamp.Some? && p.rankPredictchamp.value.Empty()
    requires DerivedForCountry(ToDerive(Candidates(p)), row, country, translations, push).Ok?
    ensures CalculatedMessage(p, DerivedForCountry(ToDerive(Candidates(p)), row, country, translations, push).value,
                              country, template, row).Err?
  {
    var params := ToDerive(Candidates(p));
    DeriveFilter(p, RankDf);
    DerivedUrl(params, row, country, translations, push, RankDf);
    ShownMissingFails(p, DerivedForCountry(params, row, country, translations, push).value, country, template, row,
                      RankPredictchampImg);
  }

  /** A field the template shows whose key was not derived makes the message fail. */
  lemma ShownMissingFails(p: CalculatedParams, derived: map<string, Param>, country: string,
                          template: string, row: GamedayRow, f: Field)
    requires Shown(p, f) && EntryOf(p, country, f).Looked? && EntryOf(p, country, f).key !in derived
    ensures CalculatedMessage(p, derived, country, template, row).Err?
  {
    EntriesShown(p, country, f);
    CalculatedMessageOk(p, derived, country, template, row);
  }

  /**
   * A template with no placeholder, no tag and nothing to format comes out
   * unchanged, whatever the parameters.
   */
  lemma TaglessMessage(p: CalculatedParams, derived: map<string, Param>, country: string,
                       template: string, row: GamedayRow)
    requires '#' !in template && '\n' !in template && '|' !in template
    requires CalculatedMessage(p, derived, country, template, row).Ok?
    ensures CalculatedMessage(p, derived, country, template, row).value == (template, country)
  {
    TaglessFilled(p, Resolve(Entries(p, country), derived).value, country, template, row);
  }

  lemma TaglessFilled(p: CalculatedParams, pairs: seq<(Field, Param)>, country: string,
                      template: string, row: GamedayRow)
    requires '#' !in template && '\n' !in template && '|' !in template
    requires FilledMessage(p, pairs, country, template, row).Ok?
    ensures FilledMessage(p, pairs, country, template, row).value == (template, country)
  {
    NoMarkerFormatted(template);
    var replacements := TextPairs(pairs);
    forall j | 0 <= j < |replacements|
      ensures |replacements[j].0| > 0 && !Contains(template, replacements[j].0)
    {
      AbsentFirstChar(template, replacements[j].0);
    }
    ReplaceEachAbsent(template, replacements);
    var blocks := CalculatedBlocks(p);
    forall j | 0 <= j < |blocks|
      ensures |blocks[j].begin| > 0 && |blocks[j].end| > 0
      ensures !Contains(template, blocks[j].begin) && !Contains(template, blocks[j].end)
    {
      AbsentFirstChar(template, blocks[j].begin);
      AbsentFirstChar(template, blocks[j].end);
    }
    TaglessBlocks(template, blocks);
  }

  /**
   * Each `WITH_` block and its `WITHOUT_` partner are kept one or the
   * other, never both; the home-advantage pair keeps one exactly when the
   * flag is 0 or 1.
   */
  lemma SectionsPaired(p: CalculatedParams)
    ensures SectionKept(p, WithPredictorsGameday) != SectionKept(p, WithoutPredictorsGameday)
    ensures SectionKept(p, WithPredictorsGlobal) != SectionKept(p, WithoutPredictorsGlobal)
    ensures SectionKept(p, WithPredictorsAverage) != SectionKept(p, WithoutPredictorsAverage)
    ensures SectionKept(p, WithPredictchamp) != SectionKept(p, WithoutPredictchamp)
    ensures !(SectionKept(p, WithHomeAdv) && SectionKept(p, WithoutHomeAdv))
    ensures SectionKept(p, WithHomeAdv) || SectionKept(p, WithoutHomeAdv) <==> p.hasHomeAdv == 0 || p.hasHomeAdv == 1
  {
  }
}
