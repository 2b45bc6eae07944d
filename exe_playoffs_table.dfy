/**
 * The texts of the playoffs bracket: one text per round of match-ups and
 * one per round of results, each round's entries on their own lines, and
 * the test that decides whether the final has a winner to crown.
 */
module PlayoffsTable {
  import opened Wrappers
  import opened Strings

  /** A round's entries, one per line. */
  function RoundText(round: seq<string>): string
  {
    Join(round, "\n")
  }

  /** A results round not played yet: every score is "0" (an empty round too). */
  predicate Unplayed(round: seq<string>)
  {
    forall k :: 0 <= k < |round| ==> round[k] == "0"
  }

  /** The text of a results round: nothing for a round not played yet, its scores otherwise. */
  function ResultText(round: seq<string>): string
  {
    if Unplayed(round) then "" else RoundText(round)
  }

  /** `get_matchups_strings`: one text per round, the round's teams one per line. */
  method MatchupsStrings(matchups: seq<seq<string>>) returns (texts: seq<string>)
    ensures |texts| == |matchups|
    ensures forall i :: 0 <= i < |matchups| ==> texts[i] == RoundText(matchups[i])
  {
    texts := [];
    for i := 0 to |matchups|
      invariant |texts| == i
      invariant forall j :: 0 <= j < i ==> texts[j] == RoundText(matchups[j])
    {
      texts := texts + [RoundText(matchups[i])];
    }
  }

  /** `get_results_strings`: one text per round, empty for a round whose scores are all "0". */
  method ResultsStrings(results: seq<seq<string>>) returns (texts: seq<string>)
    ensures |texts| == |results|
    ensures forall i :: 0 <= i < |results| ==> texts[i] == ResultText(results[i])
  {
    texts := [];
    for i := 0 to |results|
      invariant |texts| == i
      invariant forall j :: 0 <= j < i ==> texts[j] == ResultText(results[j])
    {
      var round := results[i];
      var allZero := true;
      for k := 0 to |round|
        invariant allZero <==> Unplayed(round[..k])
      {
        allZero := allZero && round[k] == "0";
      }
      assert round[..|round|] == round;
      if allZero {
        texts := texts + [""];
      } else {
        texts := texts + [RoundText(round)];
      }
    }
  }

  /** A joined text is empty exactly when there is nothing to join or a single empty entry. */
  lemma JoinEmpty(parts: seq<string>, sep: string)
    requires |sep| > 0
    ensures Join(parts, sep) == "" <==> |parts| == 0 || parts == [""]
  {
    if |parts| >= 2 {
      assert |Join(parts, sep)| >= |sep|;
    }
  }

  /** The text of a round gives back its entries, line by line, when no entry holds a line break. */
  lemma RoundLines(round: seq<string>)
    requires |round| > 0
    requires forall k :: 0 <= k < |round| ==> '\n' !in round[k]
    ensures Split(RoundText(round), "\n") == round
  {
    SplitJoin(round, '\n');
  }

  /**
   * A results round shows nothing exactly when it is not played yet or
   * is a single empty score; a played round shows its scores, one per line.
   */
  lemma ResultShown(round: seq<string>)
    ensures ResultText(round) == "" <==> Unplayed(round) || round == [""]
    ensures !Unplayed(round) && (forall k :: 0 <= k < |round| ==> '\n' !in round[k]) ==>
              Split(ResultText(round), "\n") == round
  {
    JoinEmpty(round, "\n");
    if !Unplayed(round) && forall k :: 0 <= k < |round| ==> '\n' !in round[k] {
      RoundLines(round);
    }
  }

  /**
   * Whether the bracket has a winner: the first entry of the last round is
   * a team rather than the placeholder `s`. An empty bracket, or an empty
   * last round, raises IndexError.
   */
  function HasWinner(matchups: seq<seq<string>>, placeholder: string): (r: Result<bool>)
    ensures r.Ok? <==> |matchups| > 0 && |matchups[|matchups| - 1]| > 0
  {
    if |matchups| == 0 || |matchups[|matchups| - 1]| == 0 then Err("IndexError: list index out of range")
    else Ok(matchups[|matchups| - 1][0] != placeholder)
  }

  /** Only the final decides: the earlier rounds never change whether there is a winner. */
  lemma WinnerFromFinal(earlier: seq<seq<string>>, final: seq<string>, placeholder: string)
    ensures HasWinner(earlier + [final], placeholder) == HasWinner([final], placeholder)
    ensures |final| > 0 ==> HasWinner([final], placeholder) == Ok(final[0] != placeholder)
  {
  }
}
