/**
 * The string work of `get_messages_details_bi.py`: translating the forum's
 * French date tokens, reading message ids from `profile<N>` attributes,
 * flattening message contents to one line, reading the date out of an
 * edition notice, and the length check that assembles one row per message.
 *
 * The HTML traversal is not modelled: each extractor receives the texts and
 * attributes the HTML parser would hand it. `datetime.strptime` with the
 * forum's "%a %d %b %Y %H:%M" layout is an abstract parameter `parse`.
 */
module MessageDetails {
  import opened Wrappers
  import opened Strings
  import opened Timestamps
  import opened Collections

  // ---------------------------------------------------------------------
  // French date tokens (`translate_french_special_date_to_english`)
  // ---------------------------------------------------------------------

  /** The keys of the source's replacement table, one per French abbreviation. */
  datatype FrenchToken = Janv | Fevr | Mars | Avr | Mai | Juin | Juil | Aout | Sept | Oct | Nov | Dec
                       | Lun | Mar | Mer | Jeu | Ven | Sam | Dim

  /** The French text of a token, as the forum writes it. */
  function French(t: FrenchToken): string
  {
    match t
    case Janv => "janv." case Fevr => "févr." case Mars => "mars" case Avr => "avr."
    case Mai => "mai" case Juin => "juin" case Juil => "juil." case Aout => "août"
    case Sept => "sept." case Oct => "oct." case Nov => "nov." case Dec => "déc."
    case Lun => "lun." case Mar => "mar." case Mer => "mer." case Jeu => "jeu."
    case Ven => "ven." case Sam => "sam." case Dim => "dim."
  }

  /** The English abbreviation `%a` / `%b` read in its place. */
  function English(t: FrenchToken): string
  {
    match t
    case Janv => "Jan" case Fevr => "Feb" case Mars => "Mar" case Avr => "Apr"
    case Mai => "May" case Juin => "Jun" case Juil => "Jul" case Aout => "Aug"
    case Sept => "Sep" case Oct => "Oct" case Nov => "Nov" case Dec => "Dec"
    case Lun => "Mon" case Mar => "Tue" case Mer => "Wed" case Jeu => "Thu"
    case Ven => "Fri" case Sam => "Sat" case Dim => "Sun"
  }

  /** The table's insertion order, which is the order the translation applies it in. */
  const TableOrder: seq<FrenchToken> :=
    [Janv, Fevr, Mars, Avr, Mai, Juin, Juil, Aout, Sept, Oct, Nov, Dec, Lun, Mar, Mer, Jeu, Ven, Sam, Dim]

  /** The replacement table as (French, English) pairs, in order. */
  const FrenchToEnglish: seq<(string, string)> :=
    seq(|TableOrder|, k requires 0 <= k < |TableOrder| => (French(TableOrder[k]), English(TableOrder[k])))

  /** Every French token is a non-empty word that starts with a lower-case letter. */
  lemma FrenchIsWord(t: FrenchToken)
    ensures |French(t)| > 0 && ' ' !in French(t) && 'a' <= French(t)[0] <= 'z'
  {
  }

  /** Every English abbreviation is three letters and starts with a capital. */
  lemma EnglishIsCapitalised(t: FrenchToken)
    ensures |English(t)| == 3 && 'A' <= English(t)[0] <= 'Z'
  {
  }

  /** "mai" is the only French token shorter than four characters. */
  lemma FrenchLength(t: FrenchToken)
    ensures |French(t)| >= 4 || t == Mai
  {
  }

  /** Only `Mar` is written "mar.": "mars" differs in its last character. */
  lemma OnlyMarIsMarDot(t: FrenchToken)
    ensures t == Mar || French(t) != "mar."
  {
  }

  /** The French tokens of the whole table are words. */
  lemma FrenchTokensAreWords()
    ensures forall k :: 0 <= k < |FrenchToEnglish| ==>
              |FrenchToEnglish[k].0| > 0 && ' ' !in FrenchToEnglish[k].0
              && 'a' <= FrenchToEnglish[k].0[0] <= 'z'
  {
    forall k | 0 <= k < |FrenchToEnglish|
      ensures |FrenchToEnglish[k].0| > 0 && ' ' !in FrenchToEnglish[k].0 && 'a' <= FrenchToEnglish[k].0[0] <= 'z'
    {
      FrenchIsWord(TableOrder[k]);
    }
  }

  /** No French token occurs in an English abbreviation, so a translated word is never translated again. */
  lemma EnglishHasNoFrench(t: FrenchToken, u: FrenchToken)
    ensures !Contains(English(u), French(t))
  {
    FrenchIsWord(t);
    EnglishIsCapitalised(u);
    FrenchLength(t);
    NotContainedLonger(English(u), French(t));
  }

  /** The forum's date text with every French token replaced, table entry after table entry. */
  method TranslateFrenchDate(dateString: string) returns (r: string)
    ensures r == ReplaceEach(dateString, FrenchToEnglish)
  {
    r := dateString;
    for i := 0 to |FrenchToEnglish|
      invariant ReplaceEach(r, FrenchToEnglish[i..]) == ReplaceEach(dateString, FrenchToEnglish)
    {
      assert FrenchToEnglish[i..][0] == FrenchToEnglish[i] && FrenchToEnglish[i..][1..] == FrenchToEnglish[i + 1..];
      var (french, english) := FrenchToEnglish[i];
      r := ReplaceAll(r, french, english);
    }
  }

  /** No French token spans a space, so a date is translated word by word. */
  lemma TranslatesWordByWord(words: seq<string>)
    ensures ReplaceEach(Join(words, " "), FrenchToEnglish) == Join(EachInWords(words, FrenchToEnglish), " ")
  {
    FrenchTokensAreWords();
    ReplaceEachJoined(words, FrenchToEnglish);
  }

  /** A text holding no French token is left as it is. */
  lemma EnglishTextUnchanged(s: string)
    requires forall k :: 0 <= k < |FrenchToEnglish| ==> !Contains(s, FrenchToEnglish[k].0)
    ensures ReplaceEach(s, FrenchToEnglish) == s
  {
    FrenchTokensAreWords();
    ReplaceEachAbsent(s, FrenchToEnglish);
  }

  /** Digits, spaces and colons (the day, year and time of a date) are left as they are. */
  lemma NoLowerCaseUnchanged(s: string)
    requires forall k :: 0 <= k < |s| ==> !('a' <= s[k] <= 'z')
    ensures ReplaceEach(s, FrenchToEnglish) == s
  {
    forall k | 0 <= k < |FrenchToEnglish|
      ensures !Contains(s, FrenchToEnglish[k].0)
    {
      FrenchIsWord(TableOrder[k]);
      NotContained(s, FrenchToEnglish[k].0);
    }
    EnglishTextUnchanged(s);
  }

  /** A table token is replaced by its English abbreviation, which no later token touches. */
  lemma TokenTranslated(i: nat)
    requires i < |TableOrder|
    requires forall k :: 0 <= k < i ==> !Contains(French(TableOrder[i]), French(TableOrder[k]))
    ensures ReplaceEach(French(TableOrder[i]), FrenchToEnglish) == English(TableOrder[i])
  {
    forall k | 0 <= k < |FrenchToEnglish|
      ensures |FrenchToEnglish[k].0| > 0
      ensures i < k ==> !Contains(FrenchToEnglish[i].1, FrenchToEnglish[k].0)
    {
      FrenchIsWord(TableOrder[k]);
      EnglishHasNoFrench(TableOrder[k], TableOrder[i]);
    }
    ReplaceEachOnly(French(TableOrder[i]), FrenchToEnglish, i);
  }

  /** "janv." comes first in the table and becomes "Jan". */
  lemma JanuaryWord()
    ensures ReplaceEach("janv.", FrenchToEnglish) == "Jan"
  {
    assert TableOrder[0] == Janv;
    TokenTranslated(0);
  }

  /** "mar." escapes "mars", "mai" and the other earlier tokens, then becomes "Tue". */
  lemma TuesdayWord()
    ensures ReplaceEach("mar.", FrenchToEnglish) == "Tue"
  {
    assert TableOrder[13] == Mar;
    forall k | 0 <= k < 13
      ensures !Contains("mar.", French(TableOrder[k]))
    {
      MarEscapes(TableOrder[k]);
    }
    TokenTranslated(13);
  }

  /** No token other than `Mar` occurs in "mar.". */
  lemma MarEscapes(t: FrenchToken)
    requires t != Mar
    ensures !Contains("mar.", French(t))
  {
    var s := "mar.";
    FrenchIsWord(t);
    FrenchLength(t);
    OnlyMarIsMarDot(t);
    if t == Mai {
      assert s[..3][2] != "mai"[2];
      NotContainedHeadOnly(s, "mai");
    } else {
      NotContainedLonger(s, French(t));
    }
  }

  /** The forum's "mar. 07 janv. 2025 9:54" reads "Tue 07 Jan 2025 9:54" (both written as their words joined by spaces). */
  lemma TranslationExample()
    ensures ReplaceEach(Join(["mar.", "07", "janv.", "2025", "9:54"], " "), FrenchToEnglish)
            == Join(["Tue", "07", "Jan", "2025", "9:54"], " ")
  {
    var words := ["mar.", "07", "janv.", "2025", "9:54"];
    TranslatesWordByWord(words);
    var out := EachInWords(words, FrenchToEnglish);
    TuesdayWord();
    JanuaryWord();
    NumbersUnchanged();
    assert out[0] == "Tue" && out[1] == "07" && out[2] == "Jan" && out[3] == "2025" && out[4] == "9:54";
    assert out == ["Tue", "07", "Jan", "2025", "9:54"];
  }

  /** The day, year and time of the example are left as they are. */
  lemma NumbersUnchanged()
    ensures ReplaceEach("07", FrenchToEnglish) == "07"
    ensures ReplaceEach("2025", FrenchToEnglish) == "2025"
    ensures ReplaceEach("9:54", FrenchToEnglish) == "9:54"
  {
    NoLowerCaseUnchanged("07");
    NoLowerCaseUnchanged("2025");
    NoLowerCaseUnchanged("9:54");
  }

  /** `transform_forum_time_to_datetime` after the translation: `None` when the text does not parse. */
  function ForumTime(text: string, parse: string -> Option<DateTime>): Option<DateTime>
  {
    parse(ReplaceEach(text, FrenchToEnglish))
  }

  const NotAForumTime := "ValueError: time data does not match format '%a %d %b %Y %H:%M'"

  /** `get_creationtimes_bi`: every `<time>` text read as a date; one unreadable text raises. */
  function CreationTimes(texts: seq<string>, parse: string -> Option<DateTime>): (r: Result<seq<DateTime>>)
    ensures r.Ok? <==> forall k :: 0 <= k < |texts| ==> ForumTime(texts[k], parse).Some?
    ensures r.Ok? ==> |r.value| == |texts|
                      && forall k :: 0 <= k < |texts| ==> r.value[k] == ForumTime(texts[k], parse).value
  {
    TryMap(texts, text => ForumTime(text, parse), NotAForumTime)
  }

  // ---------------------------------------------------------------------
  // Message ids (`get_ids_bi`)
  // ---------------------------------------------------------------------

  /** An id attribute with "profile" removed, read as `int()` reads it. */
  function ProfileId(attr: string): Option<int>
  {
    ParseInt(ReplaceAll(attr, "profile", ""))
  }

  /** The id attributes that are present and non-empty, in document order. */
  function IdAttributes(attrs: seq<Option<string>>): (r: seq<string>)
    ensures forall a :: a in r <==> a != "" && Some(a) in attrs
  {
    if |attrs| == 0 then []
    else
      var rest := IdAttributes(attrs[1..]);
      assert forall x :: x in attrs <==> x == attrs[0] || x in attrs[1..];
      if attrs[0].Some? && attrs[0].value != "" then [attrs[0].value] + rest else rest
  }

  /** The ids of the given attributes; one that does not read as an integer raises. */
  function ParseIds(attrs: seq<string>): (r: Result<seq<int>>)
    ensures r.Ok? <==> forall k :: 0 <= k < |attrs| ==> ProfileId(attrs[k]).Some?
    ensures r.Ok? ==> |r.value| == |attrs|
                      && forall k :: 0 <= k < |attrs| ==> r.value[k] == ProfileId(attrs[k]).value
  {
    TryMap(attrs, ProfileId, "ValueError: invalid literal for int() with base 10")
  }

  /** `get_ids_bi` over the `id` attributes of the page's profile blocks. */
  function MessageIds(attrs: seq<Option<string>>): Result<seq<int>>
  {
    ParseIds(IdAttributes(attrs))
  }

  /** Reading the id back from the attribute the forum writes for it. */
  lemma ProfileIdRoundTrip(n: int)
    ensures ProfileId("profile" + IntToString(n)) == Some(n)
  {
    var d := IntToString(n);
    ReplaceAtHead("profile", d, "");
    assert 'p' !in d by {
      if n < 0 {
        assert d == "-" + NatToString(-n);
        assert forall k :: 1 <= k < |d| ==> d[k] == NatToString(-n)[k - 1];
      }
    }
    AbsentFirstChar(d, "profile");
    ReplaceAbsent(d, "profile", "");
    assert "" + d == d;
    ParseIntRoundTrip(n);
  }

  /** An attribute whose remainder holds a character that no integer text holds makes the ids raise. */
  lemma NonNumericIdRaises(attrs: seq<Option<string>>, j: nat, c: char)
    requires j < |attrs| && attrs[j].Some? && attrs[j].value != ""
    requires c in ReplaceAll(attrs[j].value, "profile", "")
    requires !IsDigit(c) && !IsSpace(c) && c != '-' && c != '+'
    ensures MessageIds(attrs).Err?
  {
    var a := attrs[j].value;
    assert a in IdAttributes(attrs);
    NotAnInteger(ReplaceAll(a, "profile", ""), c);
  }

  /** A text holding a character other than a digit, a sign or whitespace is not an integer. */
  lemma NotAnInteger(t: string, c: char)
    requires c in t && !IsDigit(c) && !IsSpace(c) && c != '-' && c != '+'
    ensures ParseInt(t).None?
  {
    StripKeeps(t, c);
    var u := Strip(t);
    var i :| 0 <= i < |u| && u[i] == c;
    if |u| > 0 && (u[0] == '-' || u[0] == '+') {
      assert i > 0 && u[1..][i - 1] == c;
    }
  }

  /** Stripping keeps every character that is not whitespace. */
  lemma StripKeeps(t: string, c: char)
    requires c in t && !IsSpace(c)
    ensures c in Strip(t)
  {
    TrimStartKeeps(t, c);
    TrimEndKeeps(TrimStart(t), c);
  }

  lemma TrimStartKeeps(t: string, c: char)
    requires c in t && !IsSpace(c)
    ensures c in TrimStart(t)
  {
    var i :| 0 <= i < |t| && t[i] == c;
    var lead := |t| - |TrimStart(t)|;
    assert lead <= i by {
      if i < lead {
        TrimStartSpaces(t, i);
      }
    }
    assert TrimStart(t)[i - lead] == c;
  }

  lemma TrimEndKeeps(t: string, c: char)
    requires c in t && !IsSpace(c)
    ensures c in TrimEnd(t)
  {
    var i :| 0 <= i < |t| && t[i] == c;
    assert i < |TrimEnd(t)| by {
      if |TrimEnd(t)| <= i {
        TrimEndSpaces(t, i);
      }
    }
    assert TrimEnd(t)[i] == c;
  }

  /** What `strip` removes at the front is whitespace. */
  lemma {:induction false} TrimStartSpaces(t: string, i: nat)
    requires i < |t| - |TrimStart(t)|
    ensures IsSpace(t[i])
    decreases |t|
  {
    if i > 0 {
      TrimStartSpaces(t[1..], i - 1);
    }
  }

  /** What `strip` removes at the back is whitespace. */
  lemma {:induction false} TrimEndSpaces(t: string, i: nat)
    requires |TrimEnd(t)| <= i < |t|
    ensures IsSpace(t[i])
    decreases |t|
  {
    if i < |t| - 1 {
      TrimEndSpaces(t[..|t| - 1], i);
    }
  }

  // ---------------------------------------------------------------------
  // Contents (`get_contents_outerblockquote_bi`)
  // ---------------------------------------------------------------------

  /** A message content kept on one line: every newline becomes " ;;;;; ". */
  function OneLine(content: string): string
  {
    ReplaceAll(content, "\n", " ;;;;; ")
  }

  /** No newline is left. */
  lemma OneLineHasNoNewline(content: string)
    ensures '\n' !in OneLine(content)
  {
    ReplaceCharRemoved(content, '\n', " ;;;;; ");
  }

  /** The lines of a content end up joined by " ;;;;; ". */
  lemma OneLineJoinsLines(lines: seq<string>)
    requires forall k :: 0 <= k < |lines| ==> '\n' !in lines[k]
    ensures OneLine(Join(lines, "\n")) == Join(lines, " ;;;;; ")
  {
    ReplaceSeparator(lines, '\n', " ;;;;; ");
  }

  // ---------------------------------------------------------------------
  // Edition notices (`get_editiontimes_bi`)
  // ---------------------------------------------------------------------

  const EditionMarker := "Modifié en dernier par"

  /** A post body's notice block, by its stripped text, or its absence. */
  datatype Notice = NoNotice | Notice(text: string)

  /** The edition date text read from one post body, `None` when there is none to read. */
  function EditionText(notice: Notice): Option<string>
  {
    match notice
    case NoNotice => None
    case Notice(text) =>
      if !Contains(text, EditionMarker) then None
      else
        SplitSecond(text, EditionMarker);
        var raw := Strip(Split(text, EditionMarker)[1]);
        var parts := Split(raw, "le ");
        if |parts| > 1 then Some(Strip(Split(parts[1], ",")[0])) else None
  }

  /** `get_editiontimes_bi`'s loop over the post bodies. */
  method EditionTexts(notices: seq<Notice>) returns (result: seq<Option<string>>)
    ensures |result| == |notices|
    ensures forall k :: 0 <= k < |notices| ==> result[k] == EditionText(notices[k])
  {
    result := [];
    for i := 0 to |notices|
      invariant |result| == i
      invariant forall k :: 0 <= k < i ==> result[k] == EditionText(notices[k])
    {
      var entry := ReadNotice(notices[i]);
      result := result + [entry];
    }
  }

  /** The body of that loop: the date text of one post body, or `None`. */
  method ReadNotice(notice: Notice) returns (entry: Option<string>)
    ensures entry == EditionText(notice)
  {
    entry := None;
    if notice.Notice? && Contains(notice.text, EditionMarker) {
      var text := notice.text;
      SplitSecond(text, EditionMarker);
      var rawDate := Strip(Split(text, EditionMarker)[1]);
      var parts := Split(rawDate, "le ");
      if |parts| > 1 {
        entry := Some(Strip(Split(parts[1], ",")[0]));
      }
    }
  }

  /** A split yields more than one part exactly when the separator occurs. */
  lemma SplitMany(s: string, sep: string)
    requires |sep| > 0
    ensures |Split(s, sep)| > 1 <==> Contains(s, sep)
  {
    IndexFromNoneIffAbsent(s, sep);
    if Contains(s, sep) {
      SplitSecond(s, sep);
    }
  }

  /**
   * Where the edition date comes from: the notice must hold the marker, and
   * the text between it and any later marker, trimmed, must hold "le "; the
   * date is then the trimmed text after that first "le ", up to the next
   * "le " or ",".
   */
  lemma EditionTextPositions(text: string)
    ensures var raw := Strip(TextBefore(TextAfter(text, EditionMarker), EditionMarker));
            EditionText(Notice(text))
              == if Contains(text, EditionMarker) && Contains(raw, "le ")
                 then Some(Strip(TextBefore(TextBefore(TextAfter(raw, "le "), "le "), ",")))
                 else None
  {
    if Contains(text, EditionMarker) {
      SplitSecond(text, EditionMarker);
      var raw := Strip(Split(text, EditionMarker)[1]);
      SplitMany(raw, "le ");
      if Contains(raw, "le ") {
        SplitSecond(raw, "le ");
        SplitHead(Split(raw, "le ")[1], ",");
      }
    }
  }

  /** An edition date holds no "," and no "le ", and no surrounding whitespace. */
  lemma EditionTextShape(text: string)
    requires EditionText(Notice(text)).Some?
    ensures var d := EditionText(Notice(text)).value;
            !Contains(d, ",") && !Contains(d, "le ") && (|d| == 0 || (!IsSpace(d[0]) && !IsSpace(d[|d| - 1])))
  {
    EditionTextPositions(text);
    var raw := Strip(TextBefore(TextAfter(text, EditionMarker), EditionMarker));
    var segment := TextBefore(TextAfter(raw, "le "), "le ");
    var cut := TextBefore(segment, ",");
    BeforeExcludes(TextAfter(raw, "le "), "le ");
    NotContainedSlice(segment, "le ", 0, |cut|);
    assert segment[0..|cut|] == cut;
    BeforeExcludes(segment, ",");
    StripExcludes(cut, ",");
    StripExcludes(cut, "le ");
  }

  /** One edition date text translated and read: `Some(None)` for no date, `None` when it does not read. */
  function EditionTime(text: Option<string>, parse: string -> Option<DateTime>): Option<Option<DateTime>>
  {
    match text
    case None => Some(None)
    case Some(d) => if ForumTime(d, parse).Some? then Some(ForumTime(d, parse)) else None
  }

  /** `get_editiontimes_bi`: each date text translated and read; one unreadable date raises. */
  function EditionTimes(texts: seq<Option<string>>, parse: string -> Option<DateTime>): (r: Result<seq<Option<DateTime>>>)
    ensures r.Ok? <==> forall k :: 0 <= k < |texts| && texts[k].Some? ==> ForumTime(texts[k].value, parse).Some?
    ensures r.Ok? ==> |r.value| == |texts|
                      && forall k :: 0 <= k < |texts| ==>
                           r.value[k] == (if texts[k].None? then None else ForumTime(texts[k].value, parse))
  {
    var r := TryMap(texts, text => EditionTime(text, parse), NotAForumTime);
    assert forall k :: 0 <= k < |texts| ==> (EditionTime(texts[k], parse).Some? <==> (texts[k].Some? ==> ForumTime(texts[k].value, parse).Some?));
    r
  }

  // ---------------------------------------------------------------------
  // One row per message (`get_messages_details_bi`)
  // ---------------------------------------------------------------------

  /** One row of the messages frame. */
  datatype MessageRow = MessageRow(forumSource: string, topicNumber: int, user: string, id: int,
                                   creationLocal: DateTime, editionLocal: Option<DateTime>, content: string)

  /** What the HTML parser hands each extractor for one page. */
  datatype PageTexts = PageTexts(users: seq<string>, idAttributes: seq<Option<string>>, times: seq<string>,
                                 contents: seq<string>, notices: seq<Notice>)

  /** The source's test: the set of the five list lengths has exactly one element. */
  predicate SameLengths(a: nat, b: nat, c: nat, d: nat, e: nat)
  {
    |{a, b, c, d, e}| == 1
  }

  /** One length in the set means all five lists have the same length. */
  lemma SameLengthsIffEqual(a: nat, b: nat, c: nat, d: nat, e: nat)
    ensures SameLengths(a, b, c, d, e) <==> a == b == c == d == e
  {
    var s := {a, b, c, d, e};
    if a == b == c == d == e {
      assert s == {a};
    } else {
      var x :| x in s && x != a;
      assert {a, x} <= s;
      assert |{a, x}| == 2;
      SubsetCard({a, x}, s);
    }
  }

  lemma SubsetCard(small: set<nat>, big: set<nat>)
    requires small <= big
    ensures |small| <= |big|
  {
    assert big == small + (big - small);
  }

  /**
   * `get_messages_details_bi`: the five extractions in the source's order,
   * then the length check, then one row per message.
   */
  function PageDetails(page: PageTexts, forumSource: string, topicNumber: int, start: int,
                       parse: string -> Option<DateTime>): Result<seq<MessageRow>>
  {
    var ids :- MessageIds(page.idAttributes);
    var creations :- CreationTimes(page.times, parse);
    var contents := seq(|page.contents|, k requires 0 <= k < |page.contents| => OneLine(page.contents[k]));
    var editions :- EditionTimes(seq(|page.notices|, k requires 0 <= k < |page.notices| => EditionText(page.notices[k])), parse);
    if !SameLengths(|page.users|, |ids|, |creations|, |contents|, |editions|) then
      Err("A problem was noticed extracting messages. " + forumSource + " / " + IntToString(topicNumber)
          + " / " + IntToString(start))
    else
      SameLengthsIffEqual(|page.users|, |ids|, |creations|, |contents|, |editions|);
      Ok(seq(|page.users|, k requires 0 <= k < |page.users| =>
           MessageRow(forumSource, topicNumber, page.users[k], ids[k], creations[k], editions[k], contents[k])))
  }

  /**
   * The rows, when the page reads, pair the k-th user with the k-th id,
   * creation time, edition time and one-line content; and every list
   * matching in length is exactly what lets a readable page through.
   */
  lemma PageDetailsRows(page: PageTexts, forumSource: string, topicNumber: int, start: int,
                        parse: string -> Option<DateTime>)
    requires MessageIds(page.idAttributes).Ok?
    requires CreationTimes(page.times, parse).Ok?
    requires EditionTimes(seq(|page.notices|, k requires 0 <= k < |page.notices| => EditionText(page.notices[k])), parse).Ok?
    ensures var r := PageDetails(page, forumSource, topicNumber, start, parse);
            var ids := IdAttributes(page.idAttributes);
            (r.Ok? <==> |page.users| == |ids| == |page.times| == |page.contents| == |page.notices|)
            && (r.Ok? ==> |r.value| == |page.users|
                          && forall k :: 0 <= k < |r.value| ==>
                               r.value[k].user == page.users[k]
                               && Some(r.value[k].id) == ProfileId(ids[k])
                               && Some(r.value[k].creationLocal) == ForumTime(page.times[k], parse)
                               && r.value[k].content == OneLine(page.contents[k])
                               && r.value[k].editionLocal ==
                                    (match EditionText(page.notices[k])
                                     case None => None
                                     case Some(d) => ForumTime(d, parse)))
  {
    var notices := seq(|page.notices|, k requires 0 <= k < |page.notices| => EditionText(page.notices[k]));
    var ids := MessageIds(page.idAttributes).value;
    var creations := CreationTimes(page.times, parse).value;
    var editions := EditionTimes(notices, parse).value;
    SameLengthsIffEqual(|page.users|, |ids|, |creations|, |page.contents|, |editions|);
  }
}
