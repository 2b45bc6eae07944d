/**
 * The text and table helpers of `output_actions/output_actions.py` that
 * build a forum post: translating a parameter for a country, expanding the
 * `|N|` newline markers, keeping or dropping tag-delimited blocks, naming
 * output files, displaying ranks, and choosing which message is posted.
 */
module OutputActions {
  import opened Wrappers
  import opened Strings
  import opened Order
  import opened Config

  // ---------------------------------------------------------------------
  // `translate_param_for_country` on a string
  // ---------------------------------------------------------------------

  /**
   * Each key of the country's table replaced by its value, in the table's
   * order; a country without a table raises KeyError.
   */
  method TranslateParam(param: string, country: string, translations: map<string, seq<(string, string)>>)
    returns (r: Result<string>)
    ensures country !in translations ==> r == Err("KeyError: " + country)
    ensures country in translations ==> r == Ok(ReplaceEach(param, translations[country]))
  {
    if country !in translations {
      return Err("KeyError: " + country);
    }
    var table := translations[country];
    var translated := param;
    for i := 0 to |table|
      invariant ReplaceEach(translated, table[i..]) == ReplaceEach(param, table)
    {
      assert table[i..][0] == table[i] && table[i..][1..] == table[i + 1..];
      var (key, val) := table[i];
      translated := ReplaceAll(translated, key, val);
    }
    return Ok(translated);
  }

  /** A text holding none of the keys is not changed by the translation. */
  lemma UntranslatedText(param: string, table: seq<(string, string)>)
    requires forall k :: 0 <= k < |table| ==> |table[k].0| > 0 && !Contains(param, table[k].0)
    ensures ReplaceEach(param, table) == param
  {
    ReplaceEachAbsent(param, table);
  }

  /** "hello world" with the table {"hello": "bonjour"} reads "bonjour world". */
  lemma TranslateParamExample()
    ensures ReplaceEach("hello" + " world", [("hello", "bonjour")]) == "bonjour" + " world"
  {
    var rest := " world";
    ReplaceAtHead("hello", rest, "bonjour");
    NotContained(rest, "hello");
    ReplaceAbsent(rest, "hello", "bonjour");
    assert [("hello", "bonjour")][1..] == [];
  }

  // ---------------------------------------------------------------------
  // `translate_param_for_country` on a table
  // ---------------------------------------------------------------------

  /**
   * A table parameter: its column names and its rows, cells as text. A
   * table with a two-level header (a pandas MultiIndex) has the first
   * level's labels as `columns` and the second level's as `subColumns`.
   */
  datatype Frame = Frame(columns: seq<string>, rows: seq<seq<string>>)
                 | TwoLevelFrame(columns: seq<string>, subColumns: seq<string>, rows: seq<seq<string>>)
  {
    /** pandas' `DataFrame.empty`: no column or no row. */
    predicate Empty()
    {
      |columns| == 0 || |rows| == 0
    }
  }

  /** A parameter to translate: a text (`str`) or a table (`DataFrame`). */
  datatype Param = Str(text: string) | Df(frame: Frame)

  /**
   * `rename(columns=table)` on one column name: the value the table gives
   * the name (its first entry with that key), or the name unchanged.
   */
  function RenameColumn(column: string, table: seq<(string, string)>): (r: string)
    ensures (exists k :: 0 <= k < |table| && table[k].0 == column) ==> (column, r) in table
    ensures (forall k :: 0 <= k < |table| ==> table[k].0 != column) ==> r == column
  {
    if |table| == 0 then column
    else if table[0].0 == column then table[0].1
    else
      var r := RenameColumn(column, table[1..]);
      assert (exists k :: 0 <= k < |table| && table[k].0 == column) ==>
        exists k :: 0 <= k < |table[1..]| && table[1..][k].0 == column by {
        if exists k :: 0 <= k < |table| && table[k].0 == column {
          var k :| 0 <= k < |table| && table[k].0 == column;
          assert table[1..][k - 1] == table[k];
        }
      }
      assert forall x :: x in table[1..] ==> x in table;
      r
  }

  /** Every label renamed by the table. */
  function RenamedLabels(labels: seq<string>, table: seq<(string, string)>): (r: seq<string>)
    ensures |r| == |labels| && forall k :: 0 <= k < |r| ==> r[k] == RenameColumn(labels[k], table)
  {
    seq(|labels|, k requires 0 <= k < |labels| => RenameColumn(labels[k], table))
  }

  /** The table with every column renamed, on each level of its header; the rows are kept. */
  function Renamed(f: Frame, table: seq<(string, string)>): Frame
  {
    match f
    case Frame(columns, rows) => Frame(RenamedLabels(columns, table), rows)
    case TwoLevelFrame(columns, subColumns, rows) =>
      TwoLevelFrame(RenamedLabels(columns, table), RenamedLabels(subColumns, table), rows)
  }

  /** A parameter translated with a country's table: a text has its keys replaced, a table its columns renamed. */
  function Translated(v: Param, table: seq<(string, string)>): Param
  {
    match v
    case Str(s) => Str(ReplaceEach(s, table))
    case Df(f) => Df(Renamed(f, table))
  }

  /**
   * `translate_param_for_country`: a text translated by replacement, a
   * table by renaming its columns; a country without a table raises
   * KeyError.
   */
  method TranslateValue(v: Param, country: string, translations: map<string, seq<(string, string)>>)
    returns (r: Result<Param>)
    ensures country !in translations ==> r == Err("KeyError: " + country)
    ensures country in translations ==> r == Ok(Translated(v, translations[country]))
  {
    match v {
      case Str(s) =>
        var t := TranslateParam(s, country, translations);
        if t.Err? {
          return Err(t.error);
        }
        return Ok(Str(t.value));
      case Df(f) =>
        if country !in translations {
          return Err("KeyError: " + country);
        }
        return Ok(Df(Renamed(f, translations[country])));
    }
  }

  /**
   * Translation keeps the kind of a parameter; a table keeps its rows, its
   * header's levels and its number of columns, so it is empty after exactly
   * when before, and a column without a key keeps its name.
   */
  lemma TranslatedShape(v: Param, table: seq<(string, string)>)
    ensures Translated(v, table).Str? <==> v.Str?
    ensures v.Df? ==> (Translated(v, table).frame.rows == v.frame.rows &&
                       |Translated(v, table).frame.columns| == |v.frame.columns| &&
                       (Translated(v, table).frame.Empty() <==> v.frame.Empty()))
    ensures v.Df? && v.frame.TwoLevelFrame? ==>
              Translated(v, table).frame.TwoLevelFrame?
              && |Translated(v, table).frame.subColumns| == |v.frame.subColumns|
    ensures v.Df? ==> forall k :: 0 <= k < |v.frame.columns| ==>
                       (forall j :: 0 <= j < |table| ==> table[j].0 != v.frame.columns[k]) ==>
                       Translated(v, table).frame.columns[k] == v.frame.columns[k]
  {
  }

  // ---------------------------------------------------------------------
  // `format_message`
  // ---------------------------------------------------------------------

  /** The number of decimal digits `s` starts with. */
  function DigitRun(s: string): (n: nat)
    ensures n <= |s| && AllDigits(s[..n]) && (n == |s| || !IsDigit(s[n]))
    decreases |s|
  {
    if |s| > 0 && IsDigit(s[0]) then
      var n := 1 + DigitRun(s[1..]);
      assert forall k :: 1 <= k < n ==> s[..n][k] == s[1..][..n - 1][k - 1];
      n
    else 0
  }

  /** `n` newline characters. */
  function Newlines(n: nat): (r: string)
    ensures |r| == n && forall k :: 0 <= k < n ==> r[k] == '\n'
  {
    seq(n, _ => '\n')
  }

  /** Whether a `|N|` marker (a bar, one or more digits, a bar) starts `s`. */
  predicate MarkerAtHead(s: string)
  {
    |s| > 0 && s[0] == '|' &&
    var n := DigitRun(s[1..]);
    n > 0 && n + 1 < |s| && s[n + 1] == '|'
  }

  /**
   * `re.sub(r'\|(\d+)\|', ...)`: scanning left to right, every `|N|` marker
   * becomes N newlines and the scan resumes after its closing bar.
   */
  function ExpandMarkers(s: string): string
    decreases |s|
  {
    if |s| == 0 then ""
    else if MarkerAtHead(s) then
      var n := DigitRun(s[1..]);
      assert s[1..][..n] == s[1..n + 1];
      Newlines(DigitsValue(s[1..n + 1])) + ExpandMarkers(s[n + 2..])
    else [s[0]] + ExpandMarkers(s[1..])
  }

  /** `format_message`: newlines removed first, then the markers expanded. */
  function FormatMessage(message: string): string
  {
    ExpandMarkers(ReplaceAll(message, "\n", ""))
  }

  /** A text in which no bar is followed by a digit has no marker and is kept as it is. */
  lemma {:induction false} NoMarkerUnchanged(s: string)
    requires forall k :: 0 <= k < |s| - 1 && s[k] == '|' ==> !IsDigit(s[k + 1])
    ensures ExpandMarkers(s) == s
    decreases |s|
  {
    if |s| > 0 {
      assert !MarkerAtHead(s) by {
        if |s| > 1 && s[0] == '|' {
          assert s[1..][0] == s[1];
        }
      }
      forall k | 0 <= k < |s[1..]| - 1 && s[1..][k] == '|'
        ensures !IsDigit(s[1..][k + 1])
      {
        assert s[1..][k] == s[k + 1] && s[1..][k + 1] == s[k + 2];
      }
      NoMarkerUnchanged(s[1..]);
      assert [s[0]] + s[1..] == s;
    }
  }

  /** A marker is replaced by as many newlines as its digits say. */
  lemma ExpandMarker(digits: string, rest: string)
    requires |digits| > 0 && AllDigits(digits)
    ensures ExpandMarkers("|" + digits + "|" + rest) == Newlines(DigitsValue(digits)) + ExpandMarkers(rest)
  {
    var s := "|" + digits + "|" + rest;
    DigitRunOf(digits, "|" + rest);
    assert s[1..] == digits + ("|" + rest);
    assert s[1..|digits| + 1] == digits;
    assert s[|digits| + 1] == '|';
    assert s[|digits| + 2..] == rest;
  }

  /** The digit run of digits followed by a non-digit is those digits. */
  lemma {:induction false} DigitRunOf(digits: string, rest: string)
    requires AllDigits(digits) && (|rest| == 0 || !IsDigit(rest[0]))
    ensures DigitRun(digits + rest) == |digits|
    decreases |digits|
  {
    if |digits| > 0 {
      assert (digits + rest)[1..] == digits[1..] + rest;
      DigitRunOf(digits[1..], rest);
    }
  }

  /** A text before which no bar stands is copied as it is, and the expansion goes on after it. */
  lemma {:induction false} ExpandAfterPlain(a: string, b: string)
    requires '|' !in a
    ensures ExpandMarkers(a + b) == a + ExpandMarkers(b)
    decreases |a|
  {
    if |a| > 0 {
      assert a[0] in a;
      assert (a + b)[0] == a[0] && (a + b)[1..] == a[1..] + b;
      ExpandAfterPlain(a[1..], b);
      calc {
        ExpandMarkers(a + b);
        [a[0]] + ExpandMarkers(a[1..] + b);
        [a[0]] + (a[1..] + ExpandMarkers(b));
        { assert a == [a[0]] + a[1..]; }
        a + ExpandMarkers(b);
      }
    } else {
      assert a + b == b;
    }
  }

  /**
   * A marker written at the end of a line stands for its newlines alone:
   * the line break after it is removed first, as in "Line1|2|", a newline,
   * "Line2" reading "Line1", two newlines, "Line2".
   */
  lemma MarkerBeforeLineBreak(a: string, digits: string, b: string)
    requires '|' !in a && '\n' !in a && '\n' !in b
    requires forall k :: 0 <= k < |b| - 1 && b[k] == '|' ==> !IsDigit(b[k + 1])
    requires |digits| > 0 && AllDigits(digits)
    ensures FormatMessage(a + ("|" + digits + "|") + "\n" + b) == a + Newlines(DigitsValue(digits)) + b
  {
    var marker := "|" + digits + "|";
    assert '\n' !in marker by {
      assert forall k :: 0 <= k < |digits| ==> IsDigit(digits[k]);
    }
    LineBreakRemoved(a + marker, b);
    MarkerBetween(a, digits, b);
  }

  /** A marker between plain texts is replaced by its newlines and nothing else changes. */
  lemma MarkerBetween(a: string, digits: string, b: string)
    requires '|' !in a
    requires forall k :: 0 <= k < |b| - 1 && b[k] == '|' ==> !IsDigit(b[k + 1])
    requires |digits| > 0 && AllDigits(digits)
    ensures ExpandMarkers(a + ("|" + digits + "|") + b) == a + Newlines(DigitsValue(digits)) + b
  {
    var marker := "|" + digits + "|";
    assert (a + marker) + b == a + (marker + b);
    ExpandAfterPlain(a, marker + b);
    ExpandMarker(digits, b);
    NoMarkerUnchanged(b);
  }

  /** Removing the newlines of two lines joined by one newline leaves the lines run together. */
  lemma LineBreakRemoved(first: string, b: string)
    requires '\n' !in first && '\n' !in b
    ensures ReplaceAll(first + "\n" + b, "\n", "") == first + b
  {
    ReplaceSeparator([first, b], '\n', "");
    assert Join([first, b], "\n") == first + "\n" + b;
    assert Join([first, b], "") == first + "" + b;
    assert first + "" + b == first + b;
  }

  /** The marker example with its two lines as parameters, so that the texts are not evaluated. */
  lemma FormatMessageExample(line1: string, line2: string)
    requires line1 == "Line1" && line2 == "Line2"
    ensures FormatMessage(line1 + "|2|" + "\n" + line2) == line1 + "\n\n" + line2
  {
    assert "|2|" == "|" + "2" + "|";
    assert '|' !in line1 && '\n' !in line1 && '\n' !in line2 && '|' !in line2;
    assert AllDigits("2") && DigitsValue("2") == 2;
    MarkerBeforeLineBreak(line1, "2", line2);
    assert Newlines(2) == "\n\n";
  }

  /** A text without newlines in which no bar is followed by a digit is posted as it is. */
  lemma NoMarkerFormatted(s: string)
    requires '\n' !in s
    requires forall k :: 0 <= k < |s| - 1 && s[k] == '|' ==> !IsDigit(s[k + 1])
    ensures FormatMessage(s) == s
  {
    AbsentFirstChar(s, "\n");
    ReplaceAbsent(s, "\n", "");
    NoMarkerUnchanged(s);
  }

  /** "Hello |X| world": a bar not followed by digits is not a marker. */
  lemma FormatMessageNonDigitExample()
    ensures FormatMessage("Hello |X| world") == "Hello |X| world"
  {
    NoMarkerFormatted("Hello |X| world");
  }

  // ---------------------------------------------------------------------
  // `replace_conditionally_message`
  // ---------------------------------------------------------------------

  /**
   * The length of the shortest block that starts `s`: the begin tag, then
   * anything (newlines included), then the first end tag after it, as the
   * lazy pattern `begin.*?end` with DOTALL matches.
   */
  function BlockAtHead(s: string, begin: string, end: string): (r: Option<nat>)
    ensures r.Some? ==> StartsWith(s, begin) && |begin| + |end| <= r.value <= |s| && OccursAt(s, end, r.value - |end|)
  {
    if !StartsWith(s, begin) then None
    else match IndexFrom(s, end, |begin|)
      case None => None
      case Some(j) =>
        Some(j + |end|)
  }

  /** `re.sub(begin.*?end, '', s, flags=re.DOTALL)`: every block, found left to right, removed with its tags. */
  function RemoveBlocks(s: string, begin: string, end: string): string
    decreases |s|
  {
    if |s| == 0 then ""
    else match BlockAtHead(s, begin, end)
      case Some(n) =>
        if n > 0 then RemoveBlocks(s[n..], begin, end) else [s[0]] + RemoveBlocks(s[1..], begin, end)
      case None => [s[0]] + RemoveBlocks(s[1..], begin, end)
  }

  /**
   * `replace_conditionally_message`: when the condition holds only the tags
   * are removed (every begin tag, then every end tag); otherwise every
   * block is removed with its tags.
   */
  function ReplaceConditionally(text: string, begin: string, end: string, condition: bool): string
  {
    if condition then ReplaceAll(ReplaceAll(text, begin, ""), end, "")
    else RemoveBlocks(text, begin, end)
  }

  /** A prefix without the begin tag's first character is kept, and the blocks after it are removed. */
  lemma {:induction false} RemoveBlocksAfterPlain(a: string, t: string, begin: string, end: string)
    requires |begin| > 0 && begin[0] !in a
    ensures RemoveBlocks(a + t, begin, end) == a + RemoveBlocks(t, begin, end)
    decreases |a|
  {
    if |a| > 0 {
      var s := a + t;
      assert s[0] == a[0] && a[0] in a;
      assert !StartsWith(s, begin) by {
        if |begin| <= |s| {
          assert s[..|begin|][0] == s[0];
        }
      }
      assert s[1..] == a[1..] + t;
      RemoveBlocksAfterPlain(a[1..], t, begin, end);
      assert a == [a[0]] + a[1..];
    } else {
      assert a + t == t;
    }
  }

  /** A text in which the begin tag does not occur has no block to remove. */
  lemma {:induction false} RemoveBlocksAbsent(s: string, begin: string, end: string)
    requires |begin| > 0 && !Contains(s, begin)
    ensures RemoveBlocks(s, begin, end) == s
    decreases |s|
  {
    if |s| > 0 {
      assert !OccursAt(s, begin, 0);
      assert !Contains(s[1..], begin) by {
        forall i: nat | i <= |s[1..]| && OccursAt(s[1..], begin, i)
          ensures false
        {
          assert s[1..][i..i + |begin|] == s[i + 1..i + 1 + |begin|];
          assert OccursAt(s, begin, i + 1);
        }
      }
      RemoveBlocksAbsent(s[1..], begin, end);
      assert [s[0]] + s[1..] == s;
    }
  }

  /** Text without either tag is left as it is, whatever the condition. */
  lemma TaglessUnchanged(text: string, begin: string, end: string, condition: bool)
    requires |begin| > 0 && |end| > 0 && !Contains(text, begin) && !Contains(text, end)
    ensures ReplaceConditionally(text, begin, end, condition) == text
  {
    if condition {
      ReplaceAbsent(text, begin, "");
      ReplaceAbsent(text, end, "");
    } else {
      RemoveBlocksAbsent(text, begin, end);
    }
  }

  /** The block at the head of `begin + inner + end + rest` ends at the first end tag. */
  lemma BlockEndsAtFirstEnd(begin: string, inner: string, end: string, rest: string)
    requires |end| > 0 && end[0] !in inner
    ensures BlockAtHead(begin + inner + end + rest, begin, end) == Some(|begin| + |inner| + |end|)
  {
    var s := begin + inner + end + rest;
    var j := |begin| + |inner|;
    assert s[..|begin|] == begin;
    assert s[j..j + |end|] == end;
    forall i: nat | |begin| <= i < j
      ensures !OccursAt(s, end, i)
    {
      assert s[i] == inner[i - |begin|];
      if i + |end| <= |s| {
        assert s[i..i + |end|][0] == s[i];
      }
    }
    assert OccursAt(s, end, j);
    var r := IndexFrom(s, end, |begin|);
    assert r.Some? && r.value >= j;
  }

  /**
   * With the condition false, a block of the begin tag, a text without the
   * end tag's first character and the end tag is removed, and the removal
   * goes on after it.
   */
  lemma DropEnclosed(a: string, inner: string, c: string, begin: string, end: string)
    requires |begin| > 0 && |end| > 0 && begin[0] !in a && end[0] !in inner
    ensures ReplaceConditionally(a + (begin + inner + end + c), begin, end, false)
         == a + ReplaceConditionally(c, begin, end, false)
  {
    var block := begin + inner + end;
    RemoveBlocksAfterPlain(a, block + c, begin, end);
    BlockEndsAtFirstEnd(begin, inner, end, c);
    assert (block + c)[|block|..] == c;
  }

  /**
   * With the condition true, a text holding the begin tag once and then the
   * end tag once keeps what the tags enclosed.
   */
  lemma KeepEnclosed(a: string, inner: string, c: string, begin: string, end: string)
    requires |begin| > 0 && |end| > 0
    requires begin[0] !in a && begin[0] !in inner && !Contains(end + c, begin)
    requires end[0] !in a && end[0] !in inner && !Contains(c, end)
    ensures ReplaceConditionally(a + (begin + inner + end + c), begin, end, true) == a + inner + c
  {
    var tail := end + c;
    assert begin + inner + end + c == begin + (inner + tail);
    ReplaceAfterPlain(a, begin + (inner + tail), begin, "");
    ReplaceAtHead(begin, inner + tail, "");
    ReplaceAfterPlain(inner, tail, begin, "");
    ReplaceAbsent(tail, begin, "");
    assert ReplaceAll(a + (begin + inner + end + c), begin, "") == (a + inner) + tail by {
      assert a + ("" + (inner + tail)) == (a + inner) + tail;
    }
    assert end[0] !in a + inner;
    ReplaceAfterPlain(a + inner, tail, end, "");
    ReplaceAtHead(end, c, "");
    ReplaceAbsent(c, end, "");
    assert (a + inner) + ("" + c) == a + inner + c;
  }

  /**
   * "Hello [START]World[END]!" reads "Hello World!" when the condition
   * holds and "Hello !" when it does not.
   */
  lemma ReplaceConditionallyExample(a: string, inner: string, c: string, begin: string, end: string)
    requires a == "Hello " && inner == "World" && c == "!" && begin == "[START]" && end == "[END]"
    ensures ReplaceConditionally(a + (begin + inner + end + c), begin, end, true) == a + inner + c
    ensures ReplaceConditionally(a + (begin + inner + end + c), begin, end, false) == a + c
  {
    assert '[' !in a && '[' !in inner && '[' !in c;
    NotContained(end + c, begin);
    NotContained(c, end);
    KeepEnclosed(a, inner, c, begin, end);
    DropEnclosed(a, inner, c, begin, end);
    AbsentFirstChar(c, begin);
    RemoveBlocksAbsent(c, begin, end);
  }

  // ---------------------------------------------------------------------
  // `define_filename`
  // ---------------------------------------------------------------------

  /** A character of the Combining Diacritical Marks block (U+0300 to U+036F), general category Mn. */
  predicate IsCombiningMark(c: char)
  {
    '\U{300}' <= c <= '\U{36f}'
  }

  /** A Latin-1 letter whose canonical decomposition is a base letter and a combining mark. */
  predicate IsDecomposable(c: char)
  {
    BaseLetter(c) != c
  }

  /** The base letter of a Latin-1 letter's canonical decomposition (the letter itself when it has none). */
  function BaseLetter(c: char): char
  {
    if 'À' <= c <= 'Å' then 'A'
    else if c == 'Ç' then 'C'
    else if 'È' <= c <= 'Ë' then 'E'
    else if 'Ì' <= c <= 'Ï' then 'I'
    else if c == 'Ñ' then 'N'
    else if 'Ò' <= c <= 'Ö' then 'O'
    else if 'Ù' <= c <= 'Ü' then 'U'
    else if c == 'Ý' then 'Y'
    else if 'à' <= c <= 'å' then 'a'
    else if c == 'ç' then 'c'
    else if 'è' <= c <= 'ë' then 'e'
    else if 'ì' <= c <= 'ï' then 'i'
    else if c == 'ñ' then 'n'
    else if 'ò' <= c <= 'ö' then 'o'
    else if 'ù' <= c <= 'ü' then 'u'
    else if c == 'ý' || c == 'ÿ' then 'y'
    else c
  }

  /**
   * NFD normalisation followed by dropping the characters of category Mn:
   * an accented letter loses its accent and a combining mark disappears.
   */
  function StripMarks(s: string): (r: string)
    ensures |r| <= |s|
    ensures forall k :: 0 <= k < |r| ==> !IsCombiningMark(r[k]) && !IsDecomposable(r[k])
    decreases |s|
  {
    if |s| == 0 then ""
    else if IsCombiningMark(s[0]) then StripMarks(s[1..])
    else [BaseLetter(s[0])] + StripMarks(s[1..])
  }

  /** `normalize_string`: accents removed, lower-cased, spaces removed. */
  function Normalize(s: string): string
  {
    ReplaceAll(Lower(StripMarks(s)), " ", "")
  }

  /** The row of `sr_gameday_output_init` the name is read from, by column name. */
  type GamedayRow = map<string, string>

  /**
   * `define_filename`: `input_SEASON_GAMEDAY[_country].extension`,
   * normalised; a row without one of the two columns raises KeyError.
   */
  function FileName(inputType: string, row: GamedayRow, extension: string, country: Option<string>): Result<string>
  {
    if "SEASON_ID" !in row then Err("KeyError: SEASON_ID")
    else if "GAMEDAY" !in row then Err("KeyError: GAMEDAY")
    else
      var countryPart := if country.Some? then "_" + country.value else "";
      Ok(Normalize(inputType + "_" + row["SEASON_ID"] + "_" + row["GAMEDAY"] + countryPart + "." + extension))
  }

  /** The characters left after removing one character are characters of the text, and not that one. */
  lemma {:induction false} RemoveCharKeeps(s: string, c: char, x: char)
    requires x in ReplaceAll(s, [c], "")
    ensures x in s && x != c
    decreases |s|
  {
    if |s| >= 1 {
      if s[..1] == [c] {
        assert s[1..] == s[|[c]|..];
        RemoveCharKeeps(s[1..], c, x);
      } else if x != s[0] {
        RemoveCharKeeps(s[1..], c, x);
      }
    }
  }

  /** Removing a one-character pattern distributes over concatenation. */
  lemma {:induction false} RemoveCharAppend(a: string, b: string, c: char)
    ensures ReplaceAll(a + b, [c], "") == ReplaceAll(a, [c], "") + ReplaceAll(b, [c], "")
    decreases |a|
  {
    if |a| == 0 {
      assert a + b == b;
    } else {
      assert (a + b)[..1] == a[..1] && (a + b)[1..] == a[1..] + b;
      RemoveCharAppend(a[1..], b, c);
      if a[..1] == [c] {
        assert a[1..] == a[|[c]|..];
        assert (a + b)[1..] == (a + b)[|[c]|..];
      }
    }
  }

  lemma {:induction false} StripMarksAppend(a: string, b: string)
    ensures StripMarks(a + b) == StripMarks(a) + StripMarks(b)
    decreases |a|
  {
    if |a| == 0 {
      assert a + b == b;
    } else {
      assert (a + b)[0] == a[0] && (a + b)[1..] == a[1..] + b;
      StripMarksAppend(a[1..], b);
    }
  }

  /** Normalisation works character by character, so it distributes over concatenation. */
  lemma NormalizeAppend(a: string, b: string)
    ensures Normalize(a + b) == Normalize(a) + Normalize(b)
  {
    StripMarksAppend(a, b);
    assert Lower(StripMarks(a) + StripMarks(b)) == Lower(StripMarks(a)) + Lower(StripMarks(b));
    RemoveCharAppend(Lower(StripMarks(a)), Lower(StripMarks(b)), ' ');
  }

  /** A normalised name has no space, no capital, no accented letter and no combining mark. */
  lemma NormalizedName(s: string)
    ensures forall x :: x in Normalize(s) ==> x != ' ' && !IsUpper(x) && !IsCombiningMark(x) && !IsDecomposable(x)
  {
    var stripped := StripMarks(s);
    var lowered := Lower(stripped);
    forall x | x in Normalize(s)
      ensures x != ' ' && !IsUpper(x) && !IsCombiningMark(x) && !IsDecomposable(x)
    {
      RemoveCharKeeps(lowered, ' ', x);
      var k :| 0 <= k < |lowered| && lowered[k] == x;
      LowerKeepsPlain(stripped[k]);
    }
  }

  /** Lower-casing a letter without accent gives a letter without accent, and no mark. */
  lemma LowerKeepsPlain(c: char)
    requires !IsCombiningMark(c) && !IsDecomposable(c)
    ensures !IsUpper(LowerChar(c)) && !IsCombiningMark(LowerChar(c)) && !IsDecomposable(LowerChar(c))
  {
    if 'À' <= c <= 'Þ' && c != '×' {
      assert c == 'Æ' || c == 'Ð' || c == 'Ø' || c == 'Þ';
    }
  }

  /** Lower-case ASCII letters, digits, '_' and '.' are already normalised. */
  predicate IsAsciiNameChar(c: char)
  {
    ('a' <= c <= 'z') || ('0' <= c <= '9') || c == '_' || c == '.'
  }

  /** Whether every character of `s` is a lower-case ASCII letter, a digit, '_' or '.'. */
  predicate AsciiName(s: string)
  {
    forall k :: 0 <= k < |s| ==> IsAsciiNameChar(s[k])
  }

  /** A name of lower-case ASCII letters, digits, '_' and '.' is kept as it is. */
  lemma AsciiNamePlain(s: string)
    requires AsciiName(s)
    ensures Normalize(s) == s
  {
    NormalizePlain(s);
  }

  /** A name already without spaces, capitals and accents is kept as it is. */
  lemma {:induction false} NormalizePlain(s: string)
    requires forall k :: 0 <= k < |s| ==> s[k] != ' ' && !IsUpper(s[k]) && !IsCombiningMark(s[k]) && !IsDecomposable(s[k])
    ensures Normalize(s) == s
    decreases |s|
  {
    if |s| > 0 {
      assert forall k :: 0 <= k < |s[1..]| ==> s[1..][k] == s[k + 1];
      NormalizePlain(s[1..]);
      NormalizeAppend(s[..1], s[1..]);
      assert s[..1] + s[1..] == s;
      assert s[..1][1..] == [];
      assert StripMarks(s[..1]) == s[..1];
      assert Lower(s[..1]) == s[..1];
      assert ' ' !in s[..1];
      AbsentFirstChar(s[..1], " ");
      ReplaceAbsent(s[..1], " ", "");
    }
  }

  /** Normalising a normalised name changes nothing. */
  lemma NormalizeIdempotent(s: string)
    ensures Normalize(Normalize(s)) == Normalize(s)
  {
    var n := Normalize(s);
    NormalizedName(s);
    assert forall k :: 0 <= k < |n| ==> n[k] in n;
    NormalizePlain(n);
  }

  /** The name is made of the normalised parts, with the separators as they are. */
  lemma FileNameParts(inputType: string, row: GamedayRow, extension: string, country: Option<string>)
    requires "SEASON_ID" in row && "GAMEDAY" in row
    ensures FileName(inputType, row, extension, country)
         == Ok(Normalize(inputType) + "_" + Normalize(row["SEASON_ID"]) + "_" + Normalize(row["GAMEDAY"])
               + (if country.Some? then "_" + Normalize(country.value) else "") + "." + Normalize(extension))
  {
    var season, gameday := row["SEASON_ID"], row["GAMEDAY"];
    var countryPart := if country.Some? then "_" + country.value else "";
    var p1 := inputType + "_";
    var p2 := p1 + season;
    var p3 := p2 + "_";
    var p4 := p3 + gameday;
    var p5 := p4 + countryPart;
    var p6 := p5 + ".";
    NormalizePlain("_");
    NormalizePlain(".");
    NormalizeAppend(p6, extension);
    NormalizeAppend(p5, ".");
    NormalizeAppend(p4, countryPart);
    if country.Some? {
      NormalizeAppend("_", country.value);
    } else {
      NormalizePlain("");
    }
    NormalizeAppend(p3, gameday);
    NormalizeAppend(p2, "_");
    NormalizeAppend(p1, season);
    NormalizeAppend(inputType, "_");
  }

  /** A row without the season or the gameday column gives no name. */
  lemma FileNameMissingColumn(inputType: string, row: GamedayRow, extension: string, country: Option<string>)
    requires "SEASON_ID" !in row || "GAMEDAY" !in row
    ensures FileName(inputType, row, extension, country).Err?
  {
  }

  /**
   * Season "S1" and gameday "1ere journee" name the file
   * "forumoutput_s1_1erejournee.txt" when no country is given.
   */
  lemma FileNameExample(inputType: string, season: string, first: string, space: string, second: string, extension: string)
    requires inputType == "forumoutput" && season == "S1" && extension == "txt"
    requires first == "1ere" && space == " " && second == "journee"
    ensures FileName(inputType, map["SEASON_ID" := season, "GAMEDAY" := first + space + second], extension, None)
         == Ok(inputType + "_" + "s1" + "_" + (first + second) + "." + extension)
  {
    var row := map["SEASON_ID" := season, "GAMEDAY" := first + space + second];
    assert row["SEASON_ID"] == season && row["GAMEDAY"] == first + space + second;
    FileNameParts(inputType, row, extension, None);
    ExampleWordsPlain(inputType, extension);
    ExampleWordsPlain(first, second);
    AsciiNamePlain(inputType);
    AsciiNamePlain(extension);
    assert season == ['S'] + "1" && AsciiName("1");
    CapitalLowered('S', "1");
    assert [LowerChar('S')] + "1" == "s1";
    SpaceDropped(first, second);
    var prefix := inputType + "_" + "s1" + "_" + (first + second);
    assert prefix + "" == prefix;
  }

  lemma ExampleWordsPlain(a: string, b: string)
    requires (a == "forumoutput" && b == "txt") || (a == "1ere" && b == "journee")
    ensures AsciiName(a) && AsciiName(b)
  {
  }

  /** A capital ASCII letter before a plain name is lower-cased. */
  lemma CapitalLowered(upper: char, rest: string)
    requires 'A' <= upper <= 'Z' && AsciiName(rest)
    ensures Normalize([upper] + rest) == [LowerChar(upper)] + rest
  {
    NormalizeAppend([upper], rest);
    AsciiNamePlain(rest);
    assert StripMarks([upper]) == [upper];
    assert Lower([upper]) == [LowerChar(upper)];
    assert ' ' !in [LowerChar(upper)];
    AbsentFirstChar([LowerChar(upper)], " ");
    ReplaceAbsent([LowerChar(upper)], " ", "");
  }

  /** A space between two plain words is removed. */
  lemma SpaceDropped(first: string, second: string)
    requires AsciiName(first) && AsciiName(second)
    ensures Normalize(first + " " + second) == first + second
  {
    NormalizeAppend(first + " ", second);
    NormalizeAppend(first, " ");
    AsciiNamePlain(first);
    AsciiNamePlain(second);
    SpaceNormalized();
    assert first + "" == first;
  }

  lemma SpaceNormalized()
    ensures Normalize(" ") == ""
  {
    assert StripMarks(" ") == " ";
    assert Lower(" ") == " ";
    ReplaceWhole(" ", "");
  }

  /** An accented capital is written as its plain lower-case letter. */
  lemma AccentDropped()
    ensures Normalize("É") == "e"
  {
    assert StripMarks("É") == "E";
    assert Lower("E") == "e";
    NormalizePlain("e");
  }

  // ---------------------------------------------------------------------
  // `generate_output_message`: which messages are posted
  // ---------------------------------------------------------------------

  /**
   * The two flags `generate_output_message` sets before posting: the inited
   * message for an INIT run, the calculated one for a CALCULATE run or after
   * a deletion, and neither for a gameday without output rows.
   */
  method ChooseMessages(gamedayRows: nat, taskRun: string, isToDelete: int) returns (inited: bool, calculated: bool)
    ensures inited <==> gamedayRows > 0 && taskRun == TaskInit
    ensures calculated <==> gamedayRows > 0 && (taskRun == TaskCalculate || isToDelete == 1)
  {
    inited := false;
    calculated := false;
    if gamedayRows > 0 && taskRun == TaskInit {
      inited := true;
    }
    if gamedayRows > 0 && taskRun == TaskCalculate {
      calculated := true;
    }
    if gamedayRows > 0 {
      if isToDelete == 1 {
        calculated := true;
      }
    }
  }
}
