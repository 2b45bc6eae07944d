/**
 * Timestamps as pandas handles them: a calendar date and a time of day to
 * the millisecond, ordered field by field, bounded by the range a
 * nanosecond `pd.Timestamp` can hold; a table cell that may be null, text
 * or an already parsed timestamp; `pd.to_datetime` with and without
 * `errors='coerce'`; and the `%Y-%m-%d %H:%M:%S` rendering.
 */
module Timestamps {
  import opened Wrappers
  import opened Strings
  import opened Order

  datatype DateTime = DateTime(year: nat, month: nat, day: nat,
                               hour: nat, minute: nat, second: nat, milli: nat)

  function Fields(t: DateTime): seq<int>
  {
    [t.year, t.month, t.day, t.hour, t.minute, t.second, t.milli]
  }

  /** `a < b` on timestamps. */
  predicate Before(a: DateTime, b: DateTime)
  {
    IntsLess(Fields(a), Fields(b))
  }

  /** `a <= b` on timestamps. */
  predicate NotAfter(a: DateTime, b: DateTime)
  {
    a == b || Before(a, b)
  }

  lemma FieldsInjective(a: DateTime, b: DateTime)
    requires Fields(a) == Fields(b)
    ensures a == b
  {
    assert Fields(a)[0] == Fields(b)[0] && Fields(a)[1] == Fields(b)[1];
    assert Fields(a)[2] == Fields(b)[2] && Fields(a)[3] == Fields(b)[3];
    assert Fields(a)[4] == Fields(b)[4] && Fields(a)[5] == Fields(b)[5];
    assert Fields(a)[6] == Fields(b)[6];
  }

  lemma BeforeIrreflexive(a: DateTime)
    ensures !Before(a, a)
  {
    IntsLessIrreflexive(Fields(a));
  }

  lemma BeforeTransitive(a: DateTime, b: DateTime, c: DateTime)
    requires Before(a, b) && Before(b, c)
    ensures Before(a, c)
  {
    IntsLessTransitive(Fields(a), Fields(b), Fields(c));
  }

  lemma NotAfterTransitive(a: DateTime, b: DateTime, c: DateTime)
    requires NotAfter(a, b) && NotAfter(b, c)
    ensures NotAfter(a, c)
  {
    if a != b && b != c {
      BeforeTransitive(a, b, c);
    }
  }

  lemma BeforeTotal(a: DateTime, b: DateTime)
    ensures a == b || Before(a, b) || Before(b, a)
  {
    IntsLessTotal(Fields(a), Fields(b));
    if Fields(a) == Fields(b) {
      FieldsInjective(a, b);
    }
  }

  /** `a < b` and `b <= a` exclude each other. */
  lemma BeforeNotAfter(a: DateTime, b: DateTime)
    ensures Before(a, b) <==> !NotAfter(b, a)
  {
    BeforeTotal(a, b);
    BeforeIrreflexive(a);
    if Before(a, b) {
      IntsLessAsymmetric(Fields(a), Fields(b));
    }
  }

  predicate IsLeapYear(y: nat)
  {
    (y % 4 == 0 && y % 100 != 0) || y % 400 == 0
  }

  function DaysInMonth(y: nat, m: nat): nat
  {
    if m == 2 then (if IsLeapYear(y) then 29 else 28)
    else if m == 4 || m == 6 || m == 9 || m == 11 then 30
    else 31
  }

  /** The earliest and latest timestamps pandas represents, to the millisecond. */
  const Earliest := DateTime(1677, 9, 21, 0, 12, 43, 146)
  const Latest := DateTime(2262, 4, 11, 23, 47, 16, 854)

  /** A real calendar date and time of day inside pandas' range. */
  predicate Valid(t: DateTime)
  {
    1 <= t.month <= 12 && 1 <= t.day <= DaysInMonth(t.year, t.month)
    && t.hour < 24 && t.minute < 60 && t.second < 60 && t.milli < 1000
    && NotAfter(Earliest, t) && NotAfter(t, Latest)
  }

  /** The same instant with its sub-second part dropped. */
  function WholeSecond(t: DateTime): DateTime
  {
    t.(milli := 0)
  }

  /** A value of a timestamp column before `pd.to_datetime`: null, text, or parsed. */
  datatype Cell = Null | Text(text: string) | Stamp(at: DateTime)

  /** Texts pandas reads as a missing timestamp. */
  const NullTexts: set<string> := {"", "NaT", "nat", "NAT", "nan", "NaN", "NAN"}

  /** The digits of `s[i..i + w]`, when they are all digits. */
  function Field(s: string, i: nat, w: nat): Option<nat>
  {
    if i + w <= |s| && AllDigits(s[i..i + w]) then Some(DigitsValue(s[i..i + w])) else None
  }

  /** Milliseconds of a fraction of a second written with up to nine digits; digits past the third are dropped. */
  function FractionMillis(f: string): nat
    requires AllDigits(f)
  {
    if |f| >= 3 then DigitsValue(f[..3])
    else if |f| == 2 then DigitsValue(f) * 10
    else if |f| == 1 then DigitsValue(f) * 100
    else 0
  }

  /** Separators of `YYYY-MM-DD`, `YYYY-MM-DD HH:MM:SS` and `YYYY-MM-DD HH:MM:SS.fffffffff`. */
  predicate Layout(s: string)
  {
    (|s| == 10 || |s| == 19 || 21 <= |s| <= 29)
    && s[4] == '-' && s[7] == '-'
    && (|s| > 10 ==> (s[10] == ' ' || s[10] == 'T') && s[13] == ':' && s[16] == ':')
    && (|s| > 19 ==> s[19] == '.' && AllDigits(s[20..]))
  }

  /**
   * The ISO 8601 layouts of `Layout` read as `pd.to_datetime` reads them; any
   * other text gives `None`, including texts pandas would still read (a time
   * without seconds, a "Z" or "+00:00" offset, a slashed date).
   */
  function Parse(s: string): (r: Option<DateTime>)
    ensures r.Some? ==> Valid(r.value)
  {
    if !Layout(s) then None
    else
      var year := Field(s, 0, 4);
      var month := Field(s, 5, 2);
      var day := Field(s, 8, 2);
      var hour := if |s| > 10 then Field(s, 11, 2) else Some(0);
      var minute := if |s| > 10 then Field(s, 14, 2) else Some(0);
      var second := if |s| > 10 then Field(s, 17, 2) else Some(0);
      var milli := if |s| > 19 then FractionMillis(s[20..]) else 0;
      if year.Some? && month.Some? && day.Some? && hour.Some? && minute.Some? && second.Some? then
        var t := DateTime(year.value, month.value, day.value, hour.value, minute.value, second.value, milli);
        if Valid(t) then Some(t) else None
      else None
  }

  /** `pd.to_datetime(cell)`: a missing value becomes null, unreadable text raises. */
  function ToDatetime(c: Cell): (r: Result<Option<DateTime>>)
    ensures c.Null? ==> r == Ok(None)
    ensures c.Stamp? ==> r == Ok(Some(c.at))
    ensures c.Text? && c.text !in NullTexts ==> (r.Ok? <==> Parse(c.text).Some?)
  {
    match c
    case Null => Ok(None)
    case Stamp(t) => Ok(Some(t))
    case Text(s) =>
      if s in NullTexts then Ok(None)
      else match Parse(s)
        case Some(t) => Ok(Some(t))
        case None => Err("Unknown datetime string format, unable to parse: " + s)
  }

  /** `pd.to_datetime(cell, errors='coerce')`: what would raise becomes null instead. */
  function ToDatetimeCoerce(c: Cell): (r: Option<DateTime>)
    ensures ToDatetime(c).Ok? ==> r == ToDatetime(c).value
    ensures ToDatetime(c).Err? ==> r.None?
  {
    match ToDatetime(c)
    case Ok(t) => t
    case Err(_) => None
  }

  /** `n` written in decimal, left-padded with zeros to at least `w` digits, as strftime does. */
  function PadNat(n: nat, w: nat): (r: string)
    ensures AllDigits(r) && |r| >= w
  {
    var d := NatToString(n);
    if |d| >= w then d else Zeros(w - |d|) + d
  }

  function Zeros(k: nat): (r: string)
    ensures |r| == k && AllDigits(r)
    ensures forall i :: 0 <= i < k ==> r[i] == '0'
  {
    if k == 0 then "" else "0" + Zeros(k - 1)
  }

  /** `YYYY-MM-DD HH:MM:SS` from the six fields, followed by `tail`. */
  function Layout6(y: string, mo: string, d: string, h: string, mi: string, se: string, tail: string): string
  {
    y + ("-" + (mo + ("-" + (d + (" " + (h + (":" + (mi + (":" + (se + tail))))))))))
  }

  /** `t.strftime("%Y-%m-%d %H:%M:%S")` followed by `tail`. */
  function RenderWith(t: DateTime, tail: string): string
  {
    Layout6(PadNat(t.year, 4), PadNat(t.month, 2), PadNat(t.day, 2),
            PadNat(t.hour, 2), PadNat(t.minute, 2), PadNat(t.second, 2), tail)
  }

  /** `t.strftime("%Y-%m-%d %H:%M:%S")`. */
  function Render(t: DateTime): string
  {
    RenderWith(t, "")
  }

  /** The next-run time's rendering: `strftime("%Y-%m-%d %H:%M:%S.000")`. */
  function RenderNextRun(t: DateTime): string
  {
    RenderWith(t, ".000")
  }

  function Pow10(k: nat): nat
  {
    if k == 0 then 1 else 10 * Pow10(k - 1)
  }

  lemma {:induction false} NatToStringWidth(n: nat, w: nat)
    requires w >= 1 && n < Pow10(w)
    ensures |NatToString(n)| <= w
    decreases w
  {
    if n >= 10 {
      assert w >= 2;
      NatToStringWidth(n / 10, w - 1);
    }
  }

  lemma {:induction false} LeadingZeros(k: nat, d: string)
    requires AllDigits(d)
    ensures DigitsValue(Zeros(k) + d) == DigitsValue(d)
    decreases |d|
  {
    if |d| == 0 {
      assert Zeros(k) + d == Zeros(k);
      ZerosValue(k);
    } else {
      var s := Zeros(k) + d;
      assert s[..|s| - 1] == Zeros(k) + d[..|d| - 1];
      LeadingZeros(k, d[..|d| - 1]);
    }
  }

  lemma {:induction false} ZerosValue(k: nat)
    ensures DigitsValue(Zeros(k)) == 0
    decreases k
  {
    if k > 0 {
      var z := Zeros(k);
      assert z[..k - 1] == Zeros(k - 1);
      ZerosValue(k - 1);
    }
  }

  /** A number that fits in `w` digits is written with exactly `w` digits and reads back. */
  lemma PadNatReads(n: nat, w: nat)
    requires w >= 1 && n < Pow10(w)
    ensures |PadNat(n, w)| == w && DigitsValue(PadNat(n, w)) == n
  {
    NatToStringWidth(n, w);
    DigitsOfNat(n);
    var d := NatToString(n);
    if |d| < w {
      LeadingZeros(w - |d|, d);
    }
  }

  /** A field whose text is known reads as that text's value. */
  lemma FieldIs(s: string, i: nat, x: string)
    requires i + |x| <= |s| && s[i..i + |x|] == x && AllDigits(x)
    ensures Field(s, i, |x|) == Some(DigitsValue(x))
  {
  }

  /** `HH:MM:SS` followed by `tail`: where each field sits. */
  lemma TimeFields(h: string, mi: string, se: string, tail: string)
    requires |h| == 2 && |mi| == 2 && |se| == 2
    ensures var r := h + (":" + (mi + (":" + (se + tail))));
            |r| == 8 + |tail| && r[2] == ':' && r[5] == ':' && r[8..] == tail
            && r[0..2] == h && r[3..5] == mi && r[6..8] == se
  {
    var r := h + (":" + (mi + (":" + (se + tail))));
    assert r[0..2] == h;
    assert r[3..5] == mi;
    assert r[6..8] == se;
    assert r[8..] == tail;
  }

  /** `YYYY-MM-DD` followed by `rest`: where each field sits. */
  lemma DateFields(y: string, mo: string, d: string, rest: string)
    requires |y| == 4 && |mo| == 2 && |d| == 2
    ensures var r := y + ("-" + (mo + ("-" + (d + rest))));
            |r| == 10 + |rest| && r[4] == '-' && r[7] == '-' && r[10..] == rest
            && r[0..4] == y && r[5..7] == mo && r[8..10] == d
  {
    var r := y + ("-" + (mo + ("-" + (d + rest))));
    assert r[0..4] == y;
    assert r[5..7] == mo;
    assert r[8..10] == d;
    assert r[10..] == rest;
  }

  /** `YYYY-MM-DD HH:MM:SS` followed by `tail`: where each field sits. */
  lemma DigitFields(y: string, mo: string, d: string, h: string, mi: string, se: string, tail: string)
    requires |y| == 4 && |mo| == 2 && |d| == 2 && |h| == 2 && |mi| == 2 && |se| == 2
    ensures var s := Layout6(y, mo, d, h, mi, se, tail);
            |s| == 19 + |tail| && s[4] == '-' && s[7] == '-' && s[10] == ' ' && s[13] == ':' && s[16] == ':'
            && s[19..] == tail
            && s[0..4] == y && s[5..7] == mo && s[8..10] == d && s[11..13] == h && s[14..16] == mi && s[17..19] == se
  {
    var time := h + (":" + (mi + (":" + (se + tail))));
    var rest := " " + time;
    var s := Layout6(y, mo, d, h, mi, se, tail);
    assert s == y + ("-" + (mo + ("-" + (d + rest))));
    TimeFields(h, mi, se, tail);
    DateFields(y, mo, d, rest);
    assert s[11..] == time;
    assert s[11..13] == time[0..2];
    assert s[14..16] == time[3..5];
    assert s[17..19] == time[6..8];
    assert s[19..] == time[8..];
  }

  /** Two decimal digits of `n`. */
  function Digits2(n: nat): string
    requires n < 100
  {
    [DigitChar(n / 10), DigitChar(n % 10)]
  }

  /** Four decimal digits of `n`. */
  function Digits4(n: nat): string
    requires n < 10000
  {
    Digits2(n / 100) + Digits2(n % 100)
  }

  lemma PadTwo(n: nat)
    requires n < 100
    ensures PadNat(n, 2) == Digits2(n)
  {
    if n >= 10 {
      assert NatToString(n / 10) == [DigitChar(n / 10)];
    } else {
      assert Zeros(1) == "0";
    }
  }

  lemma PadFour(n: nat)
    requires 1000 <= n < 10000
    ensures PadNat(n, 4) == Digits4(n)
  {
    var a := n / 1000;
    var b := n / 100;
    var c := n / 10;
    assert b / 10 == a && c / 10 == b;
    assert NatToString(a) == [DigitChar(a)];
    assert NatToString(b) == [DigitChar(a), DigitChar(b % 10)];
    assert NatToString(c) == [DigitChar(a), DigitChar(b % 10), DigitChar(c % 10)];
    assert (n / 100) / 10 == a && (n / 100) % 10 == b % 10 && (n % 100) / 10 == c % 10;
  }

  /** The rendering of a four-digit year, digit by digit. */
  lemma RenderDigits(t: DateTime)
    requires 1000 <= t.year < 10000 && t.month < 100 && t.day < 100
    requires t.hour < 100 && t.minute < 100 && t.second < 100
    ensures Render(t) == Layout6(Digits4(t.year), Digits2(t.month), Digits2(t.day),
                                 Digits2(t.hour), Digits2(t.minute), Digits2(t.second), "")
    ensures RenderNextRun(t) == Layout6(Digits4(t.year), Digits2(t.month), Digits2(t.day),
                                        Digits2(t.hour), Digits2(t.minute), Digits2(t.second), ".000")
  {
    PadFour(t.year);
    PadTwo(t.month);
    PadTwo(t.day);
    PadTwo(t.hour);
    PadTwo(t.minute);
    PadTwo(t.second);
  }

  /** A text laid out as a timestamp whose fields are those of a valid `t` parses as `t`. */
  lemma ParseOfFields(s: string, t: DateTime)
    requires Valid(t) && Layout(s) && |s| >= 19
    requires Field(s, 0, 4) == Some(t.year) && Field(s, 5, 2) == Some(t.month) && Field(s, 8, 2) == Some(t.day)
    requires Field(s, 11, 2) == Some(t.hour) && Field(s, 14, 2) == Some(t.minute) && Field(s, 17, 2) == Some(t.second)
    requires if |s| > 19 then FractionMillis(s[20..]) == t.milli else t.milli == 0
    ensures Parse(s) == Some(t)
  {
  }

  /** A rendered timestamp reads back as the same instant, to the second. */
  lemma RenderParses(t: DateTime)
    requires Valid(WholeSecond(t))
    ensures |Render(t)| == 19
    ensures Parse(Render(t)) == Some(WholeSecond(t))
  {
    RenderFields(t, "");
    ParseOfFields(Render(t), WholeSecond(t));
  }

  /** The next-run text reads back as the same instant, to the second. */
  lemma RenderNextRunParses(t: DateTime)
    requires Valid(WholeSecond(t))
    ensures |RenderNextRun(t)| == 23
    ensures Parse(RenderNextRun(t)) == Some(WholeSecond(t))
  {
    RenderFields(t, ".000");
    var s := RenderNextRun(t);
    assert s[19] == ".000"[0] == '.';
    assert s[20..] == ".000"[1..] == "000";
    assert "000" == Zeros(3);
    ZerosValue(3);
    assert "000"[..3] == "000";
    assert Layout(s);
    ParseOfFields(s, WholeSecond(t));
  }

  /** The six fields of a rendering read back as the timestamp's own. */
  lemma RenderFields(t: DateTime, tail: string)
    requires Valid(WholeSecond(t))
    ensures var s := RenderWith(t, tail);
            |s| == 19 + |tail| && s[4] == '-' && s[7] == '-' && s[10] == ' ' && s[13] == ':' && s[16] == ':'
            && s[19..] == tail
            && Field(s, 0, 4) == Some(t.year) && Field(s, 5, 2) == Some(t.month)
            && Field(s, 8, 2) == Some(t.day) && Field(s, 11, 2) == Some(t.hour)
            && Field(s, 14, 2) == Some(t.minute) && Field(s, 17, 2) == Some(t.second)
  {
    assert t.year <= 2262;
    PadNatReads(t.year, 4);
    PadNatReads(t.month, 2);
    PadNatReads(t.day, 2);
    PadNatReads(t.hour, 2);
    PadNatReads(t.minute, 2);
    PadNatReads(t.second, 2);
    var s := RenderWith(t, tail);
    DigitFields(PadNat(t.year, 4), PadNat(t.month, 2), PadNat(t.day, 2),
                PadNat(t.hour, 2), PadNat(t.minute, 2), PadNat(t.second, 2), tail);
    FieldIs(s, 0, PadNat(t.year, 4));
    FieldIs(s, 5, PadNat(t.month, 2));
    FieldIs(s, 8, PadNat(t.day, 2));
    FieldIs(s, 11, PadNat(t.hour, 2));
    FieldIs(s, 14, PadNat(t.minute, 2));
    FieldIs(s, 17, PadNat(t.second, 2));
  }

  /** Texts longer than three characters are not read as missing. */
  lemma LongTextNotNull(s: string)
    requires |s| > 3
    ensures s !in NullTexts
  {
    assert forall n :: n in NullTexts ==> |n| <= 3;
  }

  /** A whole-second timestamp written by `Render` converts back to itself. */
  lemma RenderedTextConverts(t: DateTime)
    requires Valid(t) && t.milli == 0
    ensures ToDatetime(Text(Render(t))) == Ok(Some(t))
  {
    RenderParses(t);
    assert WholeSecond(t) == t;
    var s := Render(t);
    LongTextNotNull(s);
    assert Parse(s) == Some(t);
  }


}
