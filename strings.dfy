/**
 * Python `str` operations the forum-post builders and parsers rely on:
 * `in`, `startswith`, `find`, `replace`, `split`, `join`, `strip`,
 * `lower`, `str(int)` and `int(str)`, with CPython's semantics on the
 * inputs they are given here.
 */
module Strings {
  import opened Wrappers

  /** `p` occurs in `s` starting at position `i`. */
  predicate OccursAt(s: string, p: string, i: nat)
  {
    i + |p| <= |s| && s[i..i + |p|] == p
  }

  /** Python's `p in s`. */
  predicate Contains(s: string, p: string)
  {
    exists i: nat | i <= |s| :: OccursAt(s, p, i)
  }

  /** Python's `s.startswith(p)`. */
  predicate StartsWith(s: string, p: string)
  {
    |p| <= |s| && s[..|p|] == p
  }

  /** Python's `s.find(p, k)`: the first occurrence of `p` at or after `k`. */
  function IndexFrom(s: string, p: string, k: nat): (r: Option<nat>)
    ensures r.Some? ==> k <= r.value && OccursAt(s, p, r.value)
    ensures forall j: nat :: k <= j && (r.None? || j < r.value) ==> !OccursAt(s, p, j)
    decreases |s| - k
  {
    if k + |p| > |s| then None
    else if OccursAt(s, p, k) then Some(k)
    else IndexFrom(s, p, k + 1)
  }

  lemma IndexFromNoneIffAbsent(s: string, p: string)
    ensures IndexFrom(s, p, 0).None? <==> !Contains(s, p)
  {
    if IndexFrom(s, p, 0).Some? {
      assert OccursAt(s, p, IndexFrom(s, p, 0).value);
    }
  }

  /** A pattern whose first character is absent from `s` cannot occur in `s`. */
  lemma AbsentFirstChar(s: string, p: string)
    requires |p| > 0 && p[0] !in s
    ensures !Contains(s, p)
  {
    forall i: nat | i <= |s|
      ensures !OccursAt(s, p, i)
    {
      if i < |s| {
        assert s[i] in s;
      }
    }
  }

  /** Python's `s.replace("", v)`: `v` before every character and at the end. */
  function InsertEverywhere(s: string, v: string): (r: string)
    ensures |r| == |s| + (|s| + 1) * |v|
  {
    if |s| == 0 then v else v + [s[0]] + InsertEverywhere(s[1..], v)
  }

  /**
   * Python's `s.replace(p, v)`: every leftmost, non-overlapping occurrence
   * of `p`, scanning left to right, is replaced by `v`.
   */
  function ReplaceAll(s: string, p: string, v: string): string
    decreases |s|
  {
    if |p| == 0 then InsertEverywhere(s, v)
    else if |s| < |p| then s
    else if s[..|p|] == p then v + ReplaceAll(s[|p|..], p, v)
    else [s[0]] + ReplaceAll(s[1..], p, v)
  }

  /** A text without the pattern is returned unchanged. */
  lemma {:induction false} ReplaceAbsent(s: string, p: string, v: string)
    requires |p| > 0 && !Contains(s, p)
    ensures ReplaceAll(s, p, v) == s
    decreases |s|
  {
    if |s| >= |p| {
      assert !OccursAt(s, p, 0);
      forall i: nat | OccursAt(s[1..], p, i)
        ensures false
      {
        assert s[1..][i..i + |p|] == s[i + 1..i + 1 + |p|];
        assert OccursAt(s, p, i + 1);
      }
      ReplaceAbsent(s[1..], p, v);
      assert [s[0]] + s[1..] == s;
    }
  }

  /** Replacing a pattern by itself changes nothing. */
  lemma {:induction false} ReplaceBySelf(s: string, p: string)
    ensures ReplaceAll(s, p, p) == s
    decreases |s|
  {
    if |p| == 0 {
      InsertEmpty(s);
    } else if |s| >= |p| {
      if s[..|p|] == p {
        ReplaceBySelf(s[|p|..], p);
        assert s[..|p|] + s[|p|..] == s;
      } else {
        ReplaceBySelf(s[1..], p);
        assert [s[0]] + s[1..] == s;
      }
    }
  }

  lemma {:induction false} InsertEmpty(s: string)
    ensures InsertEverywhere(s, "") == s
    decreases |s|
  {
    if |s| > 0 {
      InsertEmpty(s[1..]);
      assert [s[0]] + s[1..] == s;
    }
  }

  /** A pattern that starts the text is replaced first. */
  lemma ReplaceAtHead(p: string, b: string, v: string)
    requires |p| > 0
    ensures ReplaceAll(p + b, p, v) == v + ReplaceAll(b, p, v)
  {
    assert (p + b)[..|p|] == p;
    assert (p + b)[|p|..] == b;
  }

  /** A first character that does not start the pattern is kept as is. */
  lemma ReplaceSkipHead(s: string, p: string, v: string)
    requires |p| > 0 && |s| > 0 && !StartsWith(s, p)
    ensures ReplaceAll(s, p, v) == [s[0]] + ReplaceAll(s[1..], p, v)
  {
  }

  /** A prefix that does not hold the pattern's first character passes through. */
  lemma {:induction false} ReplaceAfterPlain(a: string, b: string, p: string, v: string)
    requires |p| > 0 && p[0] !in a
    ensures ReplaceAll(a + b, p, v) == a + ReplaceAll(b, p, v)
    decreases |a|
  {
    if |a| > 0 {
      var s := a + b;
      assert s[0] == a[0] && s[0] != p[0];
      assert !StartsWith(s, p) by {
        if |p| <= |s| {
          assert s[..|p|][0] != p[0];
        }
      }
      ReplaceSkipHead(s, p, v);
      assert s[1..] == a[1..] + b;
      ReplaceAfterPlain(a[1..], b, p, v);
      var rest := ReplaceAll(b, p, v);
      assert ReplaceAll(s, p, v) == [a[0]] + (a[1..] + rest);
      assert [a[0]] + (a[1..] + rest) == ([a[0]] + a[1..]) + rest;
      assert [a[0]] + a[1..] == a;
    } else {
      assert a + b == b;
    }
  }

  /** Removing a one-character pattern by a text without it removes it everywhere. */
  lemma {:induction false} ReplaceCharRemoved(s: string, c: char, v: string)
    requires c !in v
    ensures c !in ReplaceAll(s, [c], v)
    decreases |s|
  {
    if |s| >= 1 {
      ReplaceCharRemoved(s[1..], c, v);
      if s[..1] == [c] {
        assert s[1..] == s[|[c]|..];
      } else {
        assert s[0] != c;
      }
    }
  }

  /** Applies each (pattern, value) pair in order, as a loop of `replace` calls does. */
  function ReplaceEach(s: string, pairs: seq<(string, string)>): string
    decreases |pairs|
  {
    if |pairs| == 0 then s
    else ReplaceEach(ReplaceAll(s, pairs[0].0, pairs[0].1), pairs[1..])
  }

  lemma ReplaceEachSnoc(s: string, pairs: seq<(string, string)>, last: (string, string))
    ensures ReplaceEach(s, pairs + [last]) == ReplaceAll(ReplaceEach(s, pairs), last.0, last.1)
    decreases |pairs|
  {
    if |pairs| > 0 {
      assert (pairs + [last])[1..] == pairs[1..] + [last];
      ReplaceEachSnoc(ReplaceAll(s, pairs[0].0, pairs[0].1), pairs[1..], last);
    }
  }

  /** Two texts with the same ending are equal when what precedes it is. */
  lemma AppendCancels(a: string, b: string, t: string)
    requires a + t == b + t
    ensures a == b
  {
    assert a == (a + t)[..|a|];
    assert b == (b + t)[..|b|];
  }

  /** One more `str.replace` of a list, applied to the text the earlier ones left. */
  method ReplaceNext(text: string, pairs: seq<(string, string)>, i: nat, content: string) returns (next: string)
    requires i < |pairs| && content == ReplaceEach(text, pairs[..i])
    ensures next == ReplaceEach(text, pairs[..i + 1])
  {
    assert pairs[..i + 1] == pairs[..i] + [pairs[i]];
    ReplaceEachSnoc(text, pairs[..i], pairs[i]);
    next := ReplaceAll(content, pairs[i].0, pairs[i].1);
  }

  /** A pattern without the character `c` never spans it: both sides are replaced apart. */
  lemma {:induction false} ReplaceAroundChar(a: string, c: char, b: string, p: string, v: string)
    requires |p| > 0 && c !in p
    ensures ReplaceAll(a + [c] + b, p, v) == ReplaceAll(a, p, v) + [c] + ReplaceAll(b, p, v)
    decreases |a|
  {
    var s := a + [c] + b;
    if |a| == 0 {
      AroundCharAtHead(b, c, p, v);
      assert s == [c] + b;
    } else if StartsWith(s, p) {
      PatternBeforeChar(a, c, b, p);
      assert a[..|p|] == s[..|p|];
      ReplaceAroundChar(a[|p|..], c, b, p, v);
      AroundCharMatch(a, c, b, p, v);
    } else {
      ReplaceAroundChar(a[1..], c, b, p, v);
      AroundCharSkip(a, c, b, p, v);
    }
  }

  /** A pattern without `c` that starts `a + [c] + b` lies within `a`. */
  lemma PatternBeforeChar(a: string, c: char, b: string, p: string)
    requires c !in p && StartsWith(a + [c] + b, p)
    ensures |p| <= |a|
  {
    var s := a + [c] + b;
    assert s[|a|] == c;
    assert forall i :: 0 <= i < |p| ==> p[i] == s[i];
  }

  lemma AroundCharAtHead(b: string, c: char, p: string, v: string)
    requires |p| > 0 && c !in p
    ensures ReplaceAll([c] + b, p, v) == [c] + ReplaceAll(b, p, v)
  {
    var s := [c] + b;
    assert !StartsWith(s, p) by {
      if |p| <= |s| {
        assert s[..|p|][0] == c && p[0] in p;
      }
    }
    ReplaceSkipHead(s, p, v);
    assert s[1..] == b;
  }

  lemma AroundCharMatch(a: string, c: char, b: string, p: string, v: string)
    requires |p| > 0 && |p| <= |a| && a[..|p|] == p
    requires ReplaceAll(a[|p|..] + [c] + b, p, v) == ReplaceAll(a[|p|..], p, v) + [c] + ReplaceAll(b, p, v)
    ensures ReplaceAll(a + [c] + b, p, v) == ReplaceAll(a, p, v) + [c] + ReplaceAll(b, p, v)
  {
    var s := a + [c] + b;
    var ra := ReplaceAll(a[|p|..], p, v);
    var rb := ReplaceAll(b, p, v);
    assert ReplaceAll(s, p, v) == v + (ra + [c] + rb) by {
      assert s[..|p|] == p;
      assert s[|p|..] == a[|p|..] + [c] + b;
    }
    assert ReplaceAll(a, p, v) == v + ra;
    assert v + (ra + [c] + rb) == (v + ra) + [c] + rb;
  }

  lemma AroundCharSkip(a: string, c: char, b: string, p: string, v: string)
    requires |p| > 0 && |a| > 0 && !StartsWith(a + [c] + b, p)
    requires ReplaceAll(a[1..] + [c] + b, p, v) == ReplaceAll(a[1..], p, v) + [c] + ReplaceAll(b, p, v)
    ensures ReplaceAll(a + [c] + b, p, v) == ReplaceAll(a, p, v) + [c] + ReplaceAll(b, p, v)
  {
    SkipWhole(a, c, b, p, v);
    SkipLeft(a, c, b, p, v);
    var ra := ReplaceAll(a[1..], p, v);
    var rb := ReplaceAll(b, p, v);
    assert [a[0]] + (ra + [c] + rb) == ([a[0]] + ra) + [c] + rb;
  }

  lemma SkipWhole(a: string, c: char, b: string, p: string, v: string)
    requires |p| > 0 && |a| > 0 && !StartsWith(a + [c] + b, p)
    ensures ReplaceAll(a + [c] + b, p, v) == [a[0]] + ReplaceAll(a[1..] + [c] + b, p, v)
  {
    var s := a + [c] + b;
    assert s[1..] == a[1..] + [c] + b && s[0] == a[0];
    ReplaceSkipHead(s, p, v);
  }

  lemma SkipLeft(a: string, c: char, b: string, p: string, v: string)
    requires |p| > 0 && |a| > 0 && !StartsWith(a + [c] + b, p)
    ensures ReplaceAll(a, p, v) == [a[0]] + ReplaceAll(a[1..], p, v)
  {
    var s := a + [c] + b;
    assert !StartsWith(a, p) by {
      if |p| <= |a| {
        assert a[..|p|] == s[..|p|];
      }
    }
    ReplaceSkipHead(a, p, v);
  }

  /** A sequence of replacements none of whose patterns occurs in the text changes nothing. */
  lemma {:induction false} ReplaceEachAbsent(s: string, pairs: seq<(string, string)>)
    requires forall k :: 0 <= k < |pairs| ==> |pairs[k].0| > 0 && !Contains(s, pairs[k].0)
    ensures ReplaceEach(s, pairs) == s
    decreases |pairs|
  {
    if |pairs| > 0 {
      ReplaceAbsent(s, pairs[0].0, pairs[0].1);
      ReplaceEachAbsent(s, pairs[1..]);
    }
  }

  /** A pattern replaced in a text that is exactly the pattern leaves the value. */
  lemma ReplaceWhole(p: string, v: string)
    requires |p| > 0
    ensures ReplaceAll(p, p, v) == v
  {
    ReplaceAtHead(p, [], v);
    assert p + [] == p && v + [] == v;
  }

  /**
   * A text that is exactly the pattern of one pair, and that no earlier
   * pattern occurs in, ends up as that pair's value when no later pattern
   * occurs in the value.
   */
  lemma ReplaceEachOnly(s: string, pairs: seq<(string, string)>, i: nat)
    requires i < |pairs| && pairs[i].0 == s && |s| > 0
    requires forall k :: 0 <= k < i ==> |pairs[k].0| > 0 && !Contains(s, pairs[k].0)
    requires forall k :: i < k < |pairs| ==> |pairs[k].0| > 0 && !Contains(pairs[i].1, pairs[k].0)
    ensures ReplaceEach(s, pairs) == pairs[i].1
  {
    var xs, ys := pairs[..i], pairs[i + 1..];
    assert pairs == xs + ([pairs[i]] + ys);
    ReplaceEachAppend(s, xs, [pairs[i]] + ys);
    ReplaceEachAbsent(s, xs);
    assert ([pairs[i]] + ys)[1..] == ys;
    ReplaceWhole(s, pairs[i].1);
    ReplaceEachAbsent(pairs[i].1, ys);
  }

  /** Replacing a one-character separator that no part holds re-joins the parts with the value. */
  lemma {:induction false} ReplaceSeparator(parts: seq<string>, c: char, v: string)
    requires forall k :: 0 <= k < |parts| ==> c !in parts[k]
    ensures ReplaceAll(Join(parts, [c]), [c], v) == Join(parts, v)
    decreases |parts|
  {
    if |parts| == 1 {
      AbsentFirstChar(parts[0], [c]);
      ReplaceAbsent(parts[0], [c], v);
    } else if |parts| > 1 {
      var rest := Join(parts[1..], [c]);
      ReplaceSeparator(parts[1..], c, v);
      assert Join(parts, [c]) == parts[0] + ([c] + rest);
      ReplaceAfterPlain(parts[0], [c] + rest, [c], v);
      ReplaceAtHead([c], rest, v);
    }
  }

  /** A pattern longer than the text, or whose first character it lacks, does not occur in it. */
  lemma NotContained(s: string, p: string)
    requires |p| > 0 && (|p| > |s| || p[0] !in s)
    ensures !Contains(s, p)
  {
    if p[0] !in s {
      AbsentFirstChar(s, p);
    }
  }

  /** Replacements applied in two runs are the replacements applied in one. */
  lemma {:induction false} ReplaceEachAppend(s: string, xs: seq<(string, string)>, ys: seq<(string, string)>)
    ensures ReplaceEach(s, xs + ys) == ReplaceEach(ReplaceEach(s, xs), ys)
    decreases |xs|
  {
    if |xs| > 0 {
      assert (xs + ys)[0] == xs[0] && (xs + ys)[1..] == xs[1..] + ys;
      ReplaceEachAppend(ReplaceAll(s, xs[0].0, xs[0].1), xs[1..], ys);
    } else {
      assert xs + ys == ys;
    }
  }

  /** A pattern no longer than the text that does not start it and is longer than the rest does not occur. */
  lemma NotContainedLonger(s: string, p: string)
    requires |p| > 0 && |p| >= |s| && !StartsWith(s, p)
    ensures !Contains(s, p)
  {
  }

  /** A pattern that does not start the text and whose first character the rest lacks does not occur. */
  lemma NotContainedHeadOnly(s: string, p: string)
    requires |p| > 0 && |s| > 0 && !StartsWith(s, p) && p[0] !in s[1..]
    ensures !Contains(s, p)
  {
    forall i: nat | 0 < i && i + |p| <= |s|
      ensures !OccursAt(s, p, i)
    {
      assert s[1..][i - 1] == s[i];
      assert s[i..i + |p|][0] == s[i];
    }
  }

  /** Python's `sep.join(parts)`. */
  function Join(parts: seq<string>, sep: string): string
    decreases |parts|
  {
    if |parts| == 0 then ""
    else if |parts| == 1 then parts[0]
    else parts[0] + sep + Join(parts[1..], sep)
  }

  /** Python's `s.split(sep)` for a non-empty separator. */
  function Split(s: string, sep: string): (r: seq<string>)
    requires |sep| > 0
    ensures |r| > 0
    decreases |s|
  {
    match IndexFrom(s, sep, 0)
    case None => [s]
    case Some(i) => [s[..i]] + Split(s[i + |sep|..], sep)
  }

  /** Joining the parts of a split on the same separator restores the text. */
  lemma {:induction false} JoinSplit(s: string, sep: string)
    requires |sep| > 0
    ensures Join(Split(s, sep), sep) == s
    decreases |s|
  {
    match IndexFrom(s, sep, 0)
    case None =>
    case Some(i) =>
      assert OccursAt(s, sep, i);
      var rest := s[i + |sep|..];
      var tail := Split(rest, sep);
      JoinSplit(rest, sep);
      var parts := Split(s, sep);
      assert parts == [s[..i]] + tail;
      assert |parts| >= 2 && parts[0] == s[..i] && parts[1..] == tail;
      assert Join(parts, sep) == s[..i] + sep + Join(tail, sep);
      assert s[i..i + |sep|] == sep;
      assert s == s[..i] + s[i..i + |sep|] + rest;
  }

  /**
   * `s.split(sep)[0]` is the text before the first separator (all of `s`
   * without one) and `sep.join(s.split(sep)[1:])` the text after it.
   */
  lemma SplitFirst(s: string, sep: string)
    requires |sep| > 0
    ensures match IndexFrom(s, sep, 0)
            case None => Split(s, sep) == [s]
            case Some(i) => Split(s, sep)[0] == s[..i] && Join(Split(s, sep)[1..], sep) == s[i + |sep|..]
  {
    match IndexFrom(s, sep, 0)
    case None =>
    case Some(i) =>
      var rest := s[i + |sep|..];
      var tail := Split(rest, sep);
      assert Split(s, sep)[0] == s[..i] && Split(s, sep)[1..] == tail by {
        SplitAt(s, sep, i);
      }
      assert Join(tail, sep) == rest by {
        JoinSplit(rest, sep);
      }
  }

  /** Splitting at the first separator, found at `i`. */
  lemma SplitAt(s: string, sep: string, i: nat)
    requires |sep| > 0 && IndexFrom(s, sep, 0) == Some(i)
    ensures i + |sep| <= |s|
    ensures Split(s, sep) == [s[..i]] + Split(s[i + |sep|..], sep)
  {
  }



  /** `s.split(sep)[0]`: the text before the first separator, or all of it. */
  function TextBefore(s: string, sep: string): (r: string)
    ensures |r| <= |s| && r == s[..|r|]
  {
    match IndexFrom(s, sep, 0)
    case None => s
    case Some(i) => s[..i]
  }

  /** The text after the first separator (all of it when there is none). */
  function TextAfter(s: string, sep: string): (r: string)
  {
    match IndexFrom(s, sep, 0)
    case None => s
    case Some(i) => s[i + |sep|..]
  }

  /** The first part of a split is the text before the first separator. */
  lemma SplitHead(s: string, sep: string)
    requires |sep| > 0
    ensures Split(s, sep)[0] == TextBefore(s, sep)
  {
    match IndexFrom(s, sep, 0)
    case None =>
    case Some(i) => SplitAt(s, sep, i);
  }

  /** With a separator present, the second part of a split lies between its first two occurrences. */
  lemma SplitSecond(s: string, sep: string)
    requires |sep| > 0 && Contains(s, sep)
    ensures |Split(s, sep)| >= 2
    ensures Split(s, sep)[1] == TextBefore(TextAfter(s, sep), sep)
  {
    IndexFromNoneIffAbsent(s, sep);
    var i := IndexFrom(s, sep, 0).value;
    SplitAt(s, sep, i);
    SplitHead(s[i + |sep|..], sep);
  }

  /** The text before the first separator holds no separator. */
  lemma BeforeExcludes(s: string, sep: string)
    requires |sep| > 0
    ensures !Contains(TextBefore(s, sep), sep)
  {
    var r := TextBefore(s, sep);
    forall j: nat | j <= |r|
      ensures !OccursAt(r, sep, j)
    {
      if j + |sep| <= |r| {
        assert r[j..j + |sep|] == s[j..j + |sep|];
        match IndexFrom(s, sep, 0)
        case None =>
          assert !OccursAt(s, sep, j);
        case Some(i) =>
          assert j < i;
          assert !OccursAt(s, sep, j);
      }
    }
  }

  /** A text without a pattern keeps it out of every slice. */
  lemma NotContainedSlice(s: string, p: string, a: nat, b: nat)
    requires a <= b <= |s| && !Contains(s, p)
    ensures !Contains(s[a..b], p)
  {
    forall j: nat | j <= b - a
      ensures !OccursAt(s[a..b], p, j)
    {
      if j + |p| <= b - a {
        forall i | a + j <= i < a + j + |p|
          ensures s[a..b][i - a] == s[i]
        {
        }
        assert s[a..b][j..j + |p|] == s[a + j..a + j + |p|];
        assert !OccursAt(s, p, a + j);
      }
    }
  }

  /** Stripping keeps a text free of a pattern it does not hold. */
  lemma StripExcludes(s: string, p: string)
    requires !Contains(s, p)
    ensures !Contains(Strip(s), p)
  {
    var t := TrimStart(s);
    NotContainedSlice(s, p, |s| - |t|, |s|);
    assert s[|s| - |t|..|s|] == t;
    var u := TrimEnd(t);
    NotContainedSlice(t, p, 0, |u|);
    assert t[0..|u|] == u;
  }

  /** Replaces a pattern in every word. */
  function ReplaceInWords(words: seq<string>, p: string, v: string): (r: seq<string>)
    ensures |r| == |words|
    ensures forall k :: 0 <= k < |r| ==> r[k] == ReplaceAll(words[k], p, v)
  {
    if |words| == 0 then [] else [ReplaceAll(words[0], p, v)] + ReplaceInWords(words[1..], p, v)
  }

  /** Applies the replacements to every word. */
  function EachInWords(words: seq<string>, pairs: seq<(string, string)>): (r: seq<string>)
    ensures |r| == |words|
    ensures forall k :: 0 <= k < |r| ==> r[k] == ReplaceEach(words[k], pairs)
  {
    if |words| == 0 then [] else [ReplaceEach(words[0], pairs)] + EachInWords(words[1..], pairs)
  }

  /** A pattern without spaces is replaced word by word in space-separated words. */
  lemma {:induction false} ReplaceJoined(words: seq<string>, p: string, v: string)
    requires |p| > 0 && ' ' !in p
    ensures ReplaceAll(Join(words, " "), p, v) == Join(ReplaceInWords(words, p, v), " ")
    decreases |words|
  {
    if |words| > 1 {
      var rest := words[1..];
      ReplaceJoined(rest, p, v);
      assert Join(words, " ") == words[0] + [' '] + Join(rest, " ");
      ReplaceAroundChar(words[0], ' ', Join(rest, " "), p, v);
      var r := ReplaceInWords(words, p, v);
      assert r[1..] == ReplaceInWords(rest, p, v);
    } else if |words| == 0 {
      assert ReplaceAll("", p, v) == "";
    }
  }

  /** Replacements whose patterns hold no space act word by word on space-separated words. */
  lemma {:induction false} ReplaceEachJoined(words: seq<string>, pairs: seq<(string, string)>)
    requires forall k :: 0 <= k < |pairs| ==> |pairs[k].0| > 0 && ' ' !in pairs[k].0
    ensures ReplaceEach(Join(words, " "), pairs) == Join(EachInWords(words, pairs), " ")
    decreases |pairs|
  {
    if |pairs| == 0 {
      assert EachInWords(words, pairs) == words;
    } else {
      var once := ReplaceInWords(words, pairs[0].0, pairs[0].1);
      ReplaceJoined(words, pairs[0].0, pairs[0].1);
      ReplaceEachJoined(once, pairs[1..]);
      assert EachInWords(once, pairs[1..]) == EachInWords(words, pairs);
    }
  }

  /** Splitting on a character undoes joining on it, when no part holds that character. */
  lemma {:induction false} SplitJoin(parts: seq<string>, c: char)
    requires |parts| > 0
    requires forall k :: 0 <= k < |parts| ==> c !in parts[k]
    ensures Split(Join(parts, [c]), [c]) == parts
    decreases |parts|
  {
    var s := Join(parts, [c]);
    if |parts| == 1 {
      AbsentFirstChar(parts[0], [c]);
      IndexFromNoneIffAbsent(parts[0], [c]);
    } else {
      var n := |parts[0]|;
      assert s == parts[0] + [c] + Join(parts[1..], [c]);
      assert s[n..n + 1] == [c];
      assert OccursAt(s, [c], n);
      forall j: nat | j < n
        ensures !OccursAt(s, [c], j)
      {
        assert s[j..j + 1] == [s[j]];
        assert s[j] == parts[0][j];
      }
      var r := IndexFrom(s, [c], 0);
      assert r.Some?;
      assert r.value == n;
      assert s[..n] == parts[0];
      assert s[n + 1..] == Join(parts[1..], [c]);
      SplitJoin(parts[1..], c);
      assert [parts[0]] + parts[1..] == parts;
    }
  }

  /**
   * Splitting on a separator undoes joining on it, when no part holds the
   * separator and no part but the last ends with one of its characters
   * (so that no occurrence straddles a part and the separator after it).
   */
  lemma {:induction false} SplitJoinSep(parts: seq<string>, sep: string)
    requires |sep| > 0 && |parts| > 0
    requires forall k :: 0 <= k < |parts| ==> !Contains(parts[k], sep)
    requires forall k :: 0 <= k < |parts| - 1 ==> |parts[k]| == 0 || parts[k][|parts[k]| - 1] !in sep
    ensures Split(Join(parts, sep), sep) == parts
    decreases |parts|
  {
    var s := Join(parts, sep);
    if |parts| == 1 {
      IndexFromNoneIffAbsent(parts[0], sep);
    } else {
      var p := parts[0];
      var n := |p|;
      var rest := Join(parts[1..], sep);
      assert s == p + sep + rest;
      assert s[n..n + |sep|] == sep;
      forall j: nat | j < n
        ensures !OccursAt(s, sep, j)
      {
        if j + |sep| <= n {
          assert s[j..j + |sep|] == p[j..j + |sep|];
          assert !OccursAt(p, sep, j);
        } else {
          assert s[n - 1] == p[n - 1];
        }
      }
      assert OccursAt(s, sep, n);
      var r := IndexFrom(s, sep, 0);
      assert r.Some?;
      assert r.value == n;
      assert s[..n] == p;
      assert s[n + |sep|..] == rest;
      SplitJoinSep(parts[1..], sep);
      assert [p] + parts[1..] == parts;
    }
  }

  /** Python's `str.isspace()` on one character. */
  predicate IsSpace(c: char)
  {
    c == ' ' || ('\t' <= c <= '\r') || ('\U{1c}' <= c <= '\U{1f}') || c == '\U{85}'
    || c == '\U{a0}' || c == '\U{1680}' || ('\U{2000}' <= c <= '\U{200a}')
    || c == '\U{2028}' || c == '\U{2029}' || c == '\U{202f}' || c == '\U{205f}' || c == '\U{3000}'
  }

  function TrimStart(s: string): (r: string)
    ensures |r| <= |s| && r == s[|s| - |r|..]
    ensures |r| == 0 || !IsSpace(r[0])
  {
    if |s| > 0 && IsSpace(s[0]) then TrimStart(s[1..]) else s
  }

  function TrimEnd(s: string): (r: string)
    ensures |r| <= |s| && r == s[..|r|]
    ensures |r| == 0 || !IsSpace(r[|r| - 1])
  {
    if |s| > 0 && IsSpace(s[|s| - 1]) then TrimEnd(s[..|s| - 1]) else s
  }

  /** Python's `s.strip()`: the text without leading and trailing whitespace. */
  function Strip(s: string): (r: string)
    ensures |r| == 0 || (!IsSpace(r[0]) && !IsSpace(r[|r| - 1]))
  {
    var t := TrimStart(s);
    var r := TrimEnd(t);
    assert |r| > 0 ==> r[0] == t[0];
    r
  }

  lemma StripNoSpace(s: string)
    requires forall k :: 0 <= k < |s| ==> !IsSpace(s[k])
    ensures Strip(s) == s
  {
  }

  /** Python's `lower()` on ASCII and Latin-1 capitals. */
  function LowerChar(c: char): char
  {
    if ('A' <= c <= 'Z') || ('À' <= c <= 'Þ' && c != '×') then
      (c as int + 32) as char
    else c
  }

  predicate IsUpper(c: char)
  {
    ('A' <= c <= 'Z') || ('À' <= c <= 'Þ' && c != '×')
  }

  function Lower(s: string): (r: string)
    ensures |r| == |s|
    ensures forall k :: 0 <= k < |r| ==> !IsUpper(r[k])
    ensures forall k :: 0 <= k < |r| ==> (IsUpper(s[k]) || r[k] == s[k])
  {
    seq(|s|, k requires 0 <= k < |s| => LowerChar(s[k]))
  }

  predicate IsDigit(c: char)
  {
    '0' <= c <= '9'
  }

  predicate AllDigits(s: string)
  {
    forall k :: 0 <= k < |s| ==> IsDigit(s[k])
  }

  function DigitChar(d: nat): (c: char)
    requires d < 10
    ensures IsDigit(c) && c as int - '0' as int == d
  {
    ('0' as int + d) as char
  }

  /** Python's `str(n)` for a natural number. */
  function NatToString(n: nat): (r: string)
    ensures |r| > 0 && AllDigits(r)
    decreases n
  {
    if n < 10 then [DigitChar(n)] else NatToString(n / 10) + [DigitChar(n % 10)]
  }

  /** Python's `str(n)`. */
  function IntToString(n: int): string
  {
    if n < 0 then "-" + NatToString(-n) else NatToString(n)
  }

  /** The value of a decimal numeral. */
  function DigitsValue(s: string): nat
    requires AllDigits(s)
  {
    if |s| == 0 then 0
    else DigitsValue(s[..|s| - 1]) * 10 + (s[|s| - 1] as int - '0' as int)
  }

  /** An unsigned decimal numeral of at least one digit. */
  function ParseUnsigned(t: string): Option<nat>
  {
    if |t| > 0 && AllDigits(t) then Some(DigitsValue(t)) else None
  }

  /**
   * Python's `int(s)`: surrounding whitespace, an optional sign and at least
   * one decimal digit; anything else raises ValueError (here `None`).
   */
  function ParseInt(s: string): Option<int>
  {
    ParseSigned(Strip(s))
  }

  /** An optionally signed numeral without surrounding whitespace. */
  function ParseSigned(t: string): Option<int>
  {
    if |t| > 0 && (t[0] == '-' || t[0] == '+') then
      match ParseUnsigned(t[1..])
      case None => None
      case Some(m) => Some(if t[0] == '-' then -(m as int) else m)
    else
      match ParseUnsigned(t)
      case None => None
      case Some(m) => Some(m)
  }

  lemma {:induction false} DigitsOfNat(n: nat)
    ensures DigitsValue(NatToString(n)) == n
    decreases n
  {
    var s := NatToString(n);
    if n >= 10 {
      DigitsOfNat(n / 10);
      assert s[..|s| - 1] == NatToString(n / 10);
    }
  }

  lemma DigitsNoSpace(d: string)
    requires AllDigits(d)
    ensures forall k :: 0 <= k < |d| ==> !IsSpace(d[k])
  {
  }

  lemma ParseNumeral(d: string)
    requires |d| > 0 && AllDigits(d)
    ensures ParseInt(d) == Some(DigitsValue(d) as int)
  {
    DigitsNoSpace(d);
    StripNoSpace(d);
    SignedNumeral(d);
  }

  lemma SignedNumeral(d: string)
    requires |d| > 0 && AllDigits(d)
    ensures ParseSigned(d) == Some(DigitsValue(d) as int)
  {
    assert IsDigit(d[0]);
  }

  lemma ParseNegative(n: int)
    requires n < 0
    ensures ParseInt(IntToString(n)) == Some(n)
  {
    var d := NatToString(-n);
    DigitsOfNat(-n);
    var s := IntToString(n);
    assert s == "-" + d;
    SignedNoSpace(d);
    StripNoSpace(s);
    assert ParseSigned(s) == Some(n) by {
      assert s[0] == '-' && s[1..] == d;
      assert ParseUnsigned(d) == Some(-n);
    }
  }

  /** A minus sign followed by digits holds no whitespace. */
  lemma SignedNoSpace(d: string)
    requires AllDigits(d)
    ensures forall k :: 0 <= k < |"-" + d| ==> !IsSpace(("-" + d)[k])
  {
    var s := "-" + d;
    forall k | 0 <= k < |s|
      ensures !IsSpace(s[k])
    {
      if k > 0 {
        assert s[k] == d[k - 1];
        assert IsDigit(d[k - 1]);
      }
    }
  }


  /** `int("+" + str(n))` reads `n` back. */
  lemma ParsePlus(n: nat)
    ensures ParseInt("+" + NatToString(n)) == Some(n)
  {
    DigitsOfNat(n);
    ParsePlusNumeral(NatToString(n));
  }

  /** A plus sign before a numeral leaves its value unchanged. */
  lemma ParsePlusNumeral(d: string)
    requires |d| > 0 && AllDigits(d)
    ensures ParseInt("+" + d) == Some(DigitsValue(d) as int)
  {
    var s := "+" + d;
    PlusNoSpace(d);
    StripNoSpace(s);
    SignTail('+', d);
    assert s[0] == '+' && s[1..] == d;
  }

  /** A sign character followed by a text: the text is what follows the first character. */
  lemma SignTail(c: char, d: string)
    ensures ([c] + d)[0] == c && ([c] + d)[1..] == d
  {
  }

  /** A plus sign followed by digits holds no whitespace. */
  lemma PlusNoSpace(d: string)
    requires AllDigits(d)
    ensures forall k :: 0 <= k < |"+" + d| ==> !IsSpace(("+" + d)[k])
  {
    var s := "+" + d;
    forall k | 0 <= k < |s|
      ensures !IsSpace(s[k])
    {
      if k > 0 {
        assert s[k] == d[k - 1];
        assert IsDigit(d[k - 1]);
      }
    }
  }

  lemma ParseNonNegative(n: nat)
    ensures ParseInt(IntToString(n)) == Some(n)
  {
    DigitsOfNat(n);
    ParseNumeral(NatToString(n));
  }

  /** `int(str(n)) == n`. */
  lemma ParseIntRoundTrip(n: int)
    ensures ParseInt(IntToString(n)) == Some(n)
  {
    if n < 0 {
      ParseNegative(n);
    } else {
      ParseNonNegative(n);
    }
  }
}
