/** Sequence helpers shared by the table, file and message rules: duplicates and first occurrences. */
module Collections {
  import opened Wrappers
  import opened Order

  predicate NoDuplicates<T(==)>(s: seq<T>)
  {
    forall i, j :: 0 <= i < j < |s| ==> s[i] != s[j]
  }

  /**
   * The distinct values of `s` in first-occurrence order, as pandas'
   * `unique()` and `drop_duplicates()` give them.
   */
  function Distinct<T(==, !new)>(s: seq<T>): (r: seq<T>)
    ensures NoDuplicates(r)
    ensures forall x :: x in r <==> x in s
    ensures |r| <= |s|
    decreases |s|
  {
    if |s| == 0 then []
    else
      var init := Distinct(s[..|s| - 1]);
      assert forall x :: x in s <==> x in s[..|s| - 1] || x == s[|s| - 1];
      if s[|s| - 1] in init then init else init + [s[|s| - 1]]
  }

  /** The position of the first occurrence of `x` in `s`. */
  function FirstIndex<T(==)>(s: seq<T>, x: T): (i: nat)
    requires x in s
    ensures i < |s| && s[i] == x && forall j :: 0 <= j < i ==> s[j] != x
  {
    if s[0] == x then 0 else 1 + FirstIndex(s[1..], x)
  }

  /** Appending an element does not move the first occurrence of what was already there. */
  lemma FirstIndexSnoc<T>(s: seq<T>, y: T, x: T)
    requires x in s
    ensures FirstIndex(s + [y], x) == FirstIndex(s, x)
  {
    var i := FirstIndex(s, x);
    var t := s + [y];
    assert t[i] == x;
    assert forall j :: 0 <= j < i ==> t[j] == s[j];
    assert forall j :: 0 <= j < i ==> t[j] != x;
  }

  /** `Distinct` lists the values in the order in which they first occur. */
  lemma {:induction false} DistinctFirstOccurrence<T(!new)>(s: seq<T>)
    ensures forall i, j :: 0 <= i < j < |Distinct(s)| ==>
      FirstIndex(s, Distinct(s)[i]) < FirstIndex(s, Distinct(s)[j])
    decreases |s|
  {
    if |s| > 0 {
      var init, last := s[..|s| - 1], s[|s| - 1];
      var r, d := Distinct(init), Distinct(s);
      DistinctFirstOccurrence(init);
      assert s == init + [last];
      forall x | x in init
        ensures FirstIndex(s, x) == FirstIndex(init, x)
      {
        FirstIndexSnoc(init, last, x);
      }
      forall i, j | 0 <= i < j < |d|
        ensures FirstIndex(s, d[i]) < FirstIndex(s, d[j])
      {
        assert d[i] in r && d[i] in init;
        if j < |r| {
          assert d[j] == r[j] && d[i] == r[i];
        } else {
          assert d[j] == last && last !in init;
          assert FirstIndex(s, last) == |init|;
        }
      }
    }
  }

  /** `a` is `b` with some elements left out, the others kept in order. */
  predicate SubsequenceOf<T(==)>(a: seq<T>, b: seq<T>)
    decreases |b|
  {
    if |a| == 0 then true
    else if |b| == 0 then false
    else (a[0] == b[0] && SubsequenceOf(a[1..], b[1..])) || SubsequenceOf(a, b[1..])
  }

  lemma {:induction false} SubsequenceOfSelf<T>(a: seq<T>)
    ensures SubsequenceOf(a, a)
    decreases |a|
  {
    if |a| > 0 {
      SubsequenceOfSelf(a[1..]);
    }
  }

  /**
   * A list comprehension whose element expression may raise: `f` applied to
   * every element in order, the first element it rejects raising `err`.
   */
  function TryMap<A, B>(xs: seq<A>, f: A -> Option<B>, err: string): (r: Result<seq<B>>)
    ensures r.Ok? <==> forall k :: 0 <= k < |xs| ==> f(xs[k]).Some?
    ensures r.Ok? ==> |r.value| == |xs| && forall k :: 0 <= k < |xs| ==> r.value[k] == f(xs[k]).value
    ensures r.Err? ==> r.error == err
    decreases |xs|
  {
    if |xs| == 0 then Ok([])
    else match f(xs[0])
      case None => Err(err)
      case Some(y) =>
        match TryMap(xs[1..], f, err)
        case Err(e) => Err(e)
        case Ok(rest) =>
          assert forall k :: 1 <= k < |xs| ==> xs[k] == xs[1..][k - 1];
          Ok([y] + rest)
  }

  // ---------------------------------------------------------------------
  // The key order of pandas' `groupby` on a text column
  // ---------------------------------------------------------------------

  /** Strictly increasing in Python's string order. */
  predicate StrSorted(s: seq<string>)
  {
    forall i, j :: 0 <= i < j < |s| ==> StrLess(s[i], s[j])
  }

  /** Inserts `x` before the first value not smaller than it. */
  function InsertStr(x: string, s: seq<string>): seq<string>
  {
    if |s| == 0 then [x]
    else if StrLess(s[0], x) then [s[0]] + InsertStr(x, s[1..])
    else [x] + s
  }

  /** The values in increasing order, as `groupby` lists its keys. */
  function SortStrings(s: seq<string>): seq<string>
  {
    if |s| == 0 then [] else InsertStr(s[0], SortStrings(s[1..]))
  }

  lemma {:induction false} InsertStrPermutes(x: string, s: seq<string>)
    ensures multiset(InsertStr(x, s)) == multiset(s) + multiset{x}
    decreases |s|
  {
    if |s| > 0 {
      assert s == [s[0]] + s[1..];
      if StrLess(s[0], x) {
        InsertStrPermutes(x, s[1..]);
      }
    }
  }

  lemma {:induction false} InsertStrSorted(x: string, s: seq<string>)
    requires StrSorted(s) && x !in s
    ensures StrSorted(InsertStr(x, s))
    decreases |s|
  {
    if |s| > 0 {
      var r := InsertStr(x, s);
      if StrLess(s[0], x) {
        var t := InsertStr(x, s[1..]);
        InsertStrSorted(x, s[1..]);
        InsertStrPermutes(x, s[1..]);
        assert r == [s[0]] + t;
        forall k | 0 <= k < |t|
          ensures StrLess(s[0], t[k])
        {
          assert t[k] in multiset(t);
          if t[k] != x {
            assert t[k] in s[1..];
          }
        }
      } else {
        StrLessTotal(s[0], x);
        assert r == [x] + s;
        forall j | 0 <= j < |s|
          ensures StrLess(x, s[j])
        {
          if j > 0 {
            StrLessTransitive(x, s[0], s[j]);
          }
        }
      }
    }
  }

  /** Sorting distinct values keeps exactly those values and orders them strictly. */
  lemma {:induction false} SortStringsSorted(s: seq<string>)
    requires NoDuplicates(s)
    ensures StrSorted(SortStrings(s))
    ensures multiset(SortStrings(s)) == multiset(s)
    decreases |s|
  {
    if |s| > 0 {
      SortStringsSorted(s[1..]);
      assert s == [s[0]] + s[1..];
      assert s[0] !in multiset(SortStrings(s[1..]));
      InsertStrSorted(s[0], SortStrings(s[1..]));
      InsertStrPermutes(s[0], SortStrings(s[1..]));
    }
  }
}
