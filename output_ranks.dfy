/**
 * The ranking tables of `output_actions/output_actions.py`: `display_rank`
 * sorts rows by an existing rank and shows each repeated rank as '-', and
 * `calculate_and_display_rank` first gives rows their "min" rank by a
 * descending score tuple. Rows are the rank (or score tuple) together with
 * the rest of the row, which the model carries unchanged.
 */
module OutputRanks {
  import opened Order

  /** A row with its rank column moved out. */
  datatype Ranked<T> = Ranked(rank: int, row: T)

  /** The displayed rank column: the rank, or '-' for a rank already shown above. */
  datatype RankCell = Shown(rank: int) | Dash

  /** A displayed row: the rank column first, then the row. */
  datatype Displayed<T> = Displayed(cell: RankCell, row: T)

  // ---------------------------------------------------------------------
  // Stable sort by rank (`sort_values(by=rank_column, ascending=True)`)
  // ---------------------------------------------------------------------

  predicate SortedByRank<T>(s: seq<Ranked<T>>)
  {
    forall i, j :: 0 <= i < j < |s| ==> s[i].rank <= s[j].rank
  }

  /** Inserts `x` before the first row whose rank is not smaller, so ties keep their order. */
  function InsertByRank<T>(x: Ranked<T>, s: seq<Ranked<T>>): seq<Ranked<T>>
  {
    if |s| == 0 then [x]
    else if s[0].rank < x.rank then [s[0]] + InsertByRank(x, s[1..])
    else [x] + s
  }

  /** A stable sort of the rows by ascending rank. */
  function SortByRank<T>(s: seq<Ranked<T>>): seq<Ranked<T>>
  {
    if |s| == 0 then [] else InsertByRank(s[0], SortByRank(s[1..]))
  }

  /** The rows of rank `r`, in their order. */
  function WithRank<T>(s: seq<Ranked<T>>, r: int): (t: seq<Ranked<T>>)
    ensures forall k :: 0 <= k < |t| ==> t[k].rank == r
  {
    if |s| == 0 then []
    else if s[0].rank == r then [s[0]] + WithRank(s[1..], r)
    else WithRank(s[1..], r)
  }

  lemma {:induction false} InsertByRankPermutes<T>(x: Ranked<T>, s: seq<Ranked<T>>)
    ensures multiset(InsertByRank(x, s)) == multiset(s) + multiset{x}
    decreases |s|
  {
    if |s| > 0 && s[0].rank < x.rank {
      InsertByRankPermutes(x, s[1..]);
      assert s == [s[0]] + s[1..];
    }
  }

  lemma {:induction false} InsertByRankSorted<T>(x: Ranked<T>, s: seq<Ranked<T>>)
    requires SortedByRank(s)
    ensures SortedByRank(InsertByRank(x, s))
    ensures |InsertByRank(x, s)| == |s| + 1
    ensures InsertByRank(x, s)[0].rank == (if |s| > 0 && s[0].rank < x.rank then s[0].rank else x.rank)
    decreases |s|
  {
    if |s| > 0 && s[0].rank < x.rank {
      var rest := InsertByRank(x, s[1..]);
      InsertByRankSorted(x, s[1..]);
      var r := [s[0]] + rest;
      forall i, j | 0 <= i < j < |r|
        ensures r[i].rank <= r[j].rank
      {
        if i > 0 {
          assert r[i] == rest[i - 1] && r[j] == rest[j - 1];
        } else {
          assert rest[0].rank >= s[0].rank by {
            if |s| > 1 { assert s[1..][0] == s[1]; }
          }
          assert r[j] == rest[j - 1];
        }
      }
    }
  }

  /** The sorted rows are in ascending rank order. */
  lemma {:induction false} SortByRankSorted<T>(s: seq<Ranked<T>>)
    ensures SortedByRank(SortByRank(s)) && |SortByRank(s)| == |s|
    decreases |s|
  {
    if |s| > 0 {
      SortByRankSorted(s[1..]);
      InsertByRankSorted(s[0], SortByRank(s[1..]));
    }
  }

  /** The sorted rows are the same rows. */
  lemma {:induction false} SortByRankPermutes<T>(s: seq<Ranked<T>>)
    ensures multiset(SortByRank(s)) == multiset(s)
    decreases |s|
  {
    if |s| > 0 {
      SortByRankPermutes(s[1..]);
      InsertByRankPermutes(s[0], SortByRank(s[1..]));
      assert s == [s[0]] + s[1..];
    }
  }

  /** Inserting a row puts it before every row of its own rank. */
  lemma {:induction false} InsertByRankWithRank<T>(x: Ranked<T>, s: seq<Ranked<T>>, r: int)
    ensures WithRank(InsertByRank(x, s), r) == (if x.rank == r then [x] else []) + WithRank(s, r)
    decreases |s|
  {
    if |s| > 0 && s[0].rank < x.rank {
      InsertByRankWithRank(x, s[1..], r);
      assert ([s[0]] + InsertByRank(x, s[1..]))[1..] == InsertByRank(x, s[1..]);
    } else if |s| > 0 {
      assert ([x] + s)[1..] == s;
    }
  }

  /** The sort is stable: the rows of each rank keep their input order. */
  lemma {:induction false} SortByRankStable<T>(s: seq<Ranked<T>>, r: int)
    ensures WithRank(SortByRank(s), r) == WithRank(s, r)
    decreases |s|
  {
    if |s| > 0 {
      SortByRankStable(s[1..], r);
      InsertByRankWithRank(s[0], SortByRank(s[1..]), r);
    }
  }

  /** Rows already in rank order are left where they are. */
  lemma {:induction false} SortByRankOfSorted<T>(s: seq<Ranked<T>>)
    requires SortedByRank(s)
    ensures SortByRank(s) == s
    decreases |s|
  {
    if |s| > 0 {
      assert SortedByRank(s[1..]) by {
        forall i, j | 0 <= i < j < |s[1..]|
          ensures s[1..][i].rank <= s[1..][j].rank
        {
          assert s[1..][i] == s[i + 1] && s[1..][j] == s[j + 1];
        }
      }
      SortByRankOfSorted(s[1..]);
      if |s| > 1 {
        assert s[1..][0] == s[1];
      }
      assert [s[0]] + s[1..] == s;
    }
  }

  // ---------------------------------------------------------------------
  // Masking repeated ranks (`mask(df.duplicated(subset=rank_column), '-')`)
  // ---------------------------------------------------------------------

  /** pandas' `duplicated`: the rank of row `i` already appears in an earlier row. */
  predicate RankSeenBefore<T>(s: seq<Ranked<T>>, i: int)
    requires 0 <= i < |s|
  {
    exists j :: 0 <= j < i && s[j].rank == s[i].rank
  }

  /** The cell shown for row `i`. */
  function CellAt<T>(s: seq<Ranked<T>>, i: int): RankCell
    requires 0 <= i < |s|
  {
    if RankSeenBefore(s, i) then Dash else Shown(s[i].rank)
  }

  /** Each row with its rank cell first. */
  function MaskRepeats<T>(s: seq<Ranked<T>>): (d: seq<Displayed<T>>)
    ensures |d| == |s|
  {
    seq(|s|, i requires 0 <= i < |s| => Displayed(CellAt(s, i), s[i].row))
  }

  /**
   * `display_rank`: sorts by rank, then walks the rows remembering the ranks
   * seen, replacing a rank seen before by '-'.
   */
  method DisplayRank<T>(rows: seq<Ranked<T>>) returns (shown: seq<Displayed<T>>)
    ensures shown == MaskRepeats(SortByRank(rows))
  {
    var sorted := SortByRank(rows);
    var seen: set<int> := {};
    shown := [];
    for i := 0 to |sorted|
      invariant seen == set j | 0 <= j < i :: sorted[j].rank
      invariant |shown| == i
      invariant forall k :: 0 <= k < i ==> shown[k] == Displayed(CellAt(sorted, k), sorted[k].row)
    {
      var cell := if sorted[i].rank in seen then Dash else Shown(sorted[i].rank);
      assert cell == CellAt(sorted, i);
      shown := shown + [Displayed(cell, sorted[i].row)];
      seen := seen + {sorted[i].rank};
    }
  }

  /** In rank order, a rank is shown as '-' exactly when the row above has the same rank. */
  lemma DashIffSameAsAbove<T>(s: seq<Ranked<T>>, i: int)
    requires SortedByRank(s) && 0 <= i < |s|
    ensures CellAt(s, i) == Dash <==> i > 0 && s[i - 1].rank == s[i].rank
  {
    if RankSeenBefore(s, i) {
      var j :| 0 <= j < i && s[j].rank == s[i].rank;
      assert s[j].rank <= s[i - 1].rank <= s[i].rank;
    }
  }

  /** Every rank is shown on exactly the first row that has it. */
  lemma ShownOnFirstRow<T>(s: seq<Ranked<T>>, i: int)
    requires 0 <= i < |s|
    ensures CellAt(s, i) == Shown(s[i].rank) <==> forall j :: 0 <= j < i ==> s[j].rank != s[i].rank
    ensures CellAt(s, i) == Dash <==> !(forall j :: 0 <= j < i ==> s[j].rank != s[i].rank)
  {
  }

  /** Two rows that both show their rank show different ranks. */
  lemma ShownRanksDistinct<T>(s: seq<Ranked<T>>, i: int, j: int)
    requires 0 <= i < j < |s| && CellAt(s, i).Shown? && CellAt(s, j).Shown?
    ensures CellAt(s, i).rank != CellAt(s, j).rank
  {
    assert !RankSeenBefore(s, j);
  }

  /**
   * The ranks 4, 2, 1, 2 of rows a, b, c, d display as 1, 2, '-', 4 with
   * the rows c, b, d, a: the two rows of rank 2 keep their order.
   */
  lemma DisplayRankExample<T>(a: T, b: T, c: T, d: T)
    ensures MaskRepeats(SortByRank([Ranked(4, a), Ranked(2, b), Ranked(1, c), Ranked(2, d)]))
         == [Displayed(Shown(1), c), Displayed(Shown(2), b), Displayed(Dash, d), Displayed(Shown(4), a)]
  {
    var s := [Ranked(4, a), Ranked(2, b), Ranked(1, c), Ranked(2, d)];
    assert s[1..][1..][1..] == [Ranked(2, d)];
    assert SortByRank(s[1..][1..][1..]) == [Ranked(2, d)];
    assert InsertByRank(Ranked(1, c), [Ranked(2, d)]) == [Ranked(1, c), Ranked(2, d)];
    assert SortByRank(s[1..][1..]) == [Ranked(1, c), Ranked(2, d)];
    assert InsertByRank(Ranked(2, b), [Ranked(2, d)]) == [Ranked(2, b), Ranked(2, d)];
    assert InsertByRank(Ranked(2, b), [Ranked(1, c), Ranked(2, d)]) == [Ranked(1, c), Ranked(2, b), Ranked(2, d)];
    assert SortByRank(s[1..]) == [Ranked(1, c), Ranked(2, b), Ranked(2, d)];
    assert InsertByRank(Ranked(4, a), [Ranked(2, d)]) == [Ranked(2, d), Ranked(4, a)];
    assert InsertByRank(Ranked(4, a), [Ranked(2, b), Ranked(2, d)]) == [Ranked(2, b), Ranked(2, d), Ranked(4, a)];
    var sorted := [Ranked(1, c), Ranked(2, b), Ranked(2, d), Ranked(4, a)];
    assert SortByRank(s) == sorted;
    assert sorted[1].rank == sorted[2].rank;
    assert RankSeenBefore(sorted, 2);
    assert !RankSeenBefore(sorted, 1) && !RankSeenBefore(sorted, 3);
  }

  // ---------------------------------------------------------------------
  // `calculate_and_display_rank`
  // ---------------------------------------------------------------------

  /** A row with the values of its ranking columns, in column order. */
  datatype Scored<T> = Scored(key: seq<int>, row: T)

  /** Descending by the column tuple: no row has a smaller tuple than a row after it. */
  predicate SortedDescending<T>(s: seq<Scored<T>>)
  {
    forall i, j :: 0 <= i < j < |s| ==> !IntsLess(s[i].key, s[j].key)
  }

  /** Inserts `x` after the rows with a greater tuple, before ties. */
  function InsertDescending<T>(x: Scored<T>, s: seq<Scored<T>>): seq<Scored<T>>
  {
    if |s| == 0 then [x]
    else if IntsLess(x.key, s[0].key) then [s[0]] + InsertDescending(x, s[1..])
    else [x] + s
  }

  /** `sort_values(by=columns, ascending=False)`, stable. */
  function SortDescending<T>(s: seq<Scored<T>>): seq<Scored<T>>
  {
    if |s| == 0 then [] else InsertDescending(s[0], SortDescending(s[1..]))
  }

  lemma {:induction false} InsertDescendingPermutes<T>(x: Scored<T>, s: seq<Scored<T>>)
    ensures multiset(InsertDescending(x, s)) == multiset(s) + multiset{x}
    decreases |s|
  {
    if |s| > 0 && IntsLess(x.key, s[0].key) {
      InsertDescendingPermutes(x, s[1..]);
      assert s == [s[0]] + s[1..];
    }
  }

  lemma {:induction false} SortDescendingPermutes<T>(s: seq<Scored<T>>)
    ensures multiset(SortDescending(s)) == multiset(s)
    decreases |s|
  {
    if |s| > 0 {
      SortDescendingPermutes(s[1..]);
      InsertDescendingPermutes(s[0], SortDescending(s[1..]));
      assert s == [s[0]] + s[1..];
    }
  }

  lemma ConsDescending<T>(h: Scored<T>, t: seq<Scored<T>>)
    requires SortedDescending(t)
    requires forall j :: 0 <= j < |t| ==> !IntsLess(h.key, t[j].key)
    ensures SortedDescending([h] + t)
  {
    var r := [h] + t;
    forall i, j | 0 <= i < j < |r|
      ensures !IntsLess(r[i].key, r[j].key)
    {
      assert r[j] == t[j - 1];
      if i > 0 {
        assert r[i] == t[i - 1];
      }
    }
  }

  lemma {:induction false} InsertDescendingSorted<T>(x: Scored<T>, s: seq<Scored<T>>)
    requires SortedDescending(s)
    ensures SortedDescending(InsertDescending(x, s))
    decreases |s|
  {
    if |s| == 0 {
    } else if IntsLess(x.key, s[0].key) {
      var rest := InsertDescending(x, s[1..]);
      assert SortedDescending(s[1..]) by {
        forall i, j | 0 <= i < j < |s[1..]|
          ensures !IntsLess(s[1..][i].key, s[1..][j].key)
        {
          assert s[1..][j] == s[j + 1] && s[1..][i] == s[i + 1];
        }
      }
      InsertDescendingSorted(x, s[1..]);
      InsertDescendingPermutes(x, s[1..]);
      forall j | 0 <= j < |rest|
        ensures !IntsLess(s[0].key, rest[j].key)
      {
        assert rest[j] in multiset(rest);
        if rest[j] == x {
          IntsLessAsymmetric(x.key, s[0].key);
        } else {
          assert rest[j] in multiset(s[1..]);
          var k :| 0 <= k < |s[1..]| && s[1..][k] == rest[j];
          assert s[k + 1] == rest[j];
        }
      }
      ConsDescending(s[0], rest);
    } else {
      forall j | 0 <= j < |s|
        ensures !IntsLess(x.key, s[j].key)
      {
        if j > 0 && IntsLess(x.key, s[j].key) {
          IntsLessTotal(x.key, s[0].key);
          if IntsLess(s[0].key, x.key) {
            IntsLessTransitive(s[0].key, x.key, s[j].key);
          }
        }
      }
      ConsDescending(x, s);
    }
  }

  /** The sorted rows are in descending tuple order. */
  lemma {:induction false} SortDescendingSorted<T>(s: seq<Scored<T>>)
    ensures SortedDescending(SortDescending(s))
    decreases |s|
  {
    if |s| > 0 {
      SortDescendingSorted(s[1..]);
      InsertDescendingSorted(s[0], SortDescending(s[1..]));
    }
  }

  /** The number of rows whose tuple is greater than `k`. */
  function CountGreater<T>(s: seq<Scored<T>>, k: seq<int>): (n: nat)
    ensures n <= |s|
  {
    if |s| == 0 then 0
    else (if IntsLess(k, s[0].key) then 1 else 0) + CountGreater(s[1..], k)
  }

  /** `rank(method='min', ascending=False)`: one more than the number of greater tuples. */
  function MinRank<T>(s: seq<Scored<T>>, k: seq<int>): int
  {
    1 + CountGreater(s, k)
  }

  /** Each row given its min rank among all the rows. */
  function RankRows<T>(s: seq<Scored<T>>): (r: seq<Ranked<Scored<T>>>)
    ensures |r| == |s|
  {
    seq(|s|, i requires 0 <= i < |s| => Ranked(MinRank(s, s[i].key), s[i]))
  }

  /**
   * `calculate_and_display_rank`: sorts the rows by descending tuple, gives
   * each its min rank, and displays them by rank.
   */
  method CalculateAndDisplayRank<T>(rows: seq<Scored<T>>) returns (shown: seq<Displayed<Scored<T>>>)
    ensures shown == MaskRepeats(RankRows(SortDescending(rows)))
    ensures multiset(SortDescending(rows)) == multiset(rows) && SortedDescending(SortDescending(rows))
  {
    var sorted := SortDescending(rows);
    SortDescendingSorted(rows);
    SortDescendingPermutes(rows);
    var ranked := RankRows(sorted);
    RankRowsSorted(sorted);
    SortByRankOfSorted(ranked);
    shown := DisplayRank(ranked);
  }

  lemma {:induction false} CountGreaterAppend<T>(a: seq<Scored<T>>, b: seq<Scored<T>>, k: seq<int>)
    ensures CountGreater(a + b, k) == CountGreater(a, k) + CountGreater(b, k)
    decreases |a|
  {
    if |a| == 0 {
      assert a + b == b;
    } else {
      assert (a + b)[1..] == a[1..] + b;
      CountGreaterAppend(a[1..], b, k);
    }
  }

  /** Counting rows all greater than `k`, or none greater, gives all of them, or none. */
  lemma {:induction false} CountGreaterAllOrNone<T>(s: seq<Scored<T>>, k: seq<int>, all: bool)
    requires forall j :: 0 <= j < |s| ==> IntsLess(k, s[j].key) == all
    ensures CountGreater(s, k) == if all then |s| else 0
    decreases |s|
  {
    if |s| > 0 {
      assert forall j :: 0 <= j < |s[1..]| ==> s[1..][j] == s[j + 1];
      CountGreaterAllOrNone(s[1..], k, all);
    }
  }

  /**
   * In descending order, the min rank of a row is one more than the
   * position of the first row tied with it.
   */
  lemma MinRankIsFirstTie<T>(s: seq<Scored<T>>, f: int, i: int)
    requires SortedDescending(s)
    requires 0 <= f <= i < |s| && s[f].key == s[i].key
    requires forall j :: 0 <= j < f ==> s[j].key != s[i].key
    ensures MinRank(s, s[i].key) == f + 1
  {
    var k := s[i].key;
    forall j | 0 <= j < |s[..f]|
      ensures IntsLess(k, s[..f][j].key)
    {
      assert s[..f][j] == s[j];
      IntsLessTotal(s[j].key, k);
    }
    forall j | 0 <= j < |s[f..]|
      ensures !IntsLess(k, s[f..][j].key)
    {
      assert s[f..][j] == s[f + j];
      if j == 0 {
        IntsLessIrreflexive(k);
      }
    }
    CountGreaterAllOrNone(s[..f], k, true);
    CountGreaterAllOrNone(s[f..], k, false);
    CountGreaterAppend(s[..f], s[f..], k);
    assert s[..f] + s[f..] == s;
  }

  /** Every row greater than `b` is greater than a smaller `a`, and so is a row equal to `b`. */
  lemma {:induction false} CountGreaterMonotone<T>(s: seq<Scored<T>>, a: seq<int>, b: seq<int>, w: int)
    requires IntsLess(a, b) && 0 <= w < |s| && s[w].key == b
    ensures CountGreater(s, b) < CountGreater(s, a)
    decreases |s|
  {
    if w == 0 {
      IntsLessIrreflexive(b);
      CountGreaterWeaklyMonotone(s[1..], a, b);
    } else {
      assert s[1..][w - 1] == s[w];
      CountGreaterMonotone(s[1..], a, b, w - 1);
      if IntsLess(b, s[0].key) {
        IntsLessTransitive(a, b, s[0].key);
      }
    }
  }

  lemma {:induction false} CountGreaterWeaklyMonotone<T>(s: seq<Scored<T>>, a: seq<int>, b: seq<int>)
    requires IntsLess(a, b)
    ensures CountGreater(s, b) <= CountGreater(s, a)
    decreases |s|
  {
    if |s| > 0 {
      CountGreaterWeaklyMonotone(s[1..], a, b);
      if IntsLess(b, s[0].key) {
        IntsLessTransitive(a, b, s[0].key);
      }
    }
  }

  /** A row ranks after every row with a greater tuple. */
  lemma GreaterRanksFirst<T>(s: seq<Scored<T>>, i: int, j: int)
    requires 0 <= i < |s| && 0 <= j < |s| && IntsLess(s[j].key, s[i].key)
    ensures MinRank(s, s[i].key) < MinRank(s, s[j].key)
  {
    CountGreaterMonotone(s, s[j].key, s[i].key, i);
  }

  /** The ranks of rows in descending tuple order ascend. */
  lemma RankRowsSorted<T>(s: seq<Scored<T>>)
    requires SortedDescending(s)
    ensures SortedByRank(RankRows(s))
  {
    var r := RankRows(s);
    forall i, j | 0 <= i < j < |r|
      ensures r[i].rank <= r[j].rank
    {
      IntsLessTotal(s[i].key, s[j].key);
      if IntsLess(s[j].key, s[i].key) {
        GreaterRanksFirst(s, i, j);
      }
    }
  }

  /** After ranking, a row shows '-' exactly when its tuple equals the one above. */
  lemma DashIffTiedWithAbove<T>(s: seq<Scored<T>>, i: int)
    requires SortedDescending(s) && 0 <= i < |s|
    ensures CellAt(RankRows(s), i) == Dash <==> i > 0 && s[i - 1].key == s[i].key
  {
    RankRowsSorted(s);
    DashIffSameAsAbove(RankRows(s), i);
    if i > 0 && s[i - 1].key != s[i].key {
      IntsLessTotal(s[i - 1].key, s[i].key);
      GreaterRanksFirst(s, i - 1, i);
    }
  }

  /**
   * Scores 10, 20, 20 rank as 1, '-', 3 on the rows 20, 20, 10 (for any two
   * scores, the higher one twice).
   */
  lemma CalculateRankExample<T>(low: int, high: int, x: T, y: T, z: T)
    requires low < high
    ensures var s := SortDescending([Scored([low], x), Scored([high], y), Scored([high], z)]);
      s == [Scored([high], y), Scored([high], z), Scored([low], x)] &&
      MaskRepeats(RankRows(s)) == [Displayed(Shown(1), s[0]), Displayed(Dash, s[1]), Displayed(Shown(3), s[2])]
  {
    var input := [Scored([low], x), Scored([high], y), Scored([high], z)];
    assert IntsLess([low], [high]);
    assert !IntsLess([high], [high]) by { IntsLessIrreflexive([high]); }
    assert !IntsLess([high], [low]) by { IntsLessAsymmetric([low], [high]); }
    assert input[1..][1..] == [Scored([high], z)];
    assert SortDescending(input[1..][1..]) == [Scored([high], z)];
    assert InsertDescending(Scored([high], y), [Scored([high], z)]) == [Scored([high], y), Scored([high], z)];
    assert SortDescending(input[1..]) == [Scored([high], y), Scored([high], z)];
    assert InsertDescending(Scored([low], x), [Scored([high], z)]) == [Scored([high], z), Scored([low], x)];
    var s := [Scored([high], y), Scored([high], z), Scored([low], x)];
    assert SortDescending(input) == s;
    assert SortedDescending(s);
    MinRankIsFirstTie(s, 0, 0);
    MinRankIsFirstTie(s, 0, 1);
    MinRankIsFirstTie(s, 2, 2);
    DashIffTiedWithAbove(s, 0);
    DashIffTiedWithAbove(s, 1);
    DashIffTiedWithAbove(s, 2);
  }
}
