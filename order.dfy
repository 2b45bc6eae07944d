/**
 * Python's comparison of strings (code point by code point, a proper prefix
 * first) and of tuples of integers, which pandas' `sort_values` and `rank`
 * use on the columns they are given.
 */
module Order {

  /** Python's `a < b` on `str`. */
  predicate StrLess(a: string, b: string)
  {
    if |a| == 0 then |b| > 0
    else if |b| == 0 then false
    else a[0] < b[0] || (a[0] == b[0] && StrLess(a[1..], b[1..]))
  }

  predicate StrLe(a: string, b: string)
  {
    a == b || StrLess(a, b)
  }

  lemma {:induction false} StrLessIrreflexive(a: string)
    ensures !StrLess(a, a)
    decreases |a|
  {
    if |a| > 0 {
      StrLessIrreflexive(a[1..]);
    }
  }

  lemma {:induction false} StrLessTransitive(a: string, b: string, c: string)
    requires StrLess(a, b) && StrLess(b, c)
    ensures StrLess(a, c)
    decreases |a|
  {
    if |a| > 0 && a[0] == b[0] && b[0] == c[0] {
      StrLessTransitive(a[1..], b[1..], c[1..]);
    }
  }

  lemma {:induction false} StrLessTotal(a: string, b: string)
    ensures a == b || StrLess(a, b) || StrLess(b, a)
    decreases |a|
  {
    if |a| > 0 && |b| > 0 && a[0] == b[0] {
      StrLessTotal(a[1..], b[1..]);
      if a[1..] == b[1..] {
        assert a == [a[0]] + a[1..] && b == [b[0]] + b[1..];
      }
    }
  }

  lemma StrLessAsymmetric(a: string, b: string)
    requires StrLess(a, b)
    ensures !StrLess(b, a)
  {
    if StrLess(b, a) {
      StrLessTransitive(a, b, a);
      StrLessIrreflexive(a);
    }
  }

  lemma StrLeTransitive(a: string, b: string, c: string)
    requires StrLe(a, b) && StrLe(b, c)
    ensures StrLe(a, c)
  {
    if a != b && b != c {
      StrLessTransitive(a, b, c);
    }
  }

  lemma StrLeTotal(a: string, b: string)
    ensures StrLe(a, b) || StrLe(b, a)
  {
    StrLessTotal(a, b);
  }

  /** Python's `a < b` on tuples of integers. */
  predicate IntsLess(a: seq<int>, b: seq<int>)
  {
    if |a| == 0 then |b| > 0
    else if |b| == 0 then false
    else a[0] < b[0] || (a[0] == b[0] && IntsLess(a[1..], b[1..]))
  }

  predicate IntsLe(a: seq<int>, b: seq<int>)
  {
    a == b || IntsLess(a, b)
  }

  lemma {:induction false} IntsLessIrreflexive(a: seq<int>)
    ensures !IntsLess(a, a)
    decreases |a|
  {
    if |a| > 0 {
      IntsLessIrreflexive(a[1..]);
    }
  }

  lemma {:induction false} IntsLessTransitive(a: seq<int>, b: seq<int>, c: seq<int>)
    requires IntsLess(a, b) && IntsLess(b, c)
    ensures IntsLess(a, c)
    decreases |a|
  {
    if |a| > 0 && a[0] == b[0] && b[0] == c[0] {
      IntsLessTransitive(a[1..], b[1..], c[1..]);
    }
  }

  lemma {:induction false} IntsLessTotal(a: seq<int>, b: seq<int>)
    ensures a == b || IntsLess(a, b) || IntsLess(b, a)
    decreases |a|
  {
    if |a| > 0 && |b| > 0 && a[0] == b[0] {
      IntsLessTotal(a[1..], b[1..]);
      if a[1..] == b[1..] {
        assert a == [a[0]] + a[1..] && b == [b[0]] + b[1..];
      }
    }
  }

  lemma IntsLessAsymmetric(a: seq<int>, b: seq<int>)
    requires IntsLess(a, b)
    ensures !IntsLess(b, a)
  {
    if IntsLess(b, a) {
      IntsLessTransitive(a, b, a);
      IntsLessIrreflexive(a);
    }
  }

  lemma IntsLeTransitive(a: seq<int>, b: seq<int>, c: seq<int>)
    requires IntsLe(a, b) && IntsLe(b, c)
    ensures IntsLe(a, c)
  {
    if a != b && b != c {
      IntsLessTransitive(a, b, c);
    }
  }
}
