/** Python's ordering of `str` values: lexicographic by code point, with a
    proper prefix sorting before the longer string. The dashboard compares
    date strings this way and `sorted` orders the label values this way. */
module StrOrder {

  /** Python's `a <= b` on two strings. */
  predicate LexLe(a: string, b: string)
    decreases |a|
  {
    if |a| == 0 then true
    else if |b| == 0 then false
    else if a[0] != b[0] then a[0] < b[0]
    else LexLe(a[1..], b[1..])
  }

  /** Python's `a < b` on two strings. */
  predicate LexLt(a: string, b: string)
  {
    LexLe(a, b) && a != b
  }

  lemma {:induction false} LexLeReflexive(a: string)
    ensures LexLe(a, a)
  {
    if |a| > 0 {
      LexLeReflexive(a[1..]);
    }
  }

  lemma {:induction false} LexLeAntisymmetric(a: string, b: string)
    requires LexLe(a, b) && LexLe(b, a)
    ensures a == b
  {
    if |a| > 0 && |b| > 0 {
      LexLeAntisymmetric(a[1..], b[1..]);
      assert a == [a[0]] + a[1..];
      assert b == [b[0]] + b[1..];
    }
  }

  lemma {:induction false} LexLeTransitive(a: string, b: string, c: string)
    requires LexLe(a, b) && LexLe(b, c)
    ensures LexLe(a, c)
    decreases |a|
  {
    if |a| > 0 && a[0] == b[0] && b[0] == c[0] {
      LexLeTransitive(a[1..], b[1..], c[1..]);
    }
  }

  lemma {:induction false} LexLeTotal(a: string, b: string)
    ensures LexLe(a, b) || LexLe(b, a)
    decreases |a|
  {
    if |a| > 0 && |b| > 0 && a[0] == b[0] {
      LexLeTotal(a[1..], b[1..]);
    }
  }

  /** Every element is strictly below every later one: sorted, no duplicates. */
  predicate StrictlySorted(s: seq<string>)
  {
    forall i, j :: 0 <= i < j < |s| ==> LexLt(s[i], s[j])
  }

  lemma ConsSorted(x: string, s: seq<string>)
    requires StrictlySorted(s)
    requires forall y :: y in s ==> LexLt(x, y)
    ensures StrictlySorted([x] + s)
  {
    var r := [x] + s;
    forall i, j | 0 <= i < j < |r|
      ensures LexLt(r[i], r[j])
    {
      if i > 0 {
        assert r[i] == s[i - 1] && r[j] == s[j - 1];
      } else {
        assert r[j] == s[j - 1];
      }
    }
  }

  lemma BelowHeadBelowAll(x: string, s: seq<string>)
    requires StrictlySorted(s) && |s| > 0
    requires LexLt(x, s[0])
    ensures forall y :: y in s ==> LexLt(x, y)
  {
    forall y | y in s
      ensures LexLt(x, y)
    {
      var j :| 0 <= j < |s| && s[j] == y;
      if j > 0 {
        LexLeTransitive(x, s[0], y);
        if x == y {
          LexLeAntisymmetric(s[0], y);
        }
      }
    }
  }

  /** Inserts `x` into a strictly sorted list unless it is already there. */
  function InsertSorted(x: string, s: seq<string>): (r: seq<string>)
    requires StrictlySorted(s)
    ensures StrictlySorted(r)
    ensures forall y :: y in r <==> y == x || y in s
    decreases |s|
  {
    if |s| == 0 then [x]
    else if x == s[0] then s
    else if LexLe(x, s[0]) then
      BelowHeadBelowAll(x, s);
      ConsSorted(x, s);
      [x] + s
    else
      LexLeTotal(x, s[0]);
      assert StrictlySorted(s[1..]) by {
        forall i, j | 0 <= i < j < |s[1..]|
          ensures LexLt(s[1..][i], s[1..][j])
        {
          assert s[1..][i] == s[i + 1] && s[1..][j] == s[j + 1];
        }
      }
      var rest := InsertSorted(x, s[1..]);
      assert forall y :: y in s[1..] ==> LexLt(s[0], y) by {
        forall y | y in s[1..]
          ensures LexLt(s[0], y)
        {
          var j :| 0 <= j < |s[1..]| && s[1..][j] == y;
          assert s[j + 1] == y;
        }
      }
      ConsSorted(s[0], rest);
      assert forall y :: y in s <==> y == s[0] || y in s[1..] by {
        assert s == [s[0]] + s[1..];
      }
      [s[0]] + rest
  }

  /** Python's `sorted(set(xs))`: the distinct values of `xs` in ascending order. */
  function SortedDistinct(xs: seq<string>): (r: seq<string>)
    ensures StrictlySorted(r)
    ensures forall y :: y in r <==> y in xs
  {
    if |xs| == 0 then []
    else
      var front := xs[..|xs| - 1];
      assert xs == front + [xs[|xs| - 1]];
      InsertSorted(xs[|xs| - 1], SortedDistinct(front))
  }
}
