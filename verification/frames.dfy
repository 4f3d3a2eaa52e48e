/** Row selection on the record table: pandas' `df[mask]`, which keeps the
    rows whose mask entry is true, in table order, without altering them. */
module Frames {
  import opened StrOrder
  import opened Records

  /** The row conditions the dashboard builds its masks from. */
  datatype Cond =
    | Always
    | DateEq(day: string)
    | DateIn(first: string, last: string)
    | LabelIn(wanted: seq<string>)
    | HourGroupIn(groups: seq<string>)
    | And(left: Cond, right: Cond)

  /** The mask entry of condition `c` for row `r`. */
  predicate Holds(c: Cond, r: Record)
  {
    match c
    case Always => true
    case DateEq(day) => r.date == day
    case DateIn(first, last) => LexLe(first, r.date) && LexLe(r.date, last)
    case LabelIn(wanted) => r.labels in wanted
    case HourGroupIn(groups) => r.workingHourGroup in groups
    case And(left, right) => Holds(left, r) && Holds(right, r)
  }

  /** `u` can be obtained from `t` by deleting elements. */
  predicate IsSubsequence<T(==)>(u: seq<T>, t: seq<T>)
    decreases |t|
  {
    if |u| == 0 then true
    else if |t| == 0 then false
    else (u[0] == t[0] && IsSubsequence(u[1..], t[1..])) || IsSubsequence(u, t[1..])
  }

  lemma {:induction false} SubsequenceTransitive<T>(a: seq<T>, b: seq<T>, c: seq<T>)
    requires IsSubsequence(a, b) && IsSubsequence(b, c)
    ensures IsSubsequence(a, c)
    decreases |c|
  {
    if |a| > 0 {
      if IsSubsequence(b, c[1..]) {
        SubsequenceTransitive(a, b, c[1..]);
      } else if a[0] == b[0] && IsSubsequence(a[1..], b[1..]) {
        SubsequenceTransitive(a[1..], b[1..], c[1..]);
      } else {
        SubsequenceTransitive(a, b[1..], c[1..]);
      }
    }
  }

  /** `t[Holds(c)]`: the rows of `t` satisfying `c`, in their original order. */
  function Where(t: seq<Record>, c: Cond): (u: seq<Record>)
    ensures forall r :: r in u <==> r in t && Holds(c, r)
    ensures IsSubsequence(u, t)
  {
    if |t| == 0 then []
    else if Holds(c, t[0]) then
      var u := [t[0]] + Where(t[1..], c);
      assert u[1..] == Where(t[1..], c);
      u
    else Where(t[1..], c)
  }

  /** Every passing row is kept as often as it occurs in the table, every
      failing row not at all. */
  lemma {:induction false} WhereCounts(t: seq<Record>, c: Cond)
    ensures forall r :: multiset(Where(t, c))[r] == if Holds(c, r) then multiset(t)[r] else 0
  {
    if |t| > 0 {
      WhereCounts(t[1..], c);
      assert t == [t[0]] + t[1..];
    }
  }

  /** Each row is judged on its own: selecting from a concatenation is the
      concatenation of the selections. */
  lemma {:induction false} WhereConcat(a: seq<Record>, b: seq<Record>, c: Cond)
    ensures Where(a + b, c) == Where(a, c) + Where(b, c)
  {
    if |a| == 0 {
      assert a + b == b;
    } else {
      assert (a + b)[0] == a[0];
      assert (a + b)[1..] == a[1..] + b;
      WhereConcat(a[1..], b, c);
    }
  }

  /** A selection changes nothing exactly when every row passes. */
  lemma {:induction false} WhereKeepsAll(t: seq<Record>, c: Cond)
    ensures Where(t, c) == t <==> forall r :: r in t ==> Holds(c, r)
  {
    if |t| > 0 && forall r :: r in t ==> Holds(c, r) {
      WhereKeepsAll(t[1..], c);
      assert t == [t[0]] + t[1..];
    }
  }

  /** A condition no row satisfies selects nothing. */
  lemma {:induction false} WhereNone(t: seq<Record>, c: Cond)
    requires forall r :: r in t ==> !Holds(c, r)
    ensures Where(t, c) == []
  {
    if |t| > 0 {
      WhereNone(t[1..], c);
    }
  }

  /** Selecting twice with the same condition is selecting once. */
  lemma WhereIdempotent(t: seq<Record>, c: Cond)
    ensures Where(Where(t, c), c) == Where(t, c)
  {
    WhereKeepsAll(Where(t, c), c);
  }

  /** Two selections in a row are one selection on the conjunction. */
  lemma {:induction false} WhereAnd(t: seq<Record>, a: Cond, b: Cond)
    ensures Where(Where(t, a), b) == Where(t, And(a, b))
  {
    if |t| > 0 {
      WhereAnd(t[1..], a, b);
      if Holds(a, t[0]) {
        var u := [t[0]] + Where(t[1..], a);
        assert u[0] == t[0] && u[1..] == Where(t[1..], a);
      }
    }
  }

  /** Conditions that agree on every row of `t` select the same rows. */
  lemma {:induction false} WhereCongruent(t: seq<Record>, a: Cond, b: Cond)
    requires forall r :: r in t ==> (Holds(a, r) <==> Holds(b, r))
    ensures Where(t, a) == Where(t, b)
  {
    if |t| > 0 {
      WhereCongruent(t[1..], a, b);
    }
  }

  /** The order in which selections are applied does not matter. */
  lemma WhereCommutes(t: seq<Record>, a: Cond, b: Cond)
    ensures Where(Where(t, a), b) == Where(Where(t, b), a)
  {
    WhereAnd(t, a, b);
    WhereAnd(t, b, a);
    WhereCongruent(t, And(a, b), And(b, a));
  }
}
