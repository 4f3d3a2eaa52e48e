/** The Python string operations the chart titles are built from:
    `s.split(sep)`, `s.split()` and `glue.join(parts)`. */
module Text {

  /** `s.split(sep)` for a one-character separator: every occurrence cuts,
      and empty pieces are kept. */
  function SplitOn(s: string, sep: char): (parts: seq<string>)
    ensures |parts| >= 1
    ensures forall i :: 0 <= i < |parts| ==> sep !in parts[i]
    decreases |s|
  {
    if |s| == 0 then [""]
    else
      var rest := SplitOn(s[1..], sep);
      if s[0] == sep then [""] + rest
      else [[s[0]] + rest[0]] + rest[1..]
  }

  /** The summed lengths of `parts`. */
  function TotalLength(parts: seq<string>): nat
  {
    if |parts| == 0 then 0 else |parts[0]| + TotalLength(parts[1..])
  }

  /** `glue.join(parts)`: the parts in order, one `glue` between neighbours. */
  function Join(parts: seq<string>, glue: string): (s: string)
    ensures |parts| > 0 ==> parts[0] <= s
    ensures |parts| > 0 ==> |s| == TotalLength(parts) + (|parts| - 1) * |glue|
  {
    if |parts| == 0 then ""
    else if |parts| == 1 then parts[0]
    else parts[0] + glue + Join(parts[1..], glue)
  }

  /** Every `from` in `s` replaced by `to`. */
  function Replace(s: string, from: char, to: char): string
  {
    seq(|s|, i requires 0 <= i < |s| => if s[i] == from then to else s[i])
  }

  lemma JoinExtendsHead(c: char, parts: seq<string>, glue: string)
    requires |parts| >= 1
    ensures Join([[c] + parts[0]] + parts[1..], glue) == [c] + Join(parts, glue)
  {
    var ps := [[c] + parts[0]] + parts[1..];
    assert ps[1..] == parts[1..];
  }

  /** Splitting on one character and joining with another replaces the first
      character by the second. */
  lemma {:induction false} SplitJoinReplaces(s: string, sep: char, glue: char)
    ensures Join(SplitOn(s, sep), [glue]) == Replace(s, sep, glue)
    decreases |s|
  {
    if |s| > 0 {
      var rest := SplitOn(s[1..], sep);
      SplitJoinReplaces(s[1..], sep, glue);
      assert Replace(s, sep, glue) == Replace(s[..1], sep, glue) + Replace(s[1..], sep, glue);
      if s[0] == sep {
        assert ([""] + rest)[1..] == rest;
      } else {
        JoinExtendsHead(s[0], rest, [glue]);
      }
    }
  }

  /** Joining the pieces with the separator they were split on gives the
      original string back. */
  lemma SplitJoinRoundTrip(s: string, sep: char)
    ensures Join(SplitOn(s, sep), [sep]) == s
  {
    SplitJoinReplaces(s, sep, sep);
  }

  /** The characters `str.split()` treats as whitespace. */
  predicate IsSpace(c: char)
  {
    var n := c as int;
    || n == 0x20 || 0x09 <= n <= 0x0D || 0x1C <= n <= 0x1F
    || n == 0x85 || n == 0xA0 || n == 0x1680 || 0x2000 <= n <= 0x200A
    || n == 0x2028 || n == 0x2029 || n == 0x202F || n == 0x205F || n == 0x3000
  }

  predicate NoSpace(w: string)
  {
    forall j :: 0 <= j < |w| ==> !IsSpace(w[j])
  }

  /** A piece `str.split()` can return: non-empty and free of whitespace. */
  predicate IsWord(w: string)
  {
    |w| > 0 && NoSpace(w)
  }

  /** `s.split()`: the maximal whitespace-free runs of `s`, in order. */
  function Words(s: string): (ws: seq<string>)
    ensures forall i :: 0 <= i < |ws| ==> IsWord(ws[i])
    ensures |s| > 0 && !IsSpace(s[0]) ==> |ws| > 0 && |ws[0]| > 0 && ws[0][0] == s[0]
    decreases |s|
  {
    if |s| == 0 then []
    else
      var rest := Words(s[1..]);
      if IsSpace(s[0]) then rest
      else if |s| > 1 && !IsSpace(s[1]) then [[s[0]] + rest[0]] + rest[1..]
      else [[s[0]]] + rest
  }

  /** A word followed by whitespace, or by nothing, splits off as one piece. */
  lemma {:induction false} WordsAfterWord(w: string, s: string)
    requires IsWord(w)
    requires |s| == 0 || IsSpace(s[0])
    ensures Words(w + s) == [w] + Words(s)
    decreases |w|
  {
    var ws := w + s;
    assert ws[1..] == w[1..] + s;
    if |w| > 1 {
      WordsAfterWord(w[1..], s);
      assert ws[1] == w[1];
      assert [w[0]] + w[1..] == w;
    } else {
      assert ws[1..] == s;
      assert [w[0]] == w;
    }
  }

  /** A whitespace-free string splits into itself alone, or into nothing when empty. */
  lemma WordsOfWord(w: string)
    requires NoSpace(w)
    ensures Words(w) == if |w| == 0 then [] else [w]
  {
    if |w| > 0 {
      WordsAfterWord(w, "");
      assert w + "" == w;
    }
  }

  /** Splitting on whitespace undoes joining words with single spaces. */
  lemma {:induction false} WordsOfJoin(ws: seq<string>)
    requires forall i :: 0 <= i < |ws| ==> IsWord(ws[i])
    ensures Words(Join(ws, " ")) == ws
  {
    if |ws| == 1 {
      WordsOfWord(ws[0]);
    } else if |ws| > 1 {
      WordsOfJoin(ws[1..]);
      var tail := " " + Join(ws[1..], " ");
      assert ws[0] + " " + Join(ws[1..], " ") == ws[0] + tail;
      WordsAfterWord(ws[0], tail);
      assert tail[1..] == Join(ws[1..], " ");
      assert ws == [ws[0]] + ws[1..];
    }
  }
  /** A run of whitespace, possibly empty. */
  predicate AllSpace(g: string)
  {
    forall j :: 0 <= j < |g| ==> IsSpace(g[j])
  }

  /** `gaps` can surround `n` words: all whitespace, one more gap than words,
      and every gap between two words non-empty. */
  predicate SpacedBy(gaps: seq<string>, n: nat)
  {
    && |gaps| == n + 1
    && (forall i :: 0 <= i < |gaps| ==> AllSpace(gaps[i]))
    && (forall i :: 0 < i < n ==> |gaps[i]| > 0)
  }

  /** `gaps[0] + ws[0] + gaps[1] + ... + ws[n-1] + gaps[n]`. */
  function Interleave(gaps: seq<string>, ws: seq<string>): string
    requires |gaps| == |ws| + 1
    decreases |ws|
  {
    if |ws| == 0 then gaps[0]
    else gaps[0] + ws[0] + Interleave(gaps[1..], ws[1..])
  }

  lemma InterleaveLeadingSpace(c: char, gaps: seq<string>, ws: seq<string>)
    requires |gaps| == |ws| + 1
    ensures Interleave([[c] + gaps[0]] + gaps[1..], ws) == [c] + Interleave(gaps, ws)
  {
    var gs := [[c] + gaps[0]] + gaps[1..];
    if |ws| > 0 {
      assert gs[1..] == gaps[1..];
    }
  }

  lemma InterleaveLeadingChar(c: char, gaps: seq<string>, ws: seq<string>)
    requires |gaps| == |ws| + 1 && |ws| > 0 && |gaps[0]| == 0
    ensures Interleave(gaps, [[c] + ws[0]] + ws[1..]) == [c] + Interleave(gaps, ws)
  {
    var vs := [[c] + ws[0]] + ws[1..];
    assert vs[1..] == ws[1..];
  }

  lemma InterleaveLeadingWord(c: char, gaps: seq<string>, ws: seq<string>)
    requires |gaps| == |ws| + 1
    ensures Interleave([""] + gaps, [[c]] + ws) == [c] + Interleave(gaps, ws)
  {
    var gs := [""] + gaps;
    var vs := [[c]] + ws;
    assert gs[1..] == gaps && vs[1..] == ws;
    assert Interleave(gs, vs) == gs[0] + vs[0] + Interleave(gs[1..], vs[1..]);
  }

  /** The whitespace runs `s.split()` drops: before, between and after the words. */
  function SpaceRuns(s: string): (gaps: seq<string>)
    ensures SpacedBy(gaps, |Words(s)|)
    ensures Interleave(gaps, Words(s)) == s
    decreases |s|
  {
    if |s| == 0 then [""]
    else
      var rest := Words(s[1..]);
      var tail := SpaceRuns(s[1..]);
      assert s == [s[0]] + s[1..];
      if IsSpace(s[0]) then
        InterleaveLeadingSpace(s[0], tail, rest);
        [[s[0]] + tail[0]] + tail[1..]
      else if |s| > 1 && !IsSpace(s[1]) then
        assert |tail[0]| == 0;
        InterleaveLeadingChar(s[0], tail, rest);
        tail
      else
        assert |rest| > 0 ==> |tail[0]| > 0;
        InterleaveLeadingWord(s[0], tail, rest);
        [""] + tail
  }

  /** Leading whitespace does not change the words. */
  lemma {:induction false} WordsSkipSpace(g: string, s: string)
    requires AllSpace(g)
    ensures Words(g + s) == Words(s)
    decreases |g|
  {
    if |g| > 0 {
      assert (g + s)[0] == g[0];
      assert (g + s)[1..] == g[1..] + s;
      assert Words(g + s) == Words((g + s)[1..]);
      WordsSkipSpace(g[1..], s);
    } else {
      assert g + s == s;
    }
  }

  /** Words separated by whitespace gaps split back into exactly those words. */
  lemma {:induction false} WordsOfInterleave(gaps: seq<string>, ws: seq<string>)
    requires SpacedBy(gaps, |ws|)
    requires forall i :: 0 <= i < |ws| ==> IsWord(ws[i])
    ensures Words(Interleave(gaps, ws)) == ws
    decreases |ws|
  {
    if |ws| == 0 {
      WordsSkipSpace(gaps[0], "");
      assert gaps[0] + "" == gaps[0];
    } else {
      var tail := Interleave(gaps[1..], ws[1..]);
      assert SpacedBy(gaps[1..], |ws[1..]|);
      WordsOfInterleave(gaps[1..], ws[1..]);
      assert |tail| == 0 || IsSpace(tail[0]) by {
        if |ws| > 1 {
          assert tail[0] == gaps[1][0];
        } else {
          assert tail == gaps[1];
        }
      }
      WordsAfterWord(ws[0], tail);
      assert gaps[0] + ws[0] + tail == gaps[0] + (ws[0] + tail);
      WordsSkipSpace(gaps[0], ws[0] + tail);
      assert ws == [ws[0]] + ws[1..];
    }
  }

  /** `s.split()` is exactly the sequence of words that, placed between
      whitespace gaps, spells out `s`. */
  lemma WordsCharacterised(s: string, ws: seq<string>)
    ensures ws == Words(s) <==>
      && (forall i :: 0 <= i < |ws| ==> IsWord(ws[i]))
      && (exists gaps :: SpacedBy(gaps, |ws|) && Interleave(gaps, ws) == s)
  {
    if ws == Words(s) {
      var gaps := SpaceRuns(s);
      assert SpacedBy(gaps, |ws|) && Interleave(gaps, ws) == s;
    }
    if (forall i :: 0 <= i < |ws| ==> IsWord(ws[i]))
      && (exists gaps :: SpacedBy(gaps, |ws|) && Interleave(gaps, ws) == s)
    {
      var gaps :| SpacedBy(gaps, |ws|) && Interleave(gaps, ws) == s;
      WordsOfInterleave(gaps, ws);
    }
  }
  /** No whitespace at either end, and every other whitespace character is a
      single ' ' between two non-whitespace characters. */
  predicate Tidy(t: string)
  {
    forall j :: 0 <= j < |t| && IsSpace(t[j]) ==>
      t[j] == ' ' && 0 < j < |t| - 1 && !IsSpace(t[j - 1]) && !IsSpace(t[j + 1])
  }

  /** Words joined with single spaces make a tidy string that starts with a
      non-whitespace character. */
  lemma {:induction false} JoinTidy(ws: seq<string>)
    requires forall i :: 0 <= i < |ws| ==> IsWord(ws[i])
    ensures Tidy(Join(ws, " "))
    ensures |ws| > 0 ==> |Join(ws, " ")| > 0 && !IsSpace(Join(ws, " ")[0])
  {
    if |ws| > 1 {
      JoinTidy(ws[1..]);
      var a := ws[0];
      var b := Join(ws[1..], " ");
      var t := a + " " + b;
      assert Join(ws, " ") == t;
      forall j | 0 <= j < |t| && IsSpace(t[j])
        ensures t[j] == ' ' && 0 < j < |t| - 1 && !IsSpace(t[j - 1]) && !IsSpace(t[j + 1])
      {
        if j == |a| {
          assert t[j - 1] == a[|a| - 1];
          assert t[j + 1] == b[0];
        } else if j > |a| {
          var k := j - |a| - 1;
          assert t[j] == b[k] && t[j - 1] == b[k - 1] && t[j + 1] == b[k + 1];
        }
      }
    }
  }

  /** The index of the first whitespace character of `u`, or `|u|`. */
  function FirstSpace(u: string): (j: nat)
    ensures j <= |u|
    ensures forall k :: 0 <= k < j ==> !IsSpace(u[k])
    ensures j < |u| ==> IsSpace(u[j])
    decreases |u|
  {
    if |u| == 0 || IsSpace(u[0]) then 0 else 1 + FirstSpace(u[1..])
  }

  /** Past its first whitespace character, a tidy string is tidy again and
      starts with a word. */
  lemma TidyAfterSpace(u: string, j: nat)
    requires Tidy(u) && j < |u| && IsSpace(u[j])
    ensures j + 1 < |u| && !IsSpace(u[j + 1]) && u[j] == ' '
    ensures Tidy(u[j + 1..])
  {
    var v := u[j + 1..];
    forall k | 0 <= k < |v| && IsSpace(v[k])
      ensures v[k] == ' ' && 0 < k < |v| - 1 && !IsSpace(v[k - 1]) && !IsSpace(v[k + 1])
    {
      assert v[k] == u[j + 1 + k];
      assert v[k - 1] == u[j + k] && v[k + 1] == u[j + 2 + k];
    }
  }

  lemma JoinCons(w: string, rest: seq<string>)
    requires |rest| > 0
    ensures Join([w] + rest, " ") == w + " " + Join(rest, " ")
  {
    assert ([w] + rest)[1..] == rest;
  }

  /** A tidy string is its own words joined with single spaces. */
  lemma {:induction false} TidyIsJoinedWords(u: string)
    requires Tidy(u)
    ensures Join(Words(u), " ") == u
    decreases |u|
  {
    var j := FirstSpace(u);
    if j == |u| {
      assert NoSpace(u);
      WordsOfWord(u);
    } else {
      TidyAfterSpace(u, j);
      var w := u[..j];
      var v := u[j + 1..];
      assert u == w + (" " + v);
      TidyIsJoinedWords(v);
      WordsAfterWord(w, " " + v);
      assert (" " + v)[1..] == v;
      assert Words(" " + v) == Words(v);
      JoinCons(w, Words(v));
    }
  }
}
