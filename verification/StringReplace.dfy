/**
 `gst_g_string_replace`: replace a pattern in a growable string, by erasing and
 inserting in the string that is being searched.
 */
module StringReplacement {

  // ------------------------------------------------------------------------ searching

  ghost predicate OccursAt(s: string, find: string, i: int) {
    0 <= i && i + |find| <= |s| && s[i..i + |find|] == find
  }

  ghost predicate Occurs(s: string, find: string) {
    exists i :: OccursAt(s, find, i)
  }

  ghost predicate IsFirst(s: string, find: string, i: int) {
    OccursAt(s, find, i) && forall j :: j < i ==> !OccursAt(s, find, j)
  }

  /** The first occurrence, or -1. */
  ghost function First(s: string, find: string): (i: int)
    ensures if Occurs(s, find) then IsFirst(s, find, i) else i == -1
  {
    if Occurs(s, find) then
      FirstExists(s, find);
      var i :| IsFirst(s, find, i);
      i
    else -1
  }

  lemma FirstExists(s: string, find: string)
    requires Occurs(s, find)
    ensures exists i :: IsFirst(s, find, i)
  {
    var i :| OccursAt(s, find, i);
    var k := 0;
    while !OccursAt(s, find, k)
      invariant 0 <= k <= i && forall j :: j < k ==> !OccursAt(s, find, j)
      decreases i - k
    {
      k := k + 1;
    }
    assert IsFirst(s, find, k);
  }

  lemma FirstIs(s: string, find: string, i: int)
    requires IsFirst(s, find, i)
    ensures First(s, find) == i
  {
    var f := First(s, find);
    assert !(f < i) && !(i < f);
  }

  /** `strstr`, from an offset on: the index of the first occurrence, or -1. */
  method Strstr(s: string, find: string, from: nat) returns (next: int)
    requires from <= |s|
    ensures next == -1 ==> forall j :: from <= j ==> !OccursAt(s, find, j)
    ensures next != -1 ==> from <= next && OccursAt(s, find, next)
    ensures next != -1 ==> forall j :: from <= j < next ==> !OccursAt(s, find, j)
  {
    next := from;
    while next + |find| <= |s|
      invariant from <= next && forall j :: from <= j < next ==> !OccursAt(s, find, j)
    {
      if s[next..next + |find|] == find {
        return;
      }
      next := next + 1;
    }
    next := -1;
  }

  /** Searching behind a prefix is searching the rest. */
  lemma OccursBehind(done: string, rest: string, find: string, j: int)
    requires 0 <= j
    ensures OccursAt(done + rest, find, |done| + j) <==> OccursAt(rest, find, j)
  {
    if j + |find| <= |rest| {
      assert (done + rest)[|done| + j..|done| + j + |find|] == rest[j..j + |find|];
    }
  }

  // ------------------------------------------------------- the result, piece by piece

  /** The pieces of `s` that are left between the replaced occurrences of a pattern.
      `budget` is how many may be replaced, a negative number meaning all of them. */
  ghost function Pieces(s: string, find: string, budget: int): (ps: seq<string>)
    requires budget != 0
  {
    if find == "" then GapPieces(s, budget) else CutPieces(s, find, budget)
  }

  /** For a non-empty pattern: cut at the first occurrence, and go on behind it. */
  ghost function CutPieces(s: string, find: string, budget: int): (ps: seq<string>)
    requires budget != 0 && find != ""
    ensures ps != []
    decreases |s|
  {
    var i := First(s, find);
    if i == -1 then [s]
    else
      var tail := s[i + |find|..];
      if budget == 1 then [s[..i], tail] else [s[..i]] + CutPieces(tail, find, budget - 1)
  }

  /** For the empty pattern: cut before the next character, and go on behind that. */
  ghost function GapPieces(s: string, budget: int): (ps: seq<string>)
    requires budget != 0
    ensures ps != []
    decreases |s|
  {
    if s == "" || budget == 1 then ["", s] else [""] + Advance(s[0], GapPieces(s[1..], budget - 1))
  }

  /** Put a character in front of the first piece. */
  ghost function Advance(c: char, ps: seq<string>): (r: seq<string>)
    requires ps != []
  {
    [[c] + ps[0]] + ps[1..]
  }

  ghost function Join(ps: seq<string>, sep: string): string {
    if ps == [] then "" else if |ps| == 1 then ps[0] else ps[0] + (sep + Join(ps[1..], sep))
  }

  ghost function Budget(limit: nat): int { if limit == 0 then -1 else limit }

  lemma Assoc(a: string, b: string, c: string)
    ensures (a + b) + c == a + (b + c)
  {
  }

  lemma EmptyLeft(a: string)
    ensures "" + a == a
  {
  }

  lemma JoinCons(p: string, ps: seq<string>, sep: string)
    requires ps != []
    ensures Join([p] + ps, sep) == p + (sep + Join(ps, sep))
  {
    assert ([p] + ps)[1..] == ps;
  }

  lemma JoinTwo(p: string, q: string, sep: string)
    ensures Join([p, q], sep) == p + (sep + q)
  {
    assert [p, q] == [p] + [q];
    JoinCons(p, [q], sep);
  }

  lemma JoinAdvance(c: char, ps: seq<string>, sep: string)
    requires ps != []
    ensures Join(Advance(c, ps), sep) == [c] + Join(ps, sep)
  {
    var more := Advance(c, ps);
    assert more[1..] == ps[1..];
    if |ps| > 1 {
      Assoc([c], ps[0], sep + Join(ps[1..], sep));
    }
  }

  /** The pieces, joined by the pattern, are the original string. */
  lemma PiecesJoin(s: string, find: string, budget: int)
    requires budget != 0
    ensures Join(Pieces(s, find, budget), find) == s
  {
    if find == "" {
      GapPiecesJoin(s, budget);
    } else {
      CutPiecesJoin(s, find, budget);
    }
  }

  lemma SplitAt(s: string, find: string, i: int)
    requires OccursAt(s, find, i)
    ensures s == s[..i] + (find + s[i + |find|..])
  {
    assert s == s[..i] + (s[i..i + |find|] + s[i + |find|..]);
  }

  lemma {:induction false} CutPiecesJoin(s: string, find: string, budget: int)
    requires budget != 0 && find != ""
    ensures Join(CutPieces(s, find, budget), find) == s
    decreases |s|
  {
    var i := First(s, find);
    if i != -1 {
      CutRound(s, find, find, budget, i);
      SplitAt(s, find, i);
      if budget != 1 {
        CutPiecesJoin(s[i + |find|..], find, budget - 1);
      }
    }
  }

  lemma {:induction false} GapPiecesJoin(s: string, budget: int)
    requires budget != 0
    ensures Join(GapPieces(s, budget), "") == s
    decreases |s|
  {
    if s == "" || budget == 1 {
      LastGapRound(s, "", budget);
      EmptyLeft(s);
    } else {
      GapRound(s, "", budget);
      GapPiecesJoin(s[1..], budget - 1);
      EmptyLeft([s[0]] + s[1..]);
      assert s == [s[0]] + s[1..];
    }
  }

  /** One round of the loop, for a non-empty pattern that occurs first at `i`. */
  lemma CutRound(rest: string, find: string, replace: string, budget: int, i: nat)
    requires budget != 0 && find != "" && i == First(rest, find)
    ensures var tail := rest[i + |find|..];
            && Join(CutPieces(rest, find, budget), replace)
               == rest[..i] + (replace + if budget == 1 then tail
                                         else Join(CutPieces(tail, find, budget - 1), replace))
            && |CutPieces(rest, find, budget)|
               == if budget == 1 then 2 else 1 + |CutPieces(tail, find, budget - 1)|
  {
    var tail := rest[i + |find|..];
    if budget == 1 {
      assert CutPieces(rest, find, budget) == [rest[..i], tail];
      JoinTwo(rest[..i], tail, replace);
    } else {
      var more := CutPieces(tail, find, budget - 1);
      assert CutPieces(rest, find, budget) == [rest[..i]] + more;
      JoinCons(rest[..i], more, replace);
    }
  }

  /** The last round of the loop for the empty pattern. */
  lemma LastGapRound(rest: string, replace: string, budget: int)
    requires budget != 0 && (rest == "" || budget == 1)
    ensures Join(GapPieces(rest, budget), replace) == replace + rest
    ensures |GapPieces(rest, budget)| == 2
  {
    JoinTwo("", rest, replace);
    EmptyLeft(replace + rest);
  }

  /** Any other round of the loop for the empty pattern. */
  lemma GapRound(rest: string, replace: string, budget: int)
    requires budget != 0 && budget != 1 && rest != ""
    ensures Join(GapPieces(rest, budget), replace)
         == replace + ([rest[0]] + Join(GapPieces(rest[1..], budget - 1), replace))
    ensures |GapPieces(rest, budget)| == 1 + |GapPieces(rest[1..], budget - 1)|
  {
    var more := GapPieces(rest[1..], budget - 1);
    JoinAdvance(rest[0], more, replace);
    JoinCons("", Advance(rest[0], more), replace);
    EmptyLeft(replace + ([rest[0]] + Join(more, replace)));
  }

  /** Piece `p` ends where the pattern occurs first. */
  ghost predicate EndsAtFirst(p: string, find: string) {
    forall j :: 0 <= j < |p| ==> !OccursAt(p + find, find, j)
  }

  /** How a string is cut up for a non-empty pattern: from left to right at each first
      occurrence, as often as the budget allows. */
  ghost predicate CutAtOccurrences(ps: seq<string>, find: string, budget: int) {
    && ps != []
    && (forall k :: 0 <= k < |ps| - 1 ==> EndsAtFirst(ps[k], find))
    && (budget > 0 ==> |ps| - 1 <= budget)
    && (|ps| - 1 != budget ==> !Occurs(ps[|ps| - 1], find))
  }

  lemma {:induction false} PiecesAreCut(s: string, find: string, budget: int)
    requires find != "" && budget != 0
    ensures CutAtOccurrences(Pieces(s, find, budget), find, budget)
    decreases |s|
  {
    var i := First(s, find);
    if i != -1 {
      PrefixEndsAtFirst(s, find, i);
      var tail := s[i + |find|..];
      if budget == 1 {
        assert Pieces(s, find, budget) == [s[..i], tail];
      } else {
        PiecesAreCut(tail, find, budget - 1);
        CutCons(s[..i], Pieces(tail, find, budget - 1), find, budget);
      }
    }
  }

  lemma CutCons(p: string, ps: seq<string>, find: string, budget: int)
    requires budget != 0 && budget != 1 && EndsAtFirst(p, find) && CutAtOccurrences(ps, find, budget - 1)
    ensures CutAtOccurrences([p] + ps, find, budget)
  {
    assert ([p] + ps)[|ps|] == ps[|ps| - 1];
  }

  lemma PrefixEndsAtFirst(s: string, find: string, i: int)
    requires IsFirst(s, find, i)
    ensures EndsAtFirst(s[..i], find)
  {
    assert s[..i] + find == s[..i + |find|];
    forall j | 0 <= j < i ensures !OccursAt(s[..i] + find, find, j) {
      assert !OccursAt(s, find, j);
      assert s[..i + |find|][j..j + |find|] == s[j..j + |find|];
    }
  }

  /** Cutting at the first occurrences in another way is not possible: the pieces are
      determined by the string they join to. */
  lemma {:induction false} CutIsUnique(ps: seq<string>, find: string, budget: int)
    requires find != "" && budget != 0 && CutAtOccurrences(ps, find, budget)
    ensures Pieces(Join(ps, find), find, budget) == ps
    decreases |ps|
  {
    if |ps| == 1 {
      assert Join(ps, find) == ps[0] && First(ps[0], find) == -1;
    } else {
      var p, rest := ps[0], ps[1..];
      assert ps == [p] + rest;
      JoinCons(p, rest, find);
      PiecesOfCut(p, find, Join(rest, find), budget);
      if budget == 1 {
        assert rest == [ps[1]];
      } else {
        CutRest(ps, find, budget);
        CutIsUnique(rest, find, budget - 1);
      }
    }
  }

  lemma PiecesOfCut(p: string, find: string, tail: string, budget: int)
    requires find != "" && budget != 0 && EndsAtFirst(p, find)
    ensures Pieces(p + (find + tail), find, budget)
         == if budget == 1 then [p, tail] else [p] + Pieces(tail, find, budget - 1)
  {
    FirstOccurrenceIs(p, find, tail);
    PiecesAt(p, find, tail, budget);
  }

  lemma CutRest(ps: seq<string>, find: string, budget: int)
    requires budget != 1 && |ps| > 1 && CutAtOccurrences(ps, find, budget)
    ensures CutAtOccurrences(ps[1..], find, budget - 1)
  {
    assert ps[1..][|ps| - 2] == ps[|ps| - 1];
  }

  lemma FirstOccurrenceIs(p: string, find: string, tail: string)
    requires EndsAtFirst(p, find)
    ensures First(p + (find + tail), find) == |p|
  {
    var s := p + (find + tail);
    assert s[|p|..|p| + |find|] == find;
    forall j | 0 <= j < |p| ensures !OccursAt(s, find, j) {
      assert !OccursAt(p + find, find, j);
      assert (p + find)[j..j + |find|] == s[j..j + |find|];
    }
    FirstIs(s, find, |p|);
  }

  /** The empty pattern matches at every gap, both ends included. */
  lemma {:induction false} EmptyPatternPieces(s: string, budget: int, k: nat)
    requires budget != 0
    ensures var ps := Pieces(s, "", budget);
            && |ps| - 1 == (if budget < 0 || budget > |s| then |s| + 1 else budget)
            && ps[0] == ""
            && (0 < k < |ps| - 1 ==> ps[k] == [s[k - 1]])
            && ps[|ps| - 1] == s[|ps| - 2..]
    decreases |s|
  {
    if s != "" && budget != 1 {
      var rest := GapPieces(s[1..], budget - 1);
      EmptyPatternPieces(s[1..], budget - 1, if k > 1 then k - 1 else 0);
      AdvancedPieces(s[0], rest);
      assert s[1..][|rest| - 2..] == s[|rest| - 1..];
    }
  }

  /** A new empty piece in front, and a character in front of the old first piece. */
  lemma AdvancedPieces(c: char, ps: seq<string>)
    requires ps != [] && ps[0] == ""
    ensures var all := [""] + Advance(c, ps);
            && |all| == |ps| + 1 && all[0] == "" && all[1] == [c]
            && forall m :: 1 < m < |all| ==> all[m] == ps[m - 1]
  {
    assert [c] + ps[0] == [c];
  }

  /** The length of the result. */
  lemma {:induction false} JoinLength(ps: seq<string>, find: string, replace: string)
    requires ps != []
    ensures |Join(ps, replace)| == |Join(ps, find)| + (|ps| - 1) * (|replace| - |find|)
  {
    if |ps| > 1 {
      JoinLength(ps[1..], find, replace);
      var d := |replace| - |find|;
      assert (|ps| - 1) * d == (|ps| - 2) * d + d;
    }
  }

  // ------------------------------------------------------------------- what a limit means

  /** The first `n` cuts only: what follows them stays in one piece. */
  ghost function FirstCuts(ps: seq<string>, find: string, n: nat): seq<string>
    requires n < |ps|
  {
    ps[..n] + [Join(ps[n..], find)]
  }

  function Least(a: int, b: int): int { if a < b then a else b }

  /** Cutting as often as a budget allows is making the first cuts of an unlimited one. */
  lemma {:induction false} BudgetCutsFirst(s: string, find: string, budget: int, all: int)
    requires find != "" && budget > 0 && all < 0
    ensures var ps := CutPieces(s, find, all);
            CutPieces(s, find, budget) == FirstCuts(ps, find, Least(budget, |ps| - 1))
    decreases |s|
  {
    var i := First(s, find);
    if i != -1 {
      var tail := s[i + |find|..];
      var more := CutPieces(tail, find, all - 1);
      if budget == 1 {
        CutPiecesJoin(tail, find, all - 1);
        FirstCut(s[..i], more, find);
      } else {
        BudgetCutsFirst(tail, find, budget - 1, all - 1);
        FirstCutsCons(s[..i], more, find, Least(budget - 1, |more| - 1));
      }
    }
  }

  lemma FirstCutsCons(p: string, ps: seq<string>, find: string, n: nat)
    requires n < |ps|
    ensures [p] + FirstCuts(ps, find, n) == FirstCuts([p] + ps, find, n + 1)
  {
    assert ([p] + ps)[n + 1..] == ps[n..];
  }

  lemma {:induction false} BudgetGapsFirst(s: string, budget: int, all: int)
    requires budget > 0 && all < 0
    ensures var ps := GapPieces(s, all);
            && |ps| > 1
            && GapPieces(s, budget) == FirstCuts(ps, "", Least(budget, |ps| - 1))
    decreases |s|
  {
    if s != "" {
      var more := GapPieces(s[1..], all - 1);
      var ps := [""] + Advance(s[0], more);
      assert ps[1..] == Advance(s[0], more);
      if budget == 1 {
        BudgetGapsFirst(s[1..], 1, all - 1);
        JoinAdvance(s[0], more, "");
        GapPiecesJoin(s[1..], all - 1);
        FirstCut("", Advance(s[0], more), "");
        assert [s[0]] + s[1..] == s;
      } else {
        BudgetGapsFirst(s[1..], budget - 1, all - 1);
        var n := Least(budget - 1, |more| - 1);
        FirstCutsAdvance(s[0], more, n);
        FirstCutsCons("", Advance(s[0], more), "", n);
      }
    }
  }

  lemma FirstCut(p: string, ps: seq<string>, find: string)
    requires ps != []
    ensures FirstCuts([p] + ps, find, 1) == [p, Join(ps, find)]
  {
    assert ([p] + ps)[1..] == ps;
  }

  lemma FirstCutsAdvance(c: char, ps: seq<string>, n: nat)
    requires 0 < n < |ps|
    ensures Advance(c, FirstCuts(ps, "", n)) == FirstCuts(Advance(c, ps), "", n)
  {
    assert Advance(c, ps)[n..] == ps[n..];
    assert Advance(c, ps)[..n] == Advance(c, ps[..n]);
  }

  /** A limit of 0 replaces every occurrence; any other one the first ones, as many as it says
      or as there are. */
  lemma LimitCutsFirst(s: string, find: string, limit: nat)
    ensures var all := Pieces(s, find, -1);
            Pieces(s, find, Budget(limit))
            == FirstCuts(all, find, if limit == 0 then |all| - 1 else Least(limit, |all| - 1))
  {
    if limit == 0 {
      var all := Pieces(s, find, -1);
      assert FirstCuts(all, find, |all| - 1) == all;
    } else {
      if find == "" {
        BudgetGapsFirst(s, limit, -1);
      } else {
        BudgetCutsFirst(s, find, limit, -1);
      }
    }
  }

  // ------------------------------------------------------------------------ the code

  /** The loop of the code on its way: `done` is finished, `rest` is not yet searched,
      `left` of the budget is left, and `togo` pieces are to come. */
  ghost predicate OnTrack(str: string, done: string, rest: string, left: int,
                          find: string, replace: string, goal: string, togo: int)
  {
    && left != 0
    && str == done + rest
    && goal == done + Join(Pieces(rest, find, left), replace)
    && togo == |Pieces(rest, find, left)|
  }

  /** What one round makes of the goal, if the pattern is first found between `pre` and
      `tail`: the same goal, with `pre` and the replacement finished. */
  lemma CutStep(done: string, pre: string, tail: string, left: int, find: string, replace: string,
                goal: string, togo: int)
    requires find != "" && left != 0 && First(pre + (find + tail), find) == |pre|
    requires goal == done + Join(Pieces(pre + (find + tail), find, left), replace)
    requires togo == |Pieces(pre + (find + tail), find, left)|
    ensures left == 1 ==> goal == ((done + pre) + replace) + tail && togo == 2
    ensures left != 1 ==>
              && goal == ((done + pre) + replace) + Join(Pieces(tail, find, left - 1), replace)
              && togo - 1 == |Pieces(tail, find, left - 1)|
  {
    CutRoundAt(pre, find, tail, replace, left);
    if left == 1 {
      Assoc(done, pre, replace + tail);
      Assoc(done + pre, replace, tail);
    } else {
      var more := Join(Pieces(tail, find, left - 1), replace);
      Assoc(done, pre, replace + more);
      Assoc(done + pre, replace, more);
    }
  }

  lemma CutRoundAt(pre: string, find: string, tail: string, replace: string, budget: int)
    requires find != "" && budget != 0 && First(pre + (find + tail), find) == |pre|
    ensures budget == 1 ==>
              && Join(Pieces(pre + (find + tail), find, budget), replace) == pre + (replace + tail)
              && |Pieces(pre + (find + tail), find, budget)| == 2
    ensures budget != 1 ==>
              && Join(Pieces(pre + (find + tail), find, budget), replace)
                 == pre + (replace + Join(Pieces(tail, find, budget - 1), replace))
              && |Pieces(pre + (find + tail), find, budget)| == 1 + |Pieces(tail, find, budget - 1)|
  {
    PiecesAt(pre, find, tail, budget);
    if budget == 1 {
      JoinTwo(pre, tail, replace);
    } else {
      JoinCons(pre, Pieces(tail, find, budget - 1), replace);
    }
  }

  /** The pieces of a string whose pattern is first found between `pre` and `tail`. */
  lemma PiecesAt(pre: string, find: string, tail: string, budget: int)
    requires find != "" && budget != 0 && First(pre + (find + tail), find) == |pre|
    ensures Pieces(pre + (find + tail), find, budget)
         == if budget == 1 then [pre, tail] else [pre] + Pieces(tail, find, budget - 1)
  {
    Resplit(pre, find, tail);
  }

  lemma Resplit(pre: string, find: string, tail: string)
    ensures (pre + (find + tail))[..|pre|] == pre
    ensures (pre + (find + tail))[|pre| + |find|..] == tail
  {
  }

  /** The same for the empty pattern: the replacement and one more character are finished. */
  lemma GapStep(done: string, rest: string, left: int, replace: string, goal: string, togo: int)
    requires left != 0
    requires goal == done + Join(GapPieces(rest, left), replace) && togo == |GapPieces(rest, left)|
    ensures rest == "" || left == 1 ==> goal == (done + replace) + rest && togo == 2
    ensures rest != "" && left != 1 ==>
              && goal == ((done + replace) + [rest[0]]) + Join(GapPieces(rest[1..], left - 1), replace)
              && togo - 1 == |GapPieces(rest[1..], left - 1)|
  {
    if rest == "" || left == 1 {
      LastGapRound(rest, replace, left);
      Assoc(done, replace, rest);
    } else {
      GapRound(rest, replace, left);
      var more := Join(GapPieces(rest[1..], left - 1), replace);
      Assoc(done, replace, [rest[0]] + more);
      Assoc(done + replace, [rest[0]], more);
    }
  }

  class GString {
    var str: string

    constructor (s: string)
      ensures str == s
    {
      str := s;
    }

    /** `g_string_erase`. */
    method Erase(pos: nat, len: nat)
      requires pos + len <= |str|
      modifies this
      ensures str == old(str[..pos] + str[pos + len..])
    {
      str := str[..pos] + str[pos + len..];
    }

    /** `g_string_insert`. */
    method Insert(pos: nat, text: string)
      requires pos <= |str|
      modifies this
      ensures str == old(str[..pos]) + text + old(str[pos..])
    {
      str := str[..pos] + text + str[pos..];
    }

    /** Erase `len` characters at `pos` and insert the replacement there. */
    method Substitute(pos: nat, len: nat, replace: string, ghost front: string, ghost find: string, ghost tail: string)
      requires str == front + (find + tail) && pos == |front| && len == |find|
      modifies this
      ensures str == (front + replace) + tail
    {
      Erase(pos, len);
      assert str == front + tail;
      Insert(pos, replace);
    }

    /** `gst_g_string_replace`. The loop searches `str` from `cur`; what is before `cur`
        is finished, and what is behind it is still a suffix of the original. */
    method Replace(find: string, replace: string, limit: nat) returns (n: nat)
      modifies this
      ensures var all := Pieces(old(str), find, -1);
              && n == (if limit == 0 then |all| - 1 else Least(limit, |all| - 1))
              && str == Join(FirstCuts(all, find, n), replace)
    {
      LimitCutsFirst(str, find, limit);
      n := ReplaceWithin(find, replace, limit);
    }

    /** The loop, in terms of a budget that a limit of 0 does not bound. */
    method ReplaceWithin(find: string, replace: string, limit: nat) returns (n: nat)
      modifies this
      ensures str == Join(Pieces(old(str), find, Budget(limit)), replace)
      ensures n == |Pieces(old(str), find, Budget(limit))| - 1
    {
      n := 0;
      var cur := 0;
      ghost var pieces := Pieces(str, find, Budget(limit));
      ghost var goal := Join(pieces, replace);
      ghost var done, rest, left := "", str, Budget(limit);
      EmptyLeft(str);
      EmptyLeft(goal);
      var next := Strstr(str, find, cur);
      Found(done, rest, find, next);
      while next != -1
        invariant OnTrack(str, done, rest, left, find, replace, goal, |pieces| - n)
        invariant cur == |done| && left == Budget(limit) - n
        invariant if next == -1 then First(rest, find) == -1 else cur <= next && First(rest, find) == next - cur
        decreases |rest|
      {
        ghost var pre, tail, done', rest' := Round(done, rest, left, find, replace, goal, |pieces| - n);
        Substitute(next, |find|, replace, done + pre, find, tail);
        cur := next + |replace|;
        n := n + 1;
        if |find| == 0 {
          if cur == |str| {
            break;
          } else {
            cur := cur + 1;
          }
        }
        if n == limit {
          break;
        }
        done, rest, left := done', rest', left - 1;
        next := Strstr(str, find, cur);
        Found(done, rest, find, next);
      }
      if next == -1 {
        NoneLeft(rest, find, left, replace);
      }
    }

    /** One round of the loop: the pattern is found between `pre` and `tail`. Either this
        is the last round, and the goal is reached; or `done'` is finished after it. */
    lemma Round(done: string, rest: string, left: int, find: string, replace: string, goal: string, togo: int)
      returns (pre: string, tail: string, done': string, rest': string)
      requires OnTrack(done + rest, done, rest, left, find, replace, goal, togo)
      requires First(rest, find) != -1
      ensures |pre| == First(rest, find) && done + rest == (done + pre) + (find + tail)
      ensures find == "" ==> |tail| == |rest|
      ensures var str := ((done + pre) + replace) + tail;
              if left == 1 || (find == "" && tail == "") then str == goal && togo == 2
              else && OnTrack(str, done', rest', left - 1, find, replace, goal, togo - 1)
                   && |rest'| < |rest|
                   && |done'| == |done| + |pre| + |replace| + (if find == "" then 1 else 0)
    {
      if find != "" {
        var i := First(rest, find);
        pre, tail := rest[..i], rest[i + |find|..];
        SplitAt(rest, find, i);
        Assoc(done, pre, find + tail);
        CutStep(done, pre, tail, left, find, replace, goal, togo);
        done', rest' := (done + pre) + replace, tail;
      } else {
        EmptyIsFirst(rest);
        pre, tail := "", rest;
        assert done + pre == done && find + tail == tail;
        done', rest' := GapRoundOf(done, rest, left, replace, goal, togo);
      }
    }

    /** A round for the empty pattern. */
    lemma GapRoundOf(done: string, rest: string, left: int, replace: string, goal: string, togo: int)
      returns (done': string, rest': string)
      requires OnTrack(done + rest, done, rest, left, "", replace, goal, togo)
      ensures var str := (done + replace) + rest;
              if left == 1 || rest == "" then str == goal && togo == 2
              else && OnTrack(str, done', rest', left - 1, "", replace, goal, togo - 1)
                   && |rest'| < |rest| && |done'| == |done| + |replace| + 1
    {
      GapStep(done, rest, left, replace, goal, togo);
      done', rest' := done + replace, rest;
      if rest != "" {
        Assoc(done', [rest[0]], rest[1..]);
        assert rest == [rest[0]] + rest[1..];
        done', rest' := done' + [rest[0]], rest[1..];
      }
    }

    lemma NoneLeft(rest: string, find: string, left: int, replace: string)
      requires left != 0 && First(rest, find) == -1
      ensures Pieces(rest, find, left) == [rest]
    {
      if find == "" {
        EmptyIsFirst(rest);
      }
    }

    lemma EmptyIsFirst(s: string)
      ensures First(s, "") == 0
    {
      FirstIs(s, "", 0);
    }

    /** Where the pattern was found, in terms of the unfinished part of the string. */
    lemma Found(done: string, rest: string, find: string, next: int)
      requires next == -1 ==> forall j :: |done| <= j ==> !OccursAt(done + rest, find, j)
      requires next != -1 ==>
                 && |done| <= next && OccursAt(done + rest, find, next)
                 && forall j :: |done| <= j < next ==> !OccursAt(done + rest, find, j)
      ensures First(rest, find) == if next == -1 then -1 else next - |done|
    {
      forall j | 0 <= j
        ensures OccursAt(done + rest, find, |done| + j) <==> OccursAt(rest, find, j)
      {
        OccursBehind(done, rest, find, j);
      }
      if next != -1 {
        OccursBehind(done, rest, find, next - |done|);
        FirstIs(rest, find, next - |done|);
      }
    }
  }
}
