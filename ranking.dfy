/** The ranking half of `retrieve`: `similarities.sort(key=score, reverse=True)`
    followed by `similarities[:top_n]`.  Python's sort is stable also under
    `reverse=True`, so the sorted list is the unique list that is ordered by
    non-increasing score and keeps entries of equal score in their original
    order; SortDesc is that list, and SortByScoreDescending computes it in place. */
module Ranking {

  /** One entry of `similarities`: a chunk and its similarity to the query. */
  datatype ScoredChunk = ScoredChunk(chunk: string, score: real)

  function Min(a: int, b: int): int { if a <= b then a else b }
  function Max(a: int, b: int): int { if a >= b then a else b }

  /** Ordered by non-increasing score. */
  predicate SortedDesc(s: seq<ScoredChunk>)
  {
    forall i, j :: 0 <= i < j < |s| ==> s[i].score >= s[j].score
  }

  /** The entries of `s` whose score is exactly `x`, in their order in `s`. */
  function WithScore(s: seq<ScoredChunk>, x: real): seq<ScoredChunk>
  {
    if s == [] then []
    else WithScore(s[..|s| - 1], x) + (if s[|s| - 1].score == x then [s[|s| - 1]] else [])
  }

  /** `t` holds, score by score, the same entries as `s` in the same order:
      a stable rearrangement of `s` with respect to the score. */
  ghost predicate KeepsTies(s: seq<ScoredChunk>, t: seq<ScoredChunk>)
  {
    forall x :: WithScore(t, x) == WithScore(s, x)
  }

  /** Inserts `e` into a list ordered by non-increasing score, after every entry
      whose score is at least that of `e` (so after its ties). */
  function InsertDesc(s: seq<ScoredChunk>, e: ScoredChunk): seq<ScoredChunk>
    decreases |s|
  {
    if s == [] || s[|s| - 1].score >= e.score then s + [e]
    else InsertDesc(s[..|s| - 1], e) + [s[|s| - 1]]
  }

  /** The list `s.sort(key=score, reverse=True)` leaves behind. */
  function SortDesc(s: seq<ScoredChunk>): seq<ScoredChunk>
    decreases |s|
  {
    if s == [] then [] else InsertDesc(SortDesc(s[..|s| - 1]), s[|s| - 1])
  }

  /** `s[:n]` in Python: the first `n` entries, or all but the last `-n` when `n` is negative. */
  function Take<T>(s: seq<T>, n: int): seq<T>
  {
    if n >= 0 then s[..Min(n, |s|)] else s[..Max(0, |s| + n)]
  }

  // ----- WithScore -----

  lemma {:induction false} WithScoreAppend(a: seq<ScoredChunk>, b: seq<ScoredChunk>, x: real)
    ensures WithScore(a + b, x) == WithScore(a, x) + WithScore(b, x)
    decreases |b|
  {
    if b == [] {
      assert a + b == a;
    } else {
      var b' := b[..|b| - 1];
      assert (a + b)[..|a + b| - 1] == a + b';
      WithScoreAppend(a, b', x);
    }
  }

  lemma {:induction false} WithScoreMember(s: seq<ScoredChunk>, x: real, e: ScoredChunk)
    ensures e in WithScore(s, x) <==> e in s && e.score == x
    decreases |s|
  {
    if s != [] {
      var s' := s[..|s| - 1];
      WithScoreMember(s', x, e);
      assert s == s' + [s[|s| - 1]];
    }
  }

  lemma {:induction false} WithScoreAbsent(s: seq<ScoredChunk>, x: real)
    requires forall i :: 0 <= i < |s| ==> s[i].score != x
    ensures WithScore(s, x) == []
  {
    var w := WithScore(s, x);
    if w != [] {
      WithScoreMember(s, x, w[0]);
    }
  }

  lemma LastHasItsScore(s: seq<ScoredChunk>)
    requires s != []
    ensures WithScore(s, s[|s| - 1].score) != []
  {
  }

  // ----- InsertDesc and SortDesc -----

  /** InsertDesc puts `e` at one position `k`: after the entries scoring at least
      as much, before the trailing entries that score strictly less. */
  lemma {:induction false} InsertDescSplit(s: seq<ScoredChunk>, e: ScoredChunk) returns (k: nat)
    ensures k <= |s|
    ensures InsertDesc(s, e) == s[..k] + [e] + s[k..]
    ensures k > 0 ==> s[k - 1].score >= e.score
    ensures forall i :: k <= i < |s| ==> s[i].score < e.score
    decreases |s|
  {
    if s == [] || s[|s| - 1].score >= e.score {
      k := |s|;
    } else {
      var s' := s[..|s| - 1];
      k := InsertDescSplit(s', e);
      assert s'[..k] == s[..k];
      assert s'[k..] + [s[|s| - 1]] == s[k..];
    }
  }

  lemma InsertDescSorted(s: seq<ScoredChunk>, e: ScoredChunk)
    requires SortedDesc(s)
    ensures SortedDesc(InsertDesc(s, e))
  {
    var k := InsertDescSplit(s, e);
    var t := InsertDesc(s, e);
    forall i, j | 0 <= i < j < |t| ensures t[i].score >= t[j].score {
      if j < k {
        assert t[i] == s[i] && t[j] == s[j];
      } else if j == k {
        assert t[i] == s[i] && s[i].score >= s[k - 1].score;
      } else if i == k {
        assert t[j] == s[j - 1];
      } else if i < k {
        assert t[i] == s[i] && t[j] == s[j - 1];
      } else {
        assert t[i] == s[i - 1] && t[j] == s[j - 1];
      }
    }
  }

  /** Moving `e` past entries that all score strictly less leaves every
      per-score subsequence unchanged. */
  lemma MovePastLowerKeepsTies(lo: seq<ScoredChunk>, e: ScoredChunk, hi: seq<ScoredChunk>, x: real)
    requires forall i :: 0 <= i < |hi| ==> hi[i].score < e.score
    ensures WithScore(lo + [e] + hi, x) == WithScore(lo + hi + [e], x)
  {
    WithScoreAppend(lo + [e], hi, x);
    WithScoreAppend(lo, [e], x);
    WithScoreAppend(lo + hi, [e], x);
    WithScoreAppend(lo, hi, x);
    if x == e.score {
      WithScoreAbsent(hi, x);
    } else {
      assert WithScore([e], x) == [] by { assert [e][..0] == []; }
    }
  }

  lemma InsertDescTies(s: seq<ScoredChunk>, e: ScoredChunk, x: real)
    ensures WithScore(InsertDesc(s, e), x) == WithScore(s + [e], x)
  {
    var k := InsertDescSplit(s, e);
    assert s == s[..k] + s[k..];
    MovePastLowerKeepsTies(s[..k], e, s[k..], x);
  }

  lemma InsertDescPermutes(s: seq<ScoredChunk>, e: ScoredChunk)
    ensures multiset(InsertDesc(s, e)) == multiset(s) + multiset{e}
  {
    var k := InsertDescSplit(s, e);
    var lo, hi := s[..k], s[k..];
    assert s == lo + hi;
    assert multiset(s) == multiset(lo) + multiset(hi);
    assert multiset(lo + [e] + hi) == multiset(lo) + multiset{e} + multiset(hi);
  }

  /** The sorted list is ordered by non-increasing score. */
  lemma {:induction false} SortDescSorted(s: seq<ScoredChunk>)
    ensures SortedDesc(SortDesc(s))
    decreases |s|
  {
    if s != [] {
      SortDescSorted(s[..|s| - 1]);
      InsertDescSorted(SortDesc(s[..|s| - 1]), s[|s| - 1]);
    }
  }

  /** The sorted list is a permutation of the input. */
  lemma {:induction false} SortDescPermutes(s: seq<ScoredChunk>)
    ensures multiset(SortDesc(s)) == multiset(s)
    ensures |SortDesc(s)| == |s|
    decreases |s|
  {
    if s != [] {
      var s' := s[..|s| - 1];
      SortDescPermutes(s');
      InsertDescPermutes(SortDesc(s'), s[|s| - 1]);
      assert s == s' + [s[|s| - 1]];
    }
  }

  /** The sort is stable: entries of equal score keep their input order. */
  lemma {:induction false} SortDescStable(s: seq<ScoredChunk>)
    ensures KeepsTies(s, SortDesc(s))
    decreases |s|
  {
    if s != [] {
      var s', last := s[..|s| - 1], s[|s| - 1];
      SortDescStable(s');
      forall x ensures WithScore(SortDesc(s), x) == WithScore(s, x) {
        InsertDescTies(SortDesc(s'), last, x);
        WithScoreAppend(SortDesc(s'), [last], x);
        WithScoreAppend(s', [last], x);
        assert s == s' + [last];
      }
    }
  }

  /** The last entry of `a` also occurs in `b`, so it scores at least as much
      as the last (lowest) entry of `b`. */
  lemma LastScoreBound(a: seq<ScoredChunk>, b: seq<ScoredChunk>)
    requires a != [] && b != []
    requires SortedDesc(b) && KeepsTies(a, b)
    ensures a[|a| - 1].score >= b[|b| - 1].score
  {
    var la := a[|a| - 1];
    LastHasItsScore(a);
    assert la in WithScore(a, la.score);
    assert WithScore(b, la.score) == WithScore(a, la.score);
    WithScoreMember(b, la.score, la);
    var j :| 0 <= j < |b| && b[j] == la;
  }

  /** Lists that agree score by score and end with entries of the same score end
      with the same entry, and agree score by score without it. */
  lemma DropLastKeepsTies(a: seq<ScoredChunk>, b: seq<ScoredChunk>)
    requires a != [] && b != []
    requires KeepsTies(a, b)
    requires a[|a| - 1].score == b[|b| - 1].score
    ensures a[|a| - 1] == b[|b| - 1]
    ensures KeepsTies(a[..|a| - 1], b[..|b| - 1])
  {
    var a', la := a[..|a| - 1], a[|a| - 1];
    var b', lb := b[..|b| - 1], b[|b| - 1];
    var x0 := la.score;
    assert WithScore(a, x0) == WithScore(a', x0) + [la];
    assert WithScore(b, x0) == WithScore(b', x0) + [lb];
    assert WithScore(a, x0) == WithScore(b, x0);
    assert la == lb by {
      var w := WithScore(a, x0);
      assert w[|w| - 1] == la;
    }
    forall y ensures WithScore(b', y) == WithScore(a', y) {
      assert WithScore(a, y) == WithScore(b, y);
      var u, v := WithScore(a', y), WithScore(b', y);
      if y == x0 {
        assert WithScore(a, y) == u + [la];
        assert WithScore(b, y) == v + [la];
        assert u == (u + [la])[..|u|];
        assert v == (v + [la])[..|v|];
      } else {
        assert WithScore(a, y) == u + [] == u;
        assert WithScore(b, y) == v + [] == v;
      }
    }
  }

  /** Two lists ordered by non-increasing score that agree score by score are equal. */
  lemma {:induction false} TiesDetermineSorted(a: seq<ScoredChunk>, b: seq<ScoredChunk>)
    requires SortedDesc(a) && SortedDesc(b)
    requires KeepsTies(a, b)
    ensures a == b
    decreases |a| + |b|
  {
    if a == [] || b == [] {
      var s := if a == [] then b else a;
      if s != [] {
        LastHasItsScore(s);
        assert false;
      }
    } else {
      LastScoreBound(a, b);
      LastScoreBound(b, a);
      DropLastKeepsTies(a, b);
      var a', b' := a[..|a| - 1], b[..|b| - 1];
      TiesDetermineSorted(a', b');
      assert a == a' + [a[|a| - 1]] && b == b' + [b[|b| - 1]];
    }
  }

  /** SortDesc is the only stable sort by non-increasing score: any list with
      both properties is SortDesc of its input. */
  lemma SortDescUnique(s: seq<ScoredChunk>, t: seq<ScoredChunk>)
    requires SortedDesc(t) && KeepsTies(s, t)
    ensures t == SortDesc(s)
  {
    SortDescSorted(s);
    SortDescStable(s);
    TiesDetermineSorted(SortDesc(s), t);
  }

  /** In a list ordered by non-increasing score, each of the first `k` entries
      scores at least as much as every entry left out of them. */
  lemma HeadOfSortedIsBest(ranked: seq<ScoredChunk>, k: nat)
    requires SortedDesc(ranked) && k <= |ranked|
    ensures multiset(ranked[..k]) <= multiset(ranked)
    ensures forall e, i :: e in multiset(ranked) - multiset(ranked[..k]) && 0 <= i < k
                           ==> ranked[i].score >= e.score
  {
    var top, rest := ranked[..k], ranked[k..];
    assert ranked == top + rest;
    assert multiset(ranked) == multiset(top) + multiset(rest);
    forall e, i | e in multiset(ranked) - multiset(top) && 0 <= i < k
      ensures ranked[i].score >= e.score
    {
      assert e in rest;
      var j :| 0 <= j < |rest| && rest[j] == e;
      assert ranked[k + j] == e;
    }
  }

  // ----- the in-place sort -----

  /** InsertDesc places `e` exactly at the slot `j` that follows the last entry
      scoring at least as much as `e`. */
  lemma InsertDescAt(s: seq<ScoredChunk>, e: ScoredChunk, j: nat)
    requires j <= |s|
    requires j == 0 || s[j - 1].score >= e.score
    requires forall k :: j <= k < |s| ==> s[k].score < e.score
    ensures InsertDesc(s, e) == s[..j] + [e] + s[j..]
  {
    var k := InsertDescSplit(s, e);
    assert k == j;
  }

  /** The shifting loop of one insertion pass: moves the entries before `a[i]`
      that score strictly less than `e` one place to the right, and returns the
      slot it opened. */
  method OpenSlot(a: array<ScoredChunk>, i: nat, e: ScoredChunk) returns (j: nat)
    requires i < a.Length
    modifies a
    ensures j <= i
    ensures forall k :: 0 <= k < j ==> a[k] == old(a[k])
    ensures forall k :: j < k <= i ==> a[k] == old(a[k - 1])
    ensures forall k :: i < k < a.Length ==> a[k] == old(a[k])
    ensures j == 0 || old(a[j - 1]).score >= e.score
    ensures forall k :: j <= k < i ==> old(a[k]).score < e.score
  {
    j := i;
    while j > 0 && a[j - 1].score < e.score
      invariant j <= i
      invariant forall k :: 0 <= k < j ==> a[k] == old(a[k])
      invariant forall k :: j < k <= i ==> a[k] == old(a[k - 1])
      invariant forall k :: i < k < a.Length ==> a[k] == old(a[k])
      invariant forall k :: j <= k < i ==> old(a[k]).score < e.score
    {
      a[j] := a[j - 1];
      j := j - 1;
    }
  }

  /** One pass of the insertion sort: `a[..i]` is already sorted; moves `a[i]`
      back past the entries that score strictly less than it. */
  method InsertLast(a: array<ScoredChunk>, i: nat)
    requires i < a.Length
    modifies a
    ensures a[..i + 1] == InsertDesc(old(a[..i]), old(a[i]))
    ensures a[i + 1..] == old(a[i + 1..])
  {
    var e := a[i];
    ghost var sorted := a[..i];
    var j := OpenSlot(a, i, e);
    a[j] := e;
    InsertDescAt(sorted, e, j);
    assert a[..i + 1] == sorted[..j] + [e] + sorted[j..];
    assert a[i + 1..] == old(a[i + 1..]);
  }

  /** `similarities.sort(key=lambda x: x[1], reverse=True)`, as a stable
      insertion sort on the array. */
  method SortByScoreDescending(a: array<ScoredChunk>)
    modifies a
    ensures a[..] == SortDesc(old(a[..]))
  {
    ghost var input := a[..];
    var i := 0;
    while i < a.Length
      invariant 0 <= i <= a.Length
      invariant a[..i] == SortDesc(input[..i])
      invariant a[i..] == input[i..]
    {
      ghost var before := a[..];
      assert before[i] == input[i] && before[i + 1..] == input[i + 1..] by {
        assert before[i..] == input[i..];
        assert before[i..][1..] == before[i + 1..] && input[i..][1..] == input[i + 1..];
      }
      InsertLast(a, i);
      assert input[..i + 1] == input[..i] + [input[i]];
      i := i + 1;
    }
    assert a[..] == a[..a.Length];
    assert input == input[..a.Length];
  }
}
