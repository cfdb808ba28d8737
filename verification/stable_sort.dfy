/**
 * `out.sort((a,b)=>b.score-a.score)`: JavaScript's sort is stable, so the result is the
 * list ordered by descending score with entries of equal score in their original order.
 * This module states that property, shows that it determines the result uniquely, and
 * gives an in-place insertion sort and a functional reference that both meet it.
 */
module StableSort {
  import opened Results

  /** The entries of `s` with score `v`, in their order in `s`. */
  function WithScore(s: seq<Scored>, v: int): seq<Scored> {
    if s == [] then []
    else (if s[0].score == v then [s[0]] else []) + WithScore(s[1..], v)
  }

  /** Non-increasing in score. */
  predicate SortedDesc(s: seq<Scored>) {
    forall i, j :: 0 <= i < j < |s| ==> s[i].score >= s[j].score
  }

  /** `a` and `b` hold the same entries of each score, in the same order. */
  ghost predicate SameScoreLists(a: seq<Scored>, b: seq<Scored>) {
    forall v :: WithScore(a, v) == WithScore(b, v)
  }

  /** `r` is `s` stably sorted by descending score. */
  ghost predicate StableSortOf(r: seq<Scored>, s: seq<Scored>) {
    SortedDesc(r) && SameScoreLists(r, s)
  }

  lemma {:induction false} WithScoreMembers(s: seq<Scored>, v: int, x: Scored)
    ensures x in WithScore(s, v) <==> x in s && x.score == v
  {
    if s != [] {
      WithScoreMembers(s[1..], v, x);
      assert s == [s[0]] + s[1..];
    }
  }

  lemma {:induction false} WithScoreAppend(a: seq<Scored>, b: seq<Scored>, v: int)
    ensures WithScore(a + b, v) == WithScore(a, v) + WithScore(b, v)
  {
    if a == [] {
      assert a + b == b;
    } else {
      var head: seq<Scored> := if a[0].score == v then [a[0]] else [];
      assert (a + b)[0] == a[0];
      assert (a + b)[1..] == a[1..] + b;
      assert WithScore(a + b, v) == head + WithScore(a[1..] + b, v);
      WithScoreAppend(a[1..], b, v);
      assert head + (WithScore(a[1..], v) + WithScore(b, v))
          == (head + WithScore(a[1..], v)) + WithScore(b, v);
    }
  }

  /** Every copy of `x` in `s` survives the filter on its own score. */
  lemma {:induction false} WithScoreKeepsCopies(s: seq<Scored>, x: Scored)
    ensures multiset(WithScore(s, x.score))[x] == multiset(s)[x]
  {
    if s != [] {
      WithScoreKeepsCopies(s[1..], x);
      assert s == [s[0]] + s[1..];
    }
  }

  /** A stable sort is a permutation. */
  lemma StableSortIsPermutation(r: seq<Scored>, s: seq<Scored>)
    requires StableSortOf(r, s)
    ensures multiset(r) == multiset(s) && |r| == |s|
  {
    forall x ensures multiset(r)[x] == multiset(s)[x] {
      WithScoreKeepsCopies(r, x);
      WithScoreKeepsCopies(s, x);
      assert WithScore(r, x.score) == WithScore(s, x.score);
    }
    assert multiset(r) == multiset(s);
    assert |multiset(r)| == |multiset(s)|;
  }

  /** A stable sort has the same members as its input. */
  lemma StableSortMembers(r: seq<Scored>, s: seq<Scored>, x: Scored)
    requires SameScoreLists(r, s)
    ensures x in r <==> x in s
  {
    WithScoreMembers(r, x.score, x);
    WithScoreMembers(s, x.score, x);
    assert WithScore(r, x.score) == WithScore(s, x.score);
  }

  /** Two sorted lists with the same entries of each score start with the same score. */
  lemma SameHeadScore(a: seq<Scored>, b: seq<Scored>)
    requires SortedDesc(a) && SortedDesc(b) && SameScoreLists(a, b)
    requires a != [] && b != []
    ensures a[0].score == b[0].score
  {
    var m, n := a[0].score, b[0].score;
    WithScoreMembers(a, m, a[0]);
    WithScoreMembers(b, n, b[0]);
    assert WithScore(a, m) == WithScore(b, m) && WithScore(a, n) == WithScore(b, n);
    var x :| x in WithScore(b, m);
    var y :| y in WithScore(a, n);
    WithScoreMembers(b, m, x);
    WithScoreMembers(a, n, y);
  }

  /** Two sorted lists with the same entries of each score are the same list. */
  lemma {:induction false} StableSortUnique(a: seq<Scored>, b: seq<Scored>)
    requires SortedDesc(a) && SortedDesc(b) && SameScoreLists(a, b)
    ensures a == b
  {
    if a != [] {
      WithScoreMembers(a, a[0].score, a[0]);
      assert WithScore(b, a[0].score) != [];
    }
    if b != [] {
      WithScoreMembers(b, b[0].score, b[0]);
      assert WithScore(a, b[0].score) != [];
    }
    if a != [] {
      SameHeadScore(a, b);
      var m := a[0].score;
      assert WithScore(a, m) == [a[0]] + WithScore(a[1..], m);
      assert WithScore(b, m) == [b[0]] + WithScore(b[1..], m);
      assert a[0] == WithScore(a, m)[0] == WithScore(b, m)[0] == b[0];
      forall v ensures WithScore(a[1..], v) == WithScore(b[1..], v) {
        var head := if a[0].score == v then [a[0]] else [];
        assert WithScore(a, v) == head + WithScore(a[1..], v);
        assert WithScore(b, v) == head + WithScore(b[1..], v);
        assert WithScore(a, v) == WithScore(b, v);
        assert WithScore(a[1..], v) == WithScore(a, v)[|head|..];
        assert WithScore(b[1..], v) == WithScore(b, v)[|head|..];
      }
      StableSortUnique(a[1..], b[1..]);
      assert a == [a[0]] + a[1..] && b == [b[0]] + b[1..];
    }
  }

  /** The number of score-`v` entries before position `i` is where `s[i]` sits in its per-score list. */
  lemma WithScoreAt(s: seq<Scored>, v: int, i: nat)
    requires i < |s| && s[i].score == v
    ensures |WithScore(s[..i], v)| < |WithScore(s, v)|
    ensures WithScore(s, v)[|WithScore(s[..i], v)|] == s[i]
  {
    assert s == s[..i] + s[i..];
    WithScoreAppend(s[..i], s[i..], v);
    assert s[i..][0] == s[i];
  }

  /** Counting score-`v` entries in a longer prefix never gives fewer. */
  lemma PrefixCountMono(s: seq<Scored>, v: int, i: nat, j: nat)
    requires i <= |s| && j <= |s|
    ensures i <= j ==> |WithScore(s[..i], v)| <= |WithScore(s[..j], v)|
  {
    if i <= j {
      assert s[..j] == s[..i] + s[i..j];
      WithScoreAppend(s[..i], s[i..j], v);
    }
  }

  /** Every entry of a per-score list comes from a position of `s` with that many such entries before it. */
  lemma {:induction false} WithScoreSource(s: seq<Scored>, v: int, a: nat)
    requires a < |WithScore(s, v)|
    ensures exists i :: 0 <= i < |s| && s[i] == WithScore(s, v)[a] && |WithScore(s[..i], v)| == a
  {
    var head: seq<Scored> := if s[0].score == v then [s[0]] else [];
    assert WithScore(s, v) == head + WithScore(s[1..], v);
    if s[0].score == v && a == 0 {
      assert s[..0] == [];
    } else {
      var tail, b := s[1..], a - |head|;
      assert WithScore(s, v)[a] == WithScore(tail, v)[b];
      WithScoreSource(tail, v, b);
      var i :| 0 <= i < |tail| && tail[i] == WithScore(tail, v)[b] && |WithScore(tail[..i], v)| == b;
      PrefixCons(s, v, i);
      assert s[i + 1] == WithScore(s, v)[a] && |WithScore(s[..i + 1], v)| == a;
    }
  }

  /** Counting in a prefix of `s` is counting the head, then the same prefix of the tail. */
  lemma PrefixCons(s: seq<Scored>, v: int, i: nat)
    requires i < |s|
    ensures |WithScore(s[..i + 1], v)| == (if s[0].score == v then 1 else 0) + |WithScore(s[1..][..i], v)|
  {
    assert s[..i + 1] == [s[0]] + s[1..][..i];
    WithScoreAppend([s[0]], s[1..][..i], v);
  }

  /** A stable sort keeps entries of equal score in their relative order. */
  lemma StableKeepsOrder(r: seq<Scored>, s: seq<Scored>, p: nat, q: nat)
    requires SameScoreLists(r, s)
    requires p < q < |r| && r[p].score == r[q].score
    ensures exists i, j :: 0 <= i < j < |s| && s[i] == r[p] && s[j] == r[q]
  {
    var v := r[p].score;
    var a, b := |WithScore(r[..p], v)|, |WithScore(r[..q], v)|;
    WithScoreAt(r, v, p);
    WithScoreAt(r, v, q);
    assert r[..q] == r[..p] + r[p..q];
    WithScoreAppend(r[..p], r[p..q], v);
    assert r[p..q][0] == r[p];
    assert a < b;
    assert WithScore(r, v) == WithScore(s, v);
    WithScoreSource(s, v, a);
    WithScoreSource(s, v, b);
    var i :| 0 <= i < |s| && s[i] == WithScore(s, v)[a] && |WithScore(s[..i], v)| == a;
    var j :| 0 <= j < |s| && s[j] == WithScore(s, v)[b] && |WithScore(s[..j], v)| == b;
    PrefixCountMono(s, v, j, i);
  }

  // ---------------------------------------------------------------------------
  // Functional reference: insertion sort

  /** Place `x` after every entry whose score is at least its own. */
  function Insert(s: seq<Scored>, x: Scored): (r: seq<Scored>)
    ensures |r| == |s| + 1
    ensures r[0] == x || (s != [] && r[0] == s[0])
  {
    if s == [] then [x]
    else if s[0].score >= x.score then [s[0]] + Insert(s[1..], x)
    else [x] + s
  }

  /** Stable insertion sort by descending score, one entry at a time from the front. */
  function SortedByScore(s: seq<Scored>): (r: seq<Scored>)
    ensures |r| == |s|
  {
    if s == [] then [] else Insert(SortedByScore(s[..|s| - 1]), s[|s| - 1])
  }

  lemma SortedCons(x: Scored, s: seq<Scored>)
    requires SortedDesc(s) && (s != [] ==> x.score >= s[0].score)
    ensures SortedDesc([x] + s)
  {
    forall i, j | 0 <= i < j < |[x] + s| ensures ([x] + s)[i].score >= ([x] + s)[j].score {
      if i == 0 && j > 1 {
        assert s[0].score >= s[j - 1].score;
      }
    }
  }

  lemma {:induction false} InsertSorted(s: seq<Scored>, x: Scored)
    requires SortedDesc(s)
    ensures SortedDesc(Insert(s, x))
  {
    if s != [] {
      if s[0].score >= x.score {
        InsertSorted(s[1..], x);
        SortedCons(s[0], Insert(s[1..], x));
      } else {
        SortedCons(x, s);
      }
    }
  }

  lemma {:induction false} InsertScoreLists(s: seq<Scored>, x: Scored, v: int)
    requires SortedDesc(s)
    ensures WithScore(Insert(s, x), v) == WithScore(s, v) + WithScore([x], v)
  {
    if s == [] {
    } else if s[0].score >= x.score {
      InsertScoreLists(s[1..], x, v);
      assert ([s[0]] + Insert(s[1..], x))[1..] == Insert(s[1..], x);
    } else {
      assert ([x] + s)[1..] == s;
      if v == x.score {
        forall y | y in s ensures y.score != v {
          var k :| 0 <= k < |s| && s[k] == y;
          assert s[0].score >= s[k].score || k == 0;
        }
        if WithScore(s, v) != [] {
          WithScoreMembers(s, v, WithScore(s, v)[0]);
        }
      }
    }
  }

  /** The reference sort is a stable sort. */
  lemma {:induction false} SortedByScoreIsStable(s: seq<Scored>)
    ensures StableSortOf(SortedByScore(s), s)
  {
    if s != [] {
      var init, last := s[..|s| - 1], s[|s| - 1];
      SortedByScoreIsStable(init);
      InsertSorted(SortedByScore(init), last);
      forall v ensures WithScore(SortedByScore(s), v) == WithScore(s, v) {
        InsertScoreLists(SortedByScore(init), last, v);
        assert s == init + [last];
        WithScoreAppend(init, [last], v);
      }
    }
  }

  // ---------------------------------------------------------------------------
  // The in-place sort

  /** Swapping two neighbours of different score changes no per-score list. */
  lemma SwapNeighbours(s: seq<Scored>, j: nat)
    requires 0 < j < |s| && s[j - 1].score != s[j].score
    ensures SameScoreLists(s[j - 1 := s[j]][j := s[j - 1]], s)
  {
    var t := s[j - 1 := s[j]][j := s[j - 1]];
    var pre, post := s[..j - 1], s[j + 1..];
    assert s == pre + [s[j - 1], s[j]] + post;
    assert t == pre + [s[j], s[j - 1]] + post;
    forall v ensures WithScore(t, v) == WithScore(s, v) {
      SwapPair(pre, s[j - 1], s[j], post, v);
    }
  }

  lemma SwapPair(pre: seq<Scored>, x: Scored, y: Scored, post: seq<Scored>, v: int)
    requires x.score != y.score
    ensures WithScore(pre + [y, x] + post, v) == WithScore(pre + [x, y] + post, v)
  {
    WithScoreAppend(pre + [x, y], post, v);
    WithScoreAppend(pre + [y, x], post, v);
    WithScoreAppend(pre, [x, y], v);
    WithScoreAppend(pre, [y, x], v);
    assert [x, y][1..] == [y] && [y, x][1..] == [x];
  }

  /** All pairs among the first `n + 1` entries are in order except those ending at `j`. */
  predicate SortedExcept(s: seq<Scored>, n: int, j: int)
    requires n < |s|
  {
    forall p, q :: 0 <= p < q <= n && q != j ==> s[p].score >= s[q].score
  }

  /**
   * Insertion sort by neighbour swaps on the list held in `out`; an entry moves left only
   * past entries of strictly lower score, so equal scores keep their order.
   */
  method SortByScore(s: seq<Scored>) returns (out: seq<Scored>)
    ensures StableSortOf(out, s)
    ensures out == SortedByScore(s)
  {
    out := s;
    var i := 0;
    while i < |out|
      invariant 0 <= i <= |out| == |s|
      invariant forall p, q :: 0 <= p < q < i ==> out[p].score >= out[q].score
      invariant SameScoreLists(out, s)
    {
      var j := i;
      while j > 0 && out[j - 1].score < out[j].score
        invariant 0 <= j <= i < |out| == |s|
        invariant SortedExcept(out, i, j)
        invariant SameScoreLists(out, s)
      {
        SwapNeighbours(out, j);
        out := out[j - 1 := out[j]][j := out[j - 1]];
        j := j - 1;
      }
      i := i + 1;
    }
    SortedByScoreIsStable(s);
    StableSortUnique(out, SortedByScore(s));
  }
}
