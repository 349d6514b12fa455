/**
 * `_extract_top_n_emotions`: order the (emotion, score) pairs of a prosody
 * score mapping by descending score with Python's stable `sorted(...,
 * reverse=True)`, and keep the first `n`.
 *
 * The mapping is taken as the sequence of its items in insertion order; the
 * result, a dictionary built from the kept items in order, is that sequence.
 */
module EmotionRanking {

  datatype EmotionScore = EmotionScore(emotion: string, score: int)

  predicate SortedDescending(s: seq<EmotionScore>) {
    forall i, j :: 0 <= i < j < |s| ==> s[i].score >= s[j].score
  }

  /** The items of `s` whose score is `v`, in their order in `s`. */
  function WithScore(s: seq<EmotionScore>, v: int): (r: seq<EmotionScore>)
  {
    if s == [] then []
    else (if s[0].score == v then [s[0]] else []) + WithScore(s[1..], v)
  }

  /** Stability: items of equal score keep their relative order. */
  ghost predicate KeepsTies(r: seq<EmotionScore>, s: seq<EmotionScore>) {
    forall v :: WithScore(r, v) == WithScore(s, v)
  }

  /** Put `x` into the descending `t` after every item whose score is at least x's. */
  function Insert(x: EmotionScore, t: seq<EmotionScore>): (r: seq<EmotionScore>)
    ensures |r| == |t| + 1
  {
    if t == [] then [x]
    else if x.score > t[0].score then [x] + t
    else [t[0]] + Insert(x, t[1..])
  }

  /** The stable descending sort, inserting each item in input order. */
  function SortDescending(s: seq<EmotionScore>): (r: seq<EmotionScore>)
    ensures |r| == |s|
  {
    if s == [] then []
    else Insert(s[|s| - 1], SortDescending(s[..|s| - 1]))
  }

  function Min(a: nat, b: nat): nat { if a < b then a else b }

  /** `_extract_top_n_emotions(scores, n)`. */
  function TopN(s: seq<EmotionScore>, n: nat): (r: seq<EmotionScore>)
    ensures |r| == Min(n, |s|)
  {
    SortDescending(s)[..Min(n, |s|)]
  }

  /** The items of `s` other than those counted by the sub-multiset `r`. */
  function Omitted(s: seq<EmotionScore>, r: seq<EmotionScore>): multiset<EmotionScore> {
    multiset(s) - multiset(r)
  }

  // ---- permutation

  /** Insertion adds exactly the one item. */
  lemma {:induction false} InsertPermutes(x: EmotionScore, t: seq<EmotionScore>)
    ensures multiset(Insert(x, t)) == multiset(t) + multiset{x}
  {
    if t != [] && x.score <= t[0].score {
      InsertPermutes(x, t[1..]);
      assert t == [t[0]] + t[1..];
    }
  }

  /** The sort rearranges its input. */
  lemma {:induction false} SortPermutes(s: seq<EmotionScore>)
    ensures multiset(SortDescending(s)) == multiset(s)
  {
    if s != [] {
      var n := |s| - 1;
      SortPermutes(s[..n]);
      InsertPermutes(s[n], SortDescending(s[..n]));
      assert s == s[..n] + [s[n]];
    }
  }

  // ---- lemmas about WithScore

  lemma {:induction false} WithScoreAppend(a: seq<EmotionScore>, b: seq<EmotionScore>, v: int)
    ensures WithScore(a + b, v) == WithScore(a, v) + WithScore(b, v)
  {
    if a == [] {
      assert a + b == b;
    } else {
      var head := if a[0].score == v then [a[0]] else [];
      assert (a + b)[0] == a[0];
      assert (a + b)[1..] == a[1..] + b;
      assert WithScore(a + b, v) == head + WithScore(a[1..] + b, v);
      WithScoreAppend(a[1..], b, v);
      assert WithScore(a, v) == head + WithScore(a[1..], v);
    }
  }

  lemma {:induction false} WithScoreMember(s: seq<EmotionScore>, v: int, y: EmotionScore)
    requires y in WithScore(s, v)
    ensures y in s && y.score == v
  {
    if s[0].score == v && y == s[0] {
    } else {
      assert y in WithScore(s[1..], v);
      WithScoreMember(s[1..], v, y);
    }
  }

  lemma {:induction false} WithScoreNone(s: seq<EmotionScore>, v: int)
    requires forall i :: 0 <= i < |s| ==> s[i].score != v
    ensures WithScore(s, v) == []
  {
    if s != [] {
      WithScoreNone(s[1..], v);
    }
  }

  lemma {:induction false} WithScoreSome(s: seq<EmotionScore>, i: nat)
    requires i < |s|
    ensures WithScore(s, s[i].score) != []
  {
    if i > 0 && s[0].score != s[i].score {
      WithScoreSome(s[1..], i - 1);
    }
  }

  // ---- lemmas about Insert

  lemma {:induction false} InsertSorted(x: EmotionScore, t: seq<EmotionScore>)
    requires SortedDescending(t)
    ensures SortedDescending(Insert(x, t))
  {
    if t == [] {
    } else if x.score > t[0].score {
      ConsSorted(x, t);
    } else {
      var rest := Insert(x, t[1..]);
      SortedTail(t);
      InsertSorted(x, t[1..]);
      forall k | 0 <= k < |rest| ensures rest[k].score <= t[0].score {
        InsertMember(x, t[1..], rest[k]);
        if rest[k] != x {
          var i :| 0 <= i < |t[1..]| && t[1..][i] == rest[k];
          assert t[i + 1] == rest[k];
        }
      }
      ConsSorted(t[0], rest);
    }
  }

  lemma InsertMember(x: EmotionScore, t: seq<EmotionScore>, y: EmotionScore)
    requires y in Insert(x, t)
    ensures y == x || y in t
  {
    InsertPermutes(x, t);
    assert y in multiset(Insert(x, t));
  }

  lemma ConsSorted(h: EmotionScore, r: seq<EmotionScore>)
    requires SortedDescending(r) && forall k :: 0 <= k < |r| ==> r[k].score <= h.score
    ensures SortedDescending([h] + r)
  {
    var c := [h] + r;
    forall i, j | 0 <= i < j < |c| ensures c[i].score >= c[j].score {
      assert c[j] == r[j - 1];
      if i > 0 { assert c[i] == r[i - 1]; }
    }
  }

  lemma {:induction false} InsertKeepsTies(x: EmotionScore, t: seq<EmotionScore>, v: int)
    requires SortedDescending(t)
    ensures WithScore(Insert(x, t), v) == WithScore(t, v) + (if x.score == v then [x] else [])
  {
    if t == [] {
      WithScoreOne(x, v);
    } else if x.score > t[0].score {
      InsertInFront(x, t, v);
    } else {
      SortedTail(t);
      InsertKeepsTies(x, t[1..], v);
      ConsTies(t[0], Insert(x, t[1..]), t[1..], if x.score == v then [x] else [], v);
      assert t == [t[0]] + t[1..];
    }
  }

  /** `x` goes in front of a sorted `t` whose first item scores lower. */
  lemma InsertInFront(x: EmotionScore, t: seq<EmotionScore>, v: int)
    requires SortedDescending(t) && t != [] && x.score > t[0].score
    ensures WithScore([x] + t, v) == WithScore(t, v) + (if x.score == v then [x] else [])
  {
    WithScoreAppend([x], t, v);
    WithScoreOne(x, v);
    if x.score == v {
      forall i | 0 <= i < |t| ensures t[i].score != v {
        if i > 0 { assert t[0].score >= t[i].score; }
      }
      WithScoreNone(t, v);
    }
  }

  /** Putting the same item in front of two sequences keeps a relation between their tie lists. */
  lemma ConsTies(head: EmotionScore, a: seq<EmotionScore>, b: seq<EmotionScore>, extra: seq<EmotionScore>, v: int)
    requires WithScore(a, v) == WithScore(b, v) + extra
    ensures WithScore([head] + a, v) == WithScore([head] + b, v) + extra
  {
    WithScoreAppend([head], a, v);
    WithScoreAppend([head], b, v);
  }

  lemma WithScoreOne(x: EmotionScore, v: int)
    ensures WithScore([x], v) == if x.score == v then [x] else []
  {
    assert [x][1..] == [];
  }

  lemma SortedTail(t: seq<EmotionScore>)
    requires SortedDescending(t) && t != []
    ensures SortedDescending(t[1..])
  {
    forall i, j | 0 <= i < j < |t[1..]| ensures t[1..][i].score >= t[1..][j].score {
      assert t[1..][i] == t[i + 1] && t[1..][j] == t[j + 1];
    }
  }

  // ---- the sort

  lemma {:induction false} SortIsSorted(s: seq<EmotionScore>)
    ensures SortedDescending(SortDescending(s))
  {
    if s != [] {
      var n := |s| - 1;
      SortIsSorted(s[..n]);
      InsertSorted(s[n], SortDescending(s[..n]));
    }
  }

  lemma {:induction false} SortKeepsTies(s: seq<EmotionScore>, v: int)
    ensures WithScore(SortDescending(s), v) == WithScore(s, v)
  {
    if s != [] {
      var n := |s| - 1;
      var init, last := s[..n], s[n];
      var sorted := SortDescending(init);
      assert WithScore(sorted, v) == WithScore(init, v) by {
        SortKeepsTies(init, v);
      }
      assert WithScore(Insert(last, sorted), v) == WithScore(sorted, v) + WithScore([last], v) by {
        SortIsSorted(init);
        InsertKeepsTies(last, sorted, v);
        assert WithScore([last], v) == (if last.score == v then [last] else []);
      }
      assert WithScore(s, v) == WithScore(init, v) + WithScore([last], v) by {
        assert s == init + [last];
        WithScoreAppend(init, [last], v);
      }
      assert SortDescending(s) == Insert(last, sorted);
    }
  }

  /** Two descending sequences with the same items of every score are equal. */
  lemma {:induction false} SameTiesSameOrder(a: seq<EmotionScore>, b: seq<EmotionScore>)
    requires SortedDescending(a) && SortedDescending(b)
    requires forall v :: WithScore(a, v) == WithScore(b, v)
    ensures a == b
  {
    if a == [] || b == [] {
      if a != b {
        // the first item of the non-empty one has a tie class the empty one lacks
        var x := if a == [] then b else a;
        WithScoreSome(x, 0);
      }
    } else {
      SameFirst(a, b);
      SameTiesAfterFirst(a, b);
      SameTiesSameOrder(a[1..], b[1..]);
      assert a == [a[0]] + a[1..] && b == [b[0]] + b[1..];
    }
  }

  /** A descending sequence whose tie class for `m` is non-empty starts at a score of at least `m`. */
  lemma HeadAtLeast(b: seq<EmotionScore>, m: int)
    requires SortedDescending(b) && WithScore(b, m) != []
    ensures b != [] && b[0].score >= m
  {
    var y := WithScore(b, m)[0];
    WithScoreMember(b, m, y);
    var i :| 0 <= i < |b| && b[i] == y;
  }

  lemma SameFirst(a: seq<EmotionScore>, b: seq<EmotionScore>)
    requires SortedDescending(a) && SortedDescending(b) && a != [] && b != []
    requires forall v :: WithScore(a, v) == WithScore(b, v)
    ensures a[0] == b[0]
  {
    var m, m' := a[0].score, b[0].score;
    WithScoreSome(a, 0);
    WithScoreSome(b, 0);
    assert WithScore(b, m) == WithScore(a, m);
    assert WithScore(a, m') == WithScore(b, m');
    HeadAtLeast(b, m);
    HeadAtLeast(a, m');
    assert WithScore(a, m)[0] == a[0];
    assert WithScore(b, m)[0] == b[0];
  }

  lemma SameTiesAfterFirst(a: seq<EmotionScore>, b: seq<EmotionScore>)
    requires a != [] && b != [] && a[0] == b[0]
    requires forall v :: WithScore(a, v) == WithScore(b, v)
    ensures forall v :: WithScore(a[1..], v) == WithScore(b[1..], v)
  {
    forall v ensures WithScore(a[1..], v) == WithScore(b[1..], v) {
      var head := if a[0].score == v then [a[0]] else [];
      assert WithScore(a, v) == head + WithScore(a[1..], v);
      assert WithScore(b, v) == head + WithScore(b[1..], v);
      assert WithScore(a, v) == WithScore(b, v);
      assert (head + WithScore(a[1..], v))[|head|..] == WithScore(a[1..], v);
      assert (head + WithScore(b[1..], v))[|head|..] == WithScore(b[1..], v);
    }
  }

  /**
   * What Python's stable descending `sorted` promises: the result is
   * descending and keeps ties in input order; and it is the only such
   * arrangement of the input.
   */
  lemma StableDescendingSort(s: seq<EmotionScore>, other: seq<EmotionScore>)
    ensures SortedDescending(SortDescending(s)) && KeepsTies(SortDescending(s), s)
    ensures multiset(SortDescending(s)) == multiset(s)
    ensures SortedDescending(other) && KeepsTies(other, s) ==> other == SortDescending(s)
  {
    SortIsSorted(s);
    SortPermutes(s);
    forall v ensures WithScore(SortDescending(s), v) == WithScore(s, v) {
      SortKeepsTies(s, v);
    }
    if SortedDescending(other) && KeepsTies(other, s) {
      SameTiesSameOrder(other, SortDescending(s));
    }
  }

  // ---- the top n

  /**
   * `_extract_top_n_emotions(s, n)` keeps min(n, |s|) items of the input,
   * in descending order of score; each is an input item with its own score;
   * among items of equal score it keeps the earliest ones, in input order;
   * and no item it leaves out scores higher than an item it keeps.
   */
  lemma TopNSpec(s: seq<EmotionScore>, n: nat)
    ensures var r := TopN(s, n);
      && |r| == Min(n, |s|)
      && multiset(r) <= multiset(s)
      && SortedDescending(r)
      && (forall v :: WithScore(r, v) <= WithScore(s, v))
      && (forall y, z :: y in Omitted(s, r) && z in r ==> y.score <= z.score)
  {
    var sorted := SortDescending(s);
    var k := Min(n, |s|);
    var r := TopN(s, n);
    var rest := sorted[k..];
    assert sorted == r + rest;
    SortIsSorted(s);
    TopNKeepsEarliestTies(s, n, r, rest);
    TopNKeepsHighest(s, n, r, rest);
  }

  lemma TopNKeepsEarliestTies(s: seq<EmotionScore>, n: nat, r: seq<EmotionScore>, rest: seq<EmotionScore>)
    requires r == TopN(s, n) && SortDescending(s) == r + rest
    ensures forall v :: WithScore(r, v) <= WithScore(s, v)
  {
    forall v ensures WithScore(r, v) <= WithScore(s, v) {
      WithScoreAppend(r, rest, v);
      SortKeepsTies(s, v);
    }
  }

  lemma TopNKeepsHighest(s: seq<EmotionScore>, n: nat, r: seq<EmotionScore>, rest: seq<EmotionScore>)
    requires r == TopN(s, n) && SortDescending(s) == r + rest
    requires SortedDescending(SortDescending(s))
    ensures multiset(r) <= multiset(s)
    ensures forall y, z :: y in Omitted(s, r) && z in r ==> y.score <= z.score
  {
    SortPermutes(s);
    assert multiset(SortDescending(s)) == multiset(r) + multiset(rest);
    assert Omitted(s, r) == multiset(rest);
    SortedSplit(r, rest);
  }

  /** In a descending `a + b`, nothing in `b` scores higher than anything in `a`. */
  lemma SortedSplit(a: seq<EmotionScore>, b: seq<EmotionScore>)
    requires SortedDescending(a + b)
    ensures forall y, z :: y in multiset(b) && z in a ==> y.score <= z.score
  {
    forall y, z | y in multiset(b) && z in a ensures y.score <= z.score {
      assert y in b;
      var i :| 0 <= i < |b| && b[i] == y;
      var j :| 0 <= j < |a| && a[j] == z;
      assert (a + b)[j] == z && (a + b)[|a| + i] == y;
    }
  }

  // ---- distinct emotion names

  predicate DistinctEmotions(s: seq<EmotionScore>) {
    forall i, j :: 0 <= i < j < |s| ==> s[i].emotion != s[j].emotion
  }

  lemma {:induction false} InsertDistinct(x: EmotionScore, t: seq<EmotionScore>)
    requires DistinctEmotions(t)
    requires forall y :: y in t ==> y.emotion != x.emotion
    ensures DistinctEmotions(Insert(x, t))
  {
    if t != [] && x.score <= t[0].score {
      var rest := Insert(x, t[1..]);
      InsertDistinct(x, t[1..]);
      InsertPermutes(x, t[1..]);
      forall y | y in rest ensures y.emotion != t[0].emotion {
        assert y in multiset(rest);
        if y != x {
          assert y in multiset(t[1..]);
          var i :| 0 <= i < |t[1..]| && t[1..][i] == y;
          assert t[i + 1] == y;
        } else {
          assert t[0] in t;
        }
      }
    }
  }

  /**
   * A score mapping has distinct emotion names; so does its top n, so the
   * dictionary the program builds from the kept items keeps every one of them.
   */
  lemma {:induction false} TopNDistinct(s: seq<EmotionScore>, n: nat)
    requires DistinctEmotions(s)
    ensures DistinctEmotions(TopN(s, n))
  {
    SortDistinct(s);
  }

  lemma {:induction false} SortDistinct(s: seq<EmotionScore>)
    requires DistinctEmotions(s)
    ensures DistinctEmotions(SortDescending(s))
  {
    if s != [] {
      var n := |s| - 1;
      var sorted := SortDescending(s[..n]);
      SortDistinct(s[..n]);
      SortPermutes(s[..n]);
      forall y | y in sorted ensures y.emotion != s[n].emotion {
        assert y in multiset(s[..n]);
        var i :| 0 <= i < n && s[..n][i] == y;
      }
      InsertDistinct(s[n], sorted);
    }
  }
}
