/**
 * Crisis keyword detection and the choice of the three past entries most
 * similar to a new one. The TF-IDF cosine scores are a parameter: one score
 * per past entry, in history order.
 */
module Utils {
  import opened Text

  /** Some word of `words` is a substring of `t`. */
  ghost predicate SomeWordOccurs(words: seq<string>, t: string)
  {
    exists k, i :: 0 <= k < |words| && OccursAt(words[k], t, i)
  }

  /** `crisis_detect`: some configured word occurs in the lower-cased text. */
  function CrisisDetect(text: string, crisisWords: seq<string>): (r: bool)
    ensures r <==> SomeWordOccurs(crisisWords, Lower(text))
  {
    AnyContained(Lower(text), crisisWords)
  }

  /** `any(word in t for word in words)`, scanning the words in order. */
  function AnyContained(t: string, words: seq<string>): (r: bool)
    ensures r <==> SomeWordOccurs(words, t)
  {
    if words == [] then
      false
    else if Contains(t, words[0]) then
      assert exists i :: OccursAt(words[0], t, i);
      true
    else
      var r := AnyContained(t, words[1..]);
      assert r ==> exists k, i :: 0 <= k < |words| && OccursAt(words[k], t, i) by {
        if r {
          var k, i :| 0 <= k < |words| - 1 && OccursAt(words[1..][k], t, i);
          assert words[1..][k] == words[k + 1];
        }
      }
      assert (exists k, i :: 0 <= k < |words| && OccursAt(words[k], t, i)) ==> r by {
        if k, i :| 0 <= k < |words| && OccursAt(words[k], t, i) {
          assert k != 0;
          assert words[1..][k - 1] == words[k];
        }
      }
      r
  }

  /** With no configured words nothing is a crisis. */
  lemma NoWordsNoCrisis(text: string)
    ensures !CrisisDetect(text, [])
  {
  }

  /** Configuring more words can only turn a negative answer into a positive one. */
  lemma CrisisMonotone(text: string, words: seq<string>, more: seq<string>)
    requires forall k :: 0 <= k < |words| ==> words[k] in more
    ensures CrisisDetect(text, words) ==> CrisisDetect(text, more)
  {
  }

  /** Texts that differ only in the case of ASCII letters get the same answer. */
  lemma CrisisCaseInsensitive(t1: string, t2: string, words: seq<string>)
    requires |t1| == |t2|
    requires forall k :: 0 <= k < |t1| ==> LowerChar(t1[k]) == LowerChar(t2[k])
    ensures CrisisDetect(t1, words) == CrisisDetect(t2, words)
  {
    assert Lower(t1) == Lower(t2);
  }

  /** Every entry of `p` indexes a sequence of length `n`. */
  ghost predicate ValidIndices(p: seq<nat>, n: nat)
  {
    forall k :: 0 <= k < |p| ==> p[k] < n
  }

  ghost predicate Distinct(p: seq<nat>)
  {
    forall a, b :: 0 <= a < b < |p| ==> p[a] != p[b]
  }

  /** The scores of the indexed entries do not decrease along `p`. */
  ghost predicate SortedByScore(scores: seq<real>, p: seq<nat>)
    requires ValidIndices(p, |scores|)
  {
    forall a, b :: 0 <= a < b < |p| ==> scores[p[a]] <= scores[p[b]]
  }

  /**
   * What numpy's `argsort` may return: every index exactly once, in
   * non-decreasing score order. Equal scores may come in any order, since
   * the default sort is not stable.
   */
  ghost predicate IsArgSort(scores: seq<real>, p: seq<nat>)
  {
    && |p| == |scores|
    && ValidIndices(p, |scores|)
    && Distinct(p)
    && (forall m :: 0 <= m < |scores| ==> m in p)
    && SortedByScore(scores, p)
  }

  /** Inserts index `x` into `p` before the first entry whose score is not below `x`'s. */
  function InsertByScore(scores: seq<real>, x: nat, p: seq<nat>): (r: seq<nat>)
    requires x < |scores| && ValidIndices(p, |scores|) && SortedByScore(scores, p)
    ensures |r| == |p| + 1 && ValidIndices(r, |scores|) && SortedByScore(scores, r)
    ensures forall y :: y in r <==> y == x || y in p
    ensures Distinct(p) && x !in p ==> Distinct(r)
  {
    if p == [] || scores[x] <= scores[p[0]] then
      [x] + p
    else
      var rest := InsertByScore(scores, x, p[1..]);
      assert Distinct(p) && x !in p ==> p[0] !in rest && Distinct(p[1..]) && x !in p[1..];
      assert forall k :: 0 <= k < |rest| ==> scores[p[0]] <= scores[rest[k]] by {
        forall k | 0 <= k < |rest| ensures scores[p[0]] <= scores[rest[k]] {
          assert rest[k] == x || rest[k] in p[1..];
        }
      }
      [p[0]] + rest
  }

  /** An argsort of the first `n` scores. */
  function ArgSortPrefix(scores: seq<real>, n: nat): (p: seq<nat>)
    requires n <= |scores|
    ensures |p| == n && ValidIndices(p, n) && Distinct(p)
    ensures forall m :: 0 <= m < n ==> m in p
    ensures ValidIndices(p, |scores|) && SortedByScore(scores, p)
  {
    if n == 0 then []
    else
      var prev := ArgSortPrefix(scores, n - 1);
      var p := InsertByScore(scores, n - 1, prev);
      assert forall k :: 0 <= k < |p| ==> p[k] == n - 1 || p[k] in prev;
      p
  }

  /** `scores.argsort()`, resolving ties in one of the orders numpy may choose. */
  function ArgSort(scores: seq<real>): (p: seq<nat>)
    ensures IsArgSort(scores, p)
  {
    ArgSortPrefix(scores, |scores|)
  }

  /** `p[-3:][::-1]`: the last three entries, last first. */
  function LastThreeReversed(p: seq<nat>): (r: seq<nat>)
    requires |p| >= 3
    ensures |r| == 3 && forall k :: 0 <= k < 3 ==> r[k] == p[|p| - 1 - k]
  {
    [p[|p| - 1], p[|p| - 2], p[|p| - 3]]
  }

  /**
   * `top` is a top three of `scores`: three distinct valid indices in
   * non-increasing score order, none scoring below any index left out.
   */
  ghost predicate IsTopThree(scores: seq<real>, top: seq<nat>)
  {
    && |top| == 3
    && ValidIndices(top, |scores|)
    && Distinct(top)
    && scores[top[0]] >= scores[top[1]] >= scores[top[2]]
    && forall k, m :: 0 <= k < 3 && 0 <= m < |scores| && m !in top ==> scores[m] <= scores[top[k]]
  }

  /** Whatever order numpy gives equal scores, the last three of its argsort, reversed, are a top three. */
  lemma {:induction false} TopOfAnyArgSort(scores: seq<real>, p: seq<nat>)
    requires |scores| >= 3 && IsArgSort(scores, p)
    ensures IsTopThree(scores, LastThreeReversed(p))
  {
    var n := |p|;
    var top := LastThreeReversed(p);
    forall k, m | 0 <= k < 3 && 0 <= m < |scores| && m !in top
      ensures scores[m] <= scores[top[k]]
    {
      assert m in p;
      var a :| 0 <= a < n && p[a] == m;
      assert a < n - 3;
      assert top[k] == p[n - 1 - k];
    }
  }

  /** The indices `get_similar_entries` picks: none below three scores, otherwise the top three. */
  function SimilarIndices(scores: seq<real>): (top: seq<nat>)
    ensures |scores| < 3 ==> top == []
    ensures |scores| >= 3 ==> IsTopThree(scores, top)
  {
    if |scores| < 3 then []
    else
      var p := ArgSort(scores);
      TopOfAnyArgSort(scores, p);
      LastThreeReversed(p)
  }

  /**
   * `get_similar_entries`: no rows for a history of fewer than three rows;
   * otherwise the three rows whose scores are highest, highest first.
   */
  function GetSimilarEntries<R>(rows: seq<R>, scores: seq<real>): (similar: seq<R>)
    requires |scores| == |rows|
    ensures |rows| < 3 ==> similar == []
    ensures |rows| >= 3 ==> exists top :: IsTopThree(scores, top) && similar == [rows[top[0]], rows[top[1]], rows[top[2]]]
  {
    if |rows| < 3 then []
    else
      var top := SimilarIndices(scores);
      [rows[top[0]], rows[top[1]], rows[top[2]]]
  }
}
