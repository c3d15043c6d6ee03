/**
 * The numeric half of the hybrid search: the maximum of a score vector, the
 * normalisation of lexical scores, the weighted fusion of the two score vectors,
 * `np.argsort`, and the selection of the best `top_k` documents.
 * Scores are reals; numpy's float64 rounding is not modelled.
 */
module Scores {
  import opened PyText

  /** `scores.max()` */
  function Max(s: seq<real>): (m: real)
    requires |s| > 0
    ensures forall i :: 0 <= i < |s| ==> s[i] <= m
    ensures exists i :: 0 <= i < |s| && s[i] == m
  {
    if |s| == 1 then s[0]
    else
      var rest := Max(s[1..]);
      assert exists i :: 1 <= i < |s| && s[i] == rest by {
        var j :| 0 <= j < |s[1..]| && s[1..][j] == rest;
        assert s[j + 1] == rest;
      }
      if s[0] >= rest then s[0] else rest
  }

  /**
   * `if scores.max() > 0: scores = scores / scores.max()`: the division happens only
   * with a positive divisor.
   */
  function Normalize(s: seq<real>): (r: seq<real>)
    requires |s| > 0
    ensures |r| == |s|
    ensures Max(s) > 0.0 ==> forall i :: 0 <= i < |s| ==> r[i] <= 1.0
    ensures Max(s) > 0.0 ==> forall i :: 0 <= i < |s| ==> r[i] == s[i] / Max(s)
    ensures Max(s) > 0.0 ==> exists i :: 0 <= i < |s| && r[i] == 1.0
    ensures Max(s) <= 0.0 ==> r == s
    ensures forall i, j :: 0 <= i < |s| && 0 <= j < |s| ==> (r[i] <= r[j] <==> s[i] <= s[j])
    ensures forall i :: 0 <= i < |s| && 0.0 <= s[i] ==> 0.0 <= r[i]
  {
    var m := Max(s);
    if m > 0.0 then
      DividedAtMostOne(s, m);
      DividedKeepsOrder(s, m);
      DividedKeepsSign(s, m);
      DividedReachesOne(s, m);
      Divided(s, m)
    else
      s
  }

  function Divided(s: seq<real>, m: real): seq<real>
    requires m > 0.0
  {
    seq(|s|, i requires 0 <= i < |s| => s[i] / m)
  }

  lemma DividedAtMostOne(s: seq<real>, m: real)
    requires m > 0.0 && forall i :: 0 <= i < |s| ==> s[i] <= m
    ensures var r := Divided(s, m); forall i :: 0 <= i < |s| ==> r[i] <= 1.0
  {
    var r := Divided(s, m);
    forall i | 0 <= i < |s| ensures r[i] <= 1.0 {
      DivideByPositive(s[i], m, m);
    }
  }

  lemma DividedReachesOne(s: seq<real>, m: real)
    requires m > 0.0 && exists k :: 0 <= k < |s| && s[k] == m
    ensures var r := Divided(s, m); exists i :: 0 <= i < |s| && r[i] == 1.0
  {
    var r := Divided(s, m);
    var k :| 0 <= k < |s| && s[k] == m;
    assert r[k] == 1.0;
  }

  lemma DividedKeepsOrder(s: seq<real>, m: real)
    requires m > 0.0
    ensures var r := Divided(s, m);
            forall i, j :: 0 <= i < |s| && 0 <= j < |s| ==> (r[i] <= r[j] <==> s[i] <= s[j])
  {
    var r := Divided(s, m);
    forall i, j | 0 <= i < |s| && 0 <= j < |s| ensures r[i] <= r[j] <==> s[i] <= s[j] {
      DivideByPositive(s[i], s[j], m);
    }
  }

  lemma DividedKeepsSign(s: seq<real>, m: real)
    requires m > 0.0
    ensures var r := Divided(s, m); forall i :: 0 <= i < |s| && 0.0 <= s[i] ==> 0.0 <= r[i]
  {
    var r := Divided(s, m);
    forall i | 0 <= i < |s| && 0.0 <= s[i] ensures 0.0 <= r[i] {
      DivideByPositive(0.0, s[i], m);
    }
  }

  /** Dividing by a positive number keeps the order of two numbers. */
  lemma DivideByPositive(x: real, y: real, m: real)
    requires m > 0.0
    ensures (x / m) * m == x
    ensures x <= y <==> x / m <= y / m
  {
    assert x / m * m == x;
    assert y / m * m == y;
    if x / m <= y / m {
      assert (x / m) * m <= (y / m) * m;
    }
  }

  /** The fused score of one document: `bm25_weight * lexical + embed_weight * semantic`. */
  function Weighted(lexWeight: real, lex: real, semWeight: real, sem: real): real {
    lexWeight * lex + semWeight * sem
  }

  /** The fused scores of all documents, element by element. */
  function Fuse(lexWeight: real, lexical: seq<real>, semWeight: real, semantic: seq<real>): (r: seq<real>)
    requires |lexical| == |semantic|
    ensures |r| == |lexical|
  {
    seq(|lexical|, i requires 0 <= i < |lexical| => Weighted(lexWeight, lexical[i], semWeight, semantic[i]))
  }

  /**
   * A zero weight switches its signal off: with `embed_weight == 0` the fused scores
   * do not depend on the semantic scores, and with `bm25_weight == 0` they do not
   * depend on the lexical scores.
   */
  lemma FuseWeightIsolation(lexWeight: real, lexical: seq<real>, lexical': seq<real>,
                            semWeight: real, semantic: seq<real>, semantic': seq<real>)
    requires |lexical| == |semantic| == |lexical'| == |semantic'|
    ensures semWeight == 0.0 ==>
              Fuse(lexWeight, lexical, semWeight, semantic) == Fuse(lexWeight, lexical, semWeight, semantic')
    ensures lexWeight == 0.0 ==>
              Fuse(lexWeight, lexical, semWeight, semantic) == Fuse(lexWeight, lexical', semWeight, semantic)
  {
  }

  // ----- ranking -----

  predicate IndicesIn(ix: seq<nat>, n: nat) {
    forall a :: 0 <= a < |ix| ==> ix[a] < n
  }

  predicate Distinct(ix: seq<nat>) {
    forall a, b :: 0 <= a < b < |ix| ==> ix[a] != ix[b]
  }

  predicate Ascending(ix: seq<nat>, s: seq<real>)
    requires IndicesIn(ix, |s|)
  {
    forall a, b :: 0 <= a < b < |ix| ==> s[ix[a]] <= s[ix[b]]
  }

  predicate Descending(ix: seq<nat>, s: seq<real>)
    requires IndicesIn(ix, |s|)
  {
    forall a, b :: 0 <= a < b < |ix| ==> s[ix[a]] >= s[ix[b]]
  }

  /**
   * An order of all document indices, each once, by non-increasing score: what
   * `np.argsort(scores)[::-1]` produces, whatever order it gives to equal scores.
   */
  predicate IsRanking(order: seq<nat>, s: seq<real>) {
    && |order| == |s|
    && IndicesIn(order, |s|)
    && Distinct(order)
    && Descending(order, s)
    && forall x: nat :: x < |s| ==> x in order
  }

  /** Insert index `i` into `ix`, kept in ascending score order. */
  function InsertAscending(i: nat, ix: seq<nat>, s: seq<real>): (r: seq<nat>)
    requires i < |s| && IndicesIn(ix, |s|) && Ascending(ix, s)
    ensures |r| == |ix| + 1 && IndicesIn(r, |s|) && Ascending(r, s)
    ensures forall x: nat :: x in r <==> x == i || x in ix
    ensures Distinct(ix) && i !in ix ==> Distinct(r)
  {
    if ix == [] || s[i] <= s[ix[0]] then [i] + ix
    else
      var rest := InsertAscending(i, ix[1..], s);
      assert Distinct(ix) ==> Distinct(ix[1..]) && ix[0] !in ix[1..];
      BelowAllMembers(ix[0], i, ix[1..], rest, s);
      [ix[0]] + rest
  }

  /** A score at most that of `i` and of every member of `tail` is at most that of every member of `rest`. */
  lemma BelowAllMembers(first: nat, i: nat, tail: seq<nat>, rest: seq<nat>, s: seq<real>)
    requires first < |s| && i < |s| && IndicesIn(tail, |s|) && IndicesIn(rest, |s|)
    requires s[first] <= s[i] && forall c :: 0 <= c < |tail| ==> s[first] <= s[tail[c]]
    requires forall x: nat :: x in rest ==> x == i || x in tail
    ensures forall b :: 0 <= b < |rest| ==> s[first] <= s[rest[b]]
  {
    forall b | 0 <= b < |rest| ensures s[first] <= s[rest[b]] {
      if rest[b] != i {
        assert rest[b] in tail;
      }
    }
  }

  /** The indices `0 .. n - 1`, ordered by ascending score. */
  function ArgsortPrefix(s: seq<real>, n: nat): (r: seq<nat>)
    requires n <= |s|
    ensures |r| == n && IndicesIn(r, |s|) && Distinct(r) && Ascending(r, s)
    ensures forall x: nat :: x in r <==> x < n
  {
    if n == 0 then [] else InsertAscending(n - 1, ArgsortPrefix(s, n - 1), s)
  }

  /**
   * `np.argsort(s)`: every index once, by ascending score. numpy's default sort is
   * not stable; this model places an index before the equal scores already placed,
   * and no property below depends on that choice.
   */
  function Argsort(s: seq<real>): seq<nat> {
    ArgsortPrefix(s, |s|)
  }

  /** `ix[::-1]` */
  function Reverse(ix: seq<nat>): seq<nat> {
    seq(|ix|, k requires 0 <= k < |ix| => ix[|ix| - 1 - k])
  }

  /** Reversing the ascending argsort gives a ranking by non-increasing score. */
  lemma ReversedArgsortRanks(s: seq<real>)
    ensures IsRanking(Reverse(Argsort(s)), s)
  {
    var ix := Argsort(s);
    var order := Reverse(ix);
    forall x: nat | x < |s| ensures x in order {
      assert x in ix;
      var k :| 0 <= k < |ix| && ix[k] == x;
      assert order[|ix| - 1 - k] == x;
    }
  }

  /** `np.argsort(scores)[::-1][:top_k]` */
  function TopIndices(s: seq<real>, topK: int): seq<nat> {
    SliceTo(Reverse(Argsort(s)), topK)
  }

  /**
   * The first `top_k` entries of a ranking are distinct in-range indices in
   * non-increasing score order, there are `min(top_k, n)` of them, and no index left
   * out scores higher than any index taken.
   */
  lemma {:induction false} RankingPrefixIsTopK(order: seq<nat>, s: seq<real>, topK: int)
    requires IsRanking(order, s)
    ensures var p := SliceTo(order, topK);
            && IndicesIn(p, |s|) && Distinct(p) && Descending(p, s)
            && (0 <= topK ==> |p| == if topK < |s| then topK else |s|)
            && (forall i, j :: 0 <= i < |s| && i !in p && 0 <= j < |p| ==> s[i] <= s[p[j]])
  {
    var p := SliceTo(order, topK);
    assert p == order[..|p|];
    forall i, j | 0 <= i < |s| && i !in p && 0 <= j < |p|
      ensures s[i] <= s[p[j]]
    {
      assert i in order;
      var q :| 0 <= q < |order| && order[q] == i;
      assert p[j] == order[j];
    }
  }

  /** The top-k selection of the search, for every score vector and every `top_k`. */
  lemma TopIndicesSelectBest(s: seq<real>, topK: int)
    ensures var p := TopIndices(s, topK);
            && IndicesIn(p, |s|) && Distinct(p) && Descending(p, s)
            && (0 <= topK ==> |p| == if topK < |s| then topK else |s|)
            && (forall i, j :: 0 <= i < |s| && i !in p && 0 <= j < |p| ==> s[i] <= s[p[j]])
  {
    ReversedArgsortRanks(s);
    RankingPrefixIsTopK(Reverse(Argsort(s)), s, topK);
  }
}
