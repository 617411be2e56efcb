/**
 The end of a search: the folded list and power of the sharded search are handed to a searcher
 that ranks them.  A lost shard makes the power too small; this raises cosines, and nothing else.
 */
module SearchProcess {
  import opened InvertedIndex
  import opened Searching
  import opened DistributedSearch
  import Hamming = HammingEmbedding

  //////////////////////////////////////////////////////////////////////////////
  // Ratios and roots
  //////////////////////////////////////////////////////////////////////////////

  /** Ratios compare crosswise. */
  lemma {:induction false} RatioCompare(x: real, u: real, y: real, v: real)
    requires u > 0.0 && v > 0.0
    ensures Ratio(x, u) <= Ratio(y, v) <==> Times(x, v) <= Times(y, u)
  {
    var a, b, uv := Ratio(x, u), Ratio(y, v), u * v;
    ProductPositive(u, v, uv);
    assert a * u == x && b * v == y;
    CrossTimes(a, x, u, v, uv);
    CrossTimes(b, y, v, u, uv);
    ScaleCompare(a, b, uv);
  }

  lemma {:induction false} CrossTimes(a: real, x: real, u: real, v: real, uv: real)
    requires a * u == x && uv == u * v
    ensures Times(x, v) == Times(a, uv)
  {
    assert x * v == a * u * v;
  }

  lemma {:induction false} ScaleCompare(a: real, b: real, k: real)
    requires k > 0.0
    ensures Times(a, k) <= Times(b, k) <==> a <= b
  {
    if a < b { ProductPositive(b - a, k, (b - a) * k); }
    if b < a { ProductPositive(a - b, k, (a - b) * k); }
  }

  lemma {:induction false} RootsOrdered(x: real, y: real, sqrt: real -> real)
    requires IsSqrt(sqrt) && 0.0 <= x <= y
    ensures sqrt(x) <= sqrt(y)
  {
    assert Square(sqrt(x)) == x && Square(sqrt(y)) == y;
    RootMonotone(sqrt(x), sqrt(y));
  }

  lemma {:induction false} RootOfPositive(x: real, sqrt: real -> real)
    requires IsSqrt(sqrt) && x > 0.0
    ensures sqrt(x) > 0.0
  {
    assert Square(sqrt(x)) == x && Square(0.0) == 0.0;
  }

  /** The root of a product is the product of the roots. */
  lemma {:induction false} RootOfProduct(x: real, y: real, sqrt: real -> real, product: real, roots: real)
    requires IsSqrt(sqrt) && x > 0.0 && y > 0.0 && product == x * y && roots == sqrt(x) * sqrt(y)
    ensures sqrt(product) == roots > 0.0
  {
    var u, v := sqrt(x), sqrt(y);
    ProductPositive(x, y, product);
    RootOfPositive(x, sqrt);
    RootOfPositive(y, sqrt);
    ProductPositive(u, v, roots);
    assert Square(u) == x && Square(v) == y && Square(sqrt(product)) == product;
    SquareOfProduct(u, v, roots);
    RootMonotone(roots, sqrt(product));
    RootMonotone(sqrt(product), roots);
  }

  lemma {:induction false} SquareOfProduct(u: real, v: real, w: real)
    requires w == u * v
    ensures Square(w) == Square(u) * Square(v)
  {
    assert w * w == (u * u) * (v * v);
  }

  //////////////////////////////////////////////////////////////////////////////
  // Cosines against a smaller power
  //////////////////////////////////////////////////////////////////////////////

  /** A similar entry is one against a power that counts. */
  lemma {:induction false} SimilarHasPower(e: Entry, power: real)
    requires BoundedEntry(e, power) && power >= 0.0 && e.sim != 0.0
    ensures e.pow > 0.0 && power > 0.0
  {
    SquarePositive(e.sim);
    assert Square(e.sim) == e.sim * e.sim;
  }

  /** A smaller power raises a positive cosine. */
  lemma {:induction false} CosineGrows(e: Entry, small: real, large: real, sqrt: real -> real)
    requires IsSqrt(sqrt) && 0.0 <= small <= large && BoundedEntry(e, small) && Cosine(e, large, sqrt) > 0.0
    ensures Cosine(e, small, sqrt) >= Cosine(e, large, sqrt)
  {
    var products, productl := Times(e.pow, small), Times(e.pow, large);
    var rootl := CosineIs(e, large, sqrt, productl);
    SimPositive(e.sim, rootl);
    SimilarHasPower(e, small);
    var roots := CosineIs(e, small, sqrt, products);
    ProductMonotone(e.pow, e.pow, small, large);
    ProductPositive(e.pow, small, products);
    RootsOrdered(products, productl, sqrt);
    RatioShrinks(e.sim, roots, rootl);
  }

  /** A cosine against a power that counts is a ratio. */
  lemma {:induction false} CosineIs(e: Entry, power: real, sqrt: real -> real, product: real) returns (root: real)
    requires IsSqrt(sqrt) && e.pow > 0.0 && power > 0.0 && product == Times(e.pow, power)
    ensures root == sqrt(product) > 0.0 && Cosine(e, power, sqrt) == Ratio(e.sim, root)
  {
    RootPositive(e, power, sqrt);
    root := sqrt(product);
  }

  lemma {:induction false} SimPositive(x: real, y: real)
    requires y > 0.0 && Ratio(x, y) > 0.0
    ensures x > 0.0
  {
    var r := Ratio(x, y);
    assert r * y == x;
    ProductPositive(r, y, x);
  }

  lemma {:induction false} RatioShrinks(x: real, y: real, z: real)
    requires x > 0.0 && 0.0 < y <= z
    ensures Ratio(x, z) <= Ratio(x, y)
  {
    ProductMonotone(x, x, y, z);
    assert Times(x, y) <= Times(x, z);
    RatioCompare(x, z, x, y);
  }

  /** Against a power that counts, entries compare by similarity over the root of their own power. */
  lemma {:induction false} CosineCompare(e: Entry, f: Entry, power: real, sqrt: real -> real)
    requires IsSqrt(sqrt) && e.pow > 0.0 && f.pow > 0.0 && power > 0.0
    ensures Cosine(e, power, sqrt) <= Cosine(f, power, sqrt) <==> Times(e.sim, sqrt(f.pow)) <= Times(f.sim, sqrt(e.pow))
  {
    var k, u, v := sqrt(power), sqrt(e.pow), sqrt(f.pow);
    var uk, vk := u * k, v * k;
    RootOfPositive(power, sqrt);
    var roote := CosineIs(e, power, sqrt, Times(e.pow, power));
    var rootf := CosineIs(f, power, sqrt, Times(f.pow, power));
    RootOfProduct(e.pow, power, sqrt, Times(e.pow, power), uk);
    RootOfProduct(f.pow, power, sqrt, Times(f.pow, power), vk);
    RatioCompare(e.sim, uk, f.sim, vk);
    Factor(e.sim, v, k, vk);
    Factor(f.sim, u, k, uk);
    ScaleCompare(Times(e.sim, v), Times(f.sim, u), k);
  }

  lemma {:induction false} Factor(x: real, v: real, k: real, vk: real)
    requires vk == v * k
    ensures Times(x, vk) == Times(Times(x, v), k)
  {
  }

  /** The power does not change the order of two entries. */
  lemma {:induction false} SameOrder(e: Entry, f: Entry, small: real, large: real, sqrt: real -> real)
    requires IsSqrt(sqrt) && 0.0 <= small <= large && e.pow > 0.0 && f.pow > 0.0
    requires BoundedEntry(e, small) && BoundedEntry(f, small)
    ensures Cosine(e, small, sqrt) <= Cosine(f, small, sqrt) <==> Cosine(e, large, sqrt) <= Cosine(f, large, sqrt)
  {
    if small > 0.0 {
      CosineCompare(e, f, small, sqrt);
      CosineCompare(e, f, large, sqrt);
    } else if large > 0.0 {
      if e.sim != 0.0 { SimilarHasPower(e, small); }
      if f.sim != 0.0 { SimilarHasPower(f, small); }
      CosineCompare(e, f, large, sqrt);
    }
  }

  //////////////////////////////////////////////////////////////////////////////
  // Ranked answers
  //////////////////////////////////////////////////////////////////////////////

  /** Every line of `t` has a line of `s` for the same picture with at least its similarity. */
  ghost predicate Outranks(s: seq<Ranked>, t: seq<Ranked>) {
    forall x :: x in t ==> Outranked(s, x)
  }

  ghost predicate Outranked(s: seq<Ranked>, x: Ranked) {
    exists y :: y in s && y.pic == x.pic && y.sim >= x.sim
  }

  lemma {:induction false} OutrankedMore(a: seq<Ranked>, b: seq<Ranked>, x: Ranked)
    requires Outranked(a, x) || Outranked(b, x)
    ensures Outranked(a + b, x)
  {
    var y :| (y in a || y in b) && y.pic == x.pic && y.sim >= x.sim;
    assert y in a + b;
  }

  /** A smaller power keeps every picture that the larger one keeps, with at least its cosine. */
  lemma {:induction false} CosinesOutrank(r: seq<Entry>, small: real, large: real, sqrt: real -> real)
    requires IsSqrt(sqrt) && 0.0 <= small <= large && Bounded(r, small)
    ensures Outranks(Cosines(r, small, sqrt), Cosines(r, large, sqrt))
  {
    if r != [] {
      CosinesOutrank(r[1..], small, large, sqrt);
      if Cosine(r[0], large, sqrt) > 0.1 { CosineGrows(r[0], small, large, sqrt); }
      var kept, rest := Kept(r[0], small, sqrt), Cosines(r[1..], small, sqrt);
      forall x | x in Cosines(r, large, sqrt) ensures Outranked(kept + rest, x) {
        if x in Kept(r[0], large, sqrt) { KeptOutranks(r[0], small, large, sqrt, x); }
        OutrankedMore(kept, rest, x);
      }
    }
  }

  lemma {:induction false} KeptOutranks(e: Entry, small: real, large: real, sqrt: real -> real, x: Ranked)
    requires IsSqrt(sqrt) && x in Kept(e, large, sqrt) && Cosine(e, small, sqrt) >= Cosine(e, large, sqrt)
    ensures Outranked(Kept(e, small, sqrt), x)
  {
    assert Ranked(e.pic, Cosine(e, small, sqrt)) in Kept(e, small, sqrt);
  }

  /** Both powers put the entries into the same order. */
  ghost predicate RanksAlike(r: seq<Entry>, small: real, large: real, sqrt: real -> real)
    requires IsSqrt(sqrt)
  {
    forall i, j :: 0 <= i < |r| && 0 <= j < |r| ==> (
      Cosine(r[i], small, sqrt) <= Cosine(r[j], small, sqrt) <==>
      Cosine(r[i], large, sqrt) <= Cosine(r[j], large, sqrt))
  }

  lemma {:induction false} NormalRanksAlike(r: seq<Entry>, small: real, large: real, sqrt: real -> real)
    requires IsSqrt(sqrt) && 0.0 <= small <= large && Bounded(r, small) && Normal(r)
    ensures RanksAlike(r, small, large, sqrt)
  {
    forall i, j | 0 <= i < |r| && 0 <= j < |r|
      ensures Cosine(r[i], small, sqrt) <= Cosine(r[j], small, sqrt) <==>
              Cosine(r[i], large, sqrt) <= Cosine(r[j], large, sqrt)
    {
      SameOrder(r[i], r[j], small, large, sqrt);
    }
  }

  lemma {:induction false} OutranksSorted(s: seq<Ranked>, sorted: seq<Ranked>, t: seq<Ranked>)
    requires Outranks(s, t) && multiset(sorted) == multiset(s)
    ensures Outranks(sorted, t)
  {
    forall x | x in t ensures Outranked(sorted, x) {
      assert Outranked(s, x);
      var y :| y in s && y.pic == x.pic && y.sim >= x.sim;
      assert y in multiset(s);
      assert y in sorted;
    }
  }

  /** The answer of the sharded search against that of a single node over the words `words`. */
  ghost predicate AnswersLikeOneNode(items: seq<Ranked>, c: CommonSearch, words: seq<QueryWord>, sqrt: real -> real)
    requires IsSqrt(sqrt)
    reads c
  {
    var r, power := Merged(words, c.index, c.HeTest()), QueryPow(words, c.index);
    && Descending(items) && (forall i :: 0 <= i < |items| ==> 0.1 < items[i].sim <= 1.0)
    && Outranks(items, Cosines(r, power, sqrt))
    && RanksAlike(r, c.queryPow, power, sqrt)
    && (NoneLost(c.serversToDatas, c.index, c.HeTest()) ==> multiset(items) == multiset(Cosines(r, power, sqrt)))
  }

  /**
   `Process` from the dispatch to the ranked answer; -5 for an empty query or one that no range
   serves.  Every cosine is at most 1, every picture that a single node would keep is kept with
   at least its cosine, the order is the same, and without a lost shard so is the answer.
   */
  method Process(c: CommonSearch, query: seq<QueryWord>, sqrt: real -> real)
    returns (ret: int, items: seq<Ranked>, ghost words: seq<QueryWord>)
    requires c.conf != [] && AscendingWords(query) && AscendingIndex(c.index) && IsSqrt(sqrt)
    requires c.resultSimilar == [] && c.queryPow == 0.0
    modifies c
    ensures ret == 0 || ret == -5
    ensures words <= query && (AscendingRanges(c.conf) ==> CoveredPrefix(query, c.conf, |words|))
    ensures query == [] ==> ret == -5
    ensures ret == -5 ==> words == [] && items == []
    ensures ret == 0 ==> AnswersLikeOneNode(items, c, words, sqrt)
  {
    if query == [] { return -5, [], []; }
    words := c.Search(query);
    if c.serversToDatas == [] { return -5, [], []; }
    var searcher := new Searcher(c.index, c.heThreshold, []);
    searcher.SetResultSimilar(c.resultSimilar);
    searcher.SetQueryPow(c.queryPow);
    MergedNormal(words, c.index, c.HeTest());
    items := searcher.Rank(sqrt);
    ret := 0;
    RankedLikeOneNode(c, items, words, sqrt);
  }

  lemma {:induction false} RankedLikeOneNode(c: CommonSearch, items: seq<Ranked>, words: seq<QueryWord>,
                                             sqrt: real -> real)
    requires IsSqrt(sqrt) && AscendingIndex(c.index) && c.resultSimilar == Merged(words, c.index, c.HeTest())
    requires 0.0 <= c.queryPow <= QueryPow(words, c.index) && Bounded(c.resultSimilar, c.queryPow)
    requires NoneLost(c.serversToDatas, c.index, c.HeTest()) ==> c.queryPow == QueryPow(words, c.index)
    requires Descending(items) && forall i :: 0 <= i < |items| ==> 0.1 < items[i].sim <= 1.0
    requires multiset(items) == multiset(Cosines(c.resultSimilar, c.queryPow, sqrt))
    ensures AnswersLikeOneNode(items, c, words, sqrt)
  {
    var r, power := c.resultSimilar, QueryPow(words, c.index);
    MergedNormal(words, c.index, c.HeTest());
    CosinesOutrank(r, c.queryPow, power, sqrt);
    OutranksSorted(Cosines(r, c.queryPow, sqrt), items, Cosines(r, power, sqrt));
    NormalRanksAlike(r, c.queryPow, power, sqrt);
  }

  //////////////////////////////////////////////////////////////////////////////
  // A lost shard
  //////////////////////////////////////////////////////////////////////////////

  /** One word, whose only posting has no code to match. */
  const LONE_WORD: QueryWord := QueryWord(1, 1.0, "")
  const LONE_INDEX: Index := map[1 := [Posting(7, 1.0, [])]]

  lemma {:induction false} LoneWordLost(threshold: nat)
    ensures Merged([LONE_WORD], LONE_INDEX, HammingTest(threshold)) == [] && QueryPow([LONE_WORD], LONE_INDEX) == 1.0
  {
    var test, items := HammingTest(threshold), LONE_INDEX[1];
    EmptySide([], Hamming.Decoded(""), threshold);
    assert !test(items[0], LONE_WORD);
    assert items[1..] == [] && [LONE_WORD][..0] == [];
    assert Contribution(items, LONE_WORD, test) == [];
    assert Square(1.0) == 1.0;
  }

  /** A search that finds nothing has no power at all. */
  lemma {:induction false} NothingFoundNothingCounted(shards: seq<Shard>, index: Index, test: Test)
    requires FoldResult(shards, index, test) == []
    ensures FoldPow(shards, index, test) == 0.0
  {
    if shards != [] {
      var front, last := shards[..|shards| - 1], shards[|shards| - 1];
      NothingCombined(FoldResult(front, index, test), Merged(last.words, index, test));
      NothingFoundNothingCounted(front, index, test);
    }
  }

  lemma {:induction false} NothingCombined(a: seq<Entry>, b: seq<Entry>)
    requires Combined(a, b) == []
    ensures a == [] && b == []
  {
  }

  /** A search that loses the power of its only word: the shard is dispatched and finds nothing. */
  method LosesPower() returns (c: CommonSearch)
    ensures fresh(c) && c.queryPow == 0.0 && QueryPow([LONE_WORD], c.index) == 1.0
    ensures c.serversToDatas != [] && !NoneLost(c.serversToDatas, c.index, c.HeTest())
  {
    var conf := [MergeConf(1, 1, [])];
    c := new CommonSearch(conf, LONE_INDEX, 0);
    assert Serves(conf[0], 1) && Covered(conf, 1);
    ghost var words := c.Search([LONE_WORD]);
    LoneWordLost(Hamming.AsSizeT(0));
    FoldIsMerged(c.serversToDatas, c.index, c.HeTest());
    NothingFoundNothingCounted(c.serversToDatas, c.index, c.HeTest());
  }
}
