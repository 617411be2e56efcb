/**
 The searcher of one index: word-at-a-time merging of posting lists into a sorted result
 that is updated in place, and ranking by cosine.

 The linked list is a sequence and its iterator an index, so an iterator at the end is
 `|resultSimilar|`.  The original compares the picture under the iterator before it tests
 for the end; here an iterator at the end compares greater than every picture.
 */
module Searching {
  import opened InvertedIndex
  import Hamming = HammingEmbedding

  /** The test of `MergeBucketResult`: at least one pair of codes within the threshold. */
  ghost function HammingTest(threshold: nat): Test {
    (p: Posting, w: QueryWord) => |Hamming.Pairs(p.he, Hamming.Decoded(w.code), Hamming.Within(threshold))| != 0
  }

  /** A posting matches a query word iff some pair of their sign vectors differs in at most `threshold` components. */
  lemma {:induction false} TestMeans(p: Posting, w: QueryWord, us: seq<seq<bool>>, vs: seq<seq<bool>>, threshold: nat)
    requires Hamming.AllCodes(us) && Hamming.AllCodes(vs)
    requires p.he == Hamming.Decoded(Hamming.PackedAll(us)) && w.code == Hamming.PackedAll(vs)
    ensures HammingTest(threshold)(p, w) <==>
      exists i, j :: 0 <= i < |us| && 0 <= j < |vs| && Hamming.Differences(us[i], vs[j]) <= threshold
  {
    Hamming.HeDistanceCountsClosePairs(us, vs, threshold);
    var close := Hamming.ClosePairs(us, vs, threshold);
    if close != {} {
      var pair :| pair in close;
      assert Hamming.Differences(us[pair.0], vs[pair.1]) <= threshold;
    }
    forall i, j | 0 <= i < |us| && 0 <= j < |vs| && Hamming.Differences(us[i], vs[j]) <= threshold ensures close != {} {
      assert (i, j) in close;
    }
  }

  //////////////////////////////////////////////////////////////////////////////
  // The three cases of the merge loop, on the unread rests of both lists
  //////////////////////////////////////////////////////////////////////////////

  lemma {:induction false} ContributionAbove(items: seq<Posting>, w: QueryWord, test: Test)
    requires AscendingPostings(items) && items != []
    ensures Above(Contribution(items[1..], w, test), items[0].pic)
    ensures Above(Contribution(items, w, test), items[0].pic - 1)
  {
    forall i | 0 <= i < |items[1..]| ensures items[0].pic < items[1..][i].pic { assert items[1..][i] == items[i + 1]; }
    ContributionNormal(items[1..], w, test, items[0].pic);
    ContributionNormal(items, w, test, items[0].pic - 1);
  }

  lemma {:induction false} ResultFirst(r: seq<Entry>, c: seq<Entry>)
    requires r != [] && Above(c, r[0].pic)
    ensures Combined(r, c) == [r[0]] + Combined(r[1..], c)
  {
    if c == [] {
      assert Combined(r[1..], c) == r[1..];
    }
  }

  /** The entry of a picture that is already in the result. */
  function Updated(e: Entry, p: Posting, w: QueryWord, matched: bool): Entry {
    if matched then Added(e, Contributed(p, w)) else e
  }

  lemma {:induction false} MergeEqual(r: seq<Entry>, items: seq<Posting>, w: QueryWord, test: Test)
    requires AscendingPostings(items) && r != [] && items != [] && r[0].pic == items[0].pic
    ensures Combined(r, Contribution(items, w, test))
         == [Updated(r[0], items[0], w, test(items[0], w))] + Combined(r[1..], Contribution(items[1..], w, test))
  {
    var p, rest := items[0], Contribution(items[1..], w, test);
    ContributionAbove(items, w, test);
    if test(p, w) && p.weight != 0.0 {
      assert Contribution(items, w, test) == [Contributed(p, w)] + rest;
      assert Contribution(items, w, test)[1..] == rest;
    } else {
      ResultFirst(r, rest);
      if test(p, w) {
        assert Contributed(p, w) == Entry(p.pic, 0.0, 0.0);
      }
    }
  }

  lemma {:induction false} MergeItem(r: seq<Entry>, items: seq<Posting>, w: QueryWord, test: Test)
    requires AscendingPostings(items) && items != [] && (r == [] || items[0].pic < r[0].pic)
    ensures Combined(r, Contribution(items, w, test))
         == (if test(items[0], w) && items[0].weight != 0.0 then [Contributed(items[0], w)] else [])
            + Combined(r, Contribution(items[1..], w, test))
  {
    var p, rest := items[0], Contribution(items[1..], w, test);
    if test(p, w) && p.weight != 0.0 {
      assert Contribution(items, w, test) == [Contributed(p, w)] + rest;
      assert Contribution(items, w, test)[1..] == rest;
    }
  }

  lemma {:induction false} MergeResult(r: seq<Entry>, items: seq<Posting>, w: QueryWord, test: Test)
    requires AscendingPostings(items) && items != [] && r != [] && r[0].pic < items[0].pic
    ensures Combined(r, Contribution(items, w, test)) == [r[0]] + Combined(r[1..], Contribution(items, w, test))
  {
    ContributionAbove(items, w, test);
    ResultFirst(r, Contribution(items, w, test));
  }

  lemma {:induction false} UpdatedBounded(e: Entry, p: Posting, w: QueryWord, matched: bool, queryPow: real)
    requires BoundedEntry(e, queryPow) && queryPow >= 0.0
    ensures BoundedEntry(Updated(e, p, w, matched), queryPow + Square(w.q))
  {
    SquarePositive(w.q);
    if matched {
      ContributedBounded(p, w);
      AddedBounded(e, Contributed(p, w), queryPow, Square(w.q));
    } else {
      WeakerBound(e, queryPow, queryPow + Square(w.q));
    }
  }

  /**
   The state of the merge loop: `cur` entries are final, `i` postings are read, and the
   rests still have to be combined.  Final entries obey the bound with the power of the
   new word, the others obey the old one.
   */
  ghost predicate MergeState(start: seq<Entry>, now: seq<Entry>, cur: nat, items: seq<Posting>, i: nat,
                             w: QueryWord, test: Test, queryPow: real)
  {
    && cur <= |now| && i <= |items| && AscendingPostings(items)
    && now[..cur] + Combined(now[cur..], Contribution(items[i..], w, test)) ==
       Combined(start, Contribution(items, w, test))
    && Bounded(now[..cur], queryPow + Square(w.q)) && Bounded(now[cur..], queryPow)
  }

  lemma {:induction false} MergeBegins(start: seq<Entry>, items: seq<Posting>, w: QueryWord, test: Test, queryPow: real)
    requires AscendingPostings(items) && Bounded(start, queryPow)
    ensures MergeState(start, start, 0, items, 0, w, test, queryPow)
  {
    assert start[..0] == [] && start[0..] == start && items[0..] == items;
  }

  lemma {:induction false} Tail<T>(s: seq<T>, i: nat)
    requires i < |s|
    ensures s[i..][0] == s[i] && s[i..][1..] == s[i + 1..]
  {
  }

  lemma {:induction false} BoundedTail(r: seq<Entry>, i: nat, queryPow: real)
    requires i < |r| && Bounded(r[i..], queryPow)
    ensures BoundedEntry(r[i], queryPow) && Bounded(r[i + 1..], queryPow)
  {
    assert r[i..][0] == r[i];
    var rest := r[i + 1..];
    forall k | 0 <= k < |rest| ensures BoundedEntry(rest[k], queryPow) {
      assert rest[k] == r[i..][k + 1];
    }
  }

  lemma {:induction false} BoundedAppend(r: seq<Entry>, e: Entry, queryPow: real)
    requires Bounded(r, queryPow) && BoundedEntry(e, queryPow)
    ensures Bounded(r + [e], queryPow)
  {
  }

  lemma {:induction false} MergeStepEqual(start: seq<Entry>, now: seq<Entry>, cur: nat, items: seq<Posting>, i: nat,
                       w: QueryWord, test: Test, queryPow: real, next: seq<Entry>)
    requires MergeState(start, now, cur, items, i, w, test, queryPow) && queryPow >= 0.0
    requires cur < |now| && i < |items| && now[cur].pic == items[i].pic
    requires next == now[cur := Updated(now[cur], items[i], w, test(items[i], w))]
    ensures MergeState(start, next, cur + 1, items, i + 1, w, test, queryPow)
  {
    Tail(now, cur);
    Tail(items, i);
    MergeEqual(now[cur..], items[i..], w, test);
    var e := Updated(now[cur], items[i], w, test(items[i], w));
    assert next[..cur + 1] == now[..cur] + [e];
    assert next[cur + 1..] == now[cur + 1..];
    BoundedTail(now, cur, queryPow);
    UpdatedBounded(now[cur], items[i], w, test(items[i], w), queryPow);
    BoundedAppend(now[..cur], e, queryPow + Square(w.q));
  }

  lemma {:induction false} MergeStepItem(start: seq<Entry>, now: seq<Entry>, cur: nat, items: seq<Posting>, i: nat,
                      w: QueryWord, test: Test, queryPow: real, next: seq<Entry>, cur': nat)
    requires MergeState(start, now, cur, items, i, w, test, queryPow) && queryPow >= 0.0
    requires i < |items| && (cur == |now| || items[i].pic < now[cur].pic)
    requires if test(items[i], w) && items[i].weight != 0.0
             then next == now[..cur] + [Contributed(items[i], w)] + now[cur..] && cur' == cur + 1
             else next == now && cur' == cur
    ensures MergeState(start, next, cur', items, i + 1, w, test, queryPow)
  {
    if cur < |now| {
      Tail(now, cur);
    }
    Tail(items, i);
    MergeItem(now[cur..], items[i..], w, test);
    if test(items[i], w) && items[i].weight != 0.0 {
      ContributedBounded(items[i], w);
      WeakerBound(Contributed(items[i], w), Square(w.q), queryPow + Square(w.q));
      assert next[..cur'] == now[..cur] + [Contributed(items[i], w)];
      assert next[cur'..] == now[cur..];
    }
  }

  lemma {:induction false} MergeStepResult(start: seq<Entry>, now: seq<Entry>, cur: nat, items: seq<Posting>, i: nat,
                        w: QueryWord, test: Test, queryPow: real)
    requires MergeState(start, now, cur, items, i, w, test, queryPow) && queryPow >= 0.0
    requires cur < |now| && i < |items| && now[cur].pic < items[i].pic
    ensures MergeState(start, now, cur + 1, items, i, w, test, queryPow)
  {
    Tail(items, i);
    SkipKeepsResult(now, cur, items[i..], w, test);
    SkipKeepsBound(now, cur, items[i], w, queryPow);
  }

  lemma {:induction false} SkipKeepsResult(now: seq<Entry>, cur: nat, rest: seq<Posting>, w: QueryWord, test: Test)
    requires AscendingPostings(rest) && cur < |now| && rest != [] && now[cur].pic < rest[0].pic
    ensures now[..cur + 1] + Combined(now[cur + 1..], Contribution(rest, w, test))
         == now[..cur] + Combined(now[cur..], Contribution(rest, w, test))
  {
    Tail(now, cur);
    MergeResult(now[cur..], rest, w, test);
    assert now[..cur + 1] == now[..cur] + [now[cur]];
  }

  lemma {:induction false} SkipKeepsBound(now: seq<Entry>, cur: nat, p: Posting, w: QueryWord, queryPow: real)
    requires cur < |now| && queryPow >= 0.0
    requires Bounded(now[..cur], queryPow + Square(w.q)) && Bounded(now[cur..], queryPow)
    ensures Bounded(now[..cur + 1], queryPow + Square(w.q)) && Bounded(now[cur + 1..], queryPow)
  {
    assert now[..cur + 1] == now[..cur] + [now[cur]];
    BoundedTail(now, cur, queryPow);
    UpdatedBounded(now[cur], p, w, false, queryPow);
    BoundedAppend(now[..cur], now[cur], queryPow + Square(w.q));
  }

  lemma {:induction false} MergeEnds(start: seq<Entry>, now: seq<Entry>, cur: nat, items: seq<Posting>,
                  w: QueryWord, test: Test, queryPow: real)
    requires MergeState(start, now, cur, items, |items|, w, test, queryPow)
    ensures now == Combined(start, Contribution(items, w, test))
  {
    assert items[|items|..] == [];
    assert Combined(now[cur..], []) == now[cur..];
    assert now == now[..cur] + now[cur..];
  }

  //////////////////////////////////////////////////////////////////////////////
  // The searcher
  //////////////////////////////////////////////////////////////////////////////

  /** One line of the ranked answer. */
  datatype Ranked = Ranked(pic: int, sim: real)

  class Searcher {
    const index: Index
    const heThreshold: nat
    var queryData: seq<QueryWord>
    var resultSimilar: seq<Entry>
    var queryPow: real

    /** The merged result is sorted, and every entry obeys the Cauchy-Schwarz bound. */
    ghost predicate Valid()
      reads this
    {
      && AscendingIndex(index)
      && Normal(resultSimilar)
      && queryPow >= 0.0 && Bounded(resultSimilar, queryPow)
    }

    constructor (index: Index, heThreshold: int, queryData: seq<QueryWord>)
      requires AscendingIndex(index)
      ensures Valid()
      ensures this.index == index && this.heThreshold == Hamming.AsSizeT(heThreshold)
      ensures this.queryData == queryData && resultSimilar == [] && queryPow == 0.0
    {
      this.index := index;
      this.heThreshold := Hamming.AsSizeT(heThreshold);
      this.queryData := queryData;
      resultSimilar := [];
      queryPow := 0.0;
    }

    /** Decodes nothing twice: `queryHe` is the query side of the test. */
    method Matches(p: Posting, w: QueryWord, queryHe: seq<nat>) returns (matched: bool)
      requires queryHe == Hamming.Decoded(w.code)
      ensures matched == HammingTest(heThreshold)(p, w)
    {
      var ret, similar := Hamming.HeDistance(0, p.he, queryHe, heThreshold);
      matched := similar != 0;
      EmptySide(p.he, queryHe, heThreshold);
    }

    /** `MergeBucketResult`: one word is merged into the result in place. */
    method MergeBucketResult(w: QueryWord) returns (ret: int)
      requires Valid()
      modifies this`resultSimilar, this`queryPow
      ensures Valid()
      ensures ret == if w.word in index then 0 else -1
      ensures resultSimilar == Combined(old(resultSimilar), WordResult(w, index, HammingTest(heThreshold)))
      ensures queryPow == old(queryPow) + WordPow(w, index)
      ensures w.word !in index ==> queryPow == old(queryPow) && resultSimilar == old(resultSimilar)
      ensures w.word in index ==> queryPow == old(queryPow) + w.q * w.q
    {
      if w.word !in index {
        return -1;
      }
      var query := Hamming.HeString2Int(w.code);
      ghost var test := HammingTest(heThreshold);
      ghost var start, power := resultSimilar, queryPow;
      SquarePositive(w.q);
      queryPow := queryPow + Square(w.q);
      MergePostings(index[w.word], w, query[..], test, power);
      WordResultNormal(w, index, test);
      CombinedIsNormal(start, WordResult(w, index, test));
      ContributionBounded(index[w.word], w, test);
      CombinedBounded(start, WordResult(w, index, test), power, Square(w.q));
      ret := 0;
    }

    /** The merge loop of `MergeBucketResult`. */
    method MergePostings(items: seq<Posting>, w: QueryWord, queryHe: seq<nat>, ghost test: Test, ghost power: real)
      requires AscendingPostings(items) && queryHe == Hamming.Decoded(w.code) && test == HammingTest(heThreshold)
      requires Bounded(resultSimilar, power) && power >= 0.0
      modifies this`resultSimilar
      ensures resultSimilar == Combined(old(resultSimilar), Contribution(items, w, test))
    {
      ghost var start := resultSimilar;
      var cur: nat, i: nat := 0, 0;
      MergeBegins(start, items, w, test, power);
      while i < |items|
        invariant MergeState(start, resultSimilar, cur, items, i, w, test, power)
        decreases |items| - i, |resultSimilar| - cur
      {
        cur, i := MergeNext(start, cur, items, i, w, queryHe, test, power);
      }
      MergeEnds(start, resultSimilar, cur, items, w, test, power);
    }

    /** One turn of the merge loop. */
    method MergeNext(ghost start: seq<Entry>, cur: nat, items: seq<Posting>, i: nat, w: QueryWord,
                     queryHe: seq<nat>, ghost test: Test, ghost power: real) returns (cur': nat, i': nat)
      requires MergeState(start, resultSimilar, cur, items, i, w, test, power) && power >= 0.0
      requires queryHe == Hamming.Decoded(w.code) && test == HammingTest(heThreshold)
      requires i < |items|
      modifies this`resultSimilar
      ensures MergeState(start, resultSimilar, cur', items, i', w, test, power)
      ensures i' == i + 1 || (i' == i && cur' == cur + 1 && |resultSimilar| == old(|resultSimilar|))
    {
      if cur < |resultSimilar| && items[i].pic == resultSimilar[cur].pic {
        MergeAtCursor(start, cur, items, i, w, queryHe, test, power);
        cur', i' := cur + 1, i + 1;
      } else if cur == |resultSimilar| || items[i].pic < resultSimilar[cur].pic {
        cur' := InsertAtCursor(start, cur, items, i, w, queryHe, test, power);
        i' := i + 1;
      } else {
        MergeStepResult(start, resultSimilar, cur, items, i, w, test, power);
        cur', i' := cur + 1, i;
      }
    }

    /** The picture is under the cursor: its sums grow if the posting passes the test. */
    method MergeAtCursor(ghost start: seq<Entry>, cur: nat, items: seq<Posting>, i: nat, w: QueryWord,
                         queryHe: seq<nat>, ghost test: Test, ghost power: real)
      requires MergeState(start, resultSimilar, cur, items, i, w, test, power) && power >= 0.0
      requires queryHe == Hamming.Decoded(w.code) && test == HammingTest(heThreshold)
      requires cur < |resultSimilar| && i < |items| && items[i].pic == resultSimilar[cur].pic
      modifies this`resultSimilar
      ensures MergeState(start, resultSimilar, cur + 1, items, i + 1, w, test, power)
      ensures |resultSimilar| == old(|resultSimilar|)
    {
      var matched := Matches(items[i], w, queryHe);
      ghost var now := resultSimilar;
      var e := resultSimilar[cur];
      if matched {
        var added := Entry(e.pic, e.sim + Times(items[i].weight, w.q), e.pow + Square(items[i].weight));
        resultSimilar := resultSimilar[cur := added];
      }
      assert resultSimilar == now[cur := Updated(e, items[i], w, matched)];
      MergeStepEqual(start, now, cur, items, i, w, test, power, resultSimilar);
    }

    /** The picture is not in the result: it is inserted if the posting passes the test with some weight. */
    method InsertAtCursor(ghost start: seq<Entry>, cur: nat, items: seq<Posting>, i: nat, w: QueryWord,
                          queryHe: seq<nat>, ghost test: Test, ghost power: real) returns (cur': nat)
      requires MergeState(start, resultSimilar, cur, items, i, w, test, power) && power >= 0.0
      requires queryHe == Hamming.Decoded(w.code) && test == HammingTest(heThreshold)
      requires i < |items| && (cur == |resultSimilar| || items[i].pic < resultSimilar[cur].pic)
      modifies this`resultSimilar
      ensures MergeState(start, resultSimilar, cur', items, i + 1, w, test, power)
    {
      var matched := Matches(items[i], w, queryHe);
      ghost var now := resultSimilar;
      cur' := cur;
      if matched {
        SquarePositive(items[i].weight);
        var e := Entry(items[i].pic, 0.0 + Times(items[i].weight, w.q), 0.0 + Square(items[i].weight));
        if e.pow > 0.0 {
          resultSimilar := resultSimilar[..cur] + [e] + resultSimilar[cur..];
          cur' := cur + 1;
        }
      }
      MergeStepItem(start, now, cur, items, i, w, test, power, resultSimilar, cur');
    }

    /** `Merge`: all words of the query, in ascending order; words that fail to load are skipped. */
    method Merge() returns (ret: int)
      requires AscendingIndex(index)
      modifies this`resultSimilar, this`queryPow
      ensures Valid()
      ensures resultSimilar == Merged(queryData, index, HammingTest(heThreshold))
      ensures queryPow == QueryPow(queryData, index) == SumOfSquares(Loaded(queryData, index))
      ensures ret == if |resultSimilar| > 0 then 0 else -2
    {
      resultSimilar := [];
      queryPow := 0.0;
      for k := 0 to |queryData|
        invariant Valid() && unchanged(`queryData)
        invariant resultSimilar == Merged(queryData[..k], index, HammingTest(heThreshold))
        invariant queryPow == QueryPow(queryData[..k], index)
      {
        assert queryData[..k + 1][..k] == queryData[..k];
        var failed := MergeBucketResult(queryData[k]);
      }
      assert queryData[..|queryData|] == queryData;
      QueryPowIsSum(queryData, index);
      return if |resultSimilar| > 0 then 0 else -2;
    }

    method SetResultSimilar(merged: seq<Entry>)
      modifies this`resultSimilar
      ensures resultSimilar == merged
    {
      resultSimilar := merged;
    }

    method SetQueryPow(power: real)
      modifies this`queryPow
      ensures queryPow == power
    {
      queryPow := power;
    }

    /** `Rank`: the kept entries, best first; every cosine is above 0.1 and at most 1. */
    method Rank(sqrt: real -> real) returns (items: seq<Ranked>)
      requires Valid() && IsSqrt(sqrt)
      ensures multiset(items) == multiset(Cosines(resultSimilar, queryPow, sqrt))
      ensures Descending(items) && OncePerPicture(items)
      ensures forall i :: 0 <= i < |items| ==> 0.1 < items[i].sim <= 1.0
      ensures forall x :: x in items ==> exists e :: e in resultSimilar && LineOf(x, e, queryPow)
      ensures forall e, root :: e in resultSimilar && RootOf(root, e, queryPow) && 0.0 < 0.1 * root < e.sim ==>
        exists x :: x in items && x.pic == e.pic && x.sim * root == e.sim
    {
      var kept := KeptCosines(resultSimilar, queryPow, sqrt);
      CosinesAtMostOne(resultSimilar, queryPow, sqrt);
      items := SortDescending(kept);
      MembersOfEqualMultisets(kept, items);
      RankedLines(resultSimilar, queryPow, sqrt, kept, items);
    }
  }

  //////////////////////////////////////////////////////////////////////////////
  // Ranking
  //////////////////////////////////////////////////////////////////////////////

  /** The square root is a parameter; all that is used is that it inverts squaring. */
  ghost predicate IsSqrt(sqrt: real -> real) {
    forall x :: x >= 0.0 ==> sqrt(x) >= 0.0 && Square(sqrt(x)) == x
  }

  lemma {:induction false} RootPositive(e: Entry, queryPow: real, sqrt: real -> real)
    requires IsSqrt(sqrt) && e.pow > 0.0 && queryPow > 0.0
    ensures sqrt(Times(e.pow, queryPow)) > 0.0
  {
    var product := Times(e.pow, queryPow);
    ProductPositive(e.pow, queryPow, product);
    assert Square(sqrt(product)) == product;
    assert Square(0.0) == 0.0;
  }

  function Ratio(x: real, y: real): (r: real)
    requires y > 0.0
    ensures r * y == x
    ensures x <= y ==> r <= 1.0
  {
    x / y
  }

  /** An entry without weight, or against a query without weight, has cosine 0. */
  function Cosine(e: Entry, queryPow: real, sqrt: real -> real): real
    requires IsSqrt(sqrt)
  {
    if e.pow > 0.0 && queryPow > 0.0 then
      RootPositive(e, queryPow, sqrt);
      Ratio(e.sim, sqrt(Times(e.pow, queryPow)))
    else 0.0
  }

  /** The entries that `Rank` keeps, with their cosines. */
  function Cosines(r: seq<Entry>, queryPow: real, sqrt: real -> real): seq<Ranked>
    requires IsSqrt(sqrt)
  {
    if r == [] then [] else Kept(r[0], queryPow, sqrt) + Cosines(r[1..], queryPow, sqrt)
  }

  function Kept(e: Entry, queryPow: real, sqrt: real -> real): seq<Ranked>
    requires IsSqrt(sqrt)
  {
    if Cosine(e, queryPow, sqrt) > 0.1 then [Ranked(e.pic, Cosine(e, queryPow, sqrt))] else []
  }

  /** The Cauchy-Schwarz bound caps the cosine. */
  lemma {:induction false} CosineAtMostOne(e: Entry, queryPow: real, sqrt: real -> real)
    requires IsSqrt(sqrt) && BoundedEntry(e, queryPow)
    ensures Cosine(e, queryPow, sqrt) <= 1.0
  {
    if e.pow > 0.0 && queryPow > 0.0 {
      var product := Times(e.pow, queryPow);
      ProductPositive(e.pow, queryPow, product);
      RootPositive(e, queryPow, sqrt);
      SimAtMostRoot(e, queryPow, sqrt(product));
    }
  }

  lemma {:induction false} SimAtMostRoot(e: Entry, queryPow: real, root: real)
    requires BoundedEntry(e, queryPow) && root >= 0.0 && Square(root) == e.pow * queryPow
    ensures e.sim <= root
  {
    RootMonotone(e.sim, root);
  }

  lemma {:induction false} CosinesAtMostOne(r: seq<Entry>, queryPow: real, sqrt: real -> real)
    requires IsSqrt(sqrt) && Bounded(r, queryPow)
    ensures forall i :: 0 <= i < |Cosines(r, queryPow, sqrt)| ==> 0.1 < Cosines(r, queryPow, sqrt)[i].sim <= 1.0
  {
    if r != [] {
      CosineAtMostOne(r[0], queryPow, sqrt);
      CosinesAtMostOne(r[1..], queryPow, sqrt);
    }
  }

  //////////////////////////////////////////////////////////////////////////////
  // What the lines of an answer are, without naming the square root
  //////////////////////////////////////////////////////////////////////////////

  /** The root of the product of the powers of an entry and of the query. */
  predicate RootOf(root: real, e: Entry, queryPow: real) {
    root >= 0.0 && root * root == e.pow * queryPow
  }

  /** The line gives the picture of the entry and its similarity over the root of both powers. */
  ghost predicate LineOf(x: Ranked, e: Entry, queryPow: real) {
    x.pic == e.pic && exists root :: RootOf(root, e, queryPow) && x.sim * root == e.sim
  }

  ghost predicate OncePerPicture(items: seq<Ranked>) {
    forall i, j :: 0 <= i < j < |items| ==> items[i].pic != items[j].pic
  }

  lemma {:induction false} KeptIsLine(e: Entry, queryPow: real, sqrt: real -> real, x: Ranked)
    requires IsSqrt(sqrt) && x in Kept(e, queryPow, sqrt)
    ensures LineOf(x, e, queryPow)
  {
    var product := Times(e.pow, queryPow);
    RootPositive(e, queryPow, sqrt);
    ProductPositive(e.pow, queryPow, product);
    var root := sqrt(product);
    assert Square(root) == product;
    assert RootOf(root, e, queryPow);
    assert x.sim == Ratio(e.sim, root);
  }

  lemma {:induction false} RootsEqual(a: real, b: real)
    requires a >= 0.0 && b >= 0.0 && a * a == b * b
    ensures a == b
  {
    RootMonotone(a, b);
    RootMonotone(b, a);
  }

  lemma {:induction false} RootOfPowers(pow: real, queryPow: real, root: real)
    requires pow >= 0.0 && queryPow >= 0.0 && root * root == pow * queryPow && root > 0.0
    ensures pow > 0.0 && queryPow > 0.0
  {
    ProductPositive(root, root, root * root);
  }

  lemma {:induction false} RatioAbove(x: real, y: real, r: real)
    requires y > 0.0 && r == Ratio(x, y) && 0.1 * y < x
    ensures r > 0.1
  {
    var over := r - 0.1;
    assert over * y == x - 0.1 * y;
    if over < 0.0 { ProductPositive(-over, y, -over * y); }
  }

  /** An entry above a tenth of the root is kept, with the cosine that the root gives. */
  lemma {:induction false} AboveIsKept(e: Entry, queryPow: real, sqrt: real -> real, root: real) returns (x: Ranked)
    requires IsSqrt(sqrt) && e.pow >= 0.0 && queryPow >= 0.0
    requires RootOf(root, e, queryPow) && 0.0 < 0.1 * root < e.sim
    ensures x in Kept(e, queryPow, sqrt) && x.pic == e.pic && x.sim * root == e.sim
  {
    RootOfPowers(e.pow, queryPow, root);
    var product := Times(e.pow, queryPow);
    ProductPositive(e.pow, queryPow, product);
    RootPositive(e, queryPow, sqrt);
    assert Square(sqrt(product)) == product;
    RootsEqual(root, sqrt(product));
    x := Ranked(e.pic, Ratio(e.sim, root));
    RatioAbove(e.sim, root, x.sim);
  }

  lemma {:induction false} CosinesMember(r: seq<Entry>, queryPow: real, sqrt: real -> real, e: Entry, x: Ranked)
    requires IsSqrt(sqrt) && e in r && x in Kept(e, queryPow, sqrt)
    ensures x in Cosines(r, queryPow, sqrt)
  {
    if r[0] != e {
      assert e in r[1..];
      CosinesMember(r[1..], queryPow, sqrt, e, x);
    }
  }

  lemma {:induction false} CosinesEntry(r: seq<Entry>, queryPow: real, sqrt: real -> real, x: Ranked) returns (e: Entry)
    requires IsSqrt(sqrt) && x in Cosines(r, queryPow, sqrt)
    ensures e in r && x in Kept(e, queryPow, sqrt)
  {
    if x in Kept(r[0], queryPow, sqrt) {
      e := r[0];
    } else {
      e := CosinesEntry(r[1..], queryPow, sqrt, x);
    }
  }

  lemma {:induction false} CosinesOnce(r: seq<Entry>, queryPow: real, sqrt: real -> real)
    requires IsSqrt(sqrt) && Ascending(r)
    ensures OncePerPicture(Cosines(r, queryPow, sqrt))
  {
    if r != [] {
      var kept, rest := Kept(r[0], queryPow, sqrt), Cosines(r[1..], queryPow, sqrt);
      CosinesOnce(r[1..], queryPow, sqrt);
      forall i | 0 <= i < |rest| ensures rest[i].pic != r[0].pic {
        var e := CosinesEntry(r[1..], queryPow, sqrt, rest[i]);
      }
      assert forall i, j :: 0 <= i < j < |kept + rest| ==> (kept + rest)[i].pic != (kept + rest)[j].pic;
    }
  }

  /** A rearrangement of lines for different pictures has different pictures. */
  lemma {:induction false} RearrangedOnce(s: seq<Ranked>, t: seq<Ranked>)
    requires OncePerPicture(s) && multiset(s) == multiset(t)
    ensures OncePerPicture(t)
  {
    forall i, j | 0 <= i < j < |t| ensures t[i].pic != t[j].pic {
      var x, y := t[i], t[j];
      if x.pic == y.pic {
        assert x in multiset(s) && y in multiset(s);
        assert x == y;
        TwiceCounted(t, i, j);
        OnceCounted(s, x);
      }
    }
  }

  lemma {:induction false} TwiceCounted(t: seq<Ranked>, i: nat, j: nat)
    requires i < j < |t| && t[i] == t[j]
    ensures multiset(t)[t[i]] >= 2
  {
    assert t == t[..i] + [t[i]] + t[i + 1..j] + [t[j]] + t[j + 1..];
  }

  lemma {:induction false} OnceCounted(s: seq<Ranked>, x: Ranked)
    requires OncePerPicture(s)
    ensures multiset(s)[x] <= 1
  {
    if s != [] {
      assert s == [s[0]] + s[1..];
      OnceCounted(s[1..], x);
      if x == s[0] { assert x !in s[1..]; }
    }
  }

  /** The lines of the sorted answer are exactly those of the entries above a tenth of their root. */
  lemma {:induction false} RankedLines(r: seq<Entry>, queryPow: real, sqrt: real -> real, kept: seq<Ranked>,
                                       items: seq<Ranked>)
    requires IsSqrt(sqrt) && Normal(r) && queryPow >= 0.0
    requires kept == Cosines(r, queryPow, sqrt) && multiset(items) == multiset(kept)
    ensures OncePerPicture(items)
    ensures forall x :: x in items ==> exists e :: e in r && LineOf(x, e, queryPow)
    ensures forall e, root :: e in r && RootOf(root, e, queryPow) && 0.0 < 0.1 * root < e.sim ==>
      exists x :: x in items && x.pic == e.pic && x.sim * root == e.sim
  {
    CosinesOnce(r, queryPow, sqrt);
    RearrangedOnce(kept, items);
    forall x | x in items ensures exists e :: e in r && LineOf(x, e, queryPow) {
      assert x in multiset(kept);
      var e := CosinesEntry(r, queryPow, sqrt, x);
      KeptIsLine(e, queryPow, sqrt, x);
    }
    forall e, root | e in r && RootOf(root, e, queryPow) && 0.0 < 0.1 * root < e.sim
      ensures exists x :: x in items && x.pic == e.pic && x.sim * root == e.sim
    {
      var x := AboveIsKept(e, queryPow, sqrt, root);
      CosinesMember(r, queryPow, sqrt, e, x);
      assert x in multiset(items);
    }
  }

  ghost predicate Descending(s: seq<Ranked>) {
    forall i, j :: 0 <= i < j < |s| ==> s[i].sim >= s[j].sim
  }

  /** The loop of `Rank`. */
  method KeptCosines(r: seq<Entry>, queryPow: real, sqrt: real -> real) returns (kept: seq<Ranked>)
    requires IsSqrt(sqrt)
    ensures kept == Cosines(r, queryPow, sqrt)
  {
    kept := [];
    for k := 0 to |r|
      invariant kept + Cosines(r[k..], queryPow, sqrt) == Cosines(r, queryPow, sqrt)
    {
      Tail(r, k);
      kept := kept + Kept(r[k], queryPow, sqrt);
    }
    assert r[|r|..] == [];
  }

  /** Stands for the library sort: some descending rearrangement. */
  method SortDescending(s: seq<Ranked>) returns (t: seq<Ranked>)
    ensures Descending(t) && multiset(t) == multiset(s)
  {
    t := [];
    for k := 0 to |s|
      invariant Descending(t) && multiset(t) == multiset(s[..k])
    {
      assert s[..k + 1] == s[..k] + [s[k]];
      t := InsertDescending(t, s[k]);
    }
    assert s[..|s|] == s;
  }

  method InsertDescending(t: seq<Ranked>, x: Ranked) returns (u: seq<Ranked>)
    requires Descending(t)
    ensures Descending(u) && multiset(u) == multiset(t) + multiset{x}
  {
    var at := |t|;
    while at > 0 && t[at - 1].sim < x.sim
      invariant 0 <= at <= |t|
      invariant forall i :: at <= i < |t| ==> t[i].sim < x.sim
    {
      at := at - 1;
    }
    u := t[..at] + [x] + t[at..];
    InsertedDescending(t, x, at, u);
    InsertedMembers(t, x, at, u);
  }

  lemma {:induction false} InsertedDescending(t: seq<Ranked>, x: Ranked, at: nat, u: seq<Ranked>)
    requires Descending(t) && at <= |t| && u == t[..at] + [x] + t[at..]
    requires at == 0 || t[at - 1].sim >= x.sim
    requires at == |t| || t[at].sim <= x.sim
    ensures Descending(u)
  {
    forall i, j | 0 <= i < j < |u| ensures u[i].sim >= u[j].sim {
      var above := if i < at then t[i].sim else x.sim;
      var below := if j > at then t[j - 1].sim else x.sim;
      assert i > at || u[i].sim == above >= x.sim;
      assert j < at || u[j].sim == below <= x.sim;
    }
  }

  lemma {:induction false} InsertedMembers(t: seq<Ranked>, x: Ranked, at: nat, u: seq<Ranked>)
    requires at <= |t| && u == t[..at] + [x] + t[at..]
    ensures multiset(u) == multiset(t) + multiset{x}
  {
    assert t == t[..at] + t[at..];
  }

  lemma {:induction false} MembersOfEqualMultisets(s: seq<Ranked>, t: seq<Ranked>)
    requires multiset(s) == multiset(t)
    requires forall i :: 0 <= i < |s| ==> 0.1 < s[i].sim <= 1.0
    ensures forall i :: 0 <= i < |t| ==> 0.1 < t[i].sim <= 1.0
  {
    forall i | 0 <= i < |t| ensures 0.1 < t[i].sim <= 1.0 {
      assert t[i] in multiset(s);
    }
  }

  lemma {:induction false} EmptySide(he1: seq<nat>, he2: seq<nat>, threshold: nat)
    ensures he1 == [] || he2 == [] ==> Hamming.Pairs(he1, he2, Hamming.Within(threshold)) == {}
  {
  }
}
