/**
 Posting lists, query words and merged results, and the algebra of merging: results are
 sorted lists that add up picture by picture, so a merge does not depend on how the
 query words are grouped or in which order the groups are combined.

 `float` is `real`; a picture's cosine is only bounded in squared form.
 */
module InvertedIndex {

  /** An `IndexItem`: the picture, its weight for this word, and its decoded Hamming codes. */
  datatype Posting = Posting(pic: int, weight: real, he: seq<nat>)

  /** One entry of a `BOFQuantizeResultMap`; a map is its entries in ascending order of `word`. */
  datatype QueryWord = QueryWord(word: int, q: real, code: string)

  /** `MergeSimilarInfo` without the angle histogram. */
  datatype Entry = Entry(pic: int, sim: real, pow: real)

  /** The words that `LoadWord` can load, with their posting lists. */
  type Index = map<int, seq<Posting>>

  /** The Hamming test between a posting and a query word. */
  type Test = (Posting, QueryWord) -> bool

  ghost predicate AscendingPostings(items: seq<Posting>) {
    forall i, j :: 0 <= i < j < |items| ==> items[i].pic < items[j].pic
  }

  ghost predicate AscendingIndex(index: Index) {
    forall word :: word in index ==> AscendingPostings(index[word])
  }

  ghost predicate Ascending(r: seq<Entry>) {
    forall i, j :: 0 <= i < j < |r| ==> r[i].pic < r[j].pic
  }

  /** A merged result: strictly ascending pictures, each with something accumulated. */
  ghost predicate Normal(r: seq<Entry>) {
    Ascending(r) && forall i :: 0 <= i < |r| ==> r[i].pow > 0.0
  }

  //////////////////////////////////////////////////////////////////////////////
  // What a result says about one picture
  //////////////////////////////////////////////////////////////////////////////

  ghost function SimAt(r: seq<Entry>, pic: int): real {
    if r == [] then 0.0 else (if r[0].pic == pic then r[0].sim else 0.0) + SimAt(r[1..], pic)
  }

  ghost function PowAt(r: seq<Entry>, pic: int): real {
    if r == [] then 0.0 else (if r[0].pic == pic then r[0].pow else 0.0) + PowAt(r[1..], pic)
  }

  ghost predicate Holds(r: seq<Entry>, pic: int) {
    exists i :: 0 <= i < |r| && r[i].pic == pic
  }

  lemma {:induction false} AbsentAt(r: seq<Entry>, pic: int)
    requires !Holds(r, pic)
    ensures SimAt(r, pic) == 0.0 && PowAt(r, pic) == 0.0
  {
    if r != [] {
      assert r[0].pic != pic;
      forall i | 0 <= i < |r[1..]| ensures r[1..][i].pic != pic { assert r[1..][i] == r[i + 1]; }
      AbsentAt(r[1..], pic);
    }
  }

  lemma {:induction false} PresentAt(r: seq<Entry>, i: nat)
    requires Ascending(r) && i < |r|
    ensures SimAt(r, r[i].pic) == r[i].sim && PowAt(r, r[i].pic) == r[i].pow
  {
    if i == 0 {
      AbsentAt(r[1..], r[0].pic);
    } else {
      PresentAt(r[1..], i - 1);
    }
  }

  lemma {:induction false} HoldsIffPow(r: seq<Entry>, pic: int)
    requires Normal(r)
    ensures Holds(r, pic) <==> PowAt(r, pic) > 0.0
  {
    if Holds(r, pic) {
      var i :| 0 <= i < |r| && r[i].pic == pic;
      PresentAt(r, i);
    } else {
      AbsentAt(r, pic);
    }
  }

  /** A result is determined by what it says about each picture. */
  lemma {:induction false} Extensional(a: seq<Entry>, b: seq<Entry>)
    requires Normal(a) && Normal(b)
    requires forall pic :: SimAt(a, pic) == SimAt(b, pic) && PowAt(a, pic) == PowAt(b, pic)
    ensures a == b
  {
    if a == [] {
      if b != [] {
        PresentAt(b, 0);
      }
    } else if b == [] {
      PresentAt(a, 0);
    } else {
      HeadsAgree(a, b);
      PresentAt(a, 0);
      PresentAt(b, 0);
      forall pic ensures SimAt(a[1..], pic) == SimAt(b[1..], pic) && PowAt(a[1..], pic) == PowAt(b[1..], pic) {
        assert SimAt(a, pic) == SimAt(b, pic) && PowAt(a, pic) == PowAt(b, pic);
      }
      Extensional(a[1..], b[1..]);
      assert a == [a[0]] + a[1..] && b == [b[0]] + b[1..];
    }
  }

  lemma {:induction false} HeadsAgree(a: seq<Entry>, b: seq<Entry>)
    requires Normal(a) && Normal(b) && a != [] && b != []
    requires forall pic :: PowAt(a, pic) == PowAt(b, pic)
    ensures a[0].pic == b[0].pic
  {
    HoldsIffPow(a, a[0].pic);
    HoldsIffPow(b, a[0].pic);
    HoldsIffPow(b, b[0].pic);
    HoldsIffPow(a, b[0].pic);
    assert Holds(a, a[0].pic) && Holds(b, b[0].pic);
    assert PowAt(a, a[0].pic) == PowAt(b, a[0].pic);
    var i :| 0 <= i < |b| && b[i].pic == a[0].pic;
    var j :| 0 <= j < |a| && a[j].pic == b[0].pic;
  }

  //////////////////////////////////////////////////////////////////////////////
  // Combining two results
  //////////////////////////////////////////////////////////////////////////////

  function Added(d: Entry, e: Entry): Entry {
    Entry(d.pic, d.sim + e.sim, d.pow + e.pow)
  }

  /** The sorted merge that adds entries of the same picture. */
  function Combined(a: seq<Entry>, b: seq<Entry>): seq<Entry>
    decreases |a| + |b|
  {
    if a == [] then b
    else if b == [] then a
    else if a[0].pic < b[0].pic then [a[0]] + Combined(a[1..], b)
    else if a[0].pic == b[0].pic then [Added(a[0], b[0])] + Combined(a[1..], b[1..])
    else [b[0]] + Combined(a, b[1..])
  }

  lemma {:induction false} CombinedAt(a: seq<Entry>, b: seq<Entry>, pic: int)
    ensures SimAt(Combined(a, b), pic) == SimAt(a, pic) + SimAt(b, pic)
    ensures PowAt(Combined(a, b), pic) == PowAt(a, pic) + PowAt(b, pic)
    decreases |a| + |b|
  {
    if a != [] && b != [] {
      var c := Combined(a, b);
      if a[0].pic < b[0].pic {
        CombinedAt(a[1..], b, pic);
        assert c[1..] == Combined(a[1..], b);
      } else if a[0].pic == b[0].pic {
        CombinedAt(a[1..], b[1..], pic);
        assert c[1..] == Combined(a[1..], b[1..]);
      } else {
        CombinedAt(a, b[1..], pic);
        assert c[1..] == Combined(a, b[1..]);
      }
    }
  }

  /** Every picture of `r` comes after `pic`. */
  ghost predicate Above(r: seq<Entry>, pic: int) {
    forall i :: 0 <= i < |r| ==> pic < r[i].pic
  }

  lemma {:induction false} NormalTail(r: seq<Entry>)
    requires Normal(r) && r != []
    ensures Normal(r[1..]) && Above(r[1..], r[0].pic)
  {
  }

  lemma {:induction false} NormalCons(e: Entry, r: seq<Entry>)
    requires Normal(r) && Above(r, e.pic) && e.pow > 0.0
    ensures Normal([e] + r)
  {
  }

  lemma {:induction false} CombinedNormal(a: seq<Entry>, b: seq<Entry>, floor: int)
    requires Normal(a) && Normal(b) && Above(a, floor) && Above(b, floor)
    ensures Normal(Combined(a, b)) && Above(Combined(a, b), floor)
    decreases |a| + |b|
  {
    if a != [] && b != [] {
      NormalTail(a);
      NormalTail(b);
      if a[0].pic < b[0].pic {
        CombinedNormal(a[1..], b, a[0].pic);
        NormalCons(a[0], Combined(a[1..], b));
      } else if a[0].pic == b[0].pic {
        CombinedNormal(a[1..], b[1..], a[0].pic);
        NormalCons(Added(a[0], b[0]), Combined(a[1..], b[1..]));
      } else {
        CombinedNormal(a, b[1..], b[0].pic);
        NormalCons(b[0], Combined(a, b[1..]));
      }
    }
  }

  lemma {:induction false} CombinedIsNormal(a: seq<Entry>, b: seq<Entry>)
    requires Normal(a) && Normal(b)
    ensures Normal(Combined(a, b))
  {
    var x, y := if a == [] then 0 else a[0].pic, if b == [] then 0 else b[0].pic;
    CombinedNormal(a, b, (if x < y then x else y) - 1);
  }

  lemma {:induction false} CombinedAssociates(a: seq<Entry>, b: seq<Entry>, c: seq<Entry>)
    requires Normal(a) && Normal(b) && Normal(c)
    ensures Combined(Combined(a, b), c) == Combined(a, Combined(b, c))
  {
    CombinedIsNormal(a, b);
    CombinedIsNormal(b, c);
    CombinedIsNormal(Combined(a, b), c);
    CombinedIsNormal(a, Combined(b, c));
    forall pic
      ensures SimAt(Combined(Combined(a, b), c), pic) == SimAt(Combined(a, Combined(b, c)), pic)
      ensures PowAt(Combined(Combined(a, b), c), pic) == PowAt(Combined(a, Combined(b, c)), pic)
    {
      CombinedAt(a, b, pic);
      CombinedAt(b, c, pic);
      CombinedAt(Combined(a, b), c, pic);
      CombinedAt(a, Combined(b, c), pic);
    }
    Extensional(Combined(Combined(a, b), c), Combined(a, Combined(b, c)));
  }

  lemma {:induction false} CombinedCommutes(a: seq<Entry>, b: seq<Entry>)
    requires Normal(a) && Normal(b)
    ensures Combined(a, b) == Combined(b, a)
  {
    CombinedIsNormal(a, b);
    CombinedIsNormal(b, a);
    forall pic
      ensures SimAt(Combined(a, b), pic) == SimAt(Combined(b, a), pic)
      ensures PowAt(Combined(a, b), pic) == PowAt(Combined(b, a), pic)
    {
      CombinedAt(a, b, pic);
      CombinedAt(b, a, pic);
    }
    Extensional(Combined(a, b), Combined(b, a));
  }

  //////////////////////////////////////////////////////////////////////////////
  // One query word
  //////////////////////////////////////////////////////////////////////////////

  /** The postings of a word that pass the test with a non-zero weight, as results. */
  function Contribution(items: seq<Posting>, w: QueryWord, test: Test): seq<Entry> {
    if items == [] then []
    else if test(items[0], w) && items[0].weight != 0.0 then
      [Contributed(items[0], w)] + Contribution(items[1..], w, test)
    else Contribution(items[1..], w, test)
  }

  function Contributed(p: Posting, w: QueryWord): Entry {
    Entry(p.pic, Times(p.weight, w.q), Square(p.weight))
  }

  function Times(x: real, y: real): (r: real)
    ensures r == x * y
  {
    x * y
  }

  function Square(x: real): (r: real)
    ensures r == x * x
  {
    x * x
  }

  lemma {:induction false} SquarePositive(x: real)
    ensures Square(x) >= 0.0
    ensures x != 0.0 ==> Square(x) > 0.0
  {
    if x < 0.0 {
      ProductPositive(-x, -x, Square(x));
    } else if x > 0.0 {
      ProductPositive(x, x, Square(x));
    }
  }

  lemma {:induction false} ContributedPositive(p: Posting, w: QueryWord)
    requires p.weight != 0.0
    ensures Contributed(p, w).pow > 0.0
  {
    SquarePositive(p.weight);
  }

  lemma {:induction false} ProductPositive(x: real, y: real, product: real)
    requires x > 0.0 && y > 0.0 && product == x * y
    ensures product > 0.0
  {
  }

  lemma {:induction false} ContributionNormal(items: seq<Posting>, w: QueryWord, test: Test, floor: int)
    requires AscendingPostings(items)
    requires forall i :: 0 <= i < |items| ==> floor < items[i].pic
    ensures Normal(Contribution(items, w, test)) && Above(Contribution(items, w, test), floor)
  {
    if items != [] {
      forall i | 0 <= i < |items[1..]| ensures items[0].pic < items[1..][i].pic {
        assert items[1..][i] == items[i + 1];
      }
      ContributionNormal(items[1..], w, test, items[0].pic);
      if test(items[0], w) && items[0].weight != 0.0 {
        ContributedPositive(items[0], w);
        NormalCons(Contributed(items[0], w), Contribution(items[1..], w, test));
      }
    }
  }

  lemma {:induction false} ContributionIsNormal(items: seq<Posting>, w: QueryWord, test: Test)
    requires AscendingPostings(items)
    ensures Normal(Contribution(items, w, test))
  {
    ContributionNormal(items, w, test, if items == [] then 0 else items[0].pic - 1);
  }

  //////////////////////////////////////////////////////////////////////////////
  // All words of a query
  //////////////////////////////////////////////////////////////////////////////

  /** What one word adds to the result: nothing when its postings cannot be loaded. */
  function WordResult(w: QueryWord, index: Index, test: Test): seq<Entry> {
    if w.word in index then Contribution(index[w.word], w, test) else []
  }

  /** The result of merging the words one after the other. */
  function Merged(words: seq<QueryWord>, index: Index, test: Test): seq<Entry> {
    if words == [] then []
    else Combined(Merged(words[..|words| - 1], index, test), WordResult(words[|words| - 1], index, test))
  }

  /** The sum of the squared weights of the words that could be loaded. */
  function QueryPow(words: seq<QueryWord>, index: Index): real {
    if words == [] then 0.0
    else QueryPow(words[..|words| - 1], index) + WordPow(words[|words| - 1], index)
  }

  function WordPow(w: QueryWord, index: Index): real {
    if w.word in index then Square(w.q) else 0.0
  }

  /** The words that load, in their order. */
  function Loaded(words: seq<QueryWord>, index: Index): seq<QueryWord> {
    if words == [] then []
    else
      var last := words[|words| - 1];
      Loaded(words[..|words| - 1], index) + (if last.word in index then [last] else [])
  }

  function SumOfSquares(words: seq<QueryWord>): real {
    if words == [] then 0.0
    else SumOfSquares(words[..|words| - 1]) + words[|words| - 1].q * words[|words| - 1].q
  }

  /** The power of a query is the sum of the squared weights of exactly the words that load. */
  lemma {:induction false} QueryPowIsSum(words: seq<QueryWord>, index: Index)
    ensures QueryPow(words, index) == SumOfSquares(Loaded(words, index))
  {
    if words != [] {
      var front, last := words[..|words| - 1], words[|words| - 1];
      QueryPowIsSum(front, index);
      var loaded := Loaded(front, index);
      if last.word in index { assert (loaded + [last])[..|loaded|] == loaded; } else { assert loaded + [] == loaded; }
    }
  }

  /** A query of weights 3 and 4 whose second word does not load has power 9. */
  lemma {:induction false} UnloadedWordHasNoPower(items: seq<Posting>)
    ensures QueryPow([QueryWord(1, 3.0, ""), QueryWord(2, 4.0, "")], map[1 := items]) == 9.0
  {
    var words, index := [QueryWord(1, 3.0, ""), QueryWord(2, 4.0, "")], map[1 := items];
    assert words[..1] == [words[0]] && words[..1][..0] == [];
    assert QueryPow(words[..1], index) == QueryPow([], index) + WordPow(words[0], index);
  }

  lemma {:induction false} WordResultNormal(w: QueryWord, index: Index, test: Test)
    requires AscendingIndex(index)
    ensures Normal(WordResult(w, index, test))
  {
    if w.word in index {
      ContributionIsNormal(index[w.word], w, test);
    }
  }

  lemma {:induction false} MergedNormal(words: seq<QueryWord>, index: Index, test: Test)
    requires AscendingIndex(index)
    ensures Normal(Merged(words, index, test))
  {
    if words != [] {
      var last := |words| - 1;
      MergedNormal(words[..last], index, test);
      WordResultNormal(words[last], index, test);
      CombinedIsNormal(Merged(words[..last], index, test), WordResult(words[last], index, test));
    }
  }

  /** Merging is a homomorphism: a query may be cut anywhere. */
  lemma {:induction false} MergedConcat(u: seq<QueryWord>, v: seq<QueryWord>, index: Index, test: Test)
    requires AscendingIndex(index)
    ensures Merged(u + v, index, test) == Combined(Merged(u, index, test), Merged(v, index, test))
    ensures QueryPow(u + v, index) == QueryPow(u, index) + QueryPow(v, index)
  {
    if v == [] {
      assert u + v == u;
      assert Combined(Merged(u, index, test), []) == Merged(u, index, test);
    } else {
      var last := |v| - 1;
      assert (u + v)[..|u + v| - 1] == u + v[..last];
      MergedConcat(u, v[..last], index, test);
      MergedNormal(u, index, test);
      MergedNormal(v[..last], index, test);
      WordResultNormal(v[last], index, test);
      CombinedAssociates(Merged(u, index, test), Merged(v[..last], index, test), WordResult(v[last], index, test));
    }
  }

  //////////////////////////////////////////////////////////////////////////////
  // Brute force
  //////////////////////////////////////////////////////////////////////////////

  /** The sum of `weight * q` over the postings of `pic` that pass the test, over all loaded words. */
  ghost function SimSum(words: seq<QueryWord>, index: Index, test: Test, pic: int): real {
    if words == [] then 0.0
    else SimSum(words[..|words| - 1], index, test, pic) + WordSim(words[|words| - 1], index, test, pic)
  }

  ghost function PowSum(words: seq<QueryWord>, index: Index, test: Test, pic: int): real {
    if words == [] then 0.0
    else PowSum(words[..|words| - 1], index, test, pic) + WordPowOf(words[|words| - 1], index, test, pic)
  }

  ghost function WordSim(w: QueryWord, index: Index, test: Test, pic: int): real {
    if w.word in index then PostingSim(index[w.word], w, test, pic) else 0.0
  }

  ghost function WordPowOf(w: QueryWord, index: Index, test: Test, pic: int): real {
    if w.word in index then PostingPow(index[w.word], w, test, pic) else 0.0
  }

  ghost function PostingSim(items: seq<Posting>, w: QueryWord, test: Test, pic: int): real {
    if items == [] then 0.0
    else (if items[0].pic == pic && test(items[0], w) then Times(items[0].weight, w.q) else 0.0)
         + PostingSim(items[1..], w, test, pic)
  }

  ghost function PostingPow(items: seq<Posting>, w: QueryWord, test: Test, pic: int): real {
    if items == [] then 0.0
    else (if items[0].pic == pic && test(items[0], w) then Square(items[0].weight) else 0.0)
         + PostingPow(items[1..], w, test, pic)
  }

  lemma {:induction false} ContributionAt(items: seq<Posting>, w: QueryWord, test: Test, pic: int)
    ensures SimAt(Contribution(items, w, test), pic) == PostingSim(items, w, test, pic)
    ensures PowAt(Contribution(items, w, test), pic) == PostingPow(items, w, test, pic)
  {
    if items != [] {
      ContributionAt(items[1..], w, test, pic);
      if test(items[0], w) && items[0].weight != 0.0 {
        assert Contribution(items, w, test)[1..] == Contribution(items[1..], w, test);
      }
    }
  }

  lemma {:induction false} MergedAt(words: seq<QueryWord>, index: Index, test: Test, pic: int)
    ensures SimAt(Merged(words, index, test), pic) == SimSum(words, index, test, pic)
    ensures PowAt(Merged(words, index, test), pic) == PowSum(words, index, test, pic)
  {
    if words != [] {
      var last := |words| - 1;
      MergedAt(words[..last], index, test, pic);
      CombinedAt(Merged(words[..last], index, test), WordResult(words[last], index, test), pic);
      if words[last].word in index {
        ContributionAt(index[words[last].word], words[last], test, pic);
      }
    }
  }

  /** Some posting of `pic`, under a loaded word, passes the test with a non-zero weight. */
  ghost predicate Hit(words: seq<QueryWord>, index: Index, test: Test, pic: int) {
    exists k, j ::
      0 <= k < |words| && words[k].word in index && 0 <= j < |index[words[k].word]| &&
      HitBy(index[words[k].word][j], words[k], test, pic)
  }

  ghost predicate HitBy(p: Posting, w: QueryWord, test: Test, pic: int) {
    p.pic == pic && test(p, w) && p.weight != 0.0
  }

  lemma {:induction false} PostingPowPositive(items: seq<Posting>, w: QueryWord, test: Test, pic: int)
    ensures PostingPow(items, w, test, pic) >= 0.0
    ensures PostingPow(items, w, test, pic) > 0.0 <==> exists j :: 0 <= j < |items| && HitBy(items[j], w, test, pic)
  {
    if items != [] {
      var rest := items[1..];
      PostingPowPositive(rest, w, test, pic);
      SquarePositive(items[0].weight);
      if j :| 0 <= j < |rest| && HitBy(rest[j], w, test, pic) {
        assert HitBy(items[j + 1], w, test, pic);
      }
      if j :| 0 <= j < |items| && HitBy(items[j], w, test, pic) {
        assert j == 0 || HitBy(rest[j - 1], w, test, pic);
      }
    }
  }

  lemma {:induction false} PowSumPositive(words: seq<QueryWord>, index: Index, test: Test, pic: int)
    ensures PowSum(words, index, test, pic) >= 0.0
    ensures PowSum(words, index, test, pic) > 0.0 <==> Hit(words, index, test, pic)
  {
    if words != [] {
      var last := |words| - 1;
      var front, w := words[..last], words[last];
      PowSumPositive(front, index, test, pic);
      if w.word in index {
        PostingPowPositive(index[w.word], w, test, pic);
      }
      if k, j :| 0 <= k < |front| && front[k].word in index && 0 <= j < |index[front[k].word]| &&
                 HitBy(index[front[k].word][j], front[k], test, pic) {
        assert HitBy(index[words[k].word][j], words[k], test, pic);
      }
      if k, j :| 0 <= k < |words| && words[k].word in index && 0 <= j < |index[words[k].word]| &&
                 HitBy(index[words[k].word][j], words[k], test, pic) {
        if k < last {
          assert HitBy(index[front[k].word][j], front[k], test, pic);
        }
      }
    }
  }

  /**
   Word-at-a-time merging equals brute force: the result is strictly ascending, holds a
   picture exactly when some tested posting of it has a non-zero weight, and then holds
   the sums over exactly the loaded words that pass the test.
   */
  lemma {:induction false} MergedIsBruteForce(words: seq<QueryWord>, index: Index, test: Test, pic: int)
    requires AscendingIndex(index)
    ensures Normal(Merged(words, index, test))
    ensures Holds(Merged(words, index, test), pic) <==> Hit(words, index, test, pic)
    ensures forall i :: 0 <= i < |Merged(words, index, test)| && Merged(words, index, test)[i].pic == pic ==>
      Merged(words, index, test)[i] == Entry(pic, SimSum(words, index, test, pic), PowSum(words, index, test, pic))
  {
    var r := Merged(words, index, test);
    MergedNormal(words, index, test);
    MergedAt(words, index, test, pic);
    HoldsIffPow(r, pic);
    PowSumPositive(words, index, test, pic);
    forall i | 0 <= i < |r| && r[i].pic == pic
      ensures r[i] == Entry(pic, SimSum(words, index, test, pic), PowSum(words, index, test, pic))
    {
      PresentAt(r, i);
    }
  }

  //////////////////////////////////////////////////////////////////////////////
  // The Cauchy-Schwarz bound
  //////////////////////////////////////////////////////////////////////////////

  /** sim^2 <= pow * queryPow for every entry: no cosine exceeds 1. */
  ghost predicate Bounded(r: seq<Entry>, queryPow: real) {
    forall i :: 0 <= i < |r| ==> BoundedEntry(r[i], queryPow)
  }

  ghost predicate BoundedEntry(e: Entry, queryPow: real) {
    e.pow >= 0.0 && e.sim * e.sim <= e.pow * queryPow
  }

  lemma {:induction false} ProductMonotone(a: real, b: real, c: real, d: real)
    requires 0.0 <= a <= b && 0.0 <= c <= d
    ensures a * c <= b * d
  {
    assert a * c <= b * c;
    assert b * c <= b * d;
  }

  /** If x^2 <= y^2 for a non-negative y then x <= y. */
  lemma {:induction false} RootMonotone(x: real, y: real)
    requires y >= 0.0 && x * x <= y * y
    ensures x <= y
  {
    if x > y {
      assert (x - y) * (x + y) == x * x - y * y;
      ProductPositive(x - y, x + y, (x - y) * (x + y));
    }
  }

  /** The mixed term of (s + t)^2: 2st <= pR + rP when s^2 <= pP and t^2 <= rR. */
  lemma {:induction false} MixedTerm(s: real, t: real, p: real, r: real, P: real, R: real)
    requires p >= 0.0 && r >= 0.0 && P >= 0.0 && R >= 0.0
    requires s * s <= p * P && t * t <= r * R
    ensures 2.0 * s * t <= p * R + r * P
  {
    var u, v := p * R, r * P;
    assert u >= 0.0 && v >= 0.0;
    ProductMonotone(s * s, p * P, t * t, r * R);
    assert (p * P) * (r * R) == u * v;
    assert (s * s) * (t * t) == (s * t) * (s * t);
    SquarePositive(u - v);
    assert (u - v) * (u - v) == u * u - 2.0 * (u * v) + v * v;
    assert (u + v) * (u + v) == u * u + 2.0 * (u * v) + v * v;
    assert (2.0 * s * t) * (2.0 * s * t) == 4.0 * ((s * t) * (s * t));
    RootMonotone(2.0 * s * t, u + v);
  }

  lemma {:induction false} AddedBounded(d: Entry, e: Entry, P: real, R: real)
    requires BoundedEntry(d, P) && BoundedEntry(e, R) && P >= 0.0 && R >= 0.0
    ensures BoundedEntry(Added(d, e), P + R)
  {
    var s, t, p, r := d.sim, e.sim, d.pow, e.pow;
    MixedTerm(s, t, p, r, P, R);
    assert (s + t) * (s + t) == s * s + 2.0 * s * t + t * t;
    assert (p + r) * (P + R) == p * P + p * R + r * P + r * R;
  }

  lemma {:induction false} WeakerBound(e: Entry, P: real, R: real)
    requires BoundedEntry(e, P) && P <= R
    ensures BoundedEntry(e, R)
  {
    assert e.pow * P <= e.pow * R;
  }

  lemma {:induction false} CombinedBounded(a: seq<Entry>, b: seq<Entry>, P: real, R: real)
    requires Bounded(a, P) && Bounded(b, R) && P >= 0.0 && R >= 0.0
    ensures Bounded(Combined(a, b), P + R)
    decreases |a| + |b|
  {
    forall i | 0 <= i < |a| ensures BoundedEntry(a[i], P + R) { WeakerBound(a[i], P, P + R); }
    forall i | 0 <= i < |b| ensures BoundedEntry(b[i], P + R) { WeakerBound(b[i], R, P + R); }
    if a != [] && b != [] {
      if a[0].pic < b[0].pic {
        CombinedBounded(a[1..], b, P, R);
      } else if a[0].pic == b[0].pic {
        CombinedBounded(a[1..], b[1..], P, R);
        AddedBounded(a[0], b[0], P, R);
      } else {
        CombinedBounded(a, b[1..], P, R);
      }
    }
  }

  lemma {:induction false} ContributedBounded(p: Posting, w: QueryWord)
    ensures BoundedEntry(Contributed(p, w), Square(w.q))
  {
    SquarePositive(p.weight);
    assert (p.weight * w.q) * (p.weight * w.q) == (p.weight * p.weight) * (w.q * w.q);
  }

  lemma {:induction false} ContributionBounded(items: seq<Posting>, w: QueryWord, test: Test)
    ensures Bounded(Contribution(items, w, test), Square(w.q))
  {
    if items != [] {
      ContributionBounded(items[1..], w, test);
      ContributedBounded(items[0], w);
    }
  }

  /** Every merged entry obeys the bound against the power of the loaded query words. */
  lemma {:induction false} MergedBounded(words: seq<QueryWord>, index: Index, test: Test)
    ensures QueryPow(words, index) >= 0.0
    ensures Bounded(Merged(words, index, test), QueryPow(words, index))
  {
    if words != [] {
      var last := |words| - 1;
      var w := words[last];
      MergedBounded(words[..last], index, test);
      SquarePositive(w.q);
      if w.word in index {
        ContributionBounded(index[w.word], w, test);
      }
      CombinedBounded(Merged(words[..last], index, test), WordResult(w, index, test),
                      QueryPow(words[..last], index), WordPow(w, index));
    }
  }
}
