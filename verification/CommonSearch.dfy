/**
 The front end: the query is cut over ranges of word ids, every part is merged by its own
 searcher, and the partial results are folded into one list in the order in which they
 arrive.  Whatever that order, the list is the one a single searcher would produce.

 Each handler is one step; remote calls always answer; a part without any hit answers
 with an error and contributes nothing.
 */
module DistributedSearch {
  import opened InvertedIndex
  import opened Searching
  import Hamming = HammingEmbedding

  /** The words `beginId..endId` are served by `servers`. */
  datatype MergeConf = MergeConf(beginId: int, endId: int, servers: seq<string>)

  /** `ServerToData`: a part of the query and who merges it. */
  datatype Shard = Shard(servers: seq<string>, words: seq<QueryWord>)

  predicate Serves(c: MergeConf, word: int) {
    c.beginId <= word <= c.endId
  }

  ghost predicate Covered(conf: seq<MergeConf>, word: int) {
    exists c :: 0 <= c < |conf| && conf[c].beginId <= word <= conf[c].endId
  }

  ghost predicate AscendingWords(query: seq<QueryWord>) {
    forall i, j :: 0 <= i < j < |query| ==> query[i].word < query[j].word
  }

  ghost predicate AscendingRanges(conf: seq<MergeConf>) {
    forall i, j :: 0 <= i < j < |conf| ==> conf[i].endId < conf[j].beginId
  }

  function Flatten(shards: seq<Shard>): seq<QueryWord> {
    if shards == [] then [] else Flatten(shards[..|shards| - 1]) + shards[|shards| - 1].words
  }

  //////////////////////////////////////////////////////////////////////////////
  // Dispatch
  //////////////////////////////////////////////////////////////////////////////

  /** Shard `k` belongs to range `home[k]`, holds only words of it, and is not empty. */
  ghost predicate Homed(shards: seq<Shard>, conf: seq<MergeConf>, home: seq<nat>, limit: nat) {
    && |home| == |shards| && limit <= |conf|
    && (forall k :: 0 <= k < |home| ==>
          home[k] < limit && HomedShard(shards[k], conf[home[k]]) && shards[k].words != [])
    && (forall j, k :: 0 <= j < k < |home| ==> home[j] < home[k])
  }

  ghost predicate HomedShard(s: Shard, c: MergeConf) {
    && (s.words != [] ==> s.servers == c.servers)
    && forall i :: 0 <= i < |s.words| ==> c.beginId <= s.words[i].word <= c.endId
  }

  lemma {:induction false} HomedAppend(shards: seq<Shard>, conf: seq<MergeConf>, home: seq<nat>, c: nat, s: Shard)
    requires Homed(shards, conf, home, c) && c < |conf| && HomedShard(s, conf[c]) && s.words != []
    ensures Homed(shards + [s], conf, home + [c], c + 1)
  {
  }

  lemma {:induction false} HomedLater(shards: seq<Shard>, conf: seq<MergeConf>, home: seq<nat>, c: nat)
    requires Homed(shards, conf, home, c) && c < |conf|
    ensures Homed(shards, conf, home, c + 1)
  {
  }

  lemma {:induction false} FlattenAppend(shards: seq<Shard>, s: Shard)
    ensures Flatten(shards + [s]) == Flatten(shards) + s.words
  {
    assert (shards + [s])[..|shards|] == shards;
  }

  /** The word under the iterator is served by none of the ranges passed so far. */
  ghost predicate Passed(conf: seq<MergeConf>, c: nat, word: int)
    requires c <= |conf|
  {
    forall i :: 0 <= i < c ==> !Serves(conf[i], word)
  }

  lemma {:induction false} PassedNext(conf: seq<MergeConf>, c: nat, word: int, next: int)
    requires AscendingRanges(conf) && c < |conf| && Serves(conf[c], word) && word < next
    ensures Passed(conf, c, next)
  {
    forall i | 0 <= i < c ensures !Serves(conf[i], next) {
      assert conf[i].endId < conf[c].beginId;
    }
  }

  /** Exactly the longest covered prefix of the query has been dispatched. */
  ghost predicate CoveredPrefix(query: seq<QueryWord>, conf: seq<MergeConf>, n: nat) {
    && n <= |query|
    && (forall k :: 0 <= k < n ==> Covered(conf, query[k].word))
    && (n < |query| ==> !Covered(conf, query[n].word))
  }

  /** What has been dispatched when the loop ends. */
  ghost predicate DispatchDone(query: seq<QueryWord>, conf: seq<MergeConf>, shards: seq<Shard>, home: seq<nat>) {
    && Homed(shards, conf, home, |conf|)
    && Flatten(shards) <= query
    && (AscendingRanges(conf) ==> CoveredPrefix(query, conf, |Flatten(shards)|))
  }

  /** The loop state: `it` words are read, those of the current range `c` are in `part`. */
  ghost predicate DispatchState(query: seq<QueryWord>, conf: seq<MergeConf>, shards: seq<Shard>, home: seq<nat>,
                                part: Shard, c: nat, it: nat)
  {
    && it < |query| && c < |conf|
    && Homed(shards, conf, home, c) && HomedShard(part, conf[c]) && (part.words == [] ==> part.servers == [])
    && Flatten(shards) + part.words == query[..it]
    && (forall k :: 0 <= k < it ==> Covered(conf, query[k].word))
    && (AscendingRanges(conf) ==> Passed(conf, c, query[it].word))
  }

  lemma {:induction false} HomedWiden(shards: seq<Shard>, conf: seq<MergeConf>, home: seq<nat>, c: nat)
    requires Homed(shards, conf, home, c)
    ensures Homed(shards, conf, home, |conf|)
  {
  }

  /** The word under the iterator belongs to the current range. */
  lemma {:induction false} TakeWord(query: seq<QueryWord>, conf: seq<MergeConf>, shards: seq<Shard>, home: seq<nat>,
                 part: Shard, c: nat, it: nat, part': Shard)
    requires DispatchState(query, conf, shards, home, part, c, it) && AscendingWords(query)
    requires Serves(conf[c], query[it].word) && part' == Shard(conf[c].servers, part.words + [query[it]])
    ensures it + 1 < |query| ==> DispatchState(query, conf, shards, home, part', c, it + 1)
    ensures it + 1 == |query| ==> DispatchDone(query, conf, shards + [part'], home + [c])
  {
    TakenWords(query, it, Flatten(shards), part.words, part'.words);
    HomedOneMore(part, conf[c], query[it], part');
    assert Covered(conf, query[it].word);
    if it + 1 < |query| {
      if AscendingRanges(conf) {
        PassedNext(conf, c, query[it].word, query[it + 1].word);
      }
    } else {
      assert query[..it + 1] == query;
      HomedAppend(shards, conf, home, c, part');
      HomedWiden(shards + [part'], conf, home + [c], c + 1);
      FlattenAppend(shards, part');
    }
  }

  lemma {:induction false} TakenWords(query: seq<QueryWord>, it: nat, done: seq<QueryWord>, part: seq<QueryWord>,
                                      next: seq<QueryWord>)
    requires it < |query| && done + part == query[..it] && next == part + [query[it]]
    ensures done + next == query[..it + 1]
  {
    assert query[..it + 1] == query[..it] + [query[it]];
    assert done + next == done + part + [query[it]];
  }

  lemma {:induction false} HomedOneMore(part: Shard, c: MergeConf, w: QueryWord, next: Shard)
    requires HomedShard(part, c) && Serves(c, w.word) && next == Shard(c.servers, part.words + [w])
    ensures HomedShard(next, c)
  {
  }

  /** The current range is left; what was collected for it becomes a shard. */
  lemma {:induction false} LeaveRange(query: seq<QueryWord>, conf: seq<MergeConf>, shards: seq<Shard>, home: seq<nat>,
                   part: Shard, c: nat, it: nat, shards': seq<Shard>, home': seq<nat>)
    requires DispatchState(query, conf, shards, home, part, c, it) && !Serves(conf[c], query[it].word)
    requires if part.words == [] then shards' == shards && home' == home
             else shards' == shards + [part] && home' == home + [c]
    ensures c + 1 < |conf| ==> DispatchState(query, conf, shards', home', Shard([], []), c + 1, it)
    ensures c + 1 == |conf| ==> DispatchDone(query, conf, shards', home')
  {
    if part.words == [] {
      HomedLater(shards, conf, home, c);
    } else {
      HomedAppend(shards, conf, home, c, part);
      FlattenAppend(shards, part);
    }
    assert Flatten(shards') == query[..it];
    if c + 1 == |conf| {
      HomedWiden(shards', conf, home', c + 1);
    }
  }

  //////////////////////////////////////////////////////////////////////////////
  // Folding the answers
  //////////////////////////////////////////////////////////////////////////////

  /** The list after the shards `done` have answered, in this order. */
  function FoldResult(done: seq<Shard>, index: Index, test: Test): seq<Entry> {
    if done == [] then []
    else Combined(FoldResult(done[..|done| - 1], index, test), Merged(done[|done| - 1].words, index, test))
  }

  /** What one shard adds to `query_pow_`: nothing when it has no hit. */
  function ShardPow(s: Shard, index: Index, test: Test): real {
    if Merged(s.words, index, test) == [] then 0.0 else QueryPow(s.words, index)
  }

  function FoldPow(done: seq<Shard>, index: Index, test: Test): real {
    if done == [] then 0.0
    else FoldPow(done[..|done| - 1], index, test) + ShardPow(done[|done| - 1], index, test)
  }

  lemma {:induction false} FoldIsMerged(done: seq<Shard>, index: Index, test: Test)
    requires AscendingIndex(index)
    ensures FoldResult(done, index, test) == Merged(Flatten(done), index, test)
    ensures Normal(FoldResult(done, index, test))
  {
    MergedNormal(Flatten(done), index, test);
    if done != [] {
      var front := done[..|done| - 1];
      FoldIsMerged(front, index, test);
      MergedConcat(Flatten(front), done[|done| - 1].words, index, test);
    }
  }

  lemma {:induction false} FoldAppend(done: seq<Shard>, s: Shard, index: Index, test: Test)
    ensures FoldResult(done + [s], index, test) == Combined(FoldResult(done, index, test), Merged(s.words, index, test))
    ensures FoldPow(done + [s], index, test) == FoldPow(done, index, test) + ShardPow(s, index, test)
  {
    assert (done + [s])[..|done|] == done;
  }

  lemma {:induction false} SwapLast(f: seq<Entry>, m: seq<Entry>, l: seq<Entry>)
    requires Normal(f) && Normal(m) && Normal(l)
    ensures Combined(Combined(f, m), l) == Combined(Combined(f, l), m)
  {
    CombinedAssociates(f, m, l);
    CombinedCommutes(m, l);
    CombinedAssociates(f, l, m);
  }

  /** An answer in the middle might as well have come last. */
  lemma {:induction false} FoldMoves(a: seq<Shard>, s: Shard, b: seq<Shard>, index: Index, test: Test)
    requires AscendingIndex(index)
    ensures FoldResult(a + [s] + b, index, test) ==
            Combined(FoldResult(a + b, index, test), Merged(s.words, index, test))
    ensures FoldPow(a + [s] + b, index, test) == FoldPow(a + b, index, test) + ShardPow(s, index, test)
  {
    if b == [] {
      assert a + [s] + b == a + [s] && a + b == a;
      FoldAppend(a, s, index, test);
    } else {
      var last, front := b[|b| - 1], b[..|b| - 1];
      FoldMoves(a, s, front, index, test);
      assert a + [s] + b == (a + [s] + front) + [last] && a + b == (a + front) + [last];
      FoldMovesOne(a + [s] + front, a + front, s, last, index, test, a + [s] + b, a + b);
    }
  }

  lemma {:induction false} FoldMovesOne(whole: seq<Shard>, part: seq<Shard>, s: Shard, last: Shard, index: Index,
                                        test: Test, long: seq<Shard>, short: seq<Shard>)
    requires AscendingIndex(index) && long == whole + [last] && short == part + [last]
    requires FoldResult(whole, index, test) == Combined(FoldResult(part, index, test), Merged(s.words, index, test))
    requires FoldPow(whole, index, test) == FoldPow(part, index, test) + ShardPow(s, index, test)
    ensures FoldResult(long, index, test) == Combined(FoldResult(short, index, test), Merged(s.words, index, test))
    ensures FoldPow(long, index, test) == FoldPow(short, index, test) + ShardPow(s, index, test)
  {
    FoldAppend(whole, last, index, test);
    FoldAppend(part, last, index, test);
    SwapFold(part, s, last, index, test);
  }

  lemma {:induction false} SwapFold(shards: seq<Shard>, s: Shard, last: Shard, index: Index, test: Test)
    requires AscendingIndex(index)
    ensures var result := FoldResult(shards, index, test);
      var one, other := Merged(s.words, index, test), Merged(last.words, index, test);
      Combined(Combined(result, one), other) == Combined(Combined(result, other), one)
  {
    FoldIsMerged(shards, index, test);
    MergedNormal(s.words, index, test);
    MergedNormal(last.words, index, test);
    SwapLast(FoldResult(shards, index, test), Merged(s.words, index, test), Merged(last.words, index, test));
  }

  lemma {:induction false} RemoveOne(front: seq<Shard>, s: Shard, a: seq<Shard>, b: seq<Shard>)
    requires multiset(front + [s]) == multiset(a + [s] + b)
    ensures multiset(front) == multiset(a + b)
  {
    assert multiset(front) == multiset(front + [s]) - multiset{s};
    assert multiset(a + b) == multiset(a + [s] + b) - multiset{s};
  }

  /** The fold does not depend on the order of the answers. */
  lemma {:induction false} FoldPermutes(done: seq<Shard>, shards: seq<Shard>, index: Index, test: Test)
    requires AscendingIndex(index) && multiset(done) == multiset(shards)
    ensures FoldResult(done, index, test) == FoldResult(shards, index, test)
    ensures FoldPow(done, index, test) == FoldPow(shards, index, test)
  {
    if done == [] {
      assert |multiset(shards)| == |shards|;
    } else {
      var last, front := done[|done| - 1], done[..|done| - 1];
      assert done == front + [last];
      assert last in multiset(shards);
      var i :| 0 <= i < |shards| && shards[i] == last;
      var a, b := shards[..i], shards[i + 1..];
      assert shards == a + [last] + b;
      RemoveOne(front, last, a, b);
      FoldPermutes(front, a + b, index, test);
      FoldMoves(a, last, b, index, test);
      FoldAppend(front, last, index, test);
    }
  }

  /** The list is what one searcher would compute over the whole query, whatever the order. */
  lemma {:induction false} ShardedIsSingleNode(query: seq<QueryWord>, shards: seq<Shard>, done: seq<Shard>,
                                               index: Index, test: Test)
    requires AscendingIndex(index) && Flatten(shards) == query && multiset(done) == multiset(shards)
    ensures FoldResult(done, index, test) == Merged(query, index, test)
  {
    FoldPermutes(done, shards, index, test);
    FoldIsMerged(shards, index, test);
  }

  /** A shard without a hit whose loaded words have some weight. */
  ghost predicate Lost(s: Shard, index: Index, test: Test) {
    Merged(s.words, index, test) == [] && QueryPow(s.words, index) != 0.0
  }

  ghost predicate NoneLost(shards: seq<Shard>, index: Index, test: Test) {
    forall k :: 0 <= k < |shards| ==> !Lost(shards[k], index, test)
  }

  /** The folded power falls short of the query's, and equals it exactly when no shard is lost. */
  lemma {:induction false} FoldPowIsQueryPow(shards: seq<Shard>, index: Index, test: Test)
    requires AscendingIndex(index)
    ensures FoldPow(shards, index, test) <= QueryPow(Flatten(shards), index)
    ensures FoldPow(shards, index, test) == QueryPow(Flatten(shards), index) <==> NoneLost(shards, index, test)
  {
    if shards != [] {
      var last, front := shards[|shards| - 1], shards[..|shards| - 1];
      FoldPowIsQueryPow(front, index, test);
      var x, y, b := LastPow(shards, front, last, index, test);
      BothWhole(FoldPow(front, index, test), QueryPow(Flatten(front), index), NoneLost(front, index, test), x, y, b);
    }
  }

  /** What the last shard adds to the folded power and to that of the query, and whether it is found. */
  lemma {:induction false} LastPow(shards: seq<Shard>, front: seq<Shard>, last: Shard, index: Index, test: Test)
    returns (x: real, y: real, b: bool)
    requires AscendingIndex(index) && shards != []
    requires front == shards[..|shards| - 1] && last == shards[|shards| - 1]
    ensures FoldPow(shards, index, test) == FoldPow(front, index, test) + x
    ensures QueryPow(Flatten(shards), index) == QueryPow(Flatten(front), index) + y
    ensures NoneLost(shards, index, test) <==> NoneLost(front, index, test) && b
    ensures x <= y && (x == y <==> b)
  {
    x, y, b := ShardPow(last, index, test), QueryPow(last.words, index), !Lost(last, index, test);
    MergedConcat(Flatten(front), last.words, index, test);
    ShardPowIsWhole(last, index, test);
    NoneLostAppend(front, last, shards, index, test);
  }

  lemma {:induction false} ShardPowIsWhole(s: Shard, index: Index, test: Test)
    ensures ShardPow(s, index, test) <= QueryPow(s.words, index)
    ensures ShardPow(s, index, test) == QueryPow(s.words, index) <==> !Lost(s, index, test)
  {
    MergedBounded(s.words, index, test);
  }

  lemma {:induction false} BothWhole(p: real, q: real, a: bool, x: real, y: real, b: bool)
    requires p <= q && (p == q <==> a) && x <= y && (x == y <==> b)
    ensures p + x <= q + y && (p + x == q + y <==> a && b)
  {
  }

  lemma {:induction false} NoneLostAppend(front: seq<Shard>, last: Shard, shards: seq<Shard>, index: Index, test: Test)
    requires shards == front + [last]
    ensures NoneLost(shards, index, test) <==> NoneLost(front, index, test) && !Lost(last, index, test)
  {
    if NoneLost(shards, index, test) {
      forall k | 0 <= k < |front| ensures !Lost(front[k], index, test) { assert front[k] == shards[k]; }
      assert shards[|front|] == last;
    }
  }

  /** The Cauchy-Schwarz bound survives every fold, against the power folded so far. */
  lemma {:induction false} FoldBounded(done: seq<Shard>, index: Index, test: Test)
    ensures FoldPow(done, index, test) >= 0.0
    ensures Bounded(FoldResult(done, index, test), FoldPow(done, index, test))
  {
    if done != [] {
      var last, front := done[|done| - 1], done[..|done| - 1];
      FoldBounded(front, index, test);
      MergedBounded(last.words, index, test);
      CombinedBounded(FoldResult(front, index, test), Merged(last.words, index, test),
                      FoldPow(front, index, test), ShardPow(last, index, test));
    }
  }

  //////////////////////////////////////////////////////////////////////////////
  // The cases of the fold loop
  //////////////////////////////////////////////////////////////////////////////

  /** `cur` entries are final and `i` thread entries are read. */
  ghost predicate FoldState(target: seq<Entry>, now: seq<Entry>, cur: nat, thread: seq<Entry>, i: nat) {
    cur <= |now| && i <= |thread| && now[..cur] + Combined(now[cur..], thread[i..]) == target
  }

  lemma {:induction false} FoldSkips(target: seq<Entry>, now: seq<Entry>, cur: nat, thread: seq<Entry>, i: nat)
    requires FoldState(target, now, cur, thread, i) && cur < |now| && i < |thread| && now[cur].pic < thread[i].pic
    ensures FoldState(target, now, cur + 1, thread, i)
  {
    Tail(now, cur);
    Tail(thread, i);
    assert now[..cur + 1] == now[..cur] + [now[cur]];
  }

  lemma {:induction false} FoldAdds(target: seq<Entry>, now: seq<Entry>, cur: nat, thread: seq<Entry>, i: nat,
                                    next: seq<Entry>)
    requires FoldState(target, now, cur, thread, i) && cur < |now| && i < |thread| && now[cur].pic == thread[i].pic
    requires next == now[cur := Added(now[cur], thread[i])]
    ensures FoldState(target, next, cur + 1, thread, i + 1)
  {
    Tail(now, cur);
    Tail(thread, i);
    assert next[..cur + 1] == now[..cur] + [Added(now[cur], thread[i])];
    assert next[cur + 1..] == now[cur + 1..];
  }

  lemma {:induction false} FoldInserts(target: seq<Entry>, now: seq<Entry>, cur: nat, thread: seq<Entry>, i: nat,
                                       next: seq<Entry>)
    requires FoldState(target, now, cur, thread, i) && i < |thread|
    requires cur == |now| || thread[i].pic < now[cur].pic
    requires next == now[..cur] + [thread[i]] + now[cur..]
    ensures FoldState(target, next, cur + 1, thread, i + 1)
  {
    Tail(thread, i);
    if cur < |now| {
      Tail(now, cur);
    } else {
      assert now[cur..] == [];
    }
    assert next[..cur + 1] == now[..cur] + [thread[i]];
    assert next[cur + 1..] == now[cur..];
  }

  lemma {:induction false} FoldEnds(target: seq<Entry>, now: seq<Entry>, cur: nat, thread: seq<Entry>)
    requires FoldState(target, now, cur, thread, |thread|)
    ensures now == target
  {
    assert thread[|thread|..] == [];
    assert Combined(now[cur..], []) == now[cur..];
  }

  //////////////////////////////////////////////////////////////////////////////
  // The front end
  //////////////////////////////////////////////////////////////////////////////

  class CommonSearch {
    const conf: seq<MergeConf>
    const index: Index
    const heThreshold: int
    var serversToDatas: seq<Shard>
    var resultSimilar: seq<Entry>
    var queryPow: real

    constructor (conf: seq<MergeConf>, index: Index, heThreshold: int)
      ensures this.conf == conf && this.index == index && this.heThreshold == heThreshold
      ensures serversToDatas == [] && resultSimilar == [] && queryPow == 0.0
    {
      this.conf, this.index, this.heThreshold := conf, index, heThreshold;
      serversToDatas, resultSimilar, queryPow := [], [], 0.0;
    }

    ghost function HeTest(): Test {
      HammingTest(Hamming.AsSizeT(heThreshold))
    }

    /** The current range takes the word under the iterator; the last word completes its part. */
    method TakeCurrent(query: seq<QueryWord>, part: Shard, c: nat, it: nat, ghost home: seq<nat>)
      returns (next: Shard, ghost nextHome: seq<nat>)
      requires DispatchState(query, conf, serversToDatas, home, part, c, it) && AscendingWords(query)
      requires Serves(conf[c], query[it].word)
      modifies this`serversToDatas
      ensures it + 1 < |query| ==> DispatchState(query, conf, serversToDatas, nextHome, next, c, it + 1)
      ensures it + 1 == |query| ==> DispatchDone(query, conf, serversToDatas, nextHome)
    {
      next, nextHome := part, home;
      if |next.servers| == 0 { next := next.(servers := conf[c].servers); }
      next := next.(words := next.words + [query[it]]);
      TakeWord(query, conf, serversToDatas, home, part, c, it, next);
      if it + 1 == |query| {
        serversToDatas := serversToDatas + [next];
        nextHome := home + [c];
        next := Shard([], []);
      }
    }

    /** The current range is left; what it has taken becomes a shard. */
    method LeaveCurrent(query: seq<QueryWord>, part: Shard, c: nat, it: nat, ghost home: seq<nat>)
      returns (ghost nextHome: seq<nat>)
      requires DispatchState(query, conf, serversToDatas, home, part, c, it) && !Serves(conf[c], query[it].word)
      modifies this`serversToDatas
      ensures c + 1 < |conf| ==> DispatchState(query, conf, serversToDatas, nextHome, Shard([], []), c + 1, it)
      ensures c + 1 == |conf| ==> DispatchDone(query, conf, serversToDatas, nextHome)
    {
      ghost var before := serversToDatas;
      nextHome := home;
      if |part.words| > 0 {
        serversToDatas := serversToDatas + [part];
        nextHome := home + [c];
      }
      LeaveRange(query, conf, before, home, part, c, it, serversToDatas, nextHome);
    }

    /**
     `DispatchData`: cuts the query into one part per range that serves some word of it.
     For ascending ranges, exactly the longest covered prefix is dispatched; a word that
     no range serves ends the dispatch with a log line only.
     */
    method DispatchData(query: seq<QueryWord>) returns (ret: int, ghost home: seq<nat>)
      requires conf != []
      requires AscendingWords(query)
      modifies this`serversToDatas
      ensures query == [] ==> ret == -1 && unchanged(this)
      ensures query != [] ==> ret == 0
      ensures query != [] ==> DispatchDone(query, conf, serversToDatas, home)
    {
      home := [];
      if |query| == 0 {
        return -1, home;
      }
      serversToDatas := [];
      var c: nat, it: nat := 0, 0;
      var part := Shard([], []);
      while it < |query|
        invariant it < |query| ==> DispatchState(query, conf, serversToDatas, home, part, c, it)
        invariant it >= |query| ==> DispatchDone(query, conf, serversToDatas, home)
        decreases |query| - it, |conf| - c
      {
        if Serves(conf[c], query[it].word) {
          part, home := TakeCurrent(query, part, c, it, home);
          it := it + 1;
        } else {
          home := LeaveCurrent(query, part, c, it, home);
          part := Shard([], []);
          c := c + 1;
          if c == |conf| { break; }
        }
      }
      ret := 0;
    }

    /** Inserts an entry of the shard before the cursor. */
    method InsertEntry(thread: seq<Entry>, cur: nat, i: nat, ghost target: seq<Entry>)
      requires FoldState(target, resultSimilar, cur, thread, i) && i < |thread|
      requires cur == |resultSimilar| || thread[i].pic < resultSimilar[cur].pic
      modifies this`resultSimilar
      ensures FoldState(target, resultSimilar, cur + 1, thread, i + 1) && |resultSimilar| == |old(resultSimilar)| + 1
    {
      ghost var now := resultSimilar;
      resultSimilar := resultSimilar[..cur] + [thread[i]] + resultSimilar[cur..];
      FoldInserts(target, now, cur, thread, i, resultSimilar);
    }

    /** Adds an entry of the shard to that of the same picture at the cursor. */
    method AddEntry(thread: seq<Entry>, cur: nat, i: nat, ghost target: seq<Entry>)
      requires FoldState(target, resultSimilar, cur, thread, i) && cur < |resultSimilar| && i < |thread|
      requires resultSimilar[cur].pic == thread[i].pic
      modifies this`resultSimilar
      ensures FoldState(target, resultSimilar, cur + 1, thread, i + 1) && |resultSimilar| == |old(resultSimilar)|
    {
      ghost var now := resultSimilar;
      var e := resultSimilar[cur];
      resultSimilar := resultSimilar[cur := Entry(e.pic, e.sim + thread[i].sim, e.pow + thread[i].pow)];
      FoldAdds(target, now, cur, thread, i, resultSimilar);
    }

    /** `MergeThreadsResult`: a partial result is spliced into the list. */
    method MergeThreadsResult(thread: seq<Entry>) returns (ret: int)
      modifies this`resultSimilar
      ensures ret == if thread == [] then -1 else 0
      ensures resultSimilar == Combined(old(resultSimilar), thread)
    {
      if |thread| == 0 {
        assert Combined(resultSimilar, []) == resultSimilar;
        return -1;
      }
      if |resultSimilar| == 0 {
        resultSimilar := thread;
        return 0;
      }
      ghost var target := Combined(resultSimilar, thread);
      var cur: nat, i: nat := 0, 0;
      assert resultSimilar[..0] == [] && resultSimilar[0..] == resultSimilar && thread[0..] == thread;
      while i < |thread|
        invariant FoldState(target, resultSimilar, cur, thread, i)
        decreases |thread| - i, |resultSimilar| - cur
      {
        if cur < |resultSimilar| && resultSimilar[cur].pic < thread[i].pic {
          FoldSkips(target, resultSimilar, cur, thread, i);
          cur := cur + 1;
          if cur == |resultSimilar| {
            InsertEntry(thread, cur, i, target);
            cur, i := |resultSimilar|, i + 1;
          }
        } else if cur < |resultSimilar| && resultSimilar[cur].pic == thread[i].pic {
          AddEntry(thread, cur, i, target);
          cur, i := cur + 1, i + 1;
        } else {
          InsertEntry(thread, cur, i, target);
          cur, i := cur + 1, i + 1;
        }
      }
      FoldEnds(target, resultSimilar, cur, thread);
      ret := 0;
    }

    /** `ExecMerge`: one part is merged by its searcher and its answer is folded in. */
    method ExecMerge(k: nat) returns (ret: int)
      requires k < |serversToDatas| && AscendingIndex(index)
      modifies this`resultSimilar, this`queryPow
      ensures ret == if Merged(serversToDatas[k].words, index, HeTest()) == [] then -1 else 0
      ensures resultSimilar == Combined(old(resultSimilar), Merged(serversToDatas[k].words, index, HeTest()))
      ensures queryPow == old(queryPow) + ShardPow(serversToDatas[k], index, HeTest())
    {
      var searcher := new Searcher(index, heThreshold, serversToDatas[k].words);
      ret := searcher.Merge();
      if ret != 0 {
        assert Combined(resultSimilar, []) == resultSimilar;
        return -1;
      }
      queryPow := queryPow + searcher.queryPow;
      ret := MergeThreadsResult(searcher.resultSimilar);
    }

    /** The parts answer in any order: `Search` picks one of the pending ones each time. */
    method ExecMerges()
      requires AscendingIndex(index) && resultSimilar == [] && queryPow == 0.0
      modifies this`resultSimilar, this`queryPow
      ensures resultSimilar == Merged(Flatten(serversToDatas), index, HeTest())
      ensures queryPow == FoldPow(serversToDatas, index, HeTest())
      ensures queryPow >= 0.0 && Bounded(resultSimilar, queryPow)
    {
      var pending := seq(|serversToDatas|, i => i);
      ghost var done: seq<Shard> := [];
      NoneAnswered(serversToDatas, pending);
      while pending != []
        invariant Outstanding(serversToDatas, pending, done)
        invariant resultSimilar == FoldResult(done, index, HeTest())
        invariant queryPow == FoldPow(done, index, HeTest())
        decreases |pending|
      {
        var j :| 0 <= j < |pending|;
        Answered(serversToDatas, pending, done, j);
        FoldAppend(done, serversToDatas[pending[j]], index, HeTest());
        done := done + [serversToDatas[pending[j]]];
        var ret := ExecMerge(pending[j]);
        pending := pending[..j] + pending[j + 1..];
      }
      AllAnswered(serversToDatas, done, index, HeTest());
    }

    /**
     The whole distributed search over a non-empty query.  The list is the one a single
     searcher computes over the words that ascending ranges cover; the power is the one of
     these words exactly when no part is lost; no cosine exceeds 1.
     */
    method Search(query: seq<QueryWord>) returns (ghost dispatched: seq<QueryWord>)
      requires conf != [] && query != [] && AscendingWords(query) && AscendingIndex(index)
      requires resultSimilar == [] && queryPow == 0.0
      modifies this
      ensures dispatched <= query
      ensures AscendingRanges(conf) ==> CoveredPrefix(query, conf, |dispatched|)
      ensures AscendingRanges(conf) && (forall k :: 0 <= k < |query| ==> Covered(conf, query[k].word)) ==>
        dispatched == query
      ensures resultSimilar == Merged(dispatched, index, HeTest())
      ensures dispatched == Flatten(serversToDatas) && queryPow == FoldPow(serversToDatas, index, HeTest())
      ensures queryPow <= QueryPow(dispatched, index)
      ensures queryPow == QueryPow(dispatched, index) <==> NoneLost(serversToDatas, index, HeTest())
      ensures queryPow >= 0.0 && Bounded(resultSimilar, queryPow)
    {
      var ret;
      ghost var home;
      ret, home := DispatchData(query);
      dispatched := Flatten(serversToDatas);
      ExecMerges();
      FoldPowIsQueryPow(serversToDatas, index, HeTest());
    }
  }

  /** The shards with the given indices. */
  ghost function Arranged(shards: seq<Shard>, order: seq<int>): seq<Shard>
    requires forall i :: 0 <= i < |order| ==> 0 <= order[i] < |shards|
  {
    seq(|order|, i requires 0 <= i < |order| => shards[order[i]])
  }

  /** The parts that have answered and those that are pending are all the parts. */
  ghost predicate Outstanding(shards: seq<Shard>, pending: seq<int>, done: seq<Shard>) {
    && (forall i :: 0 <= i < |pending| ==> 0 <= pending[i] < |shards|)
    && multiset(done) + multiset(Arranged(shards, pending)) == multiset(shards)
  }

  lemma {:induction false} NoneAnswered(shards: seq<Shard>, pending: seq<int>)
    requires pending == seq(|shards|, i => i)
    ensures Outstanding(shards, pending, [])
  {
    assert Arranged(shards, pending) == shards;
  }

  lemma {:induction false} AllAnswered(shards: seq<Shard>, done: seq<Shard>, index: Index, test: Test)
    requires Outstanding(shards, [], done) && AscendingIndex(index)
    ensures FoldResult(done, index, test) == Merged(Flatten(shards), index, test)
    ensures FoldPow(done, index, test) == FoldPow(shards, index, test) >= 0.0
    ensures Bounded(FoldResult(done, index, test), FoldPow(done, index, test))
  {
    FoldBounded(done, index, test);
    FoldPermutes(done, shards, index, test);
    FoldIsMerged(shards, index, test);
  }

  lemma {:induction false} Answered(shards: seq<Shard>, pending: seq<int>, done: seq<Shard>, j: nat)
    requires Outstanding(shards, pending, done) && j < |pending|
    ensures Outstanding(shards, pending[..j] + pending[j + 1..], done + [shards[pending[j]]])
  {
    assert pending == pending[..j] + [pending[j]] + pending[j + 1..];
    ArrangedRemove(shards, pending[..j], pending[j], pending[j + 1..]);
  }

  lemma {:induction false} ArrangedRemove(shards: seq<Shard>, a: seq<int>, k: int, b: seq<int>)
    requires 0 <= k < |shards|
    requires forall i :: 0 <= i < |a| ==> 0 <= a[i] < |shards|
    requires forall i :: 0 <= i < |b| ==> 0 <= b[i] < |shards|
    ensures multiset(Arranged(shards, a + [k] + b)) == multiset(Arranged(shards, a + b)) + multiset{shards[k]}
  {
    var front, back := Arranged(shards, a), Arranged(shards, b);
    assert Arranged(shards, a + [k] + b) == front + [shards[k]] + back;
    assert Arranged(shards, a + b) == front + back;
  }
}
