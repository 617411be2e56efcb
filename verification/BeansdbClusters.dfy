/**
 Picture storage clusters: quotas decide which cluster of a kind gets a new picture, the id of
 the picture names the cluster, and the id leads back to it.

 Client pools are numbers; the CRC-32 of a digest is any function to natural numbers.
 */
module BeansdbClusters {
  import opened Wrappers
  import opened Decimals
  import opened Sequences

  const DEFAULT: string := "default"
  const PIC_DETAIL: string := "picdetail"

  /** A cluster of a kind of pictures and its quota. */
  datatype ClusterScale = ClusterScale(kind: string, flag: string, scale: nat)

  /** What a picture id says: a kind and a cluster. */
  datatype PicKeyInfo = PicKeyInfo(kind: string, cluster: string)

  type Clusters = map<string, map<string, nat>>

  //////////////////////////////////////////////////////////////////////////////
  // Quotas
  //////////////////////////////////////////////////////////////////////////////

  /** The sum of the quotas of a kind. */
  function Quotas(locations: seq<ClusterScale>, kind: string): nat {
    if locations == [] then 0
    else
      var last := locations[|locations| - 1];
      Quotas(locations[..|locations| - 1], kind) + (if last.kind == kind then last.scale else 0)
  }

  /** The flags of a kind, each as often as its quota. */
  function Allocation(locations: seq<ClusterScale>, kind: string): (r: seq<string>)
    ensures |r| == Quotas(locations, kind)
  {
    if locations == [] then []
    else
      var last := locations[|locations| - 1];
      Allocation(locations[..|locations| - 1], kind) + (if last.kind == kind then Copies(last.flag, last.scale) else [])
  }

  /** Every flag of a kind is listed once. */
  ghost predicate Unique(locations: seq<ClusterScale>) {
    forall i, j :: 0 <= i < j < |locations| ==>
      locations[i].kind != locations[j].kind || locations[i].flag != locations[j].flag
  }

  ghost predicate Listed(locations: seq<ClusterScale>, kind: string, flag: string) {
    exists i :: 0 <= i < |locations| && locations[i].kind == kind && locations[i].flag == flag
  }

  /** Flags that are not listed own no residue. */
  lemma {:induction false} OwnsNone(locations: seq<ClusterScale>, kind: string, flag: string)
    requires !Listed(locations, kind, flag)
    ensures multiset(Allocation(locations, kind))[flag] == 0
  {
    if locations != [] {
      var n := |locations| - 1;
      assert !Listed(locations[..n], kind, flag);
      OwnsNone(locations[..n], kind, flag);
      OwnsOneMore(locations, kind, flag);
    }
  }

  /** The last cluster adds its quota to its own flag only. */
  lemma {:induction false} OwnsOneMore(locations: seq<ClusterScale>, kind: string, flag: string)
    requires locations != []
    ensures var n := |locations| - 1;
      multiset(Allocation(locations, kind))[flag] == multiset(Allocation(locations[..n], kind))[flag] +
        (if locations[n].kind == kind && locations[n].flag == flag then locations[n].scale else 0)
  {
    var last := locations[|locations| - 1];
    CopiesCount(last.flag, last.scale, flag);
  }

  /** A listed flag owns exactly as many residues as its quota says. */
  lemma {:induction false} OwnsItsQuota(locations: seq<ClusterScale>, i: nat)
    requires Unique(locations) && i < |locations|
    ensures multiset(Allocation(locations, locations[i].kind))[locations[i].flag] == locations[i].scale
  {
    var n := |locations| - 1;
    var front, kind, flag := locations[..n], locations[i].kind, locations[i].flag;
    OwnsOneMore(locations, kind, flag);
    if i < n {
      OwnsItsQuota(front, i);
      assert front[i] == locations[i];
    } else {
      LastIsNew(locations, front);
      OwnsNone(front, kind, flag);
    }
  }

  lemma {:induction false} LastIsNew(locations: seq<ClusterScale>, front: seq<ClusterScale>)
    requires Unique(locations) && locations != [] && front == locations[..|locations| - 1]
    ensures !Listed(front, locations[|locations| - 1].kind, locations[|locations| - 1].flag)
  {
    forall i | 0 <= i < |front| ensures front[i] == locations[i] { }
  }

  /** The residues of a cluster follow those of the clusters of its kind that were added before it. */
  lemma {:induction false} OwnsItsBlock(locations: seq<ClusterScale>, i: nat, j: nat)
    requires i < |locations| && j < locations[i].scale
    ensures var kind := locations[i].kind;
      && Quotas(locations[..i], kind) + j < Quotas(locations, kind)
      && Allocation(locations, kind)[Quotas(locations[..i], kind) + j] == locations[i].flag
    decreases |locations|
  {
    var n, kind := |locations| - 1, locations[i].kind;
    if i < n {
      OwnsItsBlock(locations[..n], i, j);
      assert locations[..n][..i] == locations[..i];
    }
  }

  /** The kind whose quotas apply. */
  function QuotaKind(kind: string): string {
    if kind == PIC_DETAIL then kind else DEFAULT
  }

  //////////////////////////////////////////////////////////////////////////////
  // Picture ids
  //////////////////////////////////////////////////////////////////////////////

  /** `find_first_of` and `find_last_of` for one character. */
  function First(s: string, c: char): Option<nat> {
    if s == "" then None else if s[0] == c then Some(0)
    else match First(s[1..], c) case None => None case Some(i) => Some(i + 1)
  }

  function Last(s: string, c: char): Option<nat> {
    if s == "" then None else if s[|s| - 1] == c then Some(|s| - 1) else Last(s[..|s| - 1], c)
  }

  lemma {:induction false} FirstAfter(a: string, c: char, b: string)
    requires c !in a
    ensures First(a + [c] + b, c) == Some(|a|)
  {
    if a != "" {
      FirstAfter(a[1..], c, b);
      assert (a + [c] + b)[1..] == a[1..] + [c] + b;
    }
  }

  lemma {:induction false} LastBefore(a: string, c: char, b: string)
    requires c !in b
    ensures Last(a + [c] + b, c) == Some(|a|)
  {
    var s := a + [c] + b;
    if b != "" {
      LastBefore(a, c, b[..|b| - 1]);
      assert s[..|s| - 1] == a + [c] + b[..|b| - 1];
    }
  }

  lemma {:induction false} FirstFinds(s: string, c: char)
    ensures First(s, c).Some? <==> c in s
    ensures First(s, c).Some? ==> First(s, c).value < |s| && forall i :: 0 <= i < First(s, c).value ==> s[i] != c
  {
    if s != "" {
      FirstFinds(s[1..], c);
      if s[0] != c && First(s[1..], c).Some? {
        forall i | 0 <= i < First(s, c).value ensures s[i] != c { if i > 0 { assert s[i] == s[1..][i - 1]; } }
      }
    }
  }

  lemma {:induction false} LastFinds(s: string, c: char)
    ensures Last(s, c).Some? <==> c in s
    ensures Last(s, c).Some? ==> Last(s, c).value < |s| && s[Last(s, c).value] == c
  {
    if s != "" { LastFinds(s[..|s| - 1], c); }
  }

  /** `ParsePicKey`: the kind ends at the first slash, the cluster is between the first and the last dot. */
  function ParsePicKey(key: string): Option<PicKeyInfo> {
    FirstFinds(key, '/');
    FirstFinds(key, '.');
    LastFinds(key, '.');
    var slash, begin, end := First(key, '/'), First(key, '.'), Last(key, '.');
    if slash.None? || end.None? then None
    else if begin.None? || begin.value == end.value then Some(PicKeyInfo(key[..slash.value], DEFAULT))
    else Some(PicKeyInfo(key[..slash.value], key[begin.value + 1..end.value]))
  }

  /** The id without its extension. */
  function PicIdHead(md5: string, kind: string, width: int, height: int): string
    requires |md5| >= 4
  {
    kind + "/" + ("_o/" + md5[..2] + "/" + md5[2..4] + "/" + md5[4..] +
                  "_" + SignedDecimal(width) + "_" + SignedDecimal(height))
  }

  function PicId(md5: string, kind: string, ext: string, width: int, height: int, flag: string): string
    requires |md5| >= 4
  {
    PicIdHead(md5, kind, width, height) + "." + (if flag == DEFAULT then ext else flag + "." + ext)
  }

  /** A picture id parses to the kind and the cluster that it was made from. */
  lemma {:induction false} PicIdParses(md5: string, kind: string, ext: string, width: int, height: int, flag: string)
    requires |md5| >= 4 && '.' !in md5 && '.' !in kind && '.' !in ext && '/' !in kind
    ensures ParsePicKey(PicId(md5, kind, ext, width, height, flag)) == Some(PicKeyInfo(kind, flag))
  {
    var head, key := PicIdHead(md5, kind, width, height), PicId(md5, kind, ext, width, height, flag);
    HeadPlain(md5, kind, width, height);
    KindFirst(md5, kind, ext, width, height, flag);
    if flag == DEFAULT {
      FirstAfter(head, '.', ext);
      LastBefore(head, '.', ext);
    } else {
      FlagBetweenDots(head, flag, ext, key);
    }
  }

  lemma {:induction false} FlagBetweenDots(head: string, flag: string, ext: string, key: string)
    requires '.' !in head && '.' !in ext && key == head + "." + (flag + "." + ext)
    ensures First(key, '.') == Some(|head|) && Last(key, '.') == Some(|head| + 1 + |flag|)
    ensures key[|head| + 1..|head| + 1 + |flag|] == flag
  {
    FirstAfter(head, '.', flag + "." + ext);
    assert key == (head + "." + flag) + "." + ext;
    LastBefore(head + "." + flag, '.', ext);
  }

  lemma {:induction false} PicIdHeadText()
    ensures PicIdHead("abcdef", "pic", 1, 2) == "pic/_o/ab/cd/ef_1_2"
  {
    var m := "abcdef";
    assert m[..2] == "ab" && m[2..4] == "cd" && m[4..] == "ef";
    assert SignedDecimal(1) == "1" && SignedDecimal(2) == "2";
    assert "_o/" + "ab" + "/" + "cd" + "/" + "ef" == "_o/ab/cd/ef";
    assert "_o/ab/cd/ef" + "_" + "1" + "_" + "2" == "_o/ab/cd/ef_1_2";
    assert "pic" + "/" + "_o/ab/cd/ef_1_2" == "pic/_o/ab/cd/ef_1_2";
  }

  /** Two ids, of a named and of the default cluster. */
  lemma {:induction false} PicIdTexts()
    ensures PicId("abcdef", "pic", "jpg", 1, 2, "c1") == "pic/_o/ab/cd/ef_1_2.c1.jpg"
    ensures PicId("abcdef", "pic", "jpg", 1, 2, "default") == "pic/_o/ab/cd/ef_1_2.jpg"
  {
    PicIdHeadText();
    assert "c1" != DEFAULT && "c1" + "." + "jpg" == "c1.jpg";
    assert "pic/_o/ab/cd/ef_1_2" + "." + "c1.jpg" == "pic/_o/ab/cd/ef_1_2.c1.jpg";
    assert "pic/_o/ab/cd/ef_1_2" + "." + "jpg" == "pic/_o/ab/cd/ef_1_2.jpg";
  }

  /** A text is cut in only one way at its last mark. */
  lemma {:induction false} LastCut(a: string, b: string, c: string, d: string, mark: char)
    requires a + [mark] + b == c + [mark] + d && mark !in b && mark !in d
    ensures a == c && b == d
  {
    LastBefore(a, mark, b);
    LastBefore(c, mark, d);
    assert a == (a + [mark] + b)[..|a|] && b == (a + [mark] + b)[|a| + 1..];
    assert c == (c + [mark] + d)[..|c|] && d == (c + [mark] + d)[|c| + 1..];
  }

  /** The same at its first mark. */
  lemma {:induction false} FirstCut(a: string, b: string, c: string, d: string, mark: char)
    requires a + [mark] + b == c + [mark] + d && mark !in a && mark !in c
    ensures a == c && b == d
  {
    FirstAfter(a, mark, b);
    FirstAfter(c, mark, d);
    assert a == (a + [mark] + b)[..|a|] && b == (a + [mark] + b)[|a| + 1..];
    assert c == (c + [mark] + d)[..|c|] && d == (c + [mark] + d)[|c| + 1..];
  }

  /** Digest, width and height behind the kind, and what they are read from. */
  function PicIdRest(md5: string, width: int, height: int): string
    requires |md5| >= 4
  {
    "_o/" + md5[..2] + "/" + md5[2..4] + "/" + md5[4..] + "_" + SignedDecimal(width) + "_" + SignedDecimal(height)
  }

  lemma {:induction false} RestDetermines(m: string, w: int, h: int, m': string, w': int, h': int)
    requires |m| >= 4 && |m'| >= 4 && PicIdRest(m, w, h) == PicIdRest(m', w', h')
    ensures m == m' && w == w' && h == h'
  {
    var a, a' := "_o/" + m[..2] + "/" + m[2..4] + "/" + m[4..], "_o/" + m'[..2] + "/" + m'[2..4] + "/" + m'[4..];
    SignedDecimalPlain(w);
    SignedDecimalPlain(h);
    SignedDecimalPlain(w');
    SignedDecimalPlain(h');
    LastCut(a + "_" + SignedDecimal(w), SignedDecimal(h), a' + "_" + SignedDecimal(w'), SignedDecimal(h'), '_');
    LastCut(a, SignedDecimal(w), a', SignedDecimal(w'), '_');
    ReadsSigned(w);
    ReadsSigned(h);
    ReadsSigned(w');
    ReadsSigned(h');
    DigestParts(m, m', a, a');
  }

  lemma {:induction false} DigestParts(m: string, m': string, a: string, a': string)
    requires |m| >= 4 && |m'| >= 4 && a == a'
    requires a == "_o/" + m[..2] + "/" + m[2..4] + "/" + m[4..]
    requires a' == "_o/" + m'[..2] + "/" + m'[2..4] + "/" + m'[4..]
    ensures m == m'
  {
    assert m[..2] == a[3..5] && m[2..4] == a[6..8] && m[4..] == a[9..];
    assert m'[..2] == a'[3..5] && m'[2..4] == a'[6..8] && m'[4..] == a'[9..];
    assert m == m[..2] + m[2..4] + m[4..] && m' == m'[..2] + m'[2..4] + m'[4..];
  }

  /** An id determines everything that it was made from. */
  lemma {:induction false} PicIdDetermines(m: string, k: string, e: string, w: int, h: int, f: string,
                                           m': string, k': string, e': string, w': int, h': int, f': string)
    requires |m| >= 4 && '.' !in m && '.' !in k && '.' !in e && '/' !in k
    requires |m'| >= 4 && '.' !in m' && '.' !in k' && '.' !in e' && '/' !in k'
    requires PicId(m, k, e, w, h, f) == PicId(m', k', e', w', h', f')
    ensures m == m' && k == k' && e == e' && w == w' && h == h' && f == f'
  {
    PicIdParses(m, k, e, w, h, f);
    PicIdParses(m', k', e', w', h', f');
    HeadPlain(m, k, w, h);
    HeadPlain(m', k', w', h');
    var t, t' := if f == DEFAULT then e else f + "." + e, if f' == DEFAULT then e' else f' + "." + e';
    FirstCut(PicIdHead(m, k, w, h), t, PicIdHead(m', k', w', h'), t', '.');
    if f != DEFAULT { LastCut(f, e, f', e', '.'); }
    HeadDetermines(m, k, w, h, m', k', w', h');
  }

  lemma {:induction false} HeadDetermines(m: string, k: string, w: int, h: int,
                                          m': string, k': string, w': int, h': int)
    requires |m| >= 4 && |m'| >= 4 && '/' !in k && '/' !in k'
    requires PicIdHead(m, k, w, h) == PicIdHead(m', k', w', h')
    ensures m == m' && k == k' && w == w' && h == h'
  {
    FirstCut(k, PicIdRest(m, w, h), k', PicIdRest(m', w', h'), '/');
    RestDetermines(m, w, h, m', w', h');
  }

  lemma {:induction false} HeadPlain(md5: string, kind: string, width: int, height: int)
    requires |md5| >= 4 && '.' !in md5 && '.' !in kind
    ensures '.' !in PicIdHead(md5, kind, width, height)
  {
    SignedDecimalPlain(width);
    SignedDecimalPlain(height);
  }

  lemma {:induction false} KindFirst(md5: string, kind: string, ext: string, width: int, height: int, flag: string)
    requires |md5| >= 4 && '/' !in kind
    ensures var key := PicId(md5, kind, ext, width, height, flag);
      First(key, '/') == Some(|kind|) && |key| >= |kind| && key[..|kind|] == kind
  {
    var key := PicId(md5, kind, ext, width, height, flag);
    var rest := key[|kind| + 1..];
    assert key[..|kind|] == kind && key[|kind|] == '/';
    assert key == kind + ['/'] + rest;
    FirstAfter(kind, '/', rest);
  }

  //////////////////////////////////////////////////////////////////////////////
  // Routing
  //////////////////////////////////////////////////////////////////////////////

  /** `GetCluster`: the pool that an id leads to; unknown kinds use the default kind. */
  function Routed(clusters: Clusters, key: string): Option<nat> {
    match ParsePicKey(key)
    case None => None
    case Some(info) =>
      var kind := if info.kind in clusters then info.kind else DEFAULT;
      if kind in clusters && info.cluster in clusters[kind] then Some(clusters[kind][info.cluster]) else None
  }

  /** The clusters with one pool more. */
  function WithPool(clusters: Clusters, kind: string, flag: string, pool: nat): Clusters {
    clusters[kind := (if kind in clusters then clusters[kind] else map[])[flag := pool]]
  }

  ghost predicate HasPool(clusters: Clusters, kind: string, flag: string) {
    kind in clusters && flag in clusters[kind]
  }

  /** Every cluster with a quota has a pool and the other way round; no pool serves two clusters. */
  ghost predicate Consistent(clusters: Clusters, locations: seq<ClusterScale>, nextPool: nat) {
    && Unique(locations)
    && (forall kind, flag :: Listed(locations, kind, flag) <==> HasPool(clusters, kind, flag))
    && (forall kind, flag :: HasPool(clusters, kind, flag) ==> clusters[kind][flag] < nextPool)
    && (forall k, f, l, g ::
          HasPool(clusters, k, f) && HasPool(clusters, l, g) && clusters[k][f] == clusters[l][g] ==> k == l && f == g)
  }

  /** A flag with residues is listed. */
  lemma {:induction false} AllocatedIsListed(locations: seq<ClusterScale>, kind: string, i: nat)
    requires i < |Allocation(locations, kind)|
    ensures Listed(locations, kind, Allocation(locations, kind)[i])
  {
    var n := |locations| - 1;
    var before := Allocation(locations[..n], kind);
    if i < |before| {
      AllocatedIsListed(locations[..n], kind, i);
      var j :| 0 <= j < n && locations[..n][j].kind == kind && locations[..n][j].flag == before[i];
      assert locations[j].kind == kind && locations[j].flag == before[i];
    } else {
      assert locations[n].kind == kind && locations[n].flag == Allocation(locations, kind)[i];
    }
  }

  /**
   A new picture id leads back to the cluster that the quotas chose exactly when its kind is one
   of the two kinds with quotas of their own or has no clusters.
   */
  lemma {:induction false} RoutesBack(clusters: Clusters, locations: seq<ClusterScale>, nextPool: nat, residue: nat,
                                      md5: string, kind: string, ext: string, width: int, height: int)
    requires Consistent(clusters, locations, nextPool)
    requires |md5| >= 4 && '.' !in md5 && '.' !in kind && '.' !in ext && '/' !in kind
    requires residue < Quotas(locations, QuotaKind(kind))
    ensures var flag := Allocation(locations, QuotaKind(kind))[residue];
      && HasPool(clusters, QuotaKind(kind), flag)
      && (Routed(clusters, PicId(md5, kind, ext, width, height, flag)) == Some(clusters[QuotaKind(kind)][flag])
          <==> kind == PIC_DETAIL || kind == DEFAULT || kind !in clusters)
  {
    var flag := Allocation(locations, QuotaKind(kind))[residue];
    AllocatedIsListed(locations, QuotaKind(kind), residue);
    PicIdParses(md5, kind, ext, width, height, flag);
    assert HasPool(clusters, QuotaKind(kind), flag);
    if HasPool(clusters, kind, flag) && kind != QuotaKind(kind) {
      assert clusters[kind][flag] != clusters[QuotaKind(kind)][flag];
    }
  }

  lemma {:induction false} AddKeepsConsistent(clusters: Clusters, locations: seq<ClusterScale>, nextPool: nat,
                                              c: ClusterScale,
                                              next: Clusters)
    requires Consistent(clusters, locations, nextPool) && !Listed(locations, c.kind, c.flag)
    requires next == WithPool(clusters, c.kind, c.flag, nextPool)
    ensures Consistent(next, locations + [c], nextPool + 1)
  {
    forall kind, flag
      ensures HasPool(next, kind, flag) <==> HasPool(clusters, kind, flag) || (kind == c.kind && flag == c.flag)
    {
    }
    forall kind, flag
      ensures Listed(locations + [c], kind, flag) <==>
              Listed(locations, kind, flag) || (kind == c.kind && flag == c.flag)
    {
      ListedAppend(locations, c, kind, flag);
    }
    forall kind, flag | HasPool(clusters, kind, flag) ensures next[kind][flag] == clusters[kind][flag] {
      assert Listed(locations, kind, flag);
    }
    UniqueAppend(locations, c);
  }

  lemma {:induction false} ListedAppend(locations: seq<ClusterScale>, c: ClusterScale, kind: string, flag: string)
    ensures Listed(locations + [c], kind, flag) <==> Listed(locations, kind, flag) || (kind == c.kind && flag == c.flag)
  {
    var more := locations + [c];
    if Listed(locations, kind, flag) {
      var i :| 0 <= i < |locations| && locations[i].kind == kind && locations[i].flag == flag;
      assert more[i].kind == kind && more[i].flag == flag;
    }
    assert more[|locations|] == c;
  }

  lemma {:induction false} UniqueAppend(locations: seq<ClusterScale>, c: ClusterScale)
    requires Unique(locations) && !Listed(locations, c.kind, c.flag)
    ensures Unique(locations + [c])
  {
  }

  class BeansdbClusters {
    var clusters: Clusters
    var locations: seq<ClusterScale>
    var nextPool: nat
    const crc: string -> nat

    ghost predicate Valid()
      reads this
    {
      Consistent(clusters, locations, nextPool)
    }

    constructor (crc: string -> nat)
      ensures Valid() && clusters == map[] && locations == [] && this.crc == crc
    {
      clusters, locations, nextPool := map[], [], 0;
      this.crc := crc;
    }

    /** `AddCluster` for a parsed configuration: a cluster that is known keeps its quota and its pool. */
    method AddCluster(kind: string, flag: string, scale: nat)
      requires Valid()
      modifies this
      ensures Valid() && HasPool(clusters, kind, flag)
      ensures Listed(old(locations), kind, flag) ==> clusters == old(clusters) && locations == old(locations)
      ensures !Listed(old(locations), kind, flag) ==>
        && locations == old(locations) + [ClusterScale(kind, flag, scale)]
        && clusters == WithPool(old(clusters), kind, flag, old(nextPool))
      ensures forall k, f :: HasPool(old(clusters), k, f) ==>
        HasPool(clusters, k, f) && clusters[k][f] == old(clusters)[k][f]
    {
      var c := ClusterScale(kind, flag, scale);
      var known := false;
      for i := 0 to |locations|
        invariant known <==> exists j :: 0 <= j < i && locations[j].kind == kind && locations[j].flag == flag
      {
        if locations[i].kind == kind && locations[i].flag == flag { known := true; }
      }
      assert known <==> Listed(locations, kind, flag);
      assert HasPool(clusters, kind, flag) <==> known;
      if !known {
        var next := WithPool(clusters, kind, flag, nextPool);
        AddKeepsConsistent(clusters, locations, nextPool, c, next);
        locations := locations + [c];
        clusters := next;
        nextPool := nextPool + 1;
      }
    }

    /** The cluster for a new picture: every residue of the checksum belongs to one flag. */
    method GenClusterLocate(md5: string, kind: string) returns (r: Option<string>)
      requires Quotas(locations, QuotaKind(kind)) <= 100
      ensures var sum := Quotas(locations, QuotaKind(kind));
        r == if sum == 0 then None else Some(Allocation(locations, QuotaKind(kind))[crc(md5) % sum])
    {
      var clusterKind := QuotaKind(kind);
      var allocation := new string[100](_ => "");
      var current := FillAllocation(allocation, clusterKind);
      if current == 0 { return None; }
      return Some(allocation[crc(md5) % current]);
    }

    method FillAllocation(allocation: array<string>, kind: string) returns (current: nat)
      requires Quotas(locations, kind) <= allocation.Length
      modifies allocation
      ensures current == Quotas(locations, kind) && allocation[..current] == Allocation(locations, kind)
    {
      current := 0;
      for i := 0 to |locations|
        invariant current == Quotas(locations[..i], kind) <= allocation.Length
        invariant allocation[..current] == Allocation(locations[..i], kind)
      {
        assert locations[..i + 1][..i] == locations[..i];
        QuotasGrow(locations, i + 1, kind);
        if locations[i].kind == kind {
          var flag, scale := locations[i].flag, locations[i].scale;
          ghost var start, before := current, allocation[..current];
          for j := 0 to scale
            invariant current == start + j && allocation[..current] == before + Copies(flag, j)
          {
            allocation[current] := flag;
            current := current + 1;
          }
        }
      }
      assert locations[..|locations|] == locations;
    }

    /** The id of a new picture, in the cluster the quotas choose. */
    method GenerateOriginPicId(md5: string, kind: string, ext: string, width: int, height: int)
      returns (r: Option<string>)
      requires Quotas(locations, QuotaKind(kind)) <= 100 && |md5| >= 4
      ensures var sum := Quotas(locations, QuotaKind(kind));
        r == if sum == 0 then None
          else Some(PicId(md5, kind, ext, width, height, Allocation(locations, QuotaKind(kind))[crc(md5) % sum]))
    {
      var located := GenClusterLocate(md5, kind);
      if located.None? { return None; }
      var id := kind + "/" + ("_o/" + md5[..2] + "/" + md5[2..4] + "/" + md5[4..] +
                              "_" + SignedDecimal(width) + "_" + SignedDecimal(height)) + ".";
      if DEFAULT != located.value { id := id + (located.value + "." + ext); } else { id := id + ext; }
      return Some(id);
    }
  }

  lemma {:induction false} QuotasGrow(locations: seq<ClusterScale>, i: nat, kind: string)
    requires i <= |locations|
    ensures Quotas(locations[..i], kind) <= Quotas(locations, kind)
    decreases |locations| - i
  {
    if i == |locations| {
      assert locations[..i] == locations;
    } else {
      QuotasGrow(locations, i + 1, kind);
      assert locations[..i + 1][..i] == locations[..i];
    }
  }

  /** Two clusters with the same flag: of the default kind and of a third kind. */
  const THIRD_KIND: string := "goods"
  const ONE_FLAG: string := "c1"
  const TWO_KINDS: seq<ClusterScale> := [ClusterScale(DEFAULT, ONE_FLAG, 1), ClusterScale(THIRD_KIND, ONE_FLAG, 1)]

  lemma {:induction false} TwoKindsQuotas()
    ensures Quotas(TWO_KINDS, DEFAULT) == 1 && Allocation(TWO_KINDS, DEFAULT) == [ONE_FLAG]
  {
    var one := TWO_KINDS[..1];
    assert one[..0] == [];
    assert Quotas(one, DEFAULT) == 1 && Allocation(one, DEFAULT) == [] + Copies(ONE_FLAG, 1);
    assert Copies(ONE_FLAG, 1) == [ONE_FLAG];
  }

  method AddTwoKinds(crc: string -> nat) returns (b: BeansdbClusters)
    ensures fresh(b) && b.Valid() && b.locations == TWO_KINDS
    ensures HasPool(b.clusters, DEFAULT, ONE_FLAG) && HasPool(b.clusters, THIRD_KIND, ONE_FLAG)
  {
    b := new BeansdbClusters(crc);
    b.AddCluster(DEFAULT, ONE_FLAG, 1);
    b.AddCluster(THIRD_KIND, ONE_FLAG, 1);
  }

  /** An id of the third kind leads to the pool of the third kind, not to that of the default kind. */
  lemma {:induction false} ThirdKindRoutes(clusters: Clusters, locations: seq<ClusterScale>, nextPool: nat, key: string)
    requires Consistent(clusters, locations, nextPool)
    requires HasPool(clusters, DEFAULT, ONE_FLAG) && HasPool(clusters, THIRD_KIND, ONE_FLAG)
    requires ParsePicKey(key) == Some(PicKeyInfo(THIRD_KIND, ONE_FLAG))
    ensures Routed(clusters, key) == Some(clusters[THIRD_KIND][ONE_FLAG]) != Some(clusters[DEFAULT][ONE_FLAG])
  {
    assert THIRD_KIND != DEFAULT;
  }

  /** Clusters whose quotas send a new picture of the third kind to the default kind, while its id leads elsewhere. */
  method ThirdKindStrays(crc: string -> nat) returns (b: BeansdbClusters, key: Option<string>)
    ensures fresh(b) && b.Valid() && key.Some?
    ensures HasPool(b.clusters, DEFAULT, ONE_FLAG) && key.value == PicId("abcd", THIRD_KIND, "jpg", 1, 1, ONE_FLAG)
    ensures Routed(b.clusters, key.value) != Some(b.clusters[DEFAULT][ONE_FLAG])
  {
    b := AddTwoKinds(crc);
    TwoKindsQuotas();
    key := b.GenerateOriginPicId("abcd", THIRD_KIND, "jpg", 1, 1);
    PicIdParses("abcd", THIRD_KIND, "jpg", 1, 1, ONE_FLAG);
    ThirdKindRoutes(b.clusters, b.locations, b.nextPool, key.value);
  }
}
