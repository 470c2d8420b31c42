/** Loading a saved address manager (the reading half of IMPLEMENT_SERIALIZE of CAddrMan, a3/a2/addrman.h): the loaded
    book satisfies the whole invariant and is the saved one again, up to ids, order and nLastTry. */
module AddrLoad {
  import opened AddrBook
  import opened AddrMan
  import opened AddrStore

  /** The saved ids in the order in which they are loaded: id j of the loaded book is ids[j] of the saved one. */
  function AllIds(s: Book): seq<int> { NewSeq(s) + TriedSeq(s) }

  /** The two books agree by address: same key and counts, same entries but for nLastTry and nRandomPos, same "new"
      buckets, and same "tried" buckets as sets. */
  ghost predicate Isomorphic(s: Book, t: Book) {
    && t.nKey == s.nKey && t.nNew == s.nNew && t.nTried == s.nTried
    && |t.vvNew| == |s.vvNew| && |t.vvTried| == |s.vvTried|
    && (forall a :: a in s.mapAddr <==> a in t.mapAddr)
    && (forall a :: a in s.mapAddr ==> s.mapAddr[a] in s.mapInfo && t.mapAddr[a] in t.mapInfo)
    && (forall a :: a in s.mapAddr ==>
          t.mapInfo[t.mapAddr[a]] ==
          s.mapInfo[s.mapAddr[a]].(nLastTry := 0, nRandomPos := t.mapInfo[t.mapAddr[a]].nRandomPos))
    && (forall a, b :: a in s.mapAddr && 0 <= b < |s.vvNew| ==>
        (s.mapAddr[a] in s.vvNew[b] <==> t.mapAddr[a] in t.vvNew[b]))
    && (forall a, k :: a in s.mapAddr && 0 <= k < |s.vvTried| ==>
        (s.mapAddr[a] in s.vvTried[k] <==> t.mapAddr[a] in t.vvTried[k]))
  }

  // ----- what is known of the saved ids -----

  ghost predicate IdsOk(s: Book, ids: seq<int>, nNew: nat) {
    && nNew <= |ids|
    && (forall j :: 0 <= j < |ids| ==> ids[j] in s.mapInfo && (s.mapInfo[ids[j]].fInTried <==> j >= nNew))
    && (forall i, j :: 0 <= i < j < |ids| ==> ids[i] != ids[j])
    && (forall id :: id in s.mapInfo ==> id in ids)
  }

  /** Entries with different ids have different addresses. */
  ghost predicate IpsDiffer(s: Book) {
    forall i, j :: i in s.mapInfo && j in s.mapInfo && s.mapInfo[i].ip == s.mapInfo[j].ip ==> i == j
  }

  lemma AllIdsOk(env: Env, s: Book)
    requires BookOk(env, s)
    ensures s.nNew >= 0 && s.nTried >= 0 && |AllIds(s)| == s.nNew + s.nTried
    ensures IdsOk(s, AllIds(s), s.nNew) && IpsDiffer(s)
  {
    SaveFacts(env, s);
    AddressesDiffer(env, s);
    hide BookOk, IpsDiffer, NewSeq, TriedSeq, RefCountsTell, BucketsKnown;
    IdsCovered(s);
    IdsInOrder(s);
  }

  lemma AddressesDiffer(env: Env, s: Book)
    requires BookOk(env, s)
    ensures IpsDiffer(s)
  {
    hide TriedOk, RandomOk, NewBucketsOk, RefsOkBut, CountsOk, StampsOk;
  }

  lemma IdsCovered(s: Book)
    requires forall i :: i in s.mapInfo ==> 0 <= i < s.nIdCount
    ensures forall id :: id in s.mapInfo ==> id in AllIds(s)
  {
    AscMembers(NewIds(s.mapInfo), s.nIdCount);
    AscMembers(TriedIds(s.mapInfo), s.nIdCount);
    forall id | id in s.mapInfo ensures id in AllIds(s) {
      if s.mapInfo[id].fInTried { assert id in TriedIds(s.mapInfo); } else { assert id in NewIds(s.mapInfo); }
    }
  }

  lemma IdsInOrder(s: Book)
    ensures var ids, n := AllIds(s), |NewSeq(s)|;
      && (forall j :: 0 <= j < |ids| ==> ids[j] in s.mapInfo && (s.mapInfo[ids[j]].fInTried <==> j >= n))
      && (forall i, j :: 0 <= i < j < |ids| ==> ids[i] != ids[j])
  {
    IdsKnown(s);
    AscMembers(NewIds(s.mapInfo), s.nIdCount);
    AscMembers(TriedIds(s.mapInfo), s.nIdCount);
    hide Asc, NewIds, TriedIds;
  }

  // ----- entries -----

  function Copy(info: AddrInfo, j: int, refs: int): AddrInfo {
    info.(nLastTry := 0, nRandomPos := j, nRefCount := refs)
  }

  /** The first n entries are loaded. */
  ghost predicate Copied(s: Book, ids: seq<int>, n: nat, t: Book) {
    && n <= |ids| && (forall j :: 0 <= j < |ids| ==> ids[j] in s.mapInfo)
    && t.nKey == s.nKey
    && (forall j :: j in t.mapInfo <==> 0 <= j < n)
    && (forall j :: 0 <= j < n ==> t.mapInfo[j] == Copy(s.mapInfo[ids[j]], j, CountIn(t.vvNew, j)))
    && (forall j :: 0 <= j < n ==> s.mapInfo[ids[j]].ip in t.mapAddr && t.mapAddr[s.mapInfo[ids[j]].ip] == j)
    && (forall a :: a in t.mapAddr ==> 0 <= t.mapAddr[a] < n && s.mapInfo[ids[t.mapAddr[a]]].ip == a)
    && |t.vRandom| == n && (forall j :: 0 <= j < n ==> t.vRandom[j] == j)
  }

  /** One more entry. */
  function WithEntry(t: Book, info: AddrInfo): Book {
    var n := |t.vRandom|;
    t.(mapInfo := t.mapInfo[n := info], mapAddr := t.mapAddr[info.ip := n], vRandom := t.vRandom + [n])
  }

  lemma CopyStep(s: Book, ids: seq<int>, nNew: nat, n: nat, t: Book)
    requires Copied(s, ids, n, t) && n < |ids| && IdsOk(s, ids, nNew) && IpsDiffer(s) && CountIn(t.vvNew, n) == 0
    ensures Copied(s, ids, n + 1, WithEntry(t, Copy(s.mapInfo[ids[n]], n, 0)))
  {
    hide CountIn, IdsOk, IpsDiffer, Copied;
    CopyAddress(s, ids, nNew, n, t);
    CopyRest(s, ids, n, t);
    CopiedIf(s, ids, n + 1, WithEntry(t, Copy(s.mapInfo[ids[n]], n, 0)));
  }

  lemma CopiedIf(s: Book, ids: seq<int>, n: nat, t: Book)
    requires n <= |ids| && (forall j :: 0 <= j < |ids| ==> ids[j] in s.mapInfo) && t.nKey == s.nKey
    requires forall j :: j in t.mapInfo <==> 0 <= j < n
    requires forall j :: 0 <= j < n ==> t.mapInfo[j] == Copy(s.mapInfo[ids[j]], j, CountIn(t.vvNew, j))
    requires forall j :: 0 <= j < n ==> s.mapInfo[ids[j]].ip in t.mapAddr && t.mapAddr[s.mapInfo[ids[j]].ip] == j
    requires forall a :: a in t.mapAddr ==> 0 <= t.mapAddr[a] < n && s.mapInfo[ids[t.mapAddr[a]]].ip == a
    requires |t.vRandom| == n && forall j :: 0 <= j < n ==> t.vRandom[j] == j
    ensures Copied(s, ids, n, t)
  {
  }

  lemma CopyRest(s: Book, ids: seq<int>, n: nat, t: Book)
    requires Copied(s, ids, n, t) && n < |ids| && CountIn(t.vvNew, n) == 0
    ensures forall j :: 0 <= j < |ids| ==> ids[j] in s.mapInfo
    ensures var t' := WithEntry(t, Copy(s.mapInfo[ids[n]], n, 0));
      && t'.nKey == s.nKey && t'.mapAddr == t.mapAddr[s.mapInfo[ids[n]].ip := n] && t'.vvNew == t.vvNew
      && (forall j :: j in t'.mapInfo <==> 0 <= j < n + 1)
      && (forall j :: 0 <= j < n + 1 ==> t'.mapInfo[j] == Copy(s.mapInfo[ids[j]], j, CountIn(t.vvNew, j)))
      && |t'.vRandom| == n + 1 && (forall j :: 0 <= j < n + 1 ==> t'.vRandom[j] == j)
  {
    hide CountIn;
  }

  lemma CopyAddress(s: Book, ids: seq<int>, nNew: nat, n: nat, t: Book)
    requires Copied(s, ids, n, t) && n < |ids| && IdsOk(s, ids, nNew) && IpsDiffer(s)
    ensures var m := t.mapAddr[s.mapInfo[ids[n]].ip := n];
      && (forall j :: 0 <= j < n + 1 ==> s.mapInfo[ids[j]].ip in m && m[s.mapInfo[ids[j]].ip] == j)
      && (forall a :: a in m ==> 0 <= m[a] < n + 1 && s.mapInfo[ids[m[a]]].ip == a)
  {
    hide CountIn, Copy;
    assert forall j :: 0 <= j < n ==> s.mapInfo[ids[j]].ip != s.mapInfo[ids[n]].ip;
  }

  // ----- "tried" buckets -----

  /** The tried entries from nNew to n are loaded, each in its bucket. */
  ghost predicate TriedLoaded(env: Env, s: Book, ids: seq<int>, nNew: nat, n: nat, vvTried: seq<seq<int>>) {
    && n <= |ids| && (forall j :: 0 <= j < |ids| ==> ids[j] in s.mapInfo)
    && |vvTried| == TRIED_BUCKET_COUNT
    && (forall k, p :: 0 <= k < |vvTried| && 0 <= p < |vvTried[k]| ==>
          nNew <= vvTried[k][p] < n && TriedBucket(env, s.nKey, s.mapInfo[ids[vvTried[k][p]]]) == k)
    && (forall k, p, q :: 0 <= k < |vvTried| && 0 <= p < q < |vvTried[k]| ==> vvTried[k][p] != vvTried[k][q])
    && (forall j :: nNew <= j < n ==> j in vvTried[TriedBucket(env, s.nKey, s.mapInfo[ids[j]])])
  }

  lemma TriedStep(env: Env, s: Book, ids: seq<int>, nNew: nat, n: nat, vv: seq<seq<int>>, k: nat)
    requires TriedLoaded(env, s, ids, nNew, n, vv) && nNew <= n < |ids|
    requires k == TriedBucket(env, s.nKey, s.mapInfo[ids[n]])
    ensures TriedLoaded(env, s, ids, nNew, n + 1, vv[k := vv[k] + [n]])
  {
    hide TriedBucket;
    var w := vv[k := vv[k] + [n]];
    forall j | nNew <= j < n + 1 ensures j in w[TriedBucket(env, s.nKey, s.mapInfo[ids[j]])] {
      if j == n { assert w[k][|vv[k]|] == n; }
      else { assert j in vv[TriedBucket(env, s.nKey, s.mapInfo[ids[j]])]; }
    }
  }

  /** A list without repetitions is no longer than a list that has all its members. */
  lemma {:induction false} DistinctFits(u: seq<int>, w: seq<int>)
    requires forall p, q :: 0 <= p < q < |u| ==> u[p] != u[q]
    requires forall p :: 0 <= p < |u| ==> u[p] in w
    ensures |u| <= |w|
  {
    if u != [] {
      var last := |u| - 1;
      var r :| 0 <= r < |w| && w[r] == u[last];
      var w' := w[..r] + w[r + 1..];
      forall p | 0 <= p < last ensures u[..last][p] in w' {
        var x :| 0 <= x < |w| && w[x] == u[p];
        assert w'[if x < r then x else x - 1] == u[p];
      }
      DistinctFits(u[..last], w');
    }
  }

  /** No tried entry is lost: its bucket was no fuller when it was saved. */
  lemma RoomForTried(env: Env, s: Book, ids: seq<int>, nNew: nat, n: nat, vv: seq<seq<int>>)
    requires TriedLoaded(env, s, ids, nNew, n, vv) && nNew <= n < |ids| && IdsOk(s, ids, nNew) && TriedOk(env, s)
    ensures |vv[TriedBucket(env, s.nKey, s.mapInfo[ids[n]])]| < TRIED_BUCKET_SIZE
  {
    var k := TriedBucket(env, s.nKey, s.mapInfo[ids[n]]);
    LoadedFits(env, s, ids, nNew, n, vv, k, [ids[n]]);
  }

  lemma LoadedFits(env: Env, s: Book, ids: seq<int>, nNew: nat, n: nat, vv: seq<seq<int>>, k: nat, more: seq<int>)
    requires TriedLoaded(env, s, ids, nNew, n, vv) && IdsOk(s, ids, nNew) && TriedOk(env, s) && k < |vv|
    requires more == [] || (nNew <= n < |ids| && more == [ids[n]] && TriedBucket(env, s.nKey, s.mapInfo[ids[n]]) == k)
    ensures |vv[k]| + |more| <= TRIED_BUCKET_SIZE
  {
    hide TriedBucket, TriedMembers, TriedDistinct;
    var u := seq(|vv[k]|, p requires 0 <= p < |vv[k]| => ids[vv[k][p]]) + more;
    assert forall p :: 0 <= p < |vv[k]| ==> u[p] == ids[vv[k][p]];
    forall p, q | 0 <= p < q < |u| ensures u[p] != u[q] {
      assert p < |vv[k]|;
      if q < |vv[k]| { assert vv[k][p] != vv[k][q]; }
    }
    forall p | 0 <= p < |u| ensures u[p] in s.vvTried[k] {
      var j := if p < |vv[k]| then vv[k][p] else n;
      assert u[p] == ids[j] && TriedBucket(env, s.nKey, s.mapInfo[ids[j]]) == k;
      assert TriedComplete(env, s) && s.mapInfo[ids[j]].fInTried;
    }
    DistinctFits(u, s.vvTried[k]);
  }

  // ----- "new" buckets -----

  /** The bucket B holds, under the loaded ids, what the bucket A holds under the saved ones. */
  ghost predicate MirrorsOne(ids: seq<int>, nNew: nat, A: set<int>, B: set<int>) {
    && nNew <= |ids|
    && (forall j :: j in B ==> 0 <= j < nNew && ids[j] in A)
    && (forall j :: 0 <= j < nNew && ids[j] in A ==> j in B)
  }

  ghost predicate Mirrors(ids: seq<int>, nNew: nat, W: seq<set<int>>, V: seq<set<int>>) {
    |V| == |W| && forall c :: 0 <= c < |V| ==> MirrorsOne(ids, nNew, W[c], V[c])
  }

  lemma {:induction false} MirrorCounts(ids: seq<int>, nNew: nat, W: seq<set<int>>, V: seq<set<int>>, j: nat)
    requires Mirrors(ids, nNew, W, V) && j < nNew <= |ids|
    ensures CountIn(V, j) == CountIn(W, ids[j])
  {
    if V != [] {
      assert forall c :: 0 <= c < |V| - 1 ==> V[1..][c] == V[c + 1] && W[1..][c] == W[c + 1];
      MirrorCounts(ids, nNew, W[1..], V[1..], j);
      assert j in V[0] <==> ids[j] in W[0];
    }
  }

  /** A bucket is no larger than the one it mirrors. */
  lemma {:induction false} MirrorSize(ids: seq<int>, nNew: nat, A: set<int>, B: set<int>)
    requires nNew <= |ids| && forall i, j :: 0 <= i < j < |ids| ==> ids[i] != ids[j]
    requires forall j :: j in B ==> 0 <= j < nNew && ids[j] in A
    ensures |B| <= |A|
  {
    if j :| j in B {
      MirrorSize(ids, nNew, A - {ids[j]}, B - {j});
    } else {
      assert B == {} by { forall j | j in B ensures false { } }
    }
  }

  lemma MirrorStep(ids: seq<int>, nNew: nat, W: seq<set<int>>, V: seq<set<int>>, b: nat, j: nat)
    requires Mirrors(ids, nNew, W, V) && b < |V| && j < nNew <= |ids|
    requires forall i, k :: 0 <= i < k < |ids| ==> ids[i] != ids[k]
    ensures Mirrors(ids, nNew, W[b := W[b] + {ids[j]}], V[b := V[b] + {j}])
  {
  }

  /** Fewer buckets hold an id while one of them is still to be read. */
  lemma {:induction false} CountLess(W: seq<set<int>>, vv: seq<set<int>>, id: int, b: nat)
    requires |W| == |vv| && forall c :: 0 <= c < |vv| ==> W[c] <= vv[c]
    requires b < |vv| ==> id in vv[b] && id !in W[b]
    ensures CountIn(W, id) <= CountIn(vv, id)
    ensures b < |vv| ==> CountIn(W, id) < CountIn(vv, id)
  {
    if vv != [] {
      assert forall c :: 0 <= c < |vv| - 1 ==> W[1..][c] == W[c + 1] && vv[1..][c] == vv[c + 1];
      CountLess(W[1..], vv[1..], id, if b == 0 then |vv| else b - 1);
      assert W[0] <= vv[0];
    }
  }

  /** The buckets as far as they are read: those before b, and in b the first n ids of the walk. */
  function ReadSoFar(s: Book, b: nat, n: nat): (W: seq<set<int>>)
    requires b < |s.vvNew| && n <= |Asc(s.vvNew[b], s.nIdCount)|
    ensures |W| == |s.vvNew|
  {
    seq(|s.vvNew|, c requires 0 <= c < |s.vvNew| =>
      if c < b then s.vvNew[c] else if c == b then (set i | i in Asc(s.vvNew[b], s.nIdCount)[..n]) else {})
  }

  function ReadBuckets(s: Book, b: nat): (W: seq<set<int>>)
    requires b <= |s.vvNew|
    ensures |W| == |s.vvNew|
  {
    seq(|s.vvNew|, c requires 0 <= c < |s.vvNew| => if c < b then s.vvNew[c] else {})
  }

  lemma ReadStep(s: Book, b: nat, n: nat)
    requires b < |s.vvNew| && n < |Asc(s.vvNew[b], s.nIdCount)|
    ensures ReadSoFar(s, b, n + 1) == ReadSoFar(s, b, n)[b := ReadSoFar(s, b, n)[b] + {Asc(s.vvNew[b], s.nIdCount)[n]}]
    ensures Asc(s.vvNew[b], s.nIdCount)[n] !in ReadSoFar(s, b, n)[b] && Asc(s.vvNew[b], s.nIdCount)[n] in s.vvNew[b]
  {
    var a := Asc(s.vvNew[b], s.nIdCount);
    AscMembers(s.vvNew[b], s.nIdCount);
    var front, more := a[..n], a[..n + 1];
    assert more == front + [a[n]] && a[n] in a;
    assert ReadSoFar(s, b, n + 1)[b] == (set i | i in more) == (set i | i in front) + {a[n]};
    assert ReadSoFar(s, b, n)[b] == (set i | i in front);
    hide Asc;
  }

  lemma ReadWithin(s: Book, b: nat, n: nat)
    requires b < |s.vvNew| && n <= |Asc(s.vvNew[b], s.nIdCount)|
    ensures forall c :: 0 <= c < |s.vvNew| ==> ReadSoFar(s, b, n)[c] <= s.vvNew[c]
    ensures forall c :: b < c < |s.vvNew| ==> ReadSoFar(s, b, n)[c] == {}
  {
    AscMembers(s.vvNew[b], s.nIdCount);
    var a := Asc(s.vvNew[b], s.nIdCount);
    var front := a[..n];
    assert forall p :: 0 <= p < |front| ==> front[p] in a;
    assert ReadSoFar(s, b, n)[b] == (set i | i in front);
    hide Asc;
  }

  lemma ReadEnds(s: Book, b: nat)
    requires b < |s.vvNew| && forall i :: i in s.vvNew[b] ==> 0 <= i < s.nIdCount
    ensures ReadSoFar(s, b, 0) == ReadBuckets(s, b)
    ensures ReadSoFar(s, b, |Asc(s.vvNew[b], s.nIdCount)|) == ReadBuckets(s, b + 1)
  {
    AscMembers(s.vvNew[b], s.nIdCount);
    var a := Asc(s.vvNew[b], s.nIdCount);
    assert a[..|a|] == a;
    assert ReadSoFar(s, b, |a|)[b] == (set i | i in a);
    assert (set i | i in a) == s.vvNew[b] by {
      forall i ensures i in (set i | i in a) <==> i in s.vvNew[b] { }
    }
    forall c | 0 <= c < |s.vvNew| ensures ReadSoFar(s, b, |a|)[c] == ReadBuckets(s, b + 1)[c] {
      if c == b { assert ReadBuckets(s, b + 1)[c] == s.vvNew[b]; }
    }
    assert ReadSoFar(s, b, 0)[b] == {} by {
      assert a[..0] == [];
      forall i ensures i !in ReadSoFar(s, b, 0)[b] { }
    }
    forall c | 0 <= c < |s.vvNew| ensures ReadSoFar(s, b, 0)[c] == ReadBuckets(s, b)[c] { }
    hide Asc;
  }

  /** The index that was saved for an id is its id in the loaded book. */
  lemma RankIsPlace(env: Env, s: Book, b: nat, n: nat)
    requires BookOk(env, s) && b < |s.vvNew| && n < |Asc(s.vvNew[b], s.nIdCount)|
    ensures var id := Asc(s.vvNew[b], s.nIdCount)[n];
            && id in s.vvNew[b] && id in s.mapInfo && !s.mapInfo[id].fInTried
            && 0 <= Rank(s, id) < s.nNew && Rank(s, id) < |AllIds(s)| && AllIds(s)[Rank(s, id)] == id
  {
    SaveFacts(env, s);
    hide BookOk;
    AscMembers(s.vvNew[b], s.nIdCount);
    var id := Asc(s.vvNew[b], s.nIdCount)[n];
    assert id in Asc(s.vvNew[b], s.nIdCount);
    assert id in NewIds(s.mapInfo);
    AscRank(NewIds(s.mapInfo), s.nIdCount, id);
  }

  /** Entry j is put into bucket b. */
  function WithPlace(t: Book, b: nat, j: int): Book
    requires j in t.mapInfo && b < |t.vvNew|
  {
    t.(mapInfo := t.mapInfo[j := t.mapInfo[j].(nRefCount := t.mapInfo[j].nRefCount + 1)],
       vvNew := t.vvNew[b := t.vvNew[b] + {j}])
  }

  lemma CopiedInsert(s: Book, ids: seq<int>, t: Book, b: nat, j: nat)
    requires Copied(s, ids, |ids|, t) && b < |t.vvNew| && j < |ids| && j !in t.vvNew[b]
    ensures Copied(s, ids, |ids|, WithPlace(t, b, j))
  {
    forall i ensures CountIn(t.vvNew[b := t.vvNew[b] + {j}], i) == CountIn(t.vvNew, i) + (if i == j then 1 else 0) {
      CountOf(t.vvNew, i, b, t.vvNew[b] + {j});
    }
    hide CountIn;
  }

  /** Every saved place finds the entry with fewer than four references. */
  lemma RoomForPlace(env: Env, s: Book, ids: seq<int>, nNew: nat, b: nat, n: nat, t: Book, j: nat)
    requires BookOk(env, s) && b < |s.vvNew| && n < |Asc(s.vvNew[b], s.nIdCount)| && IdsOk(s, ids, nNew) && j < nNew
    requires Copied(s, ids, |ids|, t) && Mirrors(ids, nNew, ReadSoFar(s, b, n), t.vvNew)
    requires ids[j] == Asc(s.vvNew[b], s.nIdCount)[n]
    ensures t.mapInfo[j].nRefCount < NEW_BUCKETS_PER_ADDRESS
  {
    var W := ReadSoFar(s, b, n);
    MirrorCounts(ids, nNew, W, t.vvNew, j);
    ReadWithin(s, b, n);
    ReadStep(s, b, n);
    CountLess(W, s.vvNew, ids[j], b);
    assert RefsOkBut(s, -1, 0) && MapsOk(s);
    hide BookOk, Mirrors, ReadSoFar, Asc;
  }

  // ----- the loaded book -----

  lemma LoadedMaps(s: Book, ids: seq<int>, nNew: nat, t: Book)
    requires IdsOk(s, ids, nNew) && Copied(s, ids, |ids|, t) && t.nIdCount == |ids|
    ensures MapsOk(t) && RandomOk(t)
  {
    hide CountIn;
  }

  lemma LoadedStamps(s: Book, ids: seq<int>, nNew: nat, t: Book)
    requires IdsOk(s, ids, nNew) && Copied(s, ids, |ids|, t) && StampsOk(s)
    ensures StampsOk(t)
  {
    hide CountIn;
    forall j | j in t.mapInfo
      ensures t.mapInfo[j].nLastTry >= 0 && t.mapInfo[j].nLastSuccess >= 0
          && (t.mapInfo[j].fInTried ==> t.mapInfo[j].nLastSuccess != 0)
    {
      assert t.mapInfo[j] == Copy(s.mapInfo[ids[j]], j, CountIn(t.vvNew, j));
    }
  }

  function Interval(lo: int, hi: int): set<int>
    decreases hi - lo
  {
    if lo >= hi then {} else Interval(lo, hi - 1) + {hi - 1}
  }

  lemma {:induction false} IntervalSize(lo: int, hi: int)
    requires lo <= hi
    ensures |Interval(lo, hi)| == hi - lo
    ensures forall i :: i in Interval(lo, hi) <==> lo <= i < hi
    decreases hi - lo
  {
    if lo < hi { IntervalSize(lo, hi - 1); }
  }

  lemma LoadedCounts(s: Book, ids: seq<int>, nNew: nat, t: Book)
    requires IdsOk(s, ids, nNew) && Copied(s, ids, |ids|, t) && t.nNew == nNew && t.nTried == |ids| - nNew
    ensures CountsOk(t)
  {
    hide CountIn;
    IntervalSize(0, nNew);
    IntervalSize(nNew, |ids|);
    assert NewIds(t.mapInfo) == Interval(0, nNew) by {
      forall i ensures i in NewIds(t.mapInfo) <==> i in Interval(0, nNew) { }
    }
    assert TriedIds(t.mapInfo) == Interval(nNew, |ids|) by {
      forall i ensures i in TriedIds(t.mapInfo) <==> i in Interval(nNew, |ids|) { }
    }
  }

  lemma MirrorBuckets(s: Book, ids: seq<int>, nNew: nat, t: Book)
    requires NewBucketsOk(s) && IdsOk(s, ids, nNew) && Copied(s, ids, |ids|, t) && Mirrors(ids, nNew, s.vvNew, t.vvNew)
    ensures NewBucketsOk(t)
  {
    hide CountIn;
    forall b | 0 <= b < |t.vvNew| ensures |t.vvNew[b]| <= NEW_BUCKET_SIZE {
      assert MirrorsOne(ids, nNew, s.vvNew[b], t.vvNew[b]);
      MirrorSize(ids, nNew, s.vvNew[b], t.vvNew[b]);
    }
    forall b, j | 0 <= b < |t.vvNew| && j in t.vvNew[b] ensures j in t.mapInfo && !t.mapInfo[j].fInTried {
      assert MirrorsOne(ids, nNew, s.vvNew[b], t.vvNew[b]);
      assert 0 <= j < nNew && !s.mapInfo[ids[j]].fInTried;
    }
  }

  lemma LoadedBuckets(env: Env, s: Book, ids: seq<int>, nNew: nat, t: Book)
    requires BookOk(env, s) && IdsOk(s, ids, nNew) && Copied(s, ids, |ids|, t) && Mirrors(ids, nNew, s.vvNew, t.vvNew)
    ensures NewBucketsOk(t) && RefsOkBut(t, -1, 0)
  {
    assert NewBucketsOk(s) && RefsOkBut(s, -1, 0) && MapsOk(s);
    hide BookOk, CountIn, MapsOk, NewBucketsOk;
    MirrorBuckets(s, ids, nNew, t);
    forall j | 0 <= j < |ids| ensures CountIn(t.vvNew, j) == if j < nNew then CountIn(s.vvNew, ids[j]) else 0 {
      if j < nNew { MirrorCounts(ids, nNew, s.vvNew, t.vvNew, j); } else { CountZero(t.vvNew, j); }
    }
    LoadedRefs(s, ids, nNew, t);
    hide RefsOkBut;
  }

  lemma LoadedRefs(s: Book, ids: seq<int>, nNew: nat, t: Book)
    requires RefsOkBut(s, -1, 0) && (forall id :: id in s.mapInfo ==> id >= 0) && IdsOk(s, ids, nNew)
        && Copied(s, ids, |ids|, t)
    requires forall j :: 0 <= j < |ids| ==> CountIn(t.vvNew, j) == if j < nNew then CountIn(s.vvNew, ids[j]) else 0
    ensures RefsOkBut(t, -1, 0)
  {
    hide CountIn;
    forall j | j in t.mapInfo
      ensures var info := t.mapInfo[j];
              if info.fInTried then info.nRefCount == 0
              else j != -1 && info.nRefCount == CountIn(t.vvNew, j) && 1 <= info.nRefCount <= NEW_BUCKETS_PER_ADDRESS
    {
      assert ids[j] in s.mapInfo;
    }
  }

  lemma LoadedTriedParts(env: Env, s: Book, ids: seq<int>, nNew: nat, t: Book)
    requires IdsOk(s, ids, nNew) && Copied(s, ids, |ids|, t) && TriedLoaded(env, s, ids, nNew, |ids|, t.vvTried)
    ensures TriedMembers(env, t) && TriedDistinct(t) && TriedComplete(env, t)
  {
    hide CountIn, TriedBucket;
    forall j | 0 <= j < |ids|
      ensures TriedBucket(env, t.nKey, t.mapInfo[j]) == TriedBucket(env, s.nKey, s.mapInfo[ids[j]])
    {
      SameBucket(env, s.nKey, s.mapInfo[ids[j]], t.mapInfo[j]);
    }
  }

  lemma SameBucket(env: Env, key: Key, info: AddrInfo, info': AddrInfo)
    requires info.ip == info'.ip && info.port == info'.port
    ensures TriedBucket(env, key, info) == TriedBucket(env, key, info')
  {
  }

  lemma LoadedTried(env: Env, s: Book, ids: seq<int>, nNew: nat, t: Book)
    requires IdsOk(s, ids, nNew) && Copied(s, ids, |ids|, t) && TriedLoaded(env, s, ids, nNew, |ids|, t.vvTried)
        && TriedOk(env, s)
    ensures TriedOk(env, t)
  {
    hide CountIn, TriedMembers, TriedComplete, TriedDistinct, TriedBucket;
    forall k | 0 <= k < |t.vvTried| ensures |t.vvTried[k]| <= TRIED_BUCKET_SIZE {
      LoadedFits(env, s, ids, nNew, |ids|, t.vvTried, k, []);
    }
    LoadedTriedParts(env, s, ids, nNew, t);
  }

  ghost predicate Loaded(env: Env, s: Book, t: Book) {
    var ids := AllIds(s);
    && s.nNew >= 0 && IdsOk(s, ids, s.nNew) && |ids| == s.nNew + s.nTried
    && Copied(s, ids, |ids|, t) && t.nIdCount == |ids| && t.nNew == s.nNew && t.nTried == s.nTried
    && TriedLoaded(env, s, ids, s.nNew, |ids|, t.vvTried)
    && Mirrors(ids, s.nNew, s.vvNew, t.vvNew)
  }

  lemma LoadedOk(env: Env, s: Book, t: Book)
    requires BookOk(env, s) && Loaded(env, s, t)
    ensures BookOk(env, t)
  {
    hide Copied, IdsOk, TriedLoaded, Mirrors, MapsOk, RandomOk, NewBucketsOk, RefsOkBut, TriedOk, CountsOk, StampsOk,
        AllIds;
    var ids := AllIds(s);
    LoadedMaps(s, ids, s.nNew, t);
    LoadedStamps(s, ids, s.nNew, t);
    LoadedCounts(s, ids, s.nNew, t);
    LoadedBuckets(env, s, ids, s.nNew, t);
    LoadedTried(env, s, ids, s.nNew, t);
  }

  /** The id of an address in the loaded book, traced back. */
  lemma LoadedAddress(env: Env, s: Book, t: Book, a: NetAddr)
    requires MapsOk(s) && Loaded(env, s, t)
    ensures a in s.mapAddr <==> a in t.mapAddr
    ensures a in s.mapAddr ==>
      var ids := AllIds(s);
      && s.mapAddr[a] in s.mapInfo && t.mapAddr[a] in t.mapInfo
      && 0 <= t.mapAddr[a] < |ids| && ids[t.mapAddr[a]] == s.mapAddr[a]
      && t.mapInfo[t.mapAddr[a]] == Copy(s.mapInfo[s.mapAddr[a]], t.mapAddr[a], CountIn(t.vvNew, t.mapAddr[a]))
  {
    hide TriedLoaded, Mirrors, AllIds, CountIn;
    if a in s.mapAddr {
      var id := s.mapAddr[a];
      assert id in s.mapInfo && s.mapInfo[id].ip == a;
      assert id in AllIds(s);
      var j :| 0 <= j < |AllIds(s)| && AllIds(s)[j] == id;
      assert t.mapAddr[a] == j;
    }
    if a in t.mapAddr {
      var id := AllIds(s)[t.mapAddr[a]];
      assert id in s.mapInfo && s.mapInfo[id].ip == a;
    }
  }

  lemma LoadedEntry(env: Env, s: Book, t: Book, a: NetAddr)
    requires BookOk(env, s) && Loaded(env, s, t) && a in s.mapAddr
    ensures a in t.mapAddr && s.mapAddr[a] in s.mapInfo && t.mapAddr[a] in t.mapInfo
    ensures t.mapInfo[t.mapAddr[a]] ==
      s.mapInfo[s.mapAddr[a]].(nLastTry := 0, nRandomPos := t.mapInfo[t.mapAddr[a]].nRandomPos)
    ensures forall b :: 0 <= b < |s.vvNew| ==> (s.mapAddr[a] in s.vvNew[b] <==> t.mapAddr[a] in t.vvNew[b])
  {
    assert MapsOk(s) && RefsOkBut(s, -1, 0) && NewBucketsOk(s);
    LoadedAddress(env, s, t, a);
    hide BookOk, TriedLoaded, AllIds, CountIn, Copied;
    var ids, i, j := AllIds(s), s.mapAddr[a], t.mapAddr[a];
    if j < s.nNew {
      MirrorCounts(ids, s.nNew, s.vvNew, t.vvNew, j);
    } else {
      CountZero(t.vvNew, j);
    }
  }

  lemma LoadedTriedPlaces(env: Env, s: Book, t: Book, a: NetAddr, k: nat)
    requires BookOk(env, s) && Loaded(env, s, t) && a in s.mapAddr && k < TRIED_BUCKET_COUNT
    ensures |s.vvTried| == |t.vvTried| == TRIED_BUCKET_COUNT
    ensures a in t.mapAddr && (s.mapAddr[a] in s.vvTried[k] <==> t.mapAddr[a] in t.vvTried[k])
  {
    assert MapsOk(s) && TriedOk(env, s);
    LoadedAddress(env, s, t, a);
    hide BookOk, Mirrors, AllIds, CountIn, Copied, TriedDistinct, TriedBucket, MapsOk;
    var ids, i, j := AllIds(s), s.mapAddr[a], t.mapAddr[a];
    if i in s.vvTried[k] {
      assert TriedMembers(env, s);
      assert j >= s.nNew;
    }
    if j in t.vvTried[k] {
      var p :| 0 <= p < |t.vvTried[k]| && t.vvTried[k][p] == j;
      assert TriedBucket(env, s.nKey, s.mapInfo[ids[j]]) == k;
      assert TriedComplete(env, s);
    }
  }

  lemma LoadedIsomorphic(env: Env, s: Book, t: Book)
    requires BookOk(env, s) && Loaded(env, s, t)
    ensures Isomorphic(s, t)
  {
    hide BookOk, Loaded, MapsOk;
    LoadedSizes(env, s, t);
    forall a ensures a in s.mapAddr <==> a in t.mapAddr { LoadedAddress(env, s, t, a); }
    forall a | a in s.mapAddr
      ensures a in t.mapAddr && s.mapAddr[a] in s.mapInfo && t.mapAddr[a] in t.mapInfo
      ensures t.mapInfo[t.mapAddr[a]] ==
        s.mapInfo[s.mapAddr[a]].(nLastTry := 0, nRandomPos := t.mapInfo[t.mapAddr[a]].nRandomPos)
      ensures forall b :: 0 <= b < |s.vvNew| ==> (s.mapAddr[a] in s.vvNew[b] <==> t.mapAddr[a] in t.vvNew[b])
    {
      LoadedEntry(env, s, t, a);
    }
    forall a, k | a in s.mapAddr && 0 <= k < TRIED_BUCKET_COUNT
      ensures s.mapAddr[a] in s.vvTried[k] <==> t.mapAddr[a] in t.vvTried[k]
    {
      LoadedTriedPlaces(env, s, t, a, k);
    }
  }

  lemma LoadedSizes(env: Env, s: Book, t: Book)
    requires BookOk(env, s) && Loaded(env, s, t)
    ensures MapsOk(s) && t.nKey == s.nKey && t.nNew == s.nNew && t.nTried == s.nTried
    ensures |s.vvTried| == |t.vvTried| == TRIED_BUCKET_COUNT && |t.vvNew| == |s.vvNew|
  {
    assert TriedOk(env, s) && MapsOk(s);
    hide MapsOk, RandomOk, NewBucketsOk, RefsOkBut, CountsOk, StampsOk, TriedMembers, TriedDistinct, TriedComplete,
        IdsOk, AllIds, MirrorsOne, CountIn;
  }

  // ----- loading -----

  lemma SavedNewAt(s: Book, j: nat)
    requires j < |NewSeq(s)|
    ensures |SavedNew(s)| == |NewSeq(s)| && NewSeq(s)[j] in s.mapInfo && NewSeq(s)[j] == AllIds(s)[j]
    ensures SavedNew(s)[j] == Info(Pack(s.mapInfo[NewSeq(s)[j]]))
  {
    IdsKnown(s);
  }

  lemma SavedTriedAt(s: Book, j: nat)
    requires j < |TriedSeq(s)|
    ensures |SavedTried(s)| == |TriedSeq(s)| && TriedSeq(s)[j] in s.mapInfo
    ensures TriedSeq(s)[j] == AllIds(s)[|NewSeq(s)| + j]
    ensures SavedTried(s)[j] == Info(Pack(s.mapInfo[TriedSeq(s)[j]]))
  {
    IdsKnown(s);
  }

  lemma CopiedNothing(s: Book, ids: seq<int>, nNew: nat, t: Book)
    requires IdsOk(s, ids, nNew) && t.nKey == s.nKey && t.mapInfo == map[] && t.mapAddr == map[] && t.vRandom == []
    ensures Copied(s, ids, 0, t)
  {
  }

  /** The loop over the "new" entries. */
  method LoadNew(am: CAddrMan, input: seq<Item>, pos: nat, ghost s: Book)
    requires IdsOk(s, AllIds(s), |NewSeq(s)|) && IpsDiffer(s)
    requires am.nNew == |NewSeq(s)| == |SavedNew(s)| && pos + |SavedNew(s)| <= |input|
        && input[pos..pos + |SavedNew(s)|] == SavedNew(s)
    requires am.nKey == s.nKey && am.mapInfo == map[] && am.mapAddr == map[] && am.vRandom == []
    requires forall b :: 0 <= b < |am.vvNew| ==> am.vvNew[b] == {}
    modifies am`mapInfo, am`mapAddr, am`vRandom
    ensures Copied(s, AllIds(s), |NewSeq(s)|, am.State())
  {
    hide NewSeq, AllIds, SavedNew, IdsOk, IpsDiffer, Copied, Pack;
    ghost var ids, nNew := AllIds(s), |NewSeq(s)|;
    CopiedNothing(s, ids, nNew, am.State());
    for n := 0 to am.nNew
      invariant Copied(s, ids, n, am.State())
    {
      SavedNewAt(s, n);
      assert input[pos + n] == input[pos..pos + |SavedNew(s)|][n];
      PlaceOfNew(s, ids, nNew, n);
      CopyNext(s, ids, nNew, n, am.State());
      ghost var t := am.State();
      var info := Unpack(input[pos + n].info, -1, false);
      am.mapInfo := am.mapInfo[n := info];
      am.mapAddr := am.mapAddr[info.ip := n];
      am.mapInfo := am.mapInfo[n := info.(nRandomPos := |am.vRandom|)];
      am.vRandom := am.vRandom + [n];
      assert am.State() == WithEntry(t, Unpack(Pack(s.mapInfo[ids[n]]), n, n >= nNew));
    }
  }

  /** What is read for an entry is its copy. */
  lemma CopyNext(s: Book, ids: seq<int>, nNew: nat, n: nat, t: Book)
    requires Copied(s, ids, n, t) && n < |ids| && IdsOk(s, ids, nNew) && IpsDiffer(s)
    requires forall b, j :: 0 <= b < |t.vvNew| && j in t.vvNew[b] ==> j < n
    ensures |t.vRandom| == n && ids[n] in s.mapInfo
    ensures Copied(s, ids, n + 1, WithEntry(t, Unpack(Pack(s.mapInfo[ids[n]]), n, n >= nNew)))
  {
    CountZero(t.vvNew, n);
    CopyStep(s, ids, nNew, n, t);
    assert Unpack(Pack(s.mapInfo[ids[n]]), n, n >= nNew) == Copy(s.mapInfo[ids[n]], n, 0);
  }

  lemma PlaceOfNew(s: Book, ids: seq<int>, nNew: nat, n: nat)
    requires ids == AllIds(s) && n < nNew == |NewSeq(s)|
    ensures n < |ids| && ids[n] == NewSeq(s)[n]
  {
  }

  lemma TriedNothing(env: Env, s: Book, ids: seq<int>, nNew: nat, vv: seq<seq<int>>)
    requires IdsOk(s, ids, nNew) && |vv| == TRIED_BUCKET_COUNT && forall k :: 0 <= k < |vv| ==> vv[k] == []
    ensures TriedLoaded(env, s, ids, nNew, nNew, vv)
  {
  }

  lemma PlaceOfTried(s: Book, ids: seq<int>, nNew: nat, n: nat)
    requires ids == AllIds(s) && nNew == |NewSeq(s)| && n < |TriedSeq(s)|
    ensures |ids| == nNew + |TriedSeq(s)| && ids[nNew + n] == TriedSeq(s)[n]
  {
  }

  /** The loop over the "tried" entries. None is lost. */
  method LoadTried(am: CAddrMan, input: seq<Item>, pos: nat, ghost s: Book)
    requires IdsOk(s, AllIds(s), |NewSeq(s)|) && IpsDiffer(s) && TriedOk(am.env, s)
        && Copied(s, AllIds(s), |NewSeq(s)|, am.State())
    requires am.nIdCount == |NewSeq(s)| && am.nKey == s.nKey
    requires am.nTried == |TriedSeq(s)| == |SavedTried(s)| && pos + |SavedTried(s)| <= |input|
    requires input[pos..pos + |SavedTried(s)|] == SavedTried(s)
    requires |am.vvTried| == TRIED_BUCKET_COUNT && forall k :: 0 <= k < |am.vvTried| ==> am.vvTried[k] == []
    requires forall b :: 0 <= b < |am.vvNew| ==> am.vvNew[b] == {}
    modifies am`mapInfo, am`mapAddr, am`vRandom, am`vvTried, am`nTried, am`nIdCount
    ensures Copied(s, AllIds(s), |AllIds(s)|, am.State())
        && TriedLoaded(am.env, s, AllIds(s), |NewSeq(s)|, |AllIds(s)|, am.vvTried)
    ensures am.nTried == old(am.nTried) && am.nIdCount == |AllIds(s)| == |NewSeq(s)| + |TriedSeq(s)|
  {
    hide NewSeq, TriedSeq, AllIds, SavedTried, IdsOk, IpsDiffer, Copied, TriedLoaded, TriedOk, TriedBucket;
    ghost var ids, nNew := AllIds(s), |NewSeq(s)|;
    TriedNothing(am.env, s, ids, nNew, am.vvTried);
    AllIdsSize(s);
    var nLost := 0;
    for n := 0 to am.nTried
      invariant Copied(s, ids, nNew + n, am.State()) && am.nIdCount == nNew + n && nLost == 0
      invariant TriedLoaded(am.env, s, ids, nNew, nNew + n, am.vvTried) && |am.vvTried| == TRIED_BUCKET_COUNT
      invariant am.nTried == old(am.nTried)
    {
      SavedTriedAt(s, n);
      PlaceOfTried(s, ids, nNew, n);
      assert input[pos + n] == input[pos..pos + |SavedTried(s)|][n];
      CopyNext(s, ids, nNew, nNew + n, am.State());
      RoomForTried(am.env, s, ids, nNew, nNew + n, am.vvTried);
      ghost var t, m := am.State(), nNew + n;
      var info := Unpack(input[pos + n].info, -1, false);
      var k := TriedBucket(am.env, am.nKey, info);
      SameBucket(am.env, am.nKey, s.mapInfo[ids[nNew + n]], info);
      TriedStep(am.env, s, ids, nNew, nNew + n, am.vvTried, k);
      if |am.vvTried[k]| < TRIED_BUCKET_SIZE {
        info := info.(nRandomPos := |am.vRandom|, fInTried := true);
        am.vRandom := am.vRandom + [am.nIdCount];
        am.mapInfo := am.mapInfo[am.nIdCount := info];
        am.mapAddr := am.mapAddr[info.ip := am.nIdCount];
        am.vvTried := am.vvTried[k := am.vvTried[k] + [am.nIdCount]];
        CopiedUpTo(s, ids, m + 1, WithEntry(t, Unpack(Pack(s.mapInfo[ids[m]]), m, m >= nNew)), am.nIdCount + 1,
            am.vvTried);
        am.nIdCount := am.nIdCount + 1;
      } else {
        nLost := nLost + 1;
      }
    }
    am.nTried := am.nTried - nLost;
  }

  lemma AllIdsSize(s: Book)
    ensures |AllIds(s)| == |NewSeq(s)| + |TriedSeq(s)|
  {
  }

  /** Copied does not depend on the id counter and the "tried" buckets. */
  lemma CopiedUpTo(s: Book, ids: seq<int>, n: nat, t: Book, nIdCount: nat, vvTried: seq<seq<int>>)
    requires Copied(s, ids, n, t)
    ensures Copied(s, ids, n, t.(nIdCount := nIdCount, vvTried := vvTried))
  {
    hide CountIn;
  }

  /** What the stream holds at the start of bucket b. */
  lemma BucketAhead(s: Book, b: nat, input: seq<Item>, pos: nat)
    requires b < |s.vvNew| && pos <= |input| && input[pos..] == BucketsFrom(s, b)
    ensures var a := Asc(s.vvNew[b], s.nIdCount);
      && pos + 1 + |a| <= |input| && input[pos] == Int(|s.vvNew[b]|) && input[pos + 1 + |a|..] == BucketsFrom(s, b + 1)
      && forall n :: 0 <= n < |a| ==> input[pos + 1 + n] == Int(Rank(s, a[n]))
  {
    hide Asc, Rank;
    var a := Asc(s.vvNew[b], s.nIdCount);
    var rest := input[pos..];
    assert BucketItems(s, b) == [Int(|s.vvNew[b]|)] + Indexes(s, a);
    assert rest == BucketItems(s, b) + BucketsFrom(s, b + 1);
    assert input[pos + 1 + |a|..] == rest[1 + |a|..];
    forall n | 0 <= n < |a| ensures input[pos + 1 + n] == Int(Rank(s, a[n])) {
      assert rest[1 + n] == BucketItems(s, b)[1 + n] == Indexes(s, a)[n];
    }
  }

  lemma BucketWalk(env: Env, s: Book, b: nat)
    requires BookOk(env, s) && b < |s.vvNew|
    ensures |Asc(s.vvNew[b], s.nIdCount)| == |s.vvNew[b]| && forall i :: i in s.vvNew[b] ==> 0 <= i < s.nIdCount
  {
    BucketKnown(env, s, -1, 0, b);
    hide BookOk;
    AscAll(s.vvNew[b], s.nIdCount);
  }

  lemma MirrorNotYet(s: Book, ids: seq<int>, nNew: nat, b: nat, n: nat, V: seq<set<int>>, j: nat)
    requires b < |s.vvNew| && n < |Asc(s.vvNew[b], s.nIdCount)| && Mirrors(ids, nNew, ReadSoFar(s, b, n), V)
    requires j < |ids|
    requires ids[j] == Asc(s.vvNew[b], s.nIdCount)[n]
    ensures b < |V| && j !in V[b]
  {
    ReadStep(s, b, n);
    assert MirrorsOne(ids, nNew, ReadSoFar(s, b, n)[b], V[b]);
  }

  /** One saved bucket. */
  method LoadBucket(am: CAddrMan, input: seq<Item>, pos: nat, b: nat, ghost s: Book) returns (next: nat)
    requires BookOk(am.env, s) && s.nNew >= 0 && IdsOk(s, AllIds(s), s.nNew)
    requires b < |s.vvNew| && pos <= |input| && input[pos..] == BucketsFrom(s, b)
    requires Copied(s, AllIds(s), |AllIds(s)|, am.State()) && Mirrors(AllIds(s), s.nNew, ReadBuckets(s, b), am.vvNew)
    modifies am`mapInfo, am`vvNew
    ensures next <= |input| && input[next..] == BucketsFrom(s, b + 1)
    ensures Copied(s, AllIds(s), |AllIds(s)|, am.State()) && Mirrors(AllIds(s), s.nNew, ReadBuckets(s, b + 1), am.vvNew)
  {
    hide BookOk, AllIds, Copied, Mirrors, IdsOk, ReadSoFar, ReadBuckets, Asc, Rank, BucketsFrom;
    ghost var ids, a := AllIds(s), Asc(s.vvNew[b], s.nIdCount);
    BucketAhead(s, b, input, pos);
    BucketWalk(am.env, s, b);
    ReadEnds(s, b);
    var nSize := input[pos].n;
    for n := 0 to nSize
      invariant Copied(s, ids, |ids|, am.State()) && Mirrors(ids, s.nNew, ReadSoFar(s, b, n), am.vvNew)
    {
      RankIsPlace(am.env, s, b, n);
      var nIndex := input[pos + 1 + n].n;
      IdsDistinct(s, ids, s.nNew);
      MirrorNotYet(s, ids, s.nNew, b, n, am.vvNew, nIndex);
      RoomForPlace(am.env, s, ids, s.nNew, b, n, am.State(), nIndex);
      CopiedKnows(s, ids, am.State(), nIndex);
      CopiedInsert(s, ids, am.State(), b, nIndex);
      MirrorStep(ids, s.nNew, ReadSoFar(s, b, n), am.vvNew, b, nIndex);
      ReadStep(s, b, n);
      var info := am.mapInfo[nIndex];
      if info.nRefCount < NEW_BUCKETS_PER_ADDRESS {
        am.mapInfo := am.mapInfo[nIndex := info.(nRefCount := info.nRefCount + 1)];
        am.vvNew := am.vvNew[b := am.vvNew[b] + {nIndex}];
      }
    }
    next := pos + 1 + nSize;
  }

  lemma IdsDistinct(s: Book, ids: seq<int>, nNew: nat)
    requires IdsOk(s, ids, nNew)
    ensures nNew <= |ids| && forall i, k :: 0 <= i < k < |ids| ==> ids[i] != ids[k]
  {
  }

  lemma CopiedKnows(s: Book, ids: seq<int>, t: Book, j: nat)
    requires Copied(s, ids, |ids|, t) && j < |ids|
    ensures j in t.mapInfo
  {
  }

  lemma MirrorsNothing(s: Book, ids: seq<int>, nNew: nat, V: seq<set<int>>)
    requires |V| == |s.vvNew| && nNew <= |ids| && forall b :: 0 <= b < |V| ==> V[b] == {}
    ensures Mirrors(ids, nNew, ReadBuckets(s, 0), V)
  {
  }

  lemma AllRead(s: Book)
    ensures ReadBuckets(s, |s.vvNew|) == s.vvNew
  {
  }

  /** The loop over the saved buckets. */
  method LoadBuckets(am: CAddrMan, input: seq<Item>, start: nat, nUBuckets: int, ghost s: Book)
    requires BookOk(am.env, s) && s.nNew >= 0 && IdsOk(s, AllIds(s), s.nNew) && nUBuckets == |s.vvNew|
    requires start <= |input| && input[start..] == BucketsFrom(s, 0)
    requires Copied(s, AllIds(s), |AllIds(s)|, am.State()) && Mirrors(AllIds(s), s.nNew, ReadBuckets(s, 0), am.vvNew)
    modifies am`mapInfo, am`vvNew
    ensures Copied(s, AllIds(s), |AllIds(s)|, am.State()) && Mirrors(AllIds(s), s.nNew, s.vvNew, am.vvNew)
  {
    hide BookOk, AllIds, Copied, Mirrors, IdsOk, ReadBuckets, BucketsFrom;
    var pos: nat := start;
    for b := 0 to nUBuckets
      invariant pos <= |input| && input[pos..] == BucketsFrom(s, b)
      invariant Copied(s, AllIds(s), |AllIds(s)|, am.State()) && Mirrors(AllIds(s), s.nNew, ReadBuckets(s, b), am.vvNew)
    {
      pos := LoadBucket(am, input, pos, b, s);
    }
    AllRead(s);
  }

  /** What a saved book gives the loader to rely on. */
  lemma LoadFacts(env: Env, s: Book, input: seq<Item>)
    requires BookOk(env, s) && input == SavedItems(s)
    ensures |NewSeq(s)| == s.nNew && |TriedSeq(s)| == s.nTried && |AllIds(s)| == s.nNew + s.nTried
    ensures s.nNew >= 0 && s.nTried >= 0
    ensures IdsOk(s, AllIds(s), s.nNew) && IpsDiffer(s) && TriedOk(env, s) && |s.vvNew| == NEW_BUCKET_COUNT
    ensures |SavedNew(s)| == s.nNew && |SavedTried(s)| == s.nTried
    ensures |input| >= 5 + s.nNew + s.nTried
    ensures input[1] == KeyBytes(s.nKey) && input[2] == Int(s.nNew) && input[3] == Int(s.nTried)
        && input[4] == Int(NEW_BUCKET_COUNT)
    ensures input[5..5 + s.nNew] == SavedNew(s)
    ensures input[5 + s.nNew..5 + s.nNew + s.nTried] == SavedTried(s)
    ensures input[5 + s.nNew + s.nTried..] == BucketsFrom(s, 0)
  {
    assert TriedOk(env, s);
    AllIdsOk(env, s);
    SaveFacts(env, s);
    hide BookOk, AllIds, IdsOk, IpsDiffer, SavedNew, SavedTried, BucketsFrom, TriedOk, NewSeq, TriedSeq, SavedItems;
    StreamParts(s, input);
  }

  /** Loading what Save wrote of the book s. */
  method Load(am: CAddrMan, input: seq<Item>, ghost s: Book)
    requires BookOk(am.env, s) && input == SavedItems(s)
    modifies am
    ensures am.Valid()
    ensures Isomorphic(s, am.State())
  {
    hide BookOk, AllIds, Copied, Mirrors, IdsOk, IpsDiffer, ReadBuckets, SavedNew, SavedTried, BucketsFrom, TriedOk,
        NewSeq, TriedSeq, SavedItems, TriedLoaded, Isomorphic;
    LoadFacts(am.env, s, input);
    am.nKey := input[1].key;
    am.nNew := input[2].n;
    am.nTried := input[3].n;
    var nUBuckets := input[4].n;
    am.nIdCount := 0;
    am.mapInfo, am.mapAddr, am.vRandom := map[], map[], [];
    am.vvTried := seq(TRIED_BUCKET_COUNT, _ => []);
    am.vvNew := seq(NEW_BUCKET_COUNT, _ => {});
    LoadNew(am, input, 5, s);
    CopiedUpTo(s, AllIds(s), s.nNew, am.State(), am.nNew, am.vvTried);
    am.nIdCount := am.nNew;
    LoadTried(am, input, 5 + am.nNew, s);
    MirrorsNothing(s, AllIds(s), s.nNew, am.vvNew);
    LoadBuckets(am, input, 5 + am.nNew + am.nTried, nUBuckets, s);
    LoadedIs(am.env, s, am.State());
    LoadedOk(am.env, s, am.State());
    LoadedIsomorphic(am.env, s, am.State());
  }

  lemma LoadedIs(env: Env, s: Book, t: Book)
    requires s.nNew >= 0 && IdsOk(s, AllIds(s), s.nNew) && |AllIds(s)| == s.nNew + s.nTried
    requires Copied(s, AllIds(s), |AllIds(s)|, t) && t.nIdCount == |AllIds(s)| && t.nNew == s.nNew
    requires t.nTried == s.nTried
    requires TriedLoaded(env, s, AllIds(s), s.nNew, |AllIds(s)|, t.vvTried)
    requires Mirrors(AllIds(s), s.nNew, s.vvNew, t.vvNew)
    ensures Loaded(env, s, t)
  {
  }

  lemma StreamParts(s: Book, input: seq<Item>)
    requires |NewSeq(s)| == s.nNew && |TriedSeq(s)| == s.nTried && input == SavedItems(s)
    ensures |SavedNew(s)| == s.nNew && |SavedTried(s)| == s.nTried
    ensures |input| >= 5 + s.nNew + s.nTried
    ensures input[1] == KeyBytes(s.nKey) && input[2] == Int(s.nNew) && input[3] == Int(s.nTried)
        && input[4] == Int(NEW_BUCKET_COUNT)
    ensures input[5..5 + s.nNew] == SavedNew(s)
    ensures input[5 + s.nNew..5 + s.nNew + s.nTried] == SavedTried(s)
    ensures input[5 + s.nNew + s.nTried..] == BucketsFrom(s, 0)
  {
    IdsKnown(s);
    assert |SavedNew(s)| == s.nNew && |SavedTried(s)| == s.nTried;
    hide SavedNew, SavedTried, BucketsFrom;
  }
}
