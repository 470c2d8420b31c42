/** Saving and loading the address manager (IMPLEMENT_SERIALIZE of CAddrMan, a3/a2/addrman.h). Ids, mapAddr, vRandom
    and the "tried" buckets are not saved but rebuilt, so a loaded book has other ids than the saved one. */
module AddrStore {
  import opened AddrBook
  import opened AddrMan

  /** What is saved of an entry. */
  datatype SavedInfo = SavedInfo(ip: NetAddr, port: nat, nServices: bv64, nTime: nat, source: NetAddr,
      nLastSuccess: int, nAttempts: int)

  datatype Item = Byte(b: nat) | KeyBytes(key: Key) | Int(n: int) | Info(info: SavedInfo)

  function Pack(info: AddrInfo): SavedInfo {
    SavedInfo(info.ip, info.port, info.nServices, info.nTime, info.source, info.nLastSuccess, info.nAttempts)
  }

  function Unpack(v: SavedInfo, nRandomPos: int, fInTried: bool): AddrInfo {
    AddrInfo(v.ip, v.port, v.nServices, v.nTime, v.source, v.nLastSuccess, 0, v.nAttempts, 0, fInTried, nRandomPos)
  }

  // ----- ascending walks -----

  /** The members of a set below hi, in the order in which a std::set or std::map is walked. */
  function Asc(S: set<int>, hi: nat): seq<int> {
    if hi == 0 then [] else if hi - 1 in S then Asc(S, hi - 1) + [hi - 1] else Asc(S, hi - 1)
  }

  lemma {:induction false} AscMembers(S: set<int>, hi: nat)
    ensures forall i :: i in Asc(S, hi) <==> i in S && 0 <= i < hi
    ensures forall p, q :: 0 <= p < q < |Asc(S, hi)| ==> Asc(S, hi)[p] < Asc(S, hi)[q]
  {
    if hi > 0 {
      AscMembers(S, hi - 1);
      var below := Asc(S, hi - 1);
      assert forall p :: 0 <= p < |below| ==> below[p] in below;
    }
  }

  lemma {:induction false} AscSize(S: set<int>, hi: nat)
    ensures |Asc(S, hi)| == |set i | i in S && 0 <= i < hi|
  {
    var B := set i | i in S && 0 <= i < hi;
    if hi == 0 {
      assert B == {};
    } else {
      AscSize(S, hi - 1);
      var A := set i | i in S && 0 <= i < hi - 1;
      assert B == if hi - 1 in S then A + {hi - 1} else A;
    }
  }

  /** The walk meets i after as many members as there are below i. */
  lemma {:induction false} AscRank(S: set<int>, hi: nat, i: nat)
    requires i in S && i < hi
    ensures |Asc(S, i)| < |Asc(S, hi)| && Asc(S, hi)[|Asc(S, i)|] == i
  {
    if i < hi - 1 { AscRank(S, hi - 1, i); }
  }

  lemma AscAll(S: set<int>, hi: nat)
    requires forall i :: i in S ==> 0 <= i < hi
    ensures |Asc(S, hi)| == |S|
  {
    AscSize(S, hi);
    assert (set i | i in S && 0 <= i < hi) == S;
  }

  // ----- the format -----

  function NewSeq(s: Book): seq<int> { Asc(NewIds(s.mapInfo), s.nIdCount) }

  function TriedSeq(s: Book): seq<int> { Asc(TriedIds(s.mapInfo), s.nIdCount) }

  /** mapUnkIds: the place of a "new" entry among those saved. */
  function Rank(s: Book, id: int): int { if id < 0 then 0 else |Asc(NewIds(s.mapInfo), id)| }

  function Infos(m: map<int, AddrInfo>, ids: seq<int>): (r: seq<Item>)
    requires forall i :: 0 <= i < |ids| ==> ids[i] in m
    ensures |r| == |ids|
  {
    seq(|ids|, i requires 0 <= i < |ids| => Info(Pack(m[ids[i]])))
  }

  function Indexes(s: Book, ids: seq<int>): (r: seq<Item>)
    ensures |r| == |ids|
  {
    seq(|ids|, i requires 0 <= i < |ids| => Int(Rank(s, ids[i])))
  }

  function BucketItems(s: Book, b: nat): seq<Item>
    requires b < |s.vvNew|
  {
    [Int(|s.vvNew[b]|)] + Indexes(s, Asc(s.vvNew[b], s.nIdCount))
  }

  /** The "new" buckets from b on. */
  function BucketsFrom(s: Book, b: nat): seq<Item>
    requires b <= |s.vvNew|
    decreases |s.vvNew| - b
  {
    if b == |s.vvNew| then [] else BucketItems(s, b) + BucketsFrom(s, b + 1)
  }

  function BucketsTo(s: Book, b: nat): seq<Item>
    requires b <= |s.vvNew|
  {
    if b == 0 then [] else BucketsTo(s, b - 1) + BucketItems(s, b - 1)
  }

  lemma {:induction false} BucketsSplit(s: Book, b: nat)
    requires b <= |s.vvNew|
    ensures BucketsTo(s, b) + BucketsFrom(s, b) == BucketsFrom(s, 0)
  {
    if b == 0 {
    } else {
      BucketsSplit(s, b - 1);
      assert BucketsTo(s, b) + BucketsFrom(s, b) == BucketsTo(s, b - 1) + (BucketItems(s, b - 1) + BucketsFrom(s, b));
    }
  }

  lemma IdsKnown(s: Book)
    ensures forall i :: 0 <= i < |NewSeq(s)| ==> NewSeq(s)[i] in s.mapInfo && !s.mapInfo[NewSeq(s)[i]].fInTried
    ensures forall i :: 0 <= i < |TriedSeq(s)| ==> TriedSeq(s)[i] in s.mapInfo && s.mapInfo[TriedSeq(s)[i]].fInTried
  {
    AscMembers(NewIds(s.mapInfo), s.nIdCount);
    AscMembers(TriedIds(s.mapInfo), s.nIdCount);
    assert forall i :: 0 <= i < |NewSeq(s)| ==> NewSeq(s)[i] in NewSeq(s);
    assert forall i :: 0 <= i < |TriedSeq(s)| ==> TriedSeq(s)[i] in TriedSeq(s);
  }

  function Header(s: Book): seq<Item> {
    [Byte(0), KeyBytes(s.nKey), Int(s.nNew), Int(s.nTried), Int(NEW_BUCKET_COUNT)]
  }

  function SavedNew(s: Book): seq<Item> { IdsKnown(s); Infos(s.mapInfo, NewSeq(s)) }

  function SavedTried(s: Book): seq<Item> { IdsKnown(s); Infos(s.mapInfo, TriedSeq(s)) }

  /** What saving the book writes. */
  function SavedItems(s: Book): seq<Item> {
    Header(s) + SavedNew(s) + SavedTried(s) + BucketsFrom(s, 0)
  }

  // ----- saving -----

  predicate RefCountsTell(s: Book) {
    forall id :: id in s.mapInfo ==> (s.mapInfo[id].nRefCount != 0 <==> !s.mapInfo[id].fInTried)
  }

  predicate KnownBucket(s: Book, bucket: set<int>) {
    forall i :: i in bucket ==> i in s.mapInfo && !s.mapInfo[i].fInTried
  }

  predicate BucketsKnown(s: Book) { forall b :: 0 <= b < |s.vvNew| ==> KnownBucket(s, s.vvNew[b]) }

  lemma AllBucketsKnown(s: Book)
    requires NewBucketsOk(s)
    ensures BucketsKnown(s)
  {
    forall b | 0 <= b < |s.vvNew| ensures KnownBucket(s, s.vvNew[b]) {
      forall i | i in s.vvNew[b] ensures i in s.mapInfo && !s.mapInfo[i].fInTried { }
    }
  }

  lemma SaveFacts(env: Env, s: Book)
    requires BookOk(env, s)
    ensures |NewSeq(s)| == s.nNew && |TriedSeq(s)| == s.nTried
    ensures RefCountsTell(s) && |s.vvNew| == NEW_BUCKET_COUNT
    ensures BucketsKnown(s)
    ensures forall i :: i in s.mapInfo ==> 0 <= i < s.nIdCount
  {
    hide TriedOk, RandomOk;
    assert MapsOk(s) && RefsOkBut(s, -1, 0) && CountsOk(s);
    AllBucketsKnown(s);
    hide NewBucketsOk, BucketsKnown;
    AscAll(NewIds(s.mapInfo), s.nIdCount);
    AscAll(TriedIds(s.mapInfo), s.nIdCount);
  }

  lemma {:induction false} AscGrows(S: set<int>, lo: nat, hi: nat)
    requires lo <= hi
    ensures |Asc(S, lo)| <= |Asc(S, hi)|
    ensures |Asc(S, lo)| == |Asc(S, hi)| ==> Asc(S, lo) == Asc(S, hi)
  {
    if lo < hi { AscGrows(S, lo, hi - 1); }
  }

  /** Once all of them were met, the walk meets no more. */
  lemma AscDone(S: set<int>, lo: nat, hi: nat)
    requires lo <= hi && |Asc(S, lo)| == |Asc(S, hi)|
    ensures Asc(S, lo) == Asc(S, hi)
    ensures forall i :: lo <= i < hi ==> i !in S
  {
    AscGrows(S, lo, hi);
    forall i | lo <= i < hi ensures i !in S {
      AscGrows(S, lo, i);
      AscGrows(S, i + 1, hi);
    }
  }

  method SaveNew(s: Book) returns (out: seq<Item>, mapUnkIds: map<int, int>)
    requires |NewSeq(s)| == s.nNew && RefCountsTell(s) && forall i :: i in s.mapInfo ==> 0 <= i < s.nIdCount
    ensures out == SavedNew(s)
    ensures forall i :: i in s.mapInfo && !s.mapInfo[i].fInTried ==> i in mapUnkIds && mapUnkIds[i] == Rank(s, i)
  {
    out, mapUnkIds := [], map[];
    var nIds := 0;
    var S := NewIds(s.mapInfo);
    for id := 0 to s.nIdCount
      invariant forall i :: 0 <= i < |Asc(S, id)| ==> Asc(S, id)[i] in s.mapInfo
      invariant nIds == |Asc(S, id)| && out == Infos(s.mapInfo, Asc(S, id))
      invariant forall i :: i in S && i < id ==> i in mapUnkIds && mapUnkIds[i] == Rank(s, i)
    {
      if id in s.mapInfo {
        if nIds == s.nNew {
          AscDone(S, id, s.nIdCount);
          assert forall i :: i in s.mapInfo && !s.mapInfo[i].fInTried ==> i in S;
          return;
        }
        mapUnkIds := mapUnkIds[id := nIds];
        if s.mapInfo[id].nRefCount != 0 {
          out := out + [Info(Pack(s.mapInfo[id]))];
          nIds := nIds + 1;
        }
      }
    }
  }

  method SaveTried(s: Book) returns (out: seq<Item>)
    requires |TriedSeq(s)| == s.nTried && forall i :: i in s.mapInfo ==> 0 <= i < s.nIdCount
    ensures out == SavedTried(s)
  {
    out := [];
    var nIds := 0;
    var S := TriedIds(s.mapInfo);
    for id := 0 to s.nIdCount
      invariant forall i :: 0 <= i < |Asc(S, id)| ==> Asc(S, id)[i] in s.mapInfo
      invariant nIds == |Asc(S, id)| && out == Infos(s.mapInfo, Asc(S, id))
    {
      if id in s.mapInfo {
        if nIds == s.nTried {
          AscDone(S, id, s.nIdCount);
          return;
        }
        if s.mapInfo[id].fInTried {
          out := out + [Info(Pack(s.mapInfo[id]))];
          nIds := nIds + 1;
        }
      }
    }
  }

  method SaveBucket(s: Book, b: nat, mapUnkIds: map<int, int>) returns (out: seq<Item>)
    requires b < |s.vvNew| && forall i :: i in s.vvNew[b] ==> i in mapUnkIds && mapUnkIds[i] == Rank(s, i)
    ensures out == BucketItems(s, b)
  {
    var vNew := s.vvNew[b];
    out := [Int(|vNew|)];
    for id := 0 to s.nIdCount
      invariant out == [Int(|vNew|)] + Indexes(s, Asc(vNew, id))
    {
      if id in vNew {
        out := out + [Int(mapUnkIds[id])];
        assert Indexes(s, Asc(vNew, id + 1)) == Indexes(s, Asc(vNew, id)) + [Int(Rank(s, id))];
      }
    }
  }

  /** Saving: the `fWrite` half. */
  method Save(am: CAddrMan) returns (out: seq<Item>)
    requires am.Valid()
    ensures out == SavedItems(am.State())
  {
    SaveFacts(am.env, am.State());
    var s := Book(am.nKey, am.nIdCount, am.mapInfo, am.mapAddr, am.vRandom, am.nTried, am.vvTried, am.nNew, am.vvNew);
    out := SaveBook(s);
  }

  method SaveBook(s: Book) returns (out: seq<Item>)
    requires |NewSeq(s)| == s.nNew && |TriedSeq(s)| == s.nTried && RefCountsTell(s) && |s.vvNew| == NEW_BUCKET_COUNT
    requires forall i :: i in s.mapInfo ==> 0 <= i < s.nIdCount
    requires BucketsKnown(s)
    ensures out == SavedItems(s)
  {
    hide RefCountsTell, SavedNew, SavedTried, BucketItems, NewSeq, TriedSeq, Rank;
    var news, mapUnkIds := SaveNew(s);
    var trieds := SaveTried(s);
    var head := [Byte(0), KeyBytes(s.nKey), Int(s.nNew), Int(s.nTried), Int(NEW_BUCKET_COUNT)] + news + trieds;
    var buckets := [];
    for b := 0 to |s.vvNew|
      invariant buckets == BucketsTo(s, b)
    {
      assert KnownBucket(s, s.vvNew[b]);
      var items := SaveBucket(s, b, mapUnkIds);
      buckets := buckets + items;
    }
    BucketsSplit(s, |s.vvNew|);
    assert BucketsTo(s, |s.vvNew|) + [] == BucketsTo(s, |s.vvNew|);
    out := head + buckets;
  }
}
