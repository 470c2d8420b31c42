/** The changes that CAddrMan's operations make to the book, as functions, and why each keeps the invariant. */
module AddrOps {
  import opened AddrBook

  function WithInfo(s: Book, id: int, info: AddrInfo): Book {
    s.(mapInfo := s.mapInfo[id := info])
  }

  /** The entries are the same but for times, services, attempts and positions in vRandom. */
  ghost predicate SameEntries(m: map<int, AddrInfo>, m': map<int, AddrInfo>) {
    && (forall id :: id in m <==> id in m')
    && forall id :: id in m ==>
         && m'[id].ip == m[id].ip && m'[id].port == m[id].port && m'[id].source == m[id].source
         && m'[id].nRefCount == m[id].nRefCount && m'[id].fInTried == m[id].fInTried
  }

  lemma SameEntriesOk(env: Env, s: Book, m: map<int, AddrInfo>, v: seq<int>, x: int, d: int)
    requires SameEntries(s.mapInfo, m) && |v| == |s.vRandom|
    requires MapsOk(s) && NewBucketsOk(s) && RefsOkBut(s, x, d) && TriedOk(env, s) && CountsOk(s)
    ensures var s' := s.(mapInfo := m, vRandom := v);
            MapsOk(s') && NewBucketsOk(s') && RefsOkBut(s', x, d) && TriedOk(env, s') && CountsOk(s')
  {
    var s' := s.(mapInfo := m, vRandom := v);
    SameIds(s.mapInfo, m);
    SameTried(env, s, s');
    SameMaps(s, s');
  }

  lemma SameMaps(s: Book, s': Book)
    requires MapsOk(s) && SameEntries(s.mapInfo, s'.mapInfo) && s'.mapAddr == s.mapAddr && s'.nIdCount == s.nIdCount
    ensures MapsOk(s')
  {
    forall a | a in s'.mapAddr ensures s'.mapAddr[a] in s'.mapInfo && s'.mapInfo[s'.mapAddr[a]].ip == a {
      assert a in s.mapAddr && s.mapAddr[a] == s'.mapAddr[a];
      assert s.mapAddr[a] in s.mapInfo;
    }
  }

  lemma SameIds(m: map<int, AddrInfo>, m': map<int, AddrInfo>)
    requires SameEntries(m, m')
    ensures TriedIds(m) == TriedIds(m') && NewIds(m) == NewIds(m')
  {
    forall id ensures id in TriedIds(m) <==> id in TriedIds(m') { }
    forall id ensures id in NewIds(m) <==> id in NewIds(m') { }
  }

  /** Enough of the entries is the same for the "tried" buckets. */
  ghost predicate SamePlaces(m: map<int, AddrInfo>, m': map<int, AddrInfo>) {
    && (forall id :: id in m <==> id in m')
    && forall id :: id in m ==> m'[id].ip == m[id].ip && m'[id].port == m[id].port && m'[id].fInTried == m[id].fInTried
  }

  lemma SameTried(env: Env, s: Book, s': Book)
    requires TriedOk(env, s) && SamePlaces(s.mapInfo, s'.mapInfo)
    requires s'.vvTried == s.vvTried && s'.nKey == s.nKey
    ensures TriedOk(env, s')
  {
    assert forall id :: id in s'.mapInfo ==>
        TriedBucket(env, s.nKey, s'.mapInfo[id]) == TriedBucket(env, s.nKey, s.mapInfo[id]);
  }

  // ----- vRandom -----

  /** SwapRandom. */
  function SwappedRandom(s: Book, p: nat, q: nat): Book
    requires RandomOk(s) && p < |s.vRandom| && q < |s.vRandom|
  {
    if p == q then s
    else
      var id1, id2 := s.vRandom[p], s.vRandom[q];
      s.(mapInfo := s.mapInfo[id1 := s.mapInfo[id1].(nRandomPos := q)][id2 := s.mapInfo[id2].(nRandomPos := p)],
         vRandom := s.vRandom[p := id2][q := id1])
  }

  lemma SwappedRandomOk(env: Env, s: Book, p: nat, q: nat, x: int, d: int)
    requires BookOkBut(env, s, x, d) && p < |s.vRandom| && q < |s.vRandom|
    ensures BookOkBut(env, SwappedRandom(s, p, q), x, d)
    ensures SameEntries(s.mapInfo, SwappedRandom(s, p, q).mapInfo)
  {
    hide MapsOk, NewBucketsOk, RefsOkBut, TriedOk, CountsOk, RandomOk, StampsOk, SameEntries;
    var s' := SwappedRandom(s, p, q);
    ExchangeInRandom(s, p, q);
    ExchangedEntries(s, p, q);
    SameEntriesOk(env, s, s'.mapInfo, s'.vRandom, x, d);
  }

  lemma ExchangeInRandom(s: Book, p: nat, q: nat)
    requires RandomOk(s) && p < |s.vRandom| && q < |s.vRandom|
    ensures RandomOk(SwappedRandom(s, p, q))
  {
  }

  lemma ExchangedEntries(s: Book, p: nat, q: nat)
    requires RandomOk(s) && StampsOk(s) && p < |s.vRandom| && q < |s.vRandom|
    ensures var s' := SwappedRandom(s, p, q);
      && StampsOk(s') && SameEntries(s.mapInfo, s'.mapInfo)
      && s' == s.(mapInfo := s'.mapInfo, vRandom := s'.vRandom) && |s'.vRandom| == |s.vRandom|
  {
    assert s.vRandom[p] in s.mapInfo && s.vRandom[q] in s.mapInfo;
    hide RandomOk;
  }

  // ----- times and services -----

  /** The entry of id gets new times, services and attempts. */
  function Restamped(s: Book, id: int, nTime: nat, nServices: bv64, nLastTry: int, nLastSuccess: int,
        nAttempts: int): Book
    requires id in s.mapInfo
  {
    WithInfo(s, id, s.mapInfo[id].(nTime := nTime, nServices := nServices, nLastTry := nLastTry,
                                   nLastSuccess := nLastSuccess, nAttempts := nAttempts))
  }

  lemma RestampedOk(env: Env, s: Book, id: int, nTime: nat, nServices: bv64, nLastTry: int, nLastSuccess: int,
      nAttempts: int, x: int, d: int)
    requires BookOkBut(env, s, x, d) && id in s.mapInfo
    ensures LinkedBut(env, Restamped(s, id, nTime, nServices, nLastTry, nLastSuccess, nAttempts), x, d)
    ensures BookOkBut(env, Restamped(s, id, nTime, nServices, nLastTry, nLastSuccess, nAttempts), x, d) <==>
            nLastTry >= 0 && nLastSuccess >= 0 && (s.mapInfo[id].fInTried ==> nLastSuccess != 0)
  {
    hide MapsOk, NewBucketsOk, RefsOkBut, TriedOk, CountsOk, RandomOk, StampsOk, SameEntries, Restamped;
    var s' := Restamped(s, id, nTime, nServices, nLastTry, nLastSuccess, nAttempts);
    RestampedEntries(s, id, nTime, nServices, nLastTry, nLastSuccess, nAttempts);
    RestampedStamps(s, id, nTime, nServices, nLastTry, nLastSuccess, nAttempts);
    SameEntriesOk(env, s, s'.mapInfo, s.vRandom, x, d);
  }

  lemma RestampedEntries(s: Book, id: int, nTime: nat, nServices: bv64, nLastTry: int, nLastSuccess: int,
      nAttempts: int)
    requires RandomOk(s) && id in s.mapInfo
    ensures var s' := Restamped(s, id, nTime, nServices, nLastTry, nLastSuccess, nAttempts);
      RandomOk(s') && SameEntries(s.mapInfo, s'.mapInfo) && s' == s.(mapInfo := s'.mapInfo, vRandom := s.vRandom)
  {
    var s' := Restamped(s, id, nTime, nServices, nLastTry, nLastSuccess, nAttempts);
    assert s' == s.(mapInfo := s'.mapInfo) == s.(mapInfo := s'.mapInfo, vRandom := s.vRandom);
  }

  lemma RestampedStamps(s: Book, id: int, nTime: nat, nServices: bv64, nLastTry: int, nLastSuccess: int,
      nAttempts: int)
    requires StampsOk(s) && id in s.mapInfo
    ensures StampsOk(Restamped(s, id, nTime, nServices, nLastTry, nLastSuccess, nAttempts)) <==>
            nLastTry >= 0 && nLastSuccess >= 0 && (s.mapInfo[id].fInTried ==> nLastSuccess != 0)
  {
    var m := Restamped(s, id, nTime, nServices, nLastTry, nLastSuccess, nAttempts).mapInfo;
    assert id in m;
    forall i | i in m && i != id ensures i in s.mapInfo && m[i] == s.mapInfo[i] { }
  }

  // ----- leaving the book -----

  /** The entry at the end of vRandom is popped and forgotten. */
  function Popped(s: Book, id: int): Book
    requires id in s.mapInfo && s.vRandom != []
  {
    s.(vRandom := s.vRandom[..|s.vRandom| - 1], mapAddr := s.mapAddr - {s.mapInfo[id].ip},
        mapInfo := s.mapInfo - {id}, nNew := s.nNew - 1)
  }

  /** The entry of id is deleted: it is swapped to the end of vRandom and popped there. */
  function Erased(s: Book, id: int): Book
    requires RandomOk(s) && id in s.mapInfo
  {
    Popped(SwappedRandom(s, s.mapInfo[id].nRandomPos, |s.vRandom| - 1), id)
  }

  /** The entry of id loses its place in "new" bucket b, and is deleted if that was its last one. */
  function Dropped(s: Book, b: nat, id: int): Book
    requires RandomOk(s) && id in s.mapInfo && b < |s.vvNew|
  {
    var info := s.mapInfo[id];
    var s1 := WithInfo(s, id, info.(nRefCount := info.nRefCount - 1));
    var s2 := if info.nRefCount == 1 then Erased(s1, id) else s1;
    s2.(vvNew := s.vvNew[b := s.vvNew[b] - {id}])
  }

  lemma SwappedEntries(s: Book, p: nat, q: nat)
    requires RandomOk(s) && p < |s.vRandom| && q < |s.vRandom|
    ensures SameEntries(s.mapInfo, SwappedRandom(s, p, q).mapInfo)
  {
  }

  lemma SwappedMapsRandom(s: Book, p: nat, q: nat)
    requires MapsOk(s) && RandomOk(s) && p < |s.vRandom| && q < |s.vRandom|
    ensures var s' := SwappedRandom(s, p, q);
            && MapsOk(s') && RandomOk(s') && SameEntries(s.mapInfo, s'.mapInfo)
            && s'.vRandom[q] == s.vRandom[p] && |s'.vRandom| == |s.vRandom|
  {
    hide MapsOk, SameEntries, RandomOk, SwappedRandom;
    SwappedEntries(s, p, q);
    ExchangeInRandom(s, p, q);
    SwappedFields(s, p, q);
    SameMaps(s, SwappedRandom(s, p, q));
  }

  lemma SwappedFields(s: Book, p: nat, q: nat)
    requires RandomOk(s) && p < |s.vRandom| && q < |s.vRandom|
    ensures var s' := SwappedRandom(s, p, q);
      && s' == s.(mapInfo := s'.mapInfo, vRandom := s'.vRandom)
      && s'.vRandom[q] == s.vRandom[p] && |s'.vRandom| == |s.vRandom|
  {
  }

  lemma PoppedMapsRandom(s: Book, id: int)
    requires MapsOk(s) && RandomOk(s) && id in s.mapInfo && s.vRandom != [] && s.vRandom[|s.vRandom| - 1] == id
    ensures MapsOk(Popped(s, id)) && RandomOk(Popped(s, id))
  {
    var last := |s.vRandom| - 1;
    forall p | 0 <= p < last ensures s.vRandom[p] != id {
      assert s.mapInfo[s.vRandom[p]].nRandomPos == p;
    }
  }

  lemma ErasedMapsRandom(s: Book, id: int)
    requires MapsOk(s) && RandomOk(s) && id in s.mapInfo
    ensures MapsOk(Erased(s, id)) && RandomOk(Erased(s, id))
    ensures SameEntries(s.mapInfo - {id}, Erased(s, id).mapInfo)
    ensures |Erased(s, id).vRandom| == |s.vRandom| - 1
  {
    hide MapsOk, RandomOk, SameEntries;
    RandomBounds(s, id);
    var p, last := s.mapInfo[id].nRandomPos, |s.vRandom| - 1;
    SwappedMapsRandom(s, p, last);
    PoppedMapsRandom(SwappedRandom(s, p, last), id);
    SameWithout(s.mapInfo, SwappedRandom(s, p, last).mapInfo, id);
  }

  lemma RandomBounds(s: Book, id: int)
    requires RandomOk(s) && id in s.mapInfo
    ensures 0 <= s.mapInfo[id].nRandomPos < |s.vRandom| && s.vRandom[s.mapInfo[id].nRandomPos] == id
  {
  }

  lemma SwappedKeeps(s: Book, p: nat, q: nat, id: int)
    requires RandomOk(s) && p < |s.vRandom| && q < |s.vRandom|
    ensures var s' := SwappedRandom(s, p, q);
            && (id in s.mapInfo <==> id in s'.mapInfo) && |s'.vRandom| == |s.vRandom|
            && (id in s.mapInfo ==> s'.mapInfo[id].ip == s.mapInfo[id].ip)
  {
  }

  lemma RefFieldRandom(s: Book, id: int, n: int)
    requires RandomOk(s) && id in s.mapInfo
    ensures RandomOk(WithInfo(s, id, s.mapInfo[id].(nRefCount := n)))
  {
  }

  lemma SameWithout(m: map<int, AddrInfo>, m': map<int, AddrInfo>, id: int)
    requires SameEntries(m, m')
    ensures SameEntries(m - {id}, m' - {id}) && (id in m <==> id in m')
  {
  }

  /** Dropping a place in one bucket changes no other entry's count. */
  lemma DropCounts(vv: seq<set<int>>, b: nat, id: int)
    requires b < |vv| && id in vv[b]
    ensures forall i :: CountIn(vv[b := vv[b] - {id}], i) == CountIn(vv, i) - (if i == id then 1 else 0)
  {
    forall i ensures CountIn(vv[b := vv[b] - {id}], i) == CountIn(vv, i) - (if i == id then 1 else 0) {
      CountOf(vv, i, b, vv[b] - {id});
    }
  }

  lemma TriedWithout(env: Env, s: Book, s': Book, id: int)
    requires TriedOk(env, s) && id in s.mapInfo && !s.mapInfo[id].fInTried
    requires s'.vvTried == s.vvTried && s'.nKey == s.nKey && SameEntries(s.mapInfo - {id}, s'.mapInfo)
    ensures TriedOk(env, s')
  {
    assert forall i :: i in s'.mapInfo ==>
        TriedBucket(env, s.nKey, s'.mapInfo[i]) == TriedBucket(env, s.nKey, s.mapInfo[i]);
  }

  lemma CountsWithout(s: Book, m: map<int, AddrInfo>, id: int)
    requires CountsOk(s) && id in s.mapInfo && !s.mapInfo[id].fInTried && SameEntries(s.mapInfo - {id}, m)
    ensures |TriedIds(m)| == s.nTried && |NewIds(m)| == s.nNew - 1
  {
    SameIds(s.mapInfo - {id}, m);
    assert TriedIds(s.mapInfo - {id}) == TriedIds(s.mapInfo);
    assert NewIds(s.mapInfo - {id}) == NewIds(s.mapInfo) - {id};
  }

  lemma DroppedOk(env: Env, s: Book, b: nat, id: int, x: int, d: int)
    requires BookOkBut(env, s, x, d) && b < |s.vvNew| && id in s.vvNew[b] && id != x
    ensures BookOkBut(env, Dropped(s, b, id), x, d)
    ensures Dropped(s, b, id).vvNew == s.vvNew[b := s.vvNew[b] - {id}]
    ensures forall i :: i in s.mapInfo && i != id ==> i in Dropped(s, b, id).mapInfo
  {
    var info := s.mapInfo[id];
    DropCounts(s.vvNew, b, id);
    if info.nRefCount == 1 {
      DropLastPlace(env, s, b, id, x, d);
    } else {
      DropOnePlace(env, s, b, id, x, d);
    }
  }

  lemma DropOnePlace(env: Env, s: Book, b: nat, id: int, x: int, d: int)
    requires BookOkBut(env, s, x, d) && b < |s.vvNew| && id in s.vvNew[b] && id != x && s.mapInfo[id].nRefCount != 1
    requires forall i :: CountIn(s.vvNew[b := s.vvNew[b] - {id}], i) == CountIn(s.vvNew, i) - (if i == id then 1 else 0)
    ensures BookOkBut(env, Dropped(s, b, id), x, d)
  {
    var n := s.mapInfo[id].nRefCount - 1;
    var s1 := WithInfo(s, id, s.mapInfo[id].(nRefCount := n));
    assert Dropped(s, b, id) == s1.(vvNew := s.vvNew[b := s.vvNew[b] - {id}]);
    hide MapsOk, RandomOk, NewBucketsOk, RefsOkBut, TriedOk, CountsOk, StampsOk, Dropped, WithInfo;
    RefFieldOk(env, s, id, n);
    SamePlacesKept(env, s1, s.vvNew[b := s.vvNew[b] - {id}]);
    OneFewer(s, b, id, x, d);
  }

  /** Everything but the "new" buckets is about other fields. */
  lemma SamePlacesKept(env: Env, s: Book, vv: seq<set<int>>)
    ensures var s' := s.(vvNew := vv);
      && (MapsOk(s) ==> MapsOk(s')) && (RandomOk(s) ==> RandomOk(s')) && (StampsOk(s) ==> StampsOk(s'))
      && (CountsOk(s) ==> CountsOk(s')) && (TriedOk(env, s) ==> TriedOk(env, s'))
  {
  }

  lemma OneFewer(s: Book, b: nat, id: int, x: int, d: int)
    requires NewBucketsOk(s) && RefsOkBut(s, x, d) && b < |s.vvNew| && id in s.vvNew[b] && id != x
    requires s.mapInfo[id].nRefCount != 1
    requires forall i :: CountIn(s.vvNew[b := s.vvNew[b] - {id}], i) == CountIn(s.vvNew, i) - (if i == id then 1 else 0)
    ensures var s1 := WithInfo(s, id, s.mapInfo[id].(nRefCount := s.mapInfo[id].nRefCount - 1));
            var s' := s1.(vvNew := s.vvNew[b := s.vvNew[b] - {id}]);
            NewBucketsOk(s') && RefsOkBut(s', x, d)
  {
  }

  lemma DropLastPlace(env: Env, s: Book, b: nat, id: int, x: int, d: int)
    requires BookOkBut(env, s, x, d) && b < |s.vvNew| && id in s.vvNew[b] && id != x && s.mapInfo[id].nRefCount == 1
    requires forall i :: CountIn(s.vvNew[b := s.vvNew[b] - {id}], i) == CountIn(s.vvNew, i) - (if i == id then 1 else 0)
    ensures BookOkBut(env, Dropped(s, b, id), x, d)
  {
    var s1 := WithInfo(s, id, s.mapInfo[id].(nRefCount := 0));
    var s' := Dropped(s, b, id);
    hide TriedOk, MapsOk, RandomOk, NewBucketsOk, RefsOkBut, StampsOk, SameEntries, Erased, CountsOk, CountIn, Dropped,
        WithInfo;
    WithoutRefs(s, id);
    OnePlace(s, id, x, d);
    DroppedLast(s, b, id);
    ErasedMapsRandom(s1, id);
    ErasedFields(s1, id);
    TriedWithout(env, s, s', id);
    CountsWithout(s, s'.mapInfo, id);
    BucketsWithout(s, s', b, id);
    RefsWithout(s, s', id, x, d);
    StampsWithout(s, s1, id);
    OnlyNewBuckets(Erased(s1, id), s');
  }

  lemma DroppedLast(s: Book, b: nat, id: int)
    requires RandomOk(s) && id in s.mapInfo && b < |s.vvNew| && s.mapInfo[id].nRefCount == 1
    requires RandomOk(WithInfo(s, id, s.mapInfo[id].(nRefCount := 0)))
    ensures var s1 := WithInfo(s, id, s.mapInfo[id].(nRefCount := 0));
      && Dropped(s, b, id) == Erased(s1, id).(vvNew := s.vvNew[b := s.vvNew[b] - {id}])
      && s1.mapInfo - {id} == s.mapInfo - {id} && id in s1.mapInfo && s1.vvNew == s.vvNew && s1.vvTried == s.vvTried
      && s1 == s.(mapInfo := s1.mapInfo)
  {
    hide Erased, RandomOk;
  }

  lemma ErasedFields(s: Book, id: int)
    requires RandomOk(s) && id in s.mapInfo
    ensures var s' := Erased(s, id);
      s'.nKey == s.nKey && s'.nIdCount == s.nIdCount && s'.nTried == s.nTried && s'.nNew == s.nNew - 1
          && s'.vvTried == s.vvTried && s'.vvNew == s.vvNew
  {
  }

  lemma OnlyNewBuckets(s: Book, s': Book)
    requires s' == s.(vvNew := s'.vvNew)
    ensures (MapsOk(s) ==> MapsOk(s')) && (RandomOk(s) ==> RandomOk(s')) && (StampsOk(s) ==> StampsOk(s'))
  {
  }

  lemma WithoutRefs(s: Book, id: int)
    requires MapsOk(s) && RandomOk(s) && id in s.mapInfo
    ensures var s1 := WithInfo(s, id, s.mapInfo[id].(nRefCount := 0)); MapsOk(s1) && RandomOk(s1)
  {
    var s1 := WithInfo(s, id, s.mapInfo[id].(nRefCount := 0));
    assert SameIndexes(s, s1) by { hide MapsOk, RandomOk; }
    hide WithInfo;
    SameIndexesOk(s, s1);
  }

  lemma OnePlace(s: Book, id: int, x: int, d: int)
    requires RefsOkBut(s, x, d) && id in s.mapInfo && id != x && s.mapInfo[id].nRefCount == 1
    ensures CountIn(s.vvNew, id) == 1 && !s.mapInfo[id].fInTried
  {
  }

  lemma BucketsWithout(s: Book, s': Book, b: nat, id: int)
    requires NewBucketsOk(s) && b < |s.vvNew| && id in s.vvNew[b] && SameEntries(s.mapInfo - {id}, s'.mapInfo)
    requires s'.vvNew == s.vvNew[b := s.vvNew[b] - {id}] && CountIn(s'.vvNew, id) == 0
    ensures NewBucketsOk(s')
  {
    hide CountIn;
    CountZero(s'.vvNew, id);
    forall c, i | 0 <= c < |s'.vvNew| && i in s'.vvNew[c] ensures i in s'.mapInfo && !s'.mapInfo[i].fInTried {
      assert i in s.vvNew[c];
      assert i in s.mapInfo - {id};
    }
    hide SameEntries;
  }

  lemma RefsWithout(s: Book, s': Book, id: int, x: int, d: int)
    requires RefsOkBut(s, x, d) && SameEntries(s.mapInfo - {id}, s'.mapInfo)
    requires forall i :: CountIn(s'.vvNew, i) == CountIn(s.vvNew, i) - (if i == id then 1 else 0)
    ensures RefsOkBut(s', x, d)
  {
    forall i | i in s'.mapInfo ensures i in s.mapInfo && i != id && CountIn(s'.vvNew, i) == CountIn(s.vvNew, i) {
      assert i in s.mapInfo - {id};
    }
  }

  lemma StampsWithout(s: Book, s1: Book, id: int)
    requires StampsOk(s) && RandomOk(s1) && id in s.mapInfo && id in s1.mapInfo
        && s1.mapInfo == s.mapInfo[id := s1.mapInfo[id]]
    ensures StampsOk(Erased(s1, id))
  {
  }

  // ----- entering the book -----

  /** Create, with the time penalty and the count that Add_ applies right after it. */
  function Created(s: Book, addr: Address, source: NetAddr, nTime: nat): Book {
    var id := s.nIdCount;
    s.(nIdCount := id + 1,
       mapInfo := s.mapInfo[id := AddrInfo(addr.ip, addr.port, addr.nServices, nTime, source, 0, 0, 0, 0, false,
           |s.vRandom|)],
       mapAddr := s.mapAddr[addr.ip := id],
       vRandom := s.vRandom + [id],
       nNew := s.nNew + 1)
  }

  lemma CreatedOk(env: Env, s: Book, addr: Address, source: NetAddr, nTime: nat)
    requires BookOk(env, s) && addr.ip !in s.mapAddr
    ensures BookOkBut(env, Created(s, addr, source, nTime), s.nIdCount, 0)
    ensures CountIn(s.vvNew, s.nIdCount) == 0
  {
    hide MapsOk, RandomOk, NewBucketsOk, RefsOkBut, TriedOk, CountsOk, StampsOk, Created;
    NextIsNew(s);
    CreatedMaps(s, addr, source, nTime);
    CreatedRandom(s, addr, source, nTime);
    CreatedBuckets(s, addr, source, nTime);
    CreatedTried(env, s, addr, source, nTime);
    CreatedCounts(s, addr, source, nTime);
  }

  lemma NextIsNew(s: Book)
    requires MapsOk(s)
    ensures s.nIdCount !in s.mapInfo && forall i :: i in s.mapInfo ==> i != -1
  {
  }

  lemma CreatedMaps(s: Book, addr: Address, source: NetAddr, nTime: nat)
    requires MapsOk(s) && StampsOk(s) && addr.ip !in s.mapAddr
    ensures MapsOk(Created(s, addr, source, nTime)) && StampsOk(Created(s, addr, source, nTime))
  {
    var s', id := Created(s, addr, source, nTime), s.nIdCount;
    forall a | a in s'.mapAddr ensures s'.mapAddr[a] in s'.mapInfo && s'.mapInfo[s'.mapAddr[a]].ip == a {
      assert a != addr.ip ==> s.mapAddr[a] in s.mapInfo;
    }
    hide StampsOk;
  }

  lemma CreatedBuckets(s: Book, addr: Address, source: NetAddr, nTime: nat)
    requires NewBucketsOk(s) && RefsOkBut(s, -1, 0) && s.nIdCount !in s.mapInfo
    requires forall i :: i in s.mapInfo ==> i != -1
    ensures var s' := Created(s, addr, source, nTime); NewBucketsOk(s') && RefsOkBut(s', s.nIdCount, 0)
    ensures CountIn(s.vvNew, s.nIdCount) == 0
  {
    CountZero(s.vvNew, s.nIdCount);
  }

  lemma CreatedCounts(s: Book, addr: Address, source: NetAddr, nTime: nat)
    requires CountsOk(s) && s.nIdCount !in s.mapInfo
    ensures CountsOk(Created(s, addr, source, nTime))
  {
    var s', id := Created(s, addr, source, nTime), s.nIdCount;
    assert TriedIds(s'.mapInfo) == TriedIds(s.mapInfo);
    assert NewIds(s'.mapInfo) == NewIds(s.mapInfo) + {id};
  }

  lemma CreatedRandom(s: Book, addr: Address, source: NetAddr, nTime: nat)
    requires RandomOk(s) && s.nIdCount !in s.mapInfo
    ensures RandomOk(Created(s, addr, source, nTime))
  {
  }

  lemma CreatedTried(env: Env, s: Book, addr: Address, source: NetAddr, nTime: nat)
    requires TriedOk(env, s) && s.nIdCount !in s.mapInfo
    ensures TriedOk(env, Created(s, addr, source, nTime))
  {
  }

  /** One reference more, before the id is put into the bucket. */
  function Referenced(s: Book, id: int): Book
    requires id in s.mapInfo
  {
    WithInfo(s, id, s.mapInfo[id].(nRefCount := s.mapInfo[id].nRefCount + 1))
  }

  lemma ReferencedOk(env: Env, s: Book, id: int)
    requires BookOkBut(env, s, id, 0) && id in s.mapInfo && !s.mapInfo[id].fInTried
    requires s.mapInfo[id].nRefCount < NEW_BUCKETS_PER_ADDRESS
    ensures BookOkBut(env, Referenced(s, id), id, 1)
  {
    hide MapsOk, RandomOk, NewBucketsOk, TriedOk, CountsOk, StampsOk;
    RefFieldOk(env, s, id, s.mapInfo[id].nRefCount + 1);
  }

  /** The invariant clauses that do not mention reference counts survive a new one. */
  lemma RefFieldOk(env: Env, s: Book, id: int, n: int)
    requires MapsOk(s) && RandomOk(s) && NewBucketsOk(s) && TriedOk(env, s) && CountsOk(s) && StampsOk(s)
    requires id in s.mapInfo
    ensures var s' := WithInfo(s, id, s.mapInfo[id].(nRefCount := n));
            MapsOk(s') && RandomOk(s') && NewBucketsOk(s') && TriedOk(env, s') && CountsOk(s') && StampsOk(s')
  {
    var s' := WithInfo(s, id, s.mapInfo[id].(nRefCount := n));
    RefFieldIds(s, id, n);
    RefFieldTried(env, s, id, n);
    hide TriedOk, TriedIds, NewIds;
  }

  lemma RefFieldIds(s: Book, id: int, n: int)
    requires id in s.mapInfo
    ensures var m := WithInfo(s, id, s.mapInfo[id].(nRefCount := n)).mapInfo;
      TriedIds(m) == TriedIds(s.mapInfo) && NewIds(m) == NewIds(s.mapInfo)
  {
  }

  lemma RefFieldTried(env: Env, s: Book, id: int, n: int)
    requires TriedOk(env, s) && id in s.mapInfo
    ensures TriedOk(env, WithInfo(s, id, s.mapInfo[id].(nRefCount := n)))
  {
    var s' := WithInfo(s, id, s.mapInfo[id].(nRefCount := n));
    assert forall i :: i in s'.mapInfo ==>
        TriedBucket(env, s.nKey, s'.mapInfo[i]) == TriedBucket(env, s.nKey, s.mapInfo[i]);
  }

  function Inserted(s: Book, b: nat, id: int): Book
    requires b < |s.vvNew|
  {
    s.(vvNew := s.vvNew[b := s.vvNew[b] + {id}])
  }

  lemma InsertedOk(env: Env, s: Book, b: nat, id: int)
    requires BookOkBut(env, s, id, 1) && b < |s.vvNew| && id in s.mapInfo && !s.mapInfo[id].fInTried
    requires id !in s.vvNew[b] && |s.vvNew[b]| < NEW_BUCKET_SIZE
    ensures BookOk(env, Inserted(s, b, id))
  {
    hide TriedOk, RandomOk, MapsOk;
    var s' := Inserted(s, b, id);
    forall i ensures CountIn(s'.vvNew, i) == CountIn(s.vvNew, i) + (if i == id then 1 else 0) {
      CountOf(s.vvNew, i, b, s.vvNew[b] + {id});
    }
    InsertedTried(env, s, b, id);
    InsertedMaps(s, b, id);
  }

  lemma InsertedTried(env: Env, s: Book, b: nat, id: int)
    requires TriedOk(env, s) && b < |s.vvNew|
    ensures TriedOk(env, Inserted(s, b, id))
  {
  }

  lemma InsertedMaps(s: Book, b: nat, id: int)
    requires b < |s.vvNew|
    ensures MapsOk(s) ==> MapsOk(Inserted(s, b, id))
    ensures RandomOk(s) ==> RandomOk(Inserted(s, b, id))
  {
  }

  /** An entry that is already in the book may be treated as the one being added. */
  lemma AnyEntryMayBeAdded(env: Env, s: Book, id: int)
    requires BookOk(env, s)
    ensures BookOkBut(env, s, id, 0)
  {
  }

  // ----- from "new" to "tried" -----

  function Without(vv: seq<set<int>>, id: int): (w: seq<set<int>>)
    ensures |w| == |vv| && forall b :: 0 <= b < |vv| ==> w[b] == vv[b] - {id}
  {
    seq(|vv|, b requires 0 <= b < |vv| => vv[b] - {id})
  }

  lemma {:induction false} WithoutCounts(vv: seq<set<int>>, id: int, i: int)
    ensures CountIn(Without(vv, id), i) == if i == id then 0 else CountIn(vv, i)
  {
    if vv == [] {
    } else {
      WithoutCounts(vv[1..], id, i);
      assert Without(vv, id)[1..] == Without(vv[1..], id);
    }
  }

  /** The entry of id leaves all its "new" buckets and goes to the end of its "tried" bucket k. */
  function Promoted(s: Book, id: int, k: nat): Book
    requires id in s.mapInfo && k < |s.vvTried|
  {
    s.(vvNew := Without(s.vvNew, id), nNew := s.nNew - 1,
       vvTried := s.vvTried[k := s.vvTried[k] + [id]], nTried := s.nTried + 1,
       mapInfo := s.mapInfo[id := s.mapInfo[id].(nRefCount := 0, fInTried := true)])
  }

  lemma PromotedOk(env: Env, s: Book, id: int, k: nat)
    requires Linked(env, s) && id in s.mapInfo && !s.mapInfo[id].fInTried
    requires k == TriedBucket(env, s.nKey, s.mapInfo[id]) && |s.vvTried| == TRIED_BUCKET_COUNT
    requires |s.vvTried[k]| < TRIED_BUCKET_SIZE
    ensures Linked(env, Promoted(s, id, k))
    ensures StampsOk(s) && s.mapInfo[id].nLastSuccess != 0 ==> StampsOk(Promoted(s, id, k))
  {
    hide TriedOk, RandomOk, MapsOk, NewBucketsOk, RefsOkBut;
    var s' := Promoted(s, id, k);
    assert TriedIds(s'.mapInfo) == TriedIds(s.mapInfo) + {id};
    assert NewIds(s'.mapInfo) == NewIds(s.mapInfo) - {id};
    assert id !in TriedIds(s.mapInfo) && id in NewIds(s.mapInfo);
    hide TriedIds, NewIds;
    PromotedMaps(s, id, k);
    PromotedNew(s, id, k);
    PromotedTried(env, s, id, k);
  }

  lemma PromotedMaps(s: Book, id: int, k: nat)
    requires MapsOk(s) && RandomOk(s) && id in s.mapInfo && k < |s.vvTried|
    ensures MapsOk(Promoted(s, id, k)) && RandomOk(Promoted(s, id, k))
  {
    var s' := Promoted(s, id, k);
    assert SameIndexes(s, s') by {
      hide MapsOk, RandomOk, Without;
      assert s'.mapAddr == s.mapAddr && s'.vRandom == s.vRandom && s'.nIdCount == s.nIdCount;
    }
    hide Promoted;
    SameIndexesOk(s, s');
  }

  lemma PromotedNew(s: Book, id: int, k: nat)
    requires NewBucketsOk(s) && RefsOkBut(s, -1, 0) && id in s.mapInfo && k < |s.vvTried|
    ensures NewBucketsOk(Promoted(s, id, k)) && RefsOkBut(Promoted(s, id, k), -1, 0)
  {
    forall i ensures CountIn(Without(s.vvNew, id), i) == if i == id then 0 else CountIn(s.vvNew, i) {
      WithoutCounts(s.vvNew, id, i);
    }
    forall b | 0 <= b < |s.vvNew| ensures |Without(s.vvNew, id)[b]| <= NEW_BUCKET_SIZE {
      SubsetSize(s.vvNew[b] - {id}, s.vvNew[b]);
    }
  }

  lemma SubsetSize(a: set<int>, b: set<int>)
    requires a <= b
    ensures |a| <= |b|
  {
    assert b == a + (b - a);
  }

  lemma PromotedTried(env: Env, s: Book, id: int, k: nat)
    requires TriedOk(env, s) && id in s.mapInfo && !s.mapInfo[id].fInTried
    requires k == TriedBucket(env, s.nKey, s.mapInfo[id]) && |s.vvTried| == TRIED_BUCKET_COUNT
    requires |s.vvTried[k]| < TRIED_BUCKET_SIZE
    ensures TriedOk(env, Promoted(s, id, k))
  {
    var s' := Promoted(s, id, k);
    assert forall i :: i in s.mapInfo ==>
        TriedBucket(env, s.nKey, s'.mapInfo[i]) == TriedBucket(env, s.nKey, s.mapInfo[i]);
    forall i | i in s'.mapInfo && s'.mapInfo[i].fInTried
      ensures i in s'.vvTried[TriedBucket(env, s.nKey, s'.mapInfo[i])]
    {
      if i == id { assert s'.vvTried[k][|s.vvTried[k]|] == id; }
      else { assert i in s.vvTried[TriedBucket(env, s.nKey, s.mapInfo[i])]; }
    }
  }

  /** One exchange inside "tried" bucket k, as SelectTried makes it. */
  function SwappedTried(s: Book, k: nat, p: nat, q: nat): Book
    requires k < |s.vvTried| && p < |s.vvTried[k]| && q < |s.vvTried[k]|
  {
    s.(vvTried := s.vvTried[k := s.vvTried[k][p := s.vvTried[k][q]][q := s.vvTried[k][p]]])
  }

  lemma SwappedTriedBuckets(env: Env, s: Book, k: nat, p: nat, q: nat)
    requires TriedOk(env, s) && k < |s.vvTried| && p < |s.vvTried[k]| && q < |s.vvTried[k]|
    ensures TriedOk(env, SwappedTried(s, k, p, q))
  {
    var v, v' := s.vvTried[k], SwappedTried(s, k, p, q).vvTried[k];
    assert v'[q] == v[p] && v'[p] == v[q];
    forall id | id in v ensures id in v' {
      var j :| 0 <= j < |v| && v[j] == id;
      assert j != p && j != q ==> v'[j] == id;
    }
  }

  /** What SelectTried draws from a bucket of n entries: at step i any position from i on. */
  predicate Draws(drawn: seq<nat>, n: nat) { forall i :: 0 <= i < |drawn| ==> i <= drawn[i] < n }

  /** The bucket after exchanging position i and the i-th position drawn, for each i in turn. */
  function Shuffled(v: seq<int>, drawn: seq<nat>): (w: seq<int>)
    requires Draws(drawn, |v|)
    ensures |w| == |v|
  {
    if drawn == [] then v
    else
      var i := |drawn| - 1;
      var w := Shuffled(v, drawn[..i]);
      w[drawn[i] := w[i]][i := w[drawn[i]]]
  }

  lemma ShuffledByNone(v: seq<int>)
    ensures Draws([], |v|) && Shuffled(v, []) == v
  {
  }

  lemma ShuffledNext(v: seq<int>, drawn: seq<nat>, nPos: nat)
    requires Draws(drawn, |v|) && |drawn| <= nPos < |v|
    ensures var i, w := |drawn|, Shuffled(v, drawn);
      Draws(drawn + [nPos], |v|) && Shuffled(v, drawn + [nPos]) == w[nPos := w[i]][i := w[nPos]]
  {
    assert (drawn + [nPos])[..|drawn|] == drawn;
  }

  lemma {:induction false} ShuffledIsPermutation(v: seq<int>, drawn: seq<nat>)
    requires Draws(drawn, |v|)
    ensures multiset(Shuffled(v, drawn)) == multiset(v)
  {
    if drawn != [] {
      var i := |drawn| - 1;
      ShuffledIsPermutation(v, drawn[..i]);
      SwapIsPermutation(Shuffled(v, drawn[..i]), drawn[i], i);
    }
  }

  lemma SwapIsPermutation(v: seq<int>, p: nat, q: nat)
    requires p < |v| && q < |v|
    ensures multiset(v[p := v[q]][q := v[p]]) == multiset(v)
  {
  }

  predicate AllKnown(m: map<int, AddrInfo>, w: seq<int>) { forall i :: 0 <= i < |w| ==> w[i] in m }

  /** The first of the first n entries of w with the oldest success. */
  function OldestAt(m: map<int, AddrInfo>, w: seq<int>, n: nat): (k: nat)
    requires 0 < n <= |w| && AllKnown(m, w)
    ensures k < n && forall i :: 0 <= i < n ==> m[w[k]].nLastSuccess <= m[w[i]].nLastSuccess
  {
    if n == 1 then 0
    else
      var k := OldestAt(m, w, n - 1);
      if m[w[n - 1]].nLastSuccess < m[w[k]].nLastSuccess then n - 1 else k
  }

  lemma {:induction false} OldestOfPrefix(m: map<int, AddrInfo>, w: seq<int>, w': seq<int>, n: nat)
    requires 0 < n <= |w| && n <= |w'| && AllKnown(m, w) && AllKnown(m, w')
    requires forall i :: 0 <= i < n ==> w[i] == w'[i]
    ensures OldestAt(m, w, n) == OldestAt(m, w', n)
  {
    if n > 1 { OldestOfPrefix(m, w, w', n - 1); }
  }

  /** SelectTried returns the position drawn when it met the oldest of the entries it inspects. */
  function SelectedPos(m: map<int, AddrInfo>, v: seq<int>, drawn: seq<nat>): (pos: nat)
    requires drawn != [] && Draws(drawn, |v|) && AllKnown(m, Shuffled(v, drawn))
    ensures pos < |v|
  {
    DrawsWithin(drawn, |v|);
    drawn[OldestAt(m, Shuffled(v, drawn), |drawn|)]
  }

  lemma DrawsWithin(drawn: seq<nat>, n: nat)
    requires Draws(drawn, n)
    ensures |drawn| <= n
  {
    if drawn != [] { assert |drawn| - 1 <= drawn[|drawn| - 1] < n; }
  }

  /** The entry selected is no newer than any of those inspected. */
  predicate SelectsOldest(m: map<int, AddrInfo>, v: seq<int>, drawn: seq<nat>)
    requires drawn != [] && Draws(drawn, |v|) && AllKnown(m, v)
  {
    DrawsWithin(drawn, |v|);
    ShuffledKnown(m, v, drawn);
    var w := Shuffled(v, drawn);
    forall i :: 0 <= i < |drawn| ==> m[w[SelectedPos(m, v, drawn)]].nLastSuccess <= m[w[i]].nLastSuccess
  }

  lemma ShuffledKnown(m: map<int, AddrInfo>, v: seq<int>, drawn: seq<nat>)
    requires Draws(drawn, |v|) && AllKnown(m, v)
    ensures AllKnown(m, Shuffled(v, drawn))
  {
    ShuffledIsPermutation(v, drawn);
    var w := Shuffled(v, drawn);
    forall i | 0 <= i < |w| ensures w[i] in m {
      assert w[i] in multiset(w) && w[i] in multiset(v);
    }
  }

  /** The draws that SelectTried makes from a bucket of n entries: four, or one for each entry if there are fewer. */
  predicate LegalDraws(drawn: seq<nat>, n: nat) {
    |drawn| == (if n < TRIED_ENTRIES_INSPECT_ON_EVICT then n else TRIED_ENTRIES_INSPECT_ON_EVICT) && Draws(drawn, n)
  }

  predicate AllAsOld(m: map<int, AddrInfo>, v: seq<int>)
    requires AllKnown(m, v)
  {
    forall i, j :: 0 <= i < |v| && 0 <= j < |v| ==> m[v[i]].nLastSuccess == m[v[j]].nLastSuccess
  }

  /** The buckets from which SelectTried can only select the oldest. */
  predicate AlwaysOldest(m: map<int, AddrInfo>, v: seq<int>)
    requires AllKnown(m, v)
  {
    AllAsOld(m, v) || (|v| == 2 && m[v[0]].nLastSuccess <= m[v[1]].nLastSuccess)
  }

  lemma OldestIsSure(m: map<int, AddrInfo>, v: seq<int>, drawn: seq<nat>)
    requires v != [] && AllKnown(m, v) && AlwaysOldest(m, v) && LegalDraws(drawn, |v|)
    ensures SelectsOldest(m, v, drawn)
  {
    ShuffledKnown(m, v, drawn);
    if AllAsOld(m, v) {
      ShuffledIsPermutation(v, drawn);
      forall x, y | x in Shuffled(v, drawn) && y in Shuffled(v, drawn)
        ensures m[x].nLastSuccess == m[y].nLastSuccess
      {
        assert x in multiset(v) && y in multiset(v);
      }
      hide Shuffled, OldestAt;
    } else {
      assert drawn[1] == 1 && (drawn[0] == 0 || drawn[0] == 1);
      ShuffledTwo(v, drawn);
      hide Shuffled;
      var w := Shuffled(v, drawn);
      assert OldestAt(m, w, 1) == 0;
    }
  }

  lemma ShuffledTwo(v: seq<int>, drawn: seq<nat>)
    requires |v| == 2 && |drawn| == 2 && Draws(drawn, 2)
    ensures Shuffled(v, drawn) == if drawn[0] == 0 then v else [v[1], v[0]]
  {
    hide Shuffled;
    ShuffledByNone(v);
    ShuffledNext(v, [], drawn[0]);
    assert [] + [drawn[0]] == [drawn[0]];
    ShuffledNext(v, [drawn[0]], drawn[1]);
    assert drawn == [drawn[0]] + [drawn[1]];
  }

  /** Draws that exchange something in the first two steps and nothing in the others. */
  function TwoDraws(p: nat, q: nat, n: nat): (drawn: seq<nat>)
    requires n >= 2 && p < n && 1 <= q < n
    ensures LegalDraws(drawn, n) && |drawn| >= 2 && drawn[0] == p && drawn[1] == q
  {
    if n == 2 then [p, q] else if n == 3 then [p, q, 2] else [p, q, 2, 3]
  }

  function TwoSwaps(v: seq<int>, p: nat, q: nat): (w: seq<int>)
    requires |v| >= 2 && p < |v| && 1 <= q < |v|
    ensures |w| == |v|
  {
    var w := v[p := v[0]][0 := v[p]];
    w[q := w[1]][1 := w[q]]
  }

  lemma DrawnInPlace(v: seq<int>, drawn: seq<nat>)
    requires Draws(drawn, |v|) && |drawn| < |v|
    ensures Draws(drawn + [|drawn|], |v|) && Shuffled(v, drawn + [|drawn|]) == Shuffled(v, drawn)
  {
    ShuffledNext(v, drawn, |drawn|);
    hide Shuffled;
  }

  lemma TwoDrawsShuffle(v: seq<int>, p: nat, q: nat)
    requires |v| >= 2 && p < |v| && 1 <= q < |v|
    ensures Shuffled(v, TwoDraws(p, q, |v|)) == TwoSwaps(v, p, q)
  {
    hide Shuffled;
    TwoDrawn(v, p, q);
    if |v| > 2 {
      DrawnInPlace(v, [p, q]);
      assert [p, q] + [2] == [p, q, 2];
      if |v| > 3 {
        DrawnInPlace(v, [p, q, 2]);
        assert [p, q, 2] + [3] == [p, q, 2, 3];
      }
    }
    hide TwoSwaps;
  }

  lemma TwoDrawn(v: seq<int>, p: nat, q: nat)
    requires |v| >= 2 && p < |v| && 1 <= q < |v|
    ensures Draws([p, q], |v|) && Shuffled(v, [p, q]) == TwoSwaps(v, p, q)
  {
    hide Shuffled;
    ShuffledByNone(v);
    ShuffledNext(v, [], p);
    assert [] + [p] == [p] && [p] + [q] == [p, q];
    ShuffledNext(v, [p], q);
  }

  lemma {:induction false} OldestIsFirst(m: map<int, AddrInfo>, w: seq<int>, n: nat, k: nat)
    requires k < n <= |w| && AllKnown(m, w)
    requires forall i :: 0 <= i < n ==> m[w[k]].nLastSuccess <= m[w[i]].nLastSuccess
    requires forall i :: 0 <= i < k ==> m[w[k]].nLastSuccess < m[w[i]].nLastSuccess
    ensures OldestAt(m, w, n) == k
  {
    if n > 1 && k < n - 1 { OldestIsFirst(m, w, n - 1, k); }
  }

  predicate AtLeast(m: map<int, AddrInfo>, v: seq<int>, t: int)
    requires AllKnown(m, v)
  {
    forall i :: 0 <= i < |v| ==> t <= m[v[i]].nLastSuccess
  }

  lemma LeastOfPermutation(m: map<int, AddrInfo>, v: seq<int>, w: seq<int>, t: int)
    requires multiset(v) == multiset(w) && AllKnown(m, v) && AllKnown(m, w) && AtLeast(m, v, t)
    ensures AtLeast(m, w, t)
  {
    forall i | 0 <= i < |w| ensures t <= m[w[i]].nLastSuccess {
      assert w[i] in multiset(w) && w[i] in multiset(v);
    }
  }

  /** Two exchanges after which a newer entry stands at the position selected. */
  lemma SwapsSelect(m: map<int, AddrInfo>, v: seq<int>, p: nat, q: nat, k: nat)
    requires |v| >= 2 && p < |v| && 1 <= q < |v| && k < 2 && AllKnown(m, v)
    requires var w := TwoSwaps(v, p, q);
      && AllKnown(m, w) && AtLeast(m, v, m[w[k]].nLastSuccess)
      && (k == 1 ==> m[w[1]].nLastSuccess < m[w[0]].nLastSuccess)
      && m[w[k]].nLastSuccess < m[w[if k == 0 then p else q]].nLastSuccess
    ensures LegalDraws(TwoDraws(p, q, |v|), |v|) && !SelectsOldest(m, v, TwoDraws(p, q, |v|))
  {
    var drawn, w := TwoDraws(p, q, |v|), TwoSwaps(v, p, q);
    hide Shuffled, TwoSwaps, OldestAt, TwoDraws;
    TwoDrawsShuffle(v, p, q);
    ShuffledIsPermutation(v, drawn);
    LeastOfPermutation(m, v, w, m[w[k]].nLastSuccess);
    OldestIsFirst(m, w, |drawn|, k);
    assert SelectedPos(m, v, drawn) == drawn[k];
  }

  /** The first entry is not one of the oldest: one of these is drawn first. */
  lemma SelectFirst(m: map<int, AddrInfo>, v: seq<int>, o: nat) returns (drawn: seq<nat>)
    requires |v| >= 2 && o < |v| && AllKnown(m, v) && AtLeast(m, v, m[v[o]].nLastSuccess)
    requires m[v[o]].nLastSuccess < m[v[0]].nLastSuccess
    ensures LegalDraws(drawn, |v|) && !SelectsOldest(m, v, drawn)
  {
    drawn := TwoDraws(o, 1, |v|);
    var w := TwoSwaps(v, o, 1);
    assert w == v[o := v[0]][0 := v[o]];
    SwapsSelect(m, v, o, 1, 0);
  }

  /** The first entry is one of the oldest and the second is not: the third is drawn twice. */
  lemma SelectSecond(m: map<int, AddrInfo>, v: seq<int>) returns (drawn: seq<nat>)
    requires |v| >= 3 && AllKnown(m, v) && AtLeast(m, v, m[v[0]].nLastSuccess)
    requires m[v[0]].nLastSuccess < m[v[1]].nLastSuccess
    ensures LegalDraws(drawn, |v|) && !SelectsOldest(m, v, drawn)
  {
    drawn := TwoDraws(2, 2, |v|);
    var w := TwoSwaps(v, 2, 2);
    assert w[0] == v[2] && w[1] == v[0] && w[2] == v[1];
    assert forall i :: 3 <= i < |v| ==> w[i] == v[i];
    SwapsSelect(m, v, 2, 2, if m[v[2]].nLastSuccess > m[v[0]].nLastSuccess then 1 else 0);
  }

  /** The first two entries are of the oldest: after their exchange the first one is exchanged with a newer one. */
  lemma SelectOther(m: map<int, AddrInfo>, v: seq<int>, q: nat) returns (drawn: seq<nat>)
    requires 2 <= q < |v| && AllKnown(m, v) && AtLeast(m, v, m[v[1]].nLastSuccess)
    requires m[v[1]].nLastSuccess < m[v[q]].nLastSuccess
    ensures LegalDraws(drawn, |v|) && !SelectsOldest(m, v, drawn)
  {
    drawn := TwoDraws(1, q, |v|);
    var w := TwoSwaps(v, 1, q);
    assert w[0] == v[1] && w[1] == v[q] && w[q] == v[0];
    assert forall i :: 2 <= i < |v| && i != q ==> w[i] == v[i];
    SwapsSelect(m, v, 1, q, 0);
  }

  lemma NewerSelected(m: map<int, AddrInfo>, v: seq<int>) returns (drawn: seq<nat>)
    requires v != [] && AllKnown(m, v) && !AlwaysOldest(m, v)
    ensures LegalDraws(drawn, |v|) && !SelectsOldest(m, v, drawn)
  {
    var o := OldestAt(m, v, |v|);
    var least := m[v[o]].nLastSuccess;
    var q :| 0 <= q < |v| && m[v[q]].nLastSuccess > least;
    hide OldestAt, SelectsOldest, LegalDraws;
    if m[v[0]].nLastSuccess > least {
      drawn := SelectFirst(m, v, o);
    } else if m[v[1]].nLastSuccess > least {
      drawn := SelectSecond(m, v);
    } else {
      drawn := SelectOther(m, v, q);
    }
  }

  /** SelectTried is sure to select an entry that is no newer than any it inspects if and only if all entries of the
      bucket are equally old, or there are two of them in order. */
  lemma OldestSelectedIff(m: map<int, AddrInfo>, v: seq<int>)
    requires v != [] && AllKnown(m, v)
    ensures (forall drawn: seq<nat> :: LegalDraws(drawn, |v|) ==> SelectsOldest(m, v, drawn)) <==> AlwaysOldest(m, v)
  {
    if AlwaysOldest(m, v) {
      forall drawn: seq<nat> | LegalDraws(drawn, |v|) ensures SelectsOldest(m, v, drawn) {
        OldestIsSure(m, v, drawn);
      }
    } else {
      var drawn := NewerSelected(m, v);
      assert LegalDraws(drawn, |v|) && !SelectsOldest(m, v, drawn);
    }
  }

  /** Of two entries, the newer one is selected when the older one stands second and is drawn first. */
  lemma NewerIsSelected(m: map<int, AddrInfo>, newer: int, older: int)
    requires newer in m && older in m && m[older].nLastSuccess < m[newer].nLastSuccess
    ensures Draws([1, 1], 2) && Shuffled([newer, older], [1, 1]) == [older, newer]
    ensures Shuffled([newer, older], [1, 1])[SelectedPos(m, [newer, older], [1, 1])] == newer
  {
    var w := [older, newer];
    ShuffledTwo([newer, older], [1, 1]);
    hide Shuffled;
    assert OldestAt(m, w, 1) == 0 && OldestAt(m, w, 2) == 0;
  }

  /** The entry of id takes the place of the entry at position pos of "tried" bucket k, which goes back to a "new"
      bucket: its own if there is room, and otherwise the one that id came from. */
  function Replaced(s: Book, id: int, k: nat, pos: nat, origin: nat, own: nat): Book
    requires id in s.mapInfo && k < |s.vvTried| && pos < |s.vvTried[k]| && origin < |s.vvNew| && own < |s.vvNew|
    requires s.vvTried[k][pos] in s.mapInfo
  {
    var old_, vv := s.vvTried[k][pos], Without(s.vvNew, id);
    var target := if |vv[own]| < NEW_BUCKET_SIZE then own else origin;
    s.(vvNew := vv[target := vv[target] + {old_}],
       vvTried := s.vvTried[k := s.vvTried[k][pos := id]],
       mapInfo := s.mapInfo[old_ := s.mapInfo[old_].(nRefCount := 1, fInTried := false)]
                           [id := s.mapInfo[id].(nRefCount := 0, fInTried := true)])
  }

  lemma ReplacedOk(env: Env, s: Book, id: int, k: nat, pos: nat, origin: nat, own: nat)
    requires Linked(env, s) && id in s.mapInfo && !s.mapInfo[id].fInTried
    requires k < |s.vvTried| && k == TriedBucket(env, s.nKey, s.mapInfo[id]) && pos < |s.vvTried[k]|
    requires origin < |s.vvNew| && own < |s.vvNew| && id in s.vvNew[origin] && s.vvTried[k][pos] in s.mapInfo
    ensures Linked(env, Replaced(s, id, k, pos, origin, own))
    ensures StampsOk(s) && s.mapInfo[id].nLastSuccess != 0 ==> StampsOk(Replaced(s, id, k, pos, origin, own))
  {
    hide TriedOk, RandomOk, MapsOk, NewBucketsOk, RefsOkBut, CountsOk, StampsOk, Replaced;
    TriedEntryAt(env, s, k, pos);
    ReplacedMaps(s, id, k, pos, origin, own);
    ReplacedNew(s, id, k, pos, origin, own);
    ReplacedTried(env, s, id, k, pos, origin, own);
    ReplacedCounts(s, id, k, pos, origin, own);
  }

  lemma TriedEntryAt(env: Env, s: Book, k: nat, pos: nat)
    requires TriedOk(env, s) && k < |s.vvTried| && pos < |s.vvTried[k]|
    ensures s.vvTried[k][pos] in s.mapInfo && s.mapInfo[s.vvTried[k][pos]].fInTried
    ensures TriedBucket(env, s.nKey, s.mapInfo[s.vvTried[k][pos]]) == k
  {
    assert TriedMembers(env, s);
  }

  lemma ReplacedCounts(s: Book, id: int, k: nat, pos: nat, origin: nat, own: nat)
    requires CountsOk(s) && id in s.mapInfo && !s.mapInfo[id].fInTried
    requires k < |s.vvTried| && pos < |s.vvTried[k]| && origin < |s.vvNew| && own < |s.vvNew|
    requires s.vvTried[k][pos] in s.mapInfo && s.mapInfo[s.vvTried[k][pos]].fInTried
    ensures CountsOk(Replaced(s, id, k, pos, origin, own))
    ensures StampsOk(s) && s.mapInfo[id].nLastSuccess != 0 ==> StampsOk(Replaced(s, id, k, pos, origin, own))
  {
    var s', old_ := Replaced(s, id, k, pos, origin, own), s.vvTried[k][pos];
    var m, m' := s.mapInfo, s'.mapInfo;
    assert m' == m[old_ := m[old_].(nRefCount := 1, fInTried := false)][id := m[id].(nRefCount := 0, fInTried := true)];
    assert s'.nTried == s.nTried && s'.nNew == s.nNew && s'.vRandom == s.vRandom;
    hide Replaced, StampsOk, CountsOk;
    ReplacedIds(m, id, old_);
    ReplacedSizes(s, s', id, old_);
    ReplacedStamps(s, s', id, old_);
  }

  lemma ReplacedIds(m: map<int, AddrInfo>, id: int, old_: int)
    requires id in m && !m[id].fInTried && old_ in m && m[old_].fInTried
    ensures var m' := m[old_ := m[old_].(nRefCount := 1, fInTried := false)]
                       [id := m[id].(nRefCount := 0, fInTried := true)];
      TriedIds(m') == TriedIds(m) - {old_} + {id} && NewIds(m') == NewIds(m) - {id} + {old_}
  {
  }

  lemma ReplacedSizes(s: Book, s': Book, id: int, old_: int)
    requires CountsOk(s) && s'.nTried == s.nTried && s'.nNew == s.nNew && s'.vRandom == s.vRandom
    requires old_ in TriedIds(s.mapInfo) && id in NewIds(s.mapInfo) && id !in TriedIds(s.mapInfo)
    requires old_ !in NewIds(s.mapInfo)
    requires TriedIds(s'.mapInfo) == TriedIds(s.mapInfo) - {old_} + {id}
    requires NewIds(s'.mapInfo) == NewIds(s.mapInfo) - {id} + {old_}
    ensures CountsOk(s')
  {
    hide TriedIds, NewIds;
  }

  lemma ReplacedStamps(s: Book, s': Book, id: int, old_: int)
    requires id in s.mapInfo && old_ in s.mapInfo
    requires s'.mapInfo == s.mapInfo[old_ := s.mapInfo[old_].(nRefCount := 1, fInTried := false)]
                                    [id := s.mapInfo[id].(nRefCount := 0, fInTried := true)]
    ensures StampsOk(s) && s.mapInfo[id].nLastSuccess != 0 ==> StampsOk(s')
  {
  }

  lemma ReplacedMaps(s: Book, id: int, k: nat, pos: nat, origin: nat, own: nat)
    requires MapsOk(s) && RandomOk(s) && id in s.mapInfo && k < |s.vvTried| && pos < |s.vvTried[k]|
    requires origin < |s.vvNew| && own < |s.vvNew| && s.vvTried[k][pos] in s.mapInfo && s.vvTried[k][pos] != id
    ensures MapsOk(Replaced(s, id, k, pos, origin, own)) && RandomOk(Replaced(s, id, k, pos, origin, own))
  {
    var s' := Replaced(s, id, k, pos, origin, own);
    assert SameIndexes(s, s') by {
      hide MapsOk, RandomOk, Without;
      assert s'.mapAddr == s.mapAddr && s'.vRandom == s.vRandom && s'.nIdCount == s.nIdCount;
    }
    hide Replaced;
    SameIndexesOk(s, s');
  }

  /** The same entries, with the same addresses and positions in vRandom. */
  ghost predicate SameIndexes(s: Book, s': Book) {
    && s'.mapAddr == s.mapAddr && s'.vRandom == s.vRandom && s'.nIdCount == s.nIdCount
    && s'.mapInfo.Keys == s.mapInfo.Keys
    && (forall i :: i in s.mapInfo.Keys ==> s'.mapInfo[i].ip == s.mapInfo[i].ip)
    && (forall i :: i in s.mapInfo.Keys ==> s'.mapInfo[i].nRandomPos == s.mapInfo[i].nRandomPos)
  }

  lemma SameIndexesOk(s: Book, s': Book)
    requires MapsOk(s) && RandomOk(s) && SameIndexes(s, s')
    ensures MapsOk(s') && RandomOk(s')
  {
  }

  lemma ReplacedNew(s: Book, id: int, k: nat, pos: nat, origin: nat, own: nat)
    requires NewBucketsOk(s) && RefsOkBut(s, -1, 0) && id in s.mapInfo && !s.mapInfo[id].fInTried
    requires k < |s.vvTried| && pos < |s.vvTried[k]| && origin < |s.vvNew| && own < |s.vvNew| && id in s.vvNew[origin]
    requires s.vvTried[k][pos] in s.mapInfo && s.mapInfo[s.vvTried[k][pos]].fInTried
    ensures NewBucketsOk(Replaced(s, id, k, pos, origin, own)) && RefsOkBut(Replaced(s, id, k, pos, origin, own), -1, 0)
  {
    var s', old_, vv := Replaced(s, id, k, pos, origin, own), s.vvTried[k][pos], Without(s.vvNew, id);
    var target := if |vv[own]| < NEW_BUCKET_SIZE then own else origin;
    RoomAtTarget(s, vv, id, target, own, origin);
    CountZero(s.vvNew, old_);
    forall i ensures CountIn(s'.vvNew, i) == if i == id then 0 else if i == old_ then 1 else CountIn(s.vvNew, i) {
      WithoutCounts(s.vvNew, id, i);
      CountOf(vv, i, target, vv[target] + {old_});
    }
    ReplacedRefs(s, s', id, old_);
    ReplacedBuckets(s, s', vv, id, old_, target);
  }

  lemma ReplacedRefs(s: Book, s': Book, id: int, old_: int)
    requires RefsOkBut(s, -1, 0) && id in s.mapInfo && old_ in s.mapInfo && id != old_
    requires s'.mapInfo == s.mapInfo[old_ := s.mapInfo[old_].(nRefCount := 1, fInTried := false)]
                                    [id := s.mapInfo[id].(nRefCount := 0, fInTried := true)]
    requires forall i :: CountIn(s'.vvNew, i) == if i == id then 0 else if i == old_ then 1 else CountIn(s.vvNew, i)
    ensures RefsOkBut(s', -1, 0)
  {
  }

  lemma ReplacedBuckets(s: Book, s': Book, vv: seq<set<int>>, id: int, old_: int, target: nat)
    requires NewBucketsOk(s) && id in s.mapInfo && old_ in s.mapInfo && id != old_ && vv == Without(s.vvNew, id)
        && target < |vv|
    requires s'.mapInfo == s.mapInfo[old_ := s.mapInfo[old_].(nRefCount := 1, fInTried := false)]
                                    [id := s.mapInfo[id].(nRefCount := 0, fInTried := true)]
    requires s'.vvNew == vv[target := vv[target] + {old_}]
    requires |vv[target]| < NEW_BUCKET_SIZE && forall b :: 0 <= b < |vv| ==> |vv[b]| <= NEW_BUCKET_SIZE
    ensures NewBucketsOk(s')
  {
    forall b, i | 0 <= b < |s'.vvNew| && i in s'.vvNew[b] ensures i in s'.mapInfo && !s'.mapInfo[i].fInTried {
      assert i == old_ || i in s.vvNew[b];
    }
  }

  lemma RoomAtTarget(s: Book, vv: seq<set<int>>, id: int, target: nat, own: nat, origin: nat)
    requires NewBucketsOk(s) && vv == Without(s.vvNew, id) && origin < |s.vvNew| && own < |s.vvNew|
    requires id in s.vvNew[origin]
    requires target == if |vv[own]| < NEW_BUCKET_SIZE then own else origin
    ensures |vv[target]| < NEW_BUCKET_SIZE && forall b :: 0 <= b < |vv| ==> |vv[b]| <= NEW_BUCKET_SIZE
  {
    forall b | 0 <= b < |vv| ensures |vv[b]| <= NEW_BUCKET_SIZE { SubsetSize(vv[b], s.vvNew[b]); }
    assert |vv[origin]| == |s.vvNew[origin]| - 1;
  }

  lemma ReplacedTried(env: Env, s: Book, id: int, k: nat, pos: nat, origin: nat, own: nat)
    requires TriedOk(env, s) && id in s.mapInfo && !s.mapInfo[id].fInTried
    requires k < |s.vvTried| && k == TriedBucket(env, s.nKey, s.mapInfo[id]) && pos < |s.vvTried[k]|
    requires origin < |s.vvNew| && own < |s.vvNew| && s.vvTried[k][pos] in s.mapInfo
    ensures TriedOk(env, Replaced(s, id, k, pos, origin, own))
  {
    var s' := Replaced(s, id, k, pos, origin, own);
    TriedEntryAt(env, s, k, pos);
    NotAmongTried(env, s, id);
    ReplacedMembers(env, s, s', id, k, pos);
    ReplacedComplete(env, s, s', id, k, pos);
    hide TriedMembers, TriedComplete;
  }

  lemma NotAmongTried(env: Env, s: Book, id: int)
    requires TriedMembers(env, s) && id in s.mapInfo && !s.mapInfo[id].fInTried
    ensures forall b, p :: 0 <= b < |s.vvTried| && 0 <= p < |s.vvTried[b]| ==> s.vvTried[b][p] != id
  {
  }

  /** s' has id in the place of the entry at (k, pos), which is not tried any more. */
  ghost predicate TookPlace(env: Env, s: Book, s': Book, id: int, k: nat, pos: nat) {
    && id in s.mapInfo && k < |s.vvTried| && pos < |s.vvTried[k]| && s.vvTried[k][pos] in s.mapInfo
    && s'.nKey == s.nKey
    && s'.vvTried == s.vvTried[k := s.vvTried[k][pos := id]]
    && s'.mapInfo == s.mapInfo[s.vvTried[k][pos] := s.mapInfo[s.vvTried[k][pos]].(nRefCount := 1, fInTried := false)]
                              [id := s.mapInfo[id].(nRefCount := 0, fInTried := true)]
  }

  lemma ReplacedMembers(env: Env, s: Book, s': Book, id: int, k: nat, pos: nat)
    requires TriedOk(env, s) && TookPlace(env, s, s', id, k, pos) && k == TriedBucket(env, s.nKey, s.mapInfo[id])
    requires forall b, p :: 0 <= b < |s.vvTried| && 0 <= p < |s.vvTried[b]| ==> s.vvTried[b][p] != id
    ensures TriedMembers(env, s')
  {
    var old_ := s.vvTried[k][pos];
    TriedEntryAt(env, s, k, pos);
    forall b, p | 0 <= b < |s'.vvTried| && 0 <= p < |s'.vvTried[b]|
      ensures var i := s'.vvTried[b][p];
              i in s'.mapInfo && s'.mapInfo[i].fInTried && TriedBucket(env, s'.nKey, s'.mapInfo[i]) == b
    {
      if b == k && p == pos {
      } else {
        TriedEntryAt(env, s, b, p);
        assert s'.vvTried[b][p] == s.vvTried[b][p];
        assert s.vvTried[b][p] != old_ by {
          hide TriedMembers, TriedComplete;
          assert TriedDistinct(s);
        }
      }
    }
  }

  lemma ReplacedComplete(env: Env, s: Book, s': Book, id: int, k: nat, pos: nat)
    requires TriedOk(env, s) && TookPlace(env, s, s', id, k, pos) && k == TriedBucket(env, s.nKey, s.mapInfo[id])
    ensures TriedComplete(env, s')
  {
    hide TriedMembers, TriedDistinct;
    forall i | i in s'.mapInfo && s'.mapInfo[i].fInTried
      ensures i in s'.vvTried[TriedBucket(env, s'.nKey, s'.mapInfo[i])]
    {
      if i == id { assert s'.vvTried[k][pos] == id; }
      else {
        var b := TriedBucket(env, s.nKey, s.mapInfo[i]);
        var p :| 0 <= p < |s.vvTried[b]| && s.vvTried[b][p] == i;
        assert s'.vvTried[b][p] == i;
      }
    }
  }
}
