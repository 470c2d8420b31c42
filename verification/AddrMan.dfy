/** The address manager (CAddrMan in a3/a2/addrman.h and a3/a2/addrman.cpp). Random choices are arbitrary values in
    range, so every contract holds for each of them. */
module AddrMan {
  import opened Wrappers
  import opened AddrBook
  import opened AddrOps
  import Words

  /** GetRandInt: any value below n. */
  method GetRandInt(n: nat) returns (k: nat)
    requires n > 0
    ensures k < n
  {
    k :| 0 <= k < n;
  }

  function Trunc32(x: int): nat { x % 0x1_0000_0000 }

  function Max(a: int, b: int): int { if a < b then b else a }

  /** The bucket that a walk starting at nRnd reaches after n steps. */
  function Around(n: nat, nRnd: nat): (b: nat)
    ensures b < NEW_BUCKET_COUNT
  {
    (n + nRnd) % NEW_BUCKET_COUNT
  }

  lemma AroundReachesAll(b: nat, nRnd: nat)
    requires b < NEW_BUCKET_COUNT && nRnd < NEW_BUCKET_COUNT
    ensures exists m :: 0 <= m < NEW_BUCKET_COUNT && Around(m, nRnd) == b
  {
    var m := if b >= nRnd then b - nRnd else b + NEW_BUCKET_COUNT - nRnd;
    assert Around(m, nRnd) == b;
  }

  /** The part of an entry that other nodes get to see. */
  function AsAddress(info: AddrInfo): Address { Address(info.ip, info.port, info.nServices, info.nTime) }

  class CAddrMan {
    const env: Env
    var nKey: Key
    var nIdCount: nat
    var mapInfo: map<int, AddrInfo>
    var mapAddr: map<NetAddr, int>
    var vRandom: seq<int>
    var nTried: int
    var vvTried: seq<seq<int>>
    var nNew: int
    var vvNew: seq<set<int>>

    constructor (env: Env, nKey: Key)
      ensures this.env == env && State() == EmptyBook(nKey) && Valid()
    {
      this.env, this.nKey := env, nKey;
      nIdCount, mapInfo, mapAddr, vRandom := 0, map[], map[], [];
      nTried, vvTried := 0, seq(TRIED_BUCKET_COUNT, _ => []);
      nNew, vvNew := 0, seq(NEW_BUCKET_COUNT, _ => {});
      new;
      EmptyBookOk(env, nKey);
    }

    ghost function State(): Book
      reads this
    {
      Book(nKey, nIdCount, mapInfo, mapAddr, vRandom, nTried, vvTried, nNew, vvNew)
    }

    ghost predicate Valid()
      reads this
    {
      BookOk(env, State())
    }

    /** Find, by address only. */
    method Find(ip: NetAddr) returns (found: bool, nId: int)
      requires MapsOk(State())
      ensures found <==> ip in mapAddr
      ensures found ==> nId == mapAddr[ip] && nId in mapInfo && mapInfo[nId].ip == ip
    {
      if ip !in mapAddr { return false, -1; }
      nId := mapAddr[ip];
      return nId in mapInfo, nId;
    }

    method SwapRandom(nRndPos1: nat, nRndPos2: nat)
      requires RandomOk(State()) && nRndPos1 < |vRandom| && nRndPos2 < |vRandom|
      modifies this`mapInfo, this`vRandom
      ensures State() == SwappedRandom(old(State()), nRndPos1, nRndPos2)
    {
      if nRndPos1 == nRndPos2 { return; }
      var nId1, nId2 := vRandom[nRndPos1], vRandom[nRndPos2];
      mapInfo := mapInfo[nId1 := mapInfo[nId1].(nRandomPos := nRndPos2)];
      mapInfo := mapInfo[nId2 := mapInfo[nId2].(nRandomPos := nRndPos1)];
      vRandom := vRandom[nRndPos1 := nId2];
      vRandom := vRandom[nRndPos2 := nId1];
    }

    /** The deletion that ShrinkNew writes out in both of its branches. */
    method Erase(nId: int)
      requires RandomOk(State()) && nId in mapInfo
      modifies this`mapInfo, this`mapAddr, this`vRandom, this`nNew
      ensures State() == Erased(old(State()), nId)
    {
      RandomBounds(State(), nId);
      SwappedKeeps(State(), mapInfo[nId].nRandomPos, |vRandom| - 1, nId);
      hide RandomOk, SwappedRandom;
      SwapRandom(mapInfo[nId].nRandomPos, |vRandom| - 1);
      vRandom := vRandom[..|vRandom| - 1];
      mapAddr := mapAddr - {mapInfo[nId].ip};
      mapInfo := mapInfo - {nId};
      nNew := nNew - 1;
    }

    /** Take the entry out of one "new" bucket, and delete it when that was its last reference. */
    method Unreference(nUBucket: nat, nId: int)
      requires RandomOk(State()) && nId in mapInfo && nUBucket < |vvNew|
      modifies this`mapInfo, this`mapAddr, this`vRandom, this`nNew, this`vvNew
      ensures State() == Dropped(old(State()), nUBucket, nId)
    {
      RefFieldRandom(State(), nId, mapInfo[nId].nRefCount - 1);
      hide RandomOk, Erased;
      mapInfo := mapInfo[nId := mapInfo[nId].(nRefCount := mapInfo[nId].nRefCount - 1)];
      if mapInfo[nId].nRefCount == 0 { Erase(nId); }
      vvNew := vvNew[nUBucket := vvNew[nUBucket] - {nId}];
    }

    /** ShrinkNew: drop the first terrible entry of the bucket; if there is none, sample four positions at random and
        drop the entry seen least recently among them. A std::set is walked in ascending order. */
    method ShrinkNew(nUBucket: nat, nNow: int, ghost x: int, ghost d: int)
      returns (r: int, ghost victim: int, ghost n: seq<nat>)
      requires BookOkBut(env, State(), x, d) && nUBucket < |vvNew| && vvNew[nUBucket] != {} && x !in vvNew[nUBucket]
      modifies this`mapInfo, this`mapAddr, this`vRandom, this`nNew, this`vvNew
      ensures victim in old(vvNew)[nUBucket] && victim in old(mapInfo)
      ensures State() == Dropped(old(State()), nUBucket, victim)
      ensures BookOkBut(env, State(), x, d)
      ensures r == 0 ==> FirstTerrible(old(State()), nUBucket, nNow, victim)
      ensures r == 1 ==> NoneTerrible(old(State()), nUBucket, nNow) && OldestSampled(old(State()), nUBucket, n, victim)
      ensures r == 0 || r == 1
    {
      hide TriedOk, MapsOk, RefsOkBut, CountsOk, StampsOk, Dropped, RandomOk, NewBucketsOk;
      n := [];
      BucketKnown(env, State(), x, d, nUBucket);
      var vNew := vvNew[nUBucket];
      for id := 0 to nIdCount
        invariant forall i :: i in vNew && i < id ==> !mapInfo[i].IsTerrible(nNow)
      {
        if id in vNew && mapInfo[id].IsTerrible(nNow) {
          DroppedOk(env, State(), nUBucket, id, x, d);
          Unreference(nUBucket, id);
          return 0, id, n;
        }
      }
      var nOldest;
      nOldest := SampleOldest(nUBucket);
      n :| OldestSampled(State(), nUBucket, n, nOldest);
      DroppedOk(env, State(), nUBucket, nOldest, x, d);
      Unreference(nUBucket, nOldest);
      return 1, nOldest, n;
    }

    /** The second half of ShrinkNew, up to the choice of the entry. */
    method SampleOldest(nUBucket: nat) returns (nOldest: int)
      requires nUBucket < |vvNew| && vvNew[nUBucket] != {}
      requires forall i :: i in vvNew[nUBucket] ==> i in mapInfo && 0 <= i < nIdCount
      ensures exists sampled :: OldestSampled(State(), nUBucket, sampled, nOldest)
    {
      var vNew := vvNew[nUBucket];
      var n0 := GetRandInt(|vNew|);
      var n1 := GetRandInt(|vNew|);
      var n2 := GetRandInt(|vNew|);
      var n3 := GetRandInt(|vNew|);
      var n := [n0, n1, n2, n3];
      var nI := 0;
      nOldest := -1;
      NoneBelow(vNew);
      hide Below;
      for id := 0 to nIdCount
        invariant nI == |Below(vNew, id)|
        invariant nOldest == -1 || (nOldest in vNew && nOldest < id && |Below(vNew, nOldest)| in n)
        invariant n0 < nI ==> nOldest != -1
        invariant forall i :: i in vNew && i < id && |Below(vNew, i)| in n ==>
          nOldest != -1 && mapInfo[nOldest].nTime <= mapInfo[i].nTime
      {
        if id in vNew {
          if nI == n0 || nI == n1 || nI == n2 || nI == n3 {
            if nOldest == -1 || mapInfo[id].nTime < mapInfo[nOldest].nTime { nOldest := id; }
          }
          nI := nI + 1;
        }
        BelowNext(vNew, id);
      }
      AllBelow(vNew, nIdCount);
      assert OldestSampled(State(), nUBucket, n, nOldest);
    }

    /** SelectTried: shuffles the first few entries of the bucket and returns one of the positions it drew. The entry
        with the oldest success stands, after the exchange, where the loop counter was and not at that position. */
    method SelectTried(nKBucket: nat) returns (nOldestPos: int, ghost drawn: seq<nat>)
      requires TriedOk(env, State()) && nKBucket < |vvTried|
      modifies this`vvTried
      ensures TriedOk(env, State())
      ensures State() == old(State()).(vvTried := vvTried)
      ensures var v := old(vvTried)[nKBucket];
        && |drawn| == (if |v| < TRIED_ENTRIES_INSPECT_ON_EVICT then |v| else TRIED_ENTRIES_INSPECT_ON_EVICT)
        && Draws(drawn, |v|)
        && vvTried == old(vvTried)[nKBucket := Shuffled(v, drawn)]
        && AllKnown(mapInfo, Shuffled(v, drawn))
        && nOldestPos == if v == [] then -1 else SelectedPos(mapInfo, v, drawn)
    {
      hide TriedOk, Shuffled, OldestAt, SelectedPos;
      ghost var s0, v := State(), vvTried[nKBucket];
      var nOldest: Option<int> := None;
      nOldestPos, drawn := -1, [];
      ShuffledByNone(v);
      AllTriedKnown(env, s0, nKBucket);
      var i := 0;
      while i < TRIED_ENTRIES_INSPECT_ON_EVICT && i < |vvTried[nKBucket]|
        invariant i == |drawn| <= |v| && i <= TRIED_ENTRIES_INSPECT_ON_EVICT && Draws(drawn, |v|)
        invariant |vvTried| == |s0.vvTried| && vvTried == s0.vvTried[nKBucket := Shuffled(v, drawn)]
        invariant TriedOk(env, State()) && AllKnown(mapInfo, Shuffled(v, drawn))
        invariant i == 0 ==> nOldestPos == -1 && nOldest == None
        invariant i > 0 ==> nOldestPos == SelectedPos(mapInfo, v, drawn)
        invariant i > 0 ==> nOldest == Some(Shuffled(v, drawn)[OldestAt(mapInfo, Shuffled(v, drawn), i)])
      {
        var vTried := vvTried[nKBucket];
        var nRnd := GetRandInt(|vTried| - i);
        var nPos := nRnd + i;
        var nTemp := vTried[nPos];
        SwappedTriedBuckets(env, State(), nKBucket, nPos, i);
        SelectionNext(mapInfo, v, drawn, nPos);
        vvTried := vvTried[nKBucket := vTried[nPos := vTried[i]][i := nTemp]];
        drawn := drawn + [nPos];
        if nOldest.None? || mapInfo[nTemp].nLastSuccess < mapInfo[nOldest.value].nLastSuccess {
          nOldest := Some(nTemp);
          nOldestPos := nPos;
        }
        i := i + 1;
      }
    }

    /** The loop of MakeTried over the "new" buckets. */
    method LeaveNewBuckets(nId: int)
      requires Linked(env, State()) && nId in mapInfo && !mapInfo[nId].fInTried
      modifies this`vvNew, this`mapInfo
      ensures State() == old(State()).(vvNew := Without(old(vvNew), nId),
          mapInfo := old(mapInfo)[nId := old(mapInfo)[nId].(nRefCount := 0)])
    {
      hide Linked, CountIn, Without;
      ghost var s := State();
      EntryCount(env, s, nId);
      for i := 0 to |vvNew|
        invariant |vvNew| == |s.vvNew|
        invariant forall b :: 0 <= b < |vvNew| ==> vvNew[b] == if b < i then s.vvNew[b] - {nId} else s.vvNew[b]
        invariant nId in mapInfo && mapInfo == s.mapInfo[nId := s.mapInfo[nId].(nRefCount := mapInfo[nId].nRefCount)]
        invariant mapInfo[nId].nRefCount == CountIn(vvNew, nId)
      {
        CountOf(vvNew, nId, i, vvNew[i] - {nId});
        if nId in vvNew[i] { mapInfo := mapInfo[nId := mapInfo[nId].(nRefCount := mapInfo[nId].nRefCount - 1)]; }
        vvNew := vvNew[i := vvNew[i] - {nId}];
      }
      CountZero(vvNew, nId);
      assert vvNew == Without(s.vvNew, nId);
    }

    /** The rest of MakeTried, when the "tried" bucket is full. `s` is the book that MakeTried started from. */
    method Evict(nId: int, nKBucket: nat, nOrigin: nat, ghost s: Book)
      returns (ghost drawn: seq<nat>)
      requires Linked(env, s) && nId in s.mapInfo && !s.mapInfo[nId].fInTried
      requires nOrigin < |s.vvNew| && nId in s.vvNew[nOrigin]
      requires nKBucket < |s.vvTried| && nKBucket == TriedBucket(env, s.nKey, s.mapInfo[nId])
          && |s.vvTried[nKBucket]| == TRIED_BUCKET_SIZE
      requires State() == s.(vvNew := Without(s.vvNew, nId),
          mapInfo := s.mapInfo[nId := s.mapInfo[nId].(nRefCount := 0)], nNew := s.nNew - 1)
      modifies this
      ensures Linked(env, State()) && (StampsOk(s) && s.mapInfo[nId].nLastSuccess != 0 ==> StampsOk(State()))
      ensures MadeTried(env, s, nId, nOrigin, drawn, State())
    {
      hide Linked, TriedOk, Replaced, StampsOk, Shuffled, OldestAt, SelectedPos, AllKnown;
      NewBucketCount(env, s);
      RefFieldTriedOf(env, s, State(), nId);
      var nPos;
      nPos, drawn := SelectTried(nKBucket);
      SelectedSame(s.mapInfo, nId, s.vvTried[nKBucket], drawn);
      ghost var t := s.(vvTried := vvTried);
      RefFieldTriedOf(env, State(), t, nId);
      ShuffledOk(env, s, vvTried);
      TriedEntryAt(env, t, nKBucket, nPos);
      var nIdOld := vvTried[nKBucket][nPos];
      var nUBucket := NewBucket(env, nKey, mapInfo[nIdOld].ip, mapInfo[nIdOld].source);
      ReplacedOk(env, t, nId, nKBucket, nPos, nOrigin, nUBucket);
      mapInfo := mapInfo[nIdOld := mapInfo[nIdOld].(fInTried := false, nRefCount := 1)];
      if |vvNew[nUBucket]| < NEW_BUCKET_SIZE {
        vvNew := vvNew[nUBucket := vvNew[nUBucket] + {nIdOld}];
      } else {
        vvNew := vvNew[nOrigin := vvNew[nOrigin] + {nIdOld}];
      }
      nNew := nNew + 1;
      vvTried := vvTried[nKBucket := vvTried[nKBucket][nPos := nId]];
      mapInfo := mapInfo[nId := mapInfo[nId].(fInTried := true)];
      ReplacedIs(t, nId, nKBucket, nPos, nOrigin, nUBucket, State());
    }

    /** MakeTried: the entry leaves every "new" bucket for its "tried" bucket. If that is full, the entry that
        SelectTried selects with the positions `drawn` makes room and goes back to a "new" bucket. */
    method MakeTried(nId: int, nOrigin: nat) returns (ghost drawn: seq<nat>)
      requires Linked(env, State()) && nId in mapInfo && !mapInfo[nId].fInTried
      requires nOrigin < |vvNew| && nId in vvNew[nOrigin]
      modifies this
      ensures Linked(env, State())
      ensures StampsOk(old(State())) && old(mapInfo)[nId].nLastSuccess != 0 ==> StampsOk(State())
      ensures MadeTried(env, old(State()), nId, nOrigin, drawn, State())
    {
      hide Linked, TriedOk, Replaced, StampsOk, BookOk, BookOkBut;
      ghost var s := State();
      drawn := [];
      LeaveNewBuckets(nId);
      nNew := nNew - 1;
      KnownTried(env, s, nId);
      var nKBucket := TriedBucket(env, nKey, mapInfo[nId]);
      if |vvTried[nKBucket]| < TRIED_BUCKET_SIZE {
        PromotedOk(env, s, nId, nKBucket);
        vvTried := vvTried[nKBucket := vvTried[nKBucket] + [nId]];
        nTried := nTried + 1;
        mapInfo := mapInfo[nId := mapInfo[nId].(fInTried := true)];
        assert State() == Promoted(s, nId, nKBucket);
        return;
      }
      drawn := Evict(nId, nKBucket, nOrigin, s);
    }

    /** The search of Good_ for a "new" bucket that holds the entry, from a random start and around. */
    method FindNewBucket(nId: int) returns (nUBucket: int)
      requires |vvNew| == NEW_BUCKET_COUNT
      ensures nUBucket == -1 ==> forall b :: 0 <= b < |vvNew| ==> nId !in vvNew[b]
      ensures nUBucket != -1 ==> 0 <= nUBucket < |vvNew| && nId in vvNew[nUBucket]
    {
      var nRnd := GetRandInt(NEW_BUCKET_COUNT);
      for n := 0 to NEW_BUCKET_COUNT
        invariant forall m :: 0 <= m < n ==> nId !in vvNew[Around(m, nRnd)]
      {
        var nB := Around(n, nRnd);
        if nId in vvNew[nB] { return nB; }
      }
      forall b | 0 <= b < |vvNew| ensures nId !in vvNew[b] {
        AroundReachesAll(b, nRnd);
      }
      return -1;
    }

    /** Good_: the entry is stamped with the success, and moved to "tried" if it is not there yet. */
    method Good_(ip: NetAddr, port: nat, nTime: int)
      returns (ghost origin: nat, ghost drawn: seq<nat>)
      requires Valid()
      modifies this
      ensures Linked(env, State())
      ensures var s := old(State());
        if ip in s.mapAddr && s.mapAddr[ip] in s.mapInfo && s.mapInfo[s.mapAddr[ip]].port == port
        then MadeGood(env, s, s.mapAddr[ip], nTime, origin, drawn, State()) && (Valid() <==> nTime > 0)
        else State() == s
    {
      hide TriedOk, MapsOk, NewBucketsOk, RefsOkBut, CountsOk, StampsOk, RandomOk, MadeTried, Restamped;
      ghost var s := State();
      origin, drawn := 0, [];
      var found, nId := Find(ip);
      if !found { return; }
      var info := mapInfo[nId];
      if info.port != port { return; }
      RestampedOk(env, s, nId, Trunc32(nTime), info.nServices, nTime, nTime, 0, -1, 0);
      mapInfo := mapInfo[nId :=
          info.(nLastSuccess := nTime, nLastTry := nTime, nTime := Trunc32(nTime), nAttempts := 0)];
      assert State() == Restamped(s, nId, Trunc32(nTime), info.nServices, nTime, nTime, 0) by {
        RestampedIs(s, nId, nTime);
      }
      if mapInfo[nId].fInTried { return; }
      NewBucketCount(env, State());
      var nUBucket := FindNewBucket(nId);
      NewEntryIsInABucket(env, State(), nId);
      if nUBucket == -1 { return; }
      origin := nUBucket;
      drawn := MakeTried(nId, nUBucket);
      GoodStamp(env, s, nId, nTime, origin, drawn, State());
    }

    /** The end of Add_: the entry gets a place in the bucket, which is shrunk first when it is full. */
    method Place(nId: int, nUBucket: nat, nNow: int) returns (ghost victim: int, ghost n: seq<nat>)
      requires BookOkBut(env, State(), nId, 0) && nUBucket < |vvNew|
      requires nId in mapInfo && !mapInfo[nId].fInTried && mapInfo[nId].nRefCount < NEW_BUCKETS_PER_ADDRESS
      requires nId in vvNew[nUBucket] ==> BookOk(env, State())
      modifies this`mapInfo, this`mapAddr, this`vRandom, this`nNew, this`vvNew
      ensures Valid()
      ensures Placed(old(State()), nId, nUBucket, nNow, victim, n, State())
    {
      hide TriedOk, MapsOk, RefsOkBut, CountsOk, StampsOk, RandomOk, NewBucketsOk, Dropped, NoneTerrible,
          FirstTerrible, OldestSampled;
      victim, n := -1, [];
      if nId !in vvNew[nUBucket] {
        ReferencedOk(env, State(), nId);
        RoomOf(env, State(), nId, 0, nUBucket);
        mapInfo := mapInfo[nId := mapInfo[nId].(nRefCount := mapInfo[nId].nRefCount + 1)];
        ghost var s := State();
        if |vvNew[nUBucket]| == NEW_BUCKET_SIZE {
          var r;
          r, victim, n := ShrinkNew(nUBucket, nNow, nId, 1);
          DroppedOk(env, s, nUBucket, victim, nId, 1);
          DroppedKeeps(env, s, nUBucket, victim, nId, 1, nId);
        }
        InsertedOk(env, State(), nUBucket, nId);
        vvNew := vvNew[nUBucket := vvNew[nUBucket] + {nId}];
      }
    }

    /** Create. */
    method Create(addr: Address, source: NetAddr) returns (nId: int)
      modifies this`nIdCount, this`mapInfo, this`mapAddr, this`vRandom
      ensures nId == old(nIdCount)
      ensures State() == Created(old(State()), addr, source, addr.nTime).(nNew := old(nNew))
    {
      nId := nIdCount;
      nIdCount := nIdCount + 1;
      mapInfo := mapInfo[nId :=
          AddrInfo(addr.ip, addr.port, addr.nServices, addr.nTime, source, 0, 0, 0, 0, false, -1)];
      mapAddr := mapAddr[addr.ip := nId];
      mapInfo := mapInfo[nId := mapInfo[nId].(nRandomPos := |vRandom|)];
      vRandom := vRandom + [nId];
    }

    /** The first two statements of Add_ about an entry that it found. */
    method Refresh(nId: int, addr: Address, nTimePenalty: int, nNow: int)
      requires Valid() && nId in mapInfo
      modifies this`mapInfo
      ensures Valid()
      ensures State() == Refreshed(old(State()), nId, addr, nTimePenalty, nNow)
    {
      hide BookOk, MergedServices;
      ghost var s := State();
      RefreshedOk(env, s, nId, addr, nTimePenalty, nNow);
      var info := mapInfo[nId];
      var fCurrentlyOnline := nNow - addr.nTime < 24 * 60 * 60;
      var nUpdateInterval := if fCurrentlyOnline then 60 * 60 else 24 * 60 * 60;
      if addr.nTime != 0 && (info.nTime == 0 || info.nTime < addr.nTime - nUpdateInterval - nTimePenalty) {
        mapInfo := mapInfo[nId := mapInfo[nId].(nTime := Trunc32(Max(0, addr.nTime - nTimePenalty)))];
      }
      mapInfo := mapInfo[nId := mapInfo[nId].(nServices := MergedServices(mapInfo[nId].nServices, addr.nServices))];
      assert mapInfo == Refreshed(s, nId, addr, nTimePenalty, nNow).mapInfo;
    }

    /** The stochastic test of Add_: true once in 2^nRefCount. */
    method LuckyAmong(nRefCount: int) returns (lucky: bool, ghost nRnd: nat)
      requires nRefCount >= 0
      ensures nRnd < Words.Pow2(nRefCount) && (lucky <==> nRnd == 0)
    {
      var nFactor := 1;
      for k := 0 to nRefCount
        invariant nFactor == Words.Pow2(k)
      {
        nFactor := nFactor * 2;
      }
      var drawn := GetRandInt(nFactor);
      nRnd := drawn;
      lucky := !(nFactor > 1 && drawn != 0);
    }

    /** Add_. */
    method Add_(addr: Address, source: NetAddr, nTimePenalty: int, nNow: int)
      returns (fNew: bool, ghost nRnd: nat, ghost victim: int, ghost n: seq<nat>)
      requires Valid()
      modifies this
      ensures Valid()
      ensures fNew <==> env.routable(addr.ip) && addr.ip !in old(mapAddr)
      ensures Added(env, old(State()), addr, source, nTimePenalty, nNow, nRnd, victim, n, State())
    {
      hide TriedOk, MapsOk, RefsOkBut, CountsOk, StampsOk, RandomOk, NewBucketsOk, Placed, Words.Pow2, NewBucket,
          Refreshed, Trunc32, Max;
      ghost var s := State();
      fNew, nRnd, victim, n := false, 0, -1, [];
      if !env.routable(addr.ip) { return; }
      EntryOfAddress(env, s, addr.ip);
      var found, nId := Find(addr.ip);
      if found {
        RefreshedIds(s, nId, addr, nTimePenalty, nNow);
        Refresh(nId, addr, nTimePenalty, nNow);
        if addr.nTime == 0 || (mapInfo[nId].nTime != 0 && addr.nTime <= mapInfo[nId].nTime) { return; }
        if mapInfo[nId].fInTried { return; }
        if mapInfo[nId].nRefCount == NEW_BUCKETS_PER_ADDRESS { return; }
        EntryRefs(env, State(), nId);
        var lucky;
        lucky, nRnd := LuckyAmong(mapInfo[nId].nRefCount);
        if !lucky { return; }
        AnyEntryMayBeAdded(env, State(), nId);
      } else {
        ghost var nTime := Trunc32(Max(0, addr.nTime - nTimePenalty));
        CreatedOk(env, s, addr, source, nTime);
        NotInABucket(env, Created(s, addr, source, nTime), s.nIdCount);
        nId := Create(addr, source);
        mapInfo := mapInfo[nId := mapInfo[nId].(nTime := Trunc32(Max(0, mapInfo[nId].nTime - nTimePenalty)))];
        nNew := nNew + 1;
        fNew := true;
        assert State() == Created(s, addr, source, nTime);
      }
      BucketCountBut(env, State(), nId);
      var nUBucket := NewBucket(env, nKey, mapInfo[nId].ip, source);
      victim, n := Place(nId, nUBucket, nNow);
    }

    /** Attempt_. */
    method Attempt_(ip: NetAddr, port: nat, nTime: int)
      requires Valid()
      modifies this`mapInfo
      ensures Linked(env, State())
      ensures var s := old(State());
        if ip in s.mapAddr && s.mapAddr[ip] in s.mapInfo && s.mapInfo[s.mapAddr[ip]].port == port then
          var info := s.mapInfo[s.mapAddr[ip]];
          && State() == Restamped(s, s.mapAddr[ip], info.nTime, info.nServices, nTime, info.nLastSuccess,
              info.nAttempts + 1)
          && (Valid() <==> nTime >= 0)
        else State() == s
    {
      hide TriedOk, MapsOk, NewBucketsOk, RefsOkBut, CountsOk, RandomOk;
      var found, nId := Find(ip);
      if !found { return; }
      var info := mapInfo[nId];
      if info.port != port { return; }
      RestampedOk(env, State(), nId, info.nTime, info.nServices, nTime, info.nLastSuccess, info.nAttempts + 1, -1, 0);
      mapInfo := mapInfo[nId := info.(nLastTry := nTime, nAttempts := info.nAttempts + 1)];
    }

    /** Connected_. */
    method Connected_(ip: NetAddr, port: nat, nTime: int)
      requires Valid()
      modifies this`mapInfo
      ensures Valid()
      ensures var s := old(State());
        if ip in s.mapAddr && s.mapAddr[ip] in s.mapInfo && s.mapInfo[s.mapAddr[ip]].port == port
           && nTime - s.mapInfo[s.mapAddr[ip]].nTime > 20 * 60 then
          var info := s.mapInfo[s.mapAddr[ip]];
          State() == Restamped(s, s.mapAddr[ip], Trunc32(nTime), info.nServices, info.nLastTry, info.nLastSuccess,
              info.nAttempts)
        else State() == s
    {
      hide TriedOk, MapsOk, NewBucketsOk, RefsOkBut, CountsOk, RandomOk;
      var found, nId := Find(ip);
      if !found { return; }
      var info := mapInfo[nId];
      if info.port != port { return; }
      var nUpdateInterval := 20 * 60;
      if nTime - info.nTime > nUpdateInterval {
        RestampedOk(env, State(), nId, Trunc32(nTime), info.nServices, info.nLastTry, info.nLastSuccess,
            info.nAttempts, -1, 0);
        mapInfo := mapInfo[nId := info.(nTime := Trunc32(nTime))];
      }
    }

    /** GetAddr_: a random sample, without repetition, of at most 23 percent and at most 2500 of the addresses. */
    method GetAddr_() returns (vAddr: seq<Address>)
      requires Valid()
      modifies this`mapInfo, this`vRandom
      ensures Valid()
      ensures SameEntries(old(mapInfo), mapInfo) && State() == old(State()).(mapInfo := mapInfo, vRandom := vRandom)
      ensures |vAddr| == (var n := GETADDR_MAX_PCT * |vRandom| / 100; if n > GETADDR_MAX then GETADDR_MAX else n)
      ensures forall i :: 0 <= i < |vAddr| ==> vRandom[i] in mapInfo && vAddr[i] == AsAddress(mapInfo[vRandom[i]])
      ensures forall i, j :: 0 <= i < j < |vAddr| ==> vAddr[i].ip != vAddr[j].ip
    {
      hide BookOk, SwappedRandom, SameEntries, RandomOk;
      ghost var s := State();
      var nNodes := GETADDR_MAX_PCT * |vRandom| / 100;
      if nNodes > GETADDR_MAX { nNodes := GETADDR_MAX; }
      vAddr := [];
      SameEntriesRefl(mapInfo);
      for n := 0 to nNodes
        invariant Valid() && SameEntries(s.mapInfo, mapInfo) && |vRandom| == |s.vRandom|
        invariant State() == s.(mapInfo := mapInfo, vRandom := vRandom)
        invariant |vAddr| == n
        invariant forall i :: 0 <= i < n ==> vRandom[i] in mapInfo && vAddr[i] == AsAddress(mapInfo[vRandom[i]])
      {
        var nRnd := GetRandInt(|vRandom| - n);
        var nRndPos := nRnd + n;
        SwapInBook(env, State(), n, nRndPos, s.mapInfo);
        SwapRandom(n, nRndPos);
        RandomDistinct(env, State());
        vAddr := vAddr + [AsAddress(mapInfo[vRandom[n]])];
      }
      RandomDistinct(env, State());
    }
  }

  /** The members of a bucket that a walk in ascending order meets before id. */
  function Below(bucket: set<int>, id: int): set<int> { set i | i in bucket && i < id }

  lemma NoneBelow(bucket: set<int>)
    requires forall i :: i in bucket ==> 0 <= i
    ensures |Below(bucket, 0)| == 0
  {
    assert Below(bucket, 0) == {} by { forall i | i in Below(bucket, 0) ensures false { } }
  }

  lemma AllBelow(bucket: set<int>, hi: int)
    requires forall i :: i in bucket ==> i < hi
    ensures Below(bucket, hi) == bucket
  {
    forall i ensures i in Below(bucket, hi) <==> i in bucket { }
  }

  lemma BelowNext(bucket: set<int>, id: int)
    ensures |Below(bucket, id + 1)| == |Below(bucket, id)| + if id in bucket then 1 else 0
  {
    var S := if id in bucket then Below(bucket, id) + {id} else Below(bucket, id);
    assert Below(bucket, id + 1) == S by { forall i ensures i in Below(bucket, id + 1) <==> i in S { } }
  }

  ghost predicate NoneTerrible(s: Book, b: nat, nNow: int)
    requires b < |s.vvNew|
  {
    forall i :: i in s.vvNew[b] && i in s.mapInfo ==> !s.mapInfo[i].IsTerrible(nNow)
  }

  ghost predicate FirstTerrible(s: Book, b: nat, nNow: int, victim: int)
    requires b < |s.vvNew|
  {
    && victim in s.mapInfo && s.mapInfo[victim].IsTerrible(nNow)
    && forall i :: i in s.vvNew[b] && i < victim && i in s.mapInfo ==> !s.mapInfo[i].IsTerrible(nNow)
  }

  /** victim stands at one of the four sampled positions, and none at those positions was seen longer ago. */
  ghost predicate OldestSampled(s: Book, b: nat, n: seq<nat>, victim: int)
    requires b < |s.vvNew|
  {
    && |n| == 4 && victim in s.vvNew[b] && victim in s.mapInfo
    && |Below(s.vvNew[b], victim)| in n
    && forall i :: i in s.vvNew[b] && i in s.mapInfo && |Below(s.vvNew[b], i)| in n ==>
         s.mapInfo[victim].nTime <= s.mapInfo[i].nTime
  }

  lemma BucketKnown(env: Env, s: Book, x: int, d: int, b: nat)
    requires BookOkBut(env, s, x, d) && b < |s.vvNew|
    ensures forall i :: i in s.vvNew[b] ==> i in s.mapInfo && 0 <= i < s.nIdCount
    ensures RandomOk(s)
  {
    forall i | i in s.vvNew[b] ensures i in s.mapInfo && 0 <= i < s.nIdCount {
      assert NewBucketsOk(s) && MapsOk(s);
    }
  }

  /** What SelectTried selects does not depend on reference counts. */
  lemma SelectedSame(m: map<int, AddrInfo>, id: int, v: seq<int>, drawn: seq<nat>)
    requires drawn != [] && Draws(drawn, |v|) && id in m
    requires AllKnown(m[id := m[id].(nRefCount := 0)], Shuffled(v, drawn))
    ensures AllKnown(m, Shuffled(v, drawn))
    ensures SelectedPos(m[id := m[id].(nRefCount := 0)], v, drawn) == SelectedPos(m, v, drawn)
  {
    hide Shuffled, OldestAt, Draws, AllKnown;
    DrawsWithin(drawn, |v|);
    OldestUnreferenced(m, id, Shuffled(v, drawn), |drawn|);
  }

  lemma {:induction false} OldestUnreferenced(m: map<int, AddrInfo>, id: int, w: seq<int>, n: nat)
    requires 0 < n <= |w| && id in m && AllKnown(m[id := m[id].(nRefCount := 0)], w)
    ensures AllKnown(m, w) && OldestAt(m[id := m[id].(nRefCount := 0)], w, n) == OldestAt(m, w, n)
  {
    var m' := m[id := m[id].(nRefCount := 0)];
    forall i | 0 <= i < |w| ensures w[i] in m && m'[w[i]].nLastSuccess == m[w[i]].nLastSuccess {
      assert w[i] in m';
    }
    if n > 1 { OldestUnreferenced(m, id, w, n - 1); }
  }

  lemma AllTriedKnown(env: Env, s: Book, k: nat)
    requires TriedOk(env, s) && k < |s.vvTried|
    ensures AllKnown(s.mapInfo, s.vvTried[k])
  {
    forall i | 0 <= i < |s.vvTried[k]| ensures s.vvTried[k][i] in s.mapInfo { TriedEntryAt(env, s, k, i); }
  }

  /** One round of the loop of SelectTried. */
  lemma SelectionNext(m: map<int, AddrInfo>, v: seq<int>, drawn: seq<nat>, nPos: nat)
    requires Draws(drawn, |v|) && |drawn| <= nPos < |v| && AllKnown(m, Shuffled(v, drawn))
    ensures var i, w, w' := |drawn|, Shuffled(v, drawn), Shuffled(v, drawn + [nPos]);
      && Draws(drawn + [nPos], |v|) && w' == w[nPos := w[i]][i := w[nPos]] && AllKnown(m, w')
      && var oldest, found := w'[OldestAt(m, w', i + 1)], SelectedPos(m, v, drawn + [nPos]);
         if i == 0 || m[w[nPos]].nLastSuccess < m[w[OldestAt(m, w, i)]].nLastSuccess
         then found == nPos && oldest == w[nPos]
         else found == SelectedPos(m, v, drawn) && oldest == w[OldestAt(m, w, i)]
  {
    ShuffledNext(v, drawn, nPos);
    hide Shuffled;
    var i, w, w' := |drawn|, Shuffled(v, drawn), Shuffled(v, drawn + [nPos]);
    if i > 0 {
      OldestOfPrefix(m, w, w', i);
    }
  }

  lemma NewBucketCount(env: Env, s: Book)
    requires Linked(env, s)
    ensures |s.vvNew| == NEW_BUCKET_COUNT && TriedOk(env, s)
  {
  }

  /** The "tried" clauses do not depend on reference counts or on the "new" buckets. */
  lemma RefFieldTriedOf(env: Env, s: Book, s': Book, id: int)
    requires TriedOk(env, s) && id in s.mapInfo && id in s'.mapInfo
    requires s'.nKey == s.nKey && s'.vvTried == s.vvTried
    requires s'.mapInfo == s.mapInfo[id := s.mapInfo[id].(nRefCount := s'.mapInfo[id].nRefCount)]
    ensures TriedOk(env, s')
  {
    var m := s.mapInfo[id := s.mapInfo[id].(nRefCount := s'.mapInfo[id].nRefCount)];
    assert SamePlaces(s.mapInfo, m);
    assert s'.mapInfo == m;
    SameTried(env, s, s');
  }

  lemma ShuffledOk(env: Env, s: Book, vvTried: seq<seq<int>>)
    requires Linked(env, s) && TriedOk(env, s.(vvTried := vvTried))
    ensures Linked(env, s.(vvTried := vvTried)) && (StampsOk(s) ==> StampsOk(s.(vvTried := vvTried)))
  {
  }

  /** The final state of the eviction, written out. */
  lemma ReplacedIs(t: Book, id: int, k: nat, pos: nat, origin: nat, own: nat, s': Book)
    requires id in t.mapInfo && k < |t.vvTried| && pos < |t.vvTried[k]| && origin < |t.vvNew| && own < |t.vvNew|
    requires t.vvTried[k][pos] in t.mapInfo && t.vvTried[k][pos] != id
    requires var old_, vv := t.vvTried[k][pos], Without(t.vvNew, id);
             var target := if |vv[own]| < NEW_BUCKET_SIZE then own else origin;
             s' == t.(vvNew := vv[target := vv[target] + {old_}],
                      vvTried := t.vvTried[k := t.vvTried[k][pos := id]],
                      mapInfo := t.mapInfo[id := t.mapInfo[id].(nRefCount := 0)]
                                 [old_ := t.mapInfo[old_].(fInTried := false, nRefCount := 1)]
                                 [id := t.mapInfo[id].(nRefCount := 0).(fInTried := true)])
    ensures s' == Replaced(t, id, k, pos, origin, own)
  {
  }

  /** What MakeTried does to the book. */
  ghost predicate MadeTried(env: Env, s: Book, id: int, origin: nat, drawn: seq<nat>, s': Book) {
    && id in s.mapInfo && origin < |s.vvNew| && |s.vvTried| == TRIED_BUCKET_COUNT && |s.vvNew| == NEW_BUCKET_COUNT
    && var k := TriedBucket(env, s.nKey, s.mapInfo[id]);
       if |s.vvTried[k]| < TRIED_BUCKET_SIZE then s' == Promoted(s, id, k)
       else
         && |drawn| == TRIED_ENTRIES_INSPECT_ON_EVICT && Draws(drawn, |s.vvTried[k]|)
         && var shuffled := Shuffled(s.vvTried[k], drawn);
         && AllKnown(s.mapInfo, shuffled)
         && var pos := SelectedPos(s.mapInfo, s.vvTried[k], drawn);
         && var old_ := s.mapInfo[shuffled[pos]];
            s' == Replaced(s.(vvTried := s.vvTried[k := shuffled]), id, k, pos, origin,
                           NewBucket(env, s.nKey, old_.ip, old_.source))
  }

  /** What Good_ does to the book when it finds the entry of the id. */
  ghost predicate MadeGood(env: Env, s: Book, id: int, nTime: int, origin: nat, drawn: seq<nat>, s': Book)
    requires id in s.mapInfo
  {
    var stamped := Restamped(s, id, Trunc32(nTime), s.mapInfo[id].nServices, nTime, nTime, 0);
    if s.mapInfo[id].fInTried then s' == stamped else MadeTried(env, stamped, id, origin, drawn, s')
  }

  lemma RestampedIs(s: Book, id: int, nTime: int)
    requires id in s.mapInfo
    ensures var info := s.mapInfo[id];
            Restamped(s, id, Trunc32(nTime), info.nServices, nTime, nTime, 0) ==
            s.(mapInfo := s.mapInfo[id :=
                info.(nLastSuccess := nTime, nLastTry := nTime, nTime := Trunc32(nTime), nAttempts := 0)])
  {
  }

  /** Good_ leaves the entry "tried", with its time as the last success, which is in order only if it is positive. */
  lemma GoodStamp(env: Env, s: Book, id: int, nTime: int, origin: nat, drawn: seq<nat>, s': Book)
    requires StampsOk(s) && id in s.mapInfo && MadeGood(env, s, id, nTime, origin, drawn, s')
    ensures id in s'.mapInfo && s'.mapInfo[id].fInTried && s'.mapInfo[id].nLastSuccess == nTime
    ensures StampsOk(s') <==> nTime > 0
  {
    var stamped := Restamped(s, id, Trunc32(nTime), s.mapInfo[id].nServices, nTime, nTime, 0);
    if nTime >= 0 {
      forall i | i in stamped.mapInfo && i != id ensures i in s.mapInfo && stamped.mapInfo[i] == s.mapInfo[i] { }
    }
    hide Restamped;
    if !s.mapInfo[id].fInTried { TriedStamps(env, stamped, id, origin, drawn, s'); }
  }

  /** The move to "tried" leaves every stamp as it is. */
  lemma TriedStamps(env: Env, s: Book, id: int, origin: nat, drawn: seq<nat>, s': Book)
    requires MadeTried(env, s, id, origin, drawn, s')
    ensures s'.mapInfo.Keys == s.mapInfo.Keys && s'.mapInfo[id].fInTried
    ensures forall i :: i in s.mapInfo.Keys ==>
      && s'.mapInfo[i].nLastTry == s.mapInfo[i].nLastTry && s'.mapInfo[i].nLastSuccess == s.mapInfo[i].nLastSuccess
      && (i != id && s'.mapInfo[i].fInTried ==> s.mapInfo[i].fInTried)
  {
    hide TriedBucket, NewBucket, Without, Shuffled, SelectedPos, Draws;
    var k := TriedBucket(env, s.nKey, s.mapInfo[id]);
    if |s.vvTried[k]| >= TRIED_BUCKET_SIZE {
      assert Shuffled(s.vvTried[k], drawn)[SelectedPos(s.mapInfo, s.vvTried[k], drawn)] in s.mapInfo.Keys;
    }
  }

  lemma KnownTried(env: Env, s: Book, id: int)
    requires Linked(env, s) && id in s.mapInfo
    ensures |s.vvTried| == TRIED_BUCKET_COUNT && |s.vvNew| == NEW_BUCKET_COUNT
    ensures forall b :: 0 <= b < |s.vvTried| ==> |s.vvTried[b]| <= TRIED_BUCKET_SIZE
  {
  }

  lemma NewEntryIsInABucket(env: Env, s: Book, id: int)
    requires Linked(env, s) && id in s.mapInfo && !s.mapInfo[id].fInTried
    ensures exists b :: 0 <= b < |s.vvNew| && id in s.vvNew[b]
  {
    CountZero(s.vvNew, id);
  }

  lemma SameEntriesRefl(m: map<int, AddrInfo>)
    ensures SameEntries(m, m)
  {
  }

  lemma SameEntriesTrans(m: map<int, AddrInfo>, m1: map<int, AddrInfo>, m2: map<int, AddrInfo>)
    requires SameEntries(m, m1) && SameEntries(m1, m2)
    ensures SameEntries(m, m2)
  {
  }

  lemma SwappedFields(s: Book, p: nat, q: nat)
    requires RandomOk(s) && p <= q < |s.vRandom|
    ensures var s' := SwappedRandom(s, p, q);
            && s' == s.(mapInfo := s'.mapInfo, vRandom := s'.vRandom) && |s'.vRandom| == |s.vRandom|
            && (forall i :: 0 <= i < p ==> s'.vRandom[i] == s.vRandom[i])
            && (forall id :: id in s.mapInfo ==>
                id in s'.mapInfo && AsAddress(s'.mapInfo[id]) == AsAddress(s.mapInfo[id]))
  {
  }

  lemma SwapInBook(env: Env, s: Book, p: nat, q: nat, m: map<int, AddrInfo>)
    requires BookOk(env, s) && p <= q < |s.vRandom| && SameEntries(m, s.mapInfo)
    ensures RandomOk(s) && BookOk(env, SwappedRandom(s, p, q)) && SameEntries(m, SwappedRandom(s, p, q).mapInfo)
    ensures var s' := SwappedRandom(s, p, q);
            && s' == s.(mapInfo := s'.mapInfo, vRandom := s'.vRandom) && |s'.vRandom| == |s.vRandom|
            && (forall i :: 0 <= i < p ==> s'.vRandom[i] == s.vRandom[i])
            && (forall id :: id in s.mapInfo ==>
                id in s'.mapInfo && AsAddress(s'.mapInfo[id]) == AsAddress(s.mapInfo[id]))
  {
    hide MapsOk, RandomOk, NewBucketsOk, RefsOkBut, TriedOk, CountsOk, StampsOk, SameEntries, SwappedRandom;
    SwappedRandomOk(env, s, p, q, -1, 0);
    SwappedFields(s, p, q);
    SameEntriesTrans(m, s.mapInfo, SwappedRandom(s, p, q).mapInfo);
  }

  lemma RandomDistinct(env: Env, s: Book)
    requires BookOk(env, s)
    ensures forall i :: 0 <= i < |s.vRandom| ==> s.vRandom[i] in s.mapInfo
    ensures forall i, j :: 0 <= i < j < |s.vRandom| ==> s.mapInfo[s.vRandom[i]].ip != s.mapInfo[s.vRandom[j]].ip
  {
    hide NewBucketsOk, RefsOkBut, TriedOk, CountsOk, StampsOk;
    assert RandomOk(s) && MapsOk(s);
    forall i, j | 0 <= i < j < |s.vRandom| ensures s.mapInfo[s.vRandom[i]].ip != s.mapInfo[s.vRandom[j]].ip {
      assert s.mapInfo[s.vRandom[i]].nRandomPos == i && s.mapInfo[s.vRandom[j]].nRandomPos == j;
      assert s.vRandom[i] != s.vRandom[j];
      assert s.mapAddr[s.mapInfo[s.vRandom[i]].ip] == s.vRandom[i];
      assert s.mapAddr[s.mapInfo[s.vRandom[j]].ip] == s.vRandom[j];
    }
  }

  // ----- Add_ -----

  function MergedServices(a: bv64, b: bv64): bv64 { a | b }

  /** The time of a known entry after Add_ heard of it again. */
  function RefreshedTime(nTime: nat, addr: Address, nTimePenalty: int, nNow: int): nat {
    var nUpdateInterval := if nNow - addr.nTime < 24 * 60 * 60 then 60 * 60 else 24 * 60 * 60;
    if addr.nTime != 0 && (nTime == 0 || nTime < addr.nTime - nUpdateInterval - nTimePenalty)
    then Trunc32(Max(0, addr.nTime - nTimePenalty)) else nTime
  }

  /** What Add_ does to an entry that it finds. */
  function Refreshed(s: Book, id: int, addr: Address, nTimePenalty: int, nNow: int): Book
    requires id in s.mapInfo
  {
    var info := s.mapInfo[id];
    Restamped(s, id, RefreshedTime(info.nTime, addr, nTimePenalty, nNow),
              MergedServices(info.nServices, addr.nServices), info.nLastTry, info.nLastSuccess, info.nAttempts)
  }

  /** The entry is in the bucket, at the cost of `victim` when the bucket was full without it. */
  ghost predicate Placed(s: Book, id: int, b: nat, nNow: int, victim: int, n: seq<nat>, s': Book) {
    && id in s.mapInfo && b < |s.vvNew|
    && if id in s.vvNew[b] then s' == s
       else
         var r := Referenced(s, id);
         if |s.vvNew[b]| == NEW_BUCKET_SIZE then
           && RandomOk(r) && victim in s.vvNew[b] && victim in r.mapInfo
           && s' == Inserted(Dropped(r, b, victim), b, id)
           && (FirstTerrible(r, b, nNow, victim) || (NoneTerrible(r, b, nNow) && OldestSampled(r, b, n, victim)))
         else s' == Inserted(r, b, id)
  }

  /** What Add_ does to the book. An entry that is known, has news, and is in less than four buckets, gets one place
      more only if the number drawn below 2^nRefCount is 0. */
  ghost predicate Added(env: Env, s: Book, addr: Address, source: NetAddr, nTimePenalty: int, nNow: int,
                        nRnd: nat, victim: int, n: seq<nat>, s': Book) {
    if !env.routable(addr.ip) then s' == s
    else
      var b := NewBucket(env, s.nKey, addr.ip, source);
      if addr.ip in s.mapAddr then
        && s.mapAddr[addr.ip] in s.mapInfo
        && var id := s.mapAddr[addr.ip];
           var s1 := Refreshed(s, id, addr, nTimePenalty, nNow);
           var info := s1.mapInfo[id];
           if addr.nTime == 0 || (info.nTime != 0 && addr.nTime <= info.nTime) || info.fInTried
              || info.nRefCount == NEW_BUCKETS_PER_ADDRESS
           then s' == s1
           else
             && info.nRefCount >= 0 && nRnd < Words.Pow2(info.nRefCount)
             && if nRnd == 0 then Placed(s1, id, b, nNow, victim, n, s') else s' == s1
      else
        Placed(Created(s, addr, source, Trunc32(Max(0, addr.nTime - nTimePenalty))), s.nIdCount, b, nNow, victim, n, s')
  }

  lemma RefreshedOk(env: Env, s: Book, id: int, addr: Address, nTimePenalty: int, nNow: int)
    requires BookOk(env, s) && id in s.mapInfo
    ensures BookOk(env, Refreshed(s, id, addr, nTimePenalty, nNow))
  {
    hide TriedOk, MapsOk, RefsOkBut, CountsOk, RandomOk, NewBucketsOk, Restamped, RefreshedTime, MergedServices;
    var info := s.mapInfo[id];
    RestampedOk(env, s, id, RefreshedTime(info.nTime, addr, nTimePenalty, nNow),
      MergedServices(info.nServices, addr.nServices), info.nLastTry, info.nLastSuccess, info.nAttempts, -1, 0);
  }

  lemma RefreshedIds(s: Book, id: int, addr: Address, nTimePenalty: int, nNow: int)
    requires id in s.mapInfo
    ensures var s' := Refreshed(s, id, addr, nTimePenalty, nNow);
            id in s'.mapInfo && s'.mapInfo[id].ip == s.mapInfo[id].ip && s'.nKey == s.nKey
  {
    hide RefreshedTime, MergedServices;
  }

  lemma EntryOfAddress(env: Env, s: Book, ip: NetAddr)
    requires BookOk(env, s)
    ensures ip in s.mapAddr ==> s.mapAddr[ip] in s.mapInfo && s.mapInfo[s.mapAddr[ip]].ip == ip
    ensures MapsOk(s)
  {
  }

  lemma EntryCount(env: Env, s: Book, id: int)
    requires Linked(env, s) && id in s.mapInfo && !s.mapInfo[id].fInTried
    ensures s.mapInfo[id].nRefCount == CountIn(s.vvNew, id)
  {
    hide TriedOk, MapsOk, NewBucketsOk, CountsOk, StampsOk, RandomOk;
  }

  lemma EntryRefs(env: Env, s: Book, id: int)
    requires BookOk(env, s) && id in s.mapInfo
    ensures s.mapInfo[id].nRefCount <= NEW_BUCKETS_PER_ADDRESS
    ensures !s.mapInfo[id].fInTried ==> s.mapInfo[id].nRefCount >= 1
  {
    assert RefsOkBut(s, -1, 0);
    assert MapsOk(s);
  }

  lemma NotInABucket(env: Env, s: Book, id: int)
    requires CountIn(s.vvNew, id) == 0
    ensures forall b :: 0 <= b < |s.vvNew| ==> id !in s.vvNew[b]
  {
    CountZero(s.vvNew, id);
  }

  lemma BucketCountBut(env: Env, s: Book, id: int)
    requires BookOkBut(env, s, id, 0)
    ensures |s.vvNew| == NEW_BUCKET_COUNT
  {
  }

  lemma RoomOf(env: Env, s: Book, x: int, d: int, b: nat)
    requires BookOkBut(env, s, x, d) && b < |s.vvNew|
    ensures |s.vvNew[b]| <= NEW_BUCKET_SIZE
  {
  }

  lemma DroppedKeeps(env: Env, s: Book, b: nat, victim: int, x: int, d: int, id: int)
    requires BookOkBut(env, s, x, d) && b < |s.vvNew| && victim in s.vvNew[b] && victim in s.mapInfo
    requires id in s.mapInfo && id != victim
    ensures var s' := Dropped(s, b, victim);
            id in s'.mapInfo && s'.mapInfo[id].fInTried == s.mapInfo[id].fInTried
                && s'.vvNew == s.vvNew[b := s.vvNew[b] - {victim}]
  {
    var s1 := WithInfo(s, victim, s.mapInfo[victim].(nRefCount := s.mapInfo[victim].nRefCount - 1));
    hide MapsOk, NewBucketsOk, RefsOkBut, TriedOk, CountsOk, StampsOk, Erased, RandomOk;
    if s.mapInfo[victim].nRefCount == 1 {
      WithoutRefs(s, victim);
      ErasedMapsRandom(s1, victim);
      ErasedFields(s1, victim);
      assert id in s1.mapInfo - {victim};
    }
  }
}
