/** The consistency check of the address manager (Check_ in a3/a2/addrman.cpp), and why it never fails. */
module AddrCheck {
  import opened Wrappers
  import opened AddrBook
  import opened AddrStore
  import opened AddrMan

  function Flat(vv: seq<seq<int>>): seq<int> {
    if vv == [] then [] else Flat(vv[..|vv| - 1]) + vv[|vv| - 1]
  }

  /** The clauses that Check_ tests of one entry. mapAddr[info] is 0 when the address is missing. */
  predicate EntryOk(s: Book, n: int)
    requires n in s.mapInfo
  {
    var info := s.mapInfo[n];
    && (if info.fInTried then info.nLastSuccess != 0 && info.nRefCount == 0
        else 1 <= info.nRefCount <= NEW_BUCKETS_PER_ADDRESS)
    && (if info.ip in s.mapAddr then s.mapAddr[info.ip] else 0) == n
    && 0 <= info.nRandomPos < |s.vRandom| && s.vRandom[info.nRandomPos] == n
    && info.nLastTry >= 0 && info.nLastSuccess >= 0
  }

  /** The reference count that Check_ expects of an id. */
  function RefsOf(m: map<int, AddrInfo>, id: int): int {
    if id in m && !m[id].fInTried then m[id].nRefCount else 0
  }

  /** What Check_ checks: every tried entry is in the "tried" buckets once, and every other entry in as many "new"
      buckets as its reference count says. */
  ghost predicate CheckOk(s: Book) {
    && |s.vRandom| == s.nTried + s.nNew
    && (forall n :: n in s.mapInfo ==> EntryOk(s, n))
    && |TriedIds(s.mapInfo)| == s.nTried && |NewIds(s.mapInfo)| == s.nNew
    && multiset(Flat(s.vvTried)) == multiset(TriedIds(s.mapInfo))
    && (forall id :: CountIn(s.vvNew, id) == RefsOf(s.mapInfo, id))
  }

  // ----- Check_ -----

  function Left(mapNew: map<int, int>, id: int): int { if id in mapNew then mapNew[id] else 0 }

  lemma {:induction false} FlatPrefix(vv: seq<seq<int>>, n: nat)
    requires n <= |vv|
    ensures multiset(Flat(vv[..n])) <= multiset(Flat(vv))
    decreases |vv|
  {
    if n < |vv| {
      FlatPrefix(vv[..|vv| - 1], n);
      assert vv[..|vv| - 1][..n] == vv[..n];
      assert multiset(Flat(vv)) == multiset(Flat(vv[..|vv| - 1])) + multiset(vv[|vv| - 1]);
    } else {
      assert vv[..n] == vv;
    }
  }

  lemma FlatNext(vv: seq<seq<int>>, n: nat)
    requires n < |vv|
    ensures Flat(vv[..n + 1]) == Flat(vv[..n]) + vv[n]
  {
    assert vv[..n + 1][..n] == vv[..n];
  }

  /** The first loop: the entries. */
  method CheckEntries(s: Book) returns (r: int, setTried: set<int>, mapNew: map<int, int>)
    ensures r == 0 <==> forall n :: n in s.mapInfo ==> EntryOk(s, n)
    ensures r == 0 ==> setTried == TriedIds(s.mapInfo) && mapNew.Keys == NewIds(s.mapInfo)
    ensures r == 0 ==> forall id :: id in mapNew ==> mapNew[id] == s.mapInfo[id].nRefCount
  {
    setTried, mapNew := {}, map[];
    var todo := s.mapInfo.Keys;
    while todo != {}
      invariant todo <= s.mapInfo.Keys
      invariant forall n :: n in s.mapInfo && n !in todo ==> EntryOk(s, n)
      invariant forall n :: n in setTried <==> n in s.mapInfo && n !in todo && s.mapInfo[n].fInTried
      invariant forall n :: n in mapNew <==> n in s.mapInfo && n !in todo && !s.mapInfo[n].fInTried
      invariant forall n :: n in mapNew ==> mapNew[n] == s.mapInfo[n].nRefCount
    {
      var n := Pick(todo);
      todo := todo - {n};
      var info := s.mapInfo[n];
      if info.fInTried {
        if info.nLastSuccess == 0 { return -1, setTried, mapNew; }
        if info.nRefCount != 0 { return -2, setTried, mapNew; }
        setTried := setTried + {n};
      } else {
        if info.nRefCount < 0 || info.nRefCount > NEW_BUCKETS_PER_ADDRESS { return -3, setTried, mapNew; }
        if info.nRefCount == 0 { return -4, setTried, mapNew; }
        mapNew := mapNew[n := info.nRefCount];
      }
      if (if info.ip in s.mapAddr then s.mapAddr[info.ip] else 0) != n { return -5, setTried, mapNew; }
      if info.nRandomPos < 0 || info.nRandomPos >= |s.vRandom|
          || s.vRandom[info.nRandomPos] != n { return -14, setTried, mapNew; }
      if info.nLastTry < 0 { return -6, setTried, mapNew; }
      if info.nLastSuccess < 0 { return -8, setTried, mapNew; }
    }
    assert setTried == TriedIds(s.mapInfo) by { forall i ensures i in setTried <==> i in TriedIds(s.mapInfo) { } }
    assert mapNew.Keys == NewIds(s.mapInfo) by { forall i ensures i in mapNew.Keys <==> i in NewIds(s.mapInfo) { } }
    return 0, setTried, mapNew;
  }

  /** The loop over the "tried" buckets: strikes each id off the set. */
  method CheckTried(vvTried: seq<seq<int>>, all: set<int>) returns (ok: bool, setTried: set<int>)
    ensures ok && setTried == {} <==> multiset(Flat(vvTried)) == multiset(all)
  {
    setTried := all;
    for n := 0 to |vvTried|
      invariant multiset(Flat(vvTried[..n])) + multiset(setTried) == multiset(all)
    {
      var vTried := vvTried[n];
      FlatNext(vvTried, n);
      FlatPrefix(vvTried, n + 1);
      for p := 0 to |vTried|
        invariant multiset(Flat(vvTried[..n])) + multiset(vTried[..p]) + multiset(setTried) == multiset(all)
      {
        assert vTried[..p + 1] == vTried[..p] + [vTried[p]];
        if vTried[p] !in setTried {
          StruckTwice(vvTried, all, n, p, setTried);
          return false, setTried;
        }
        assert multiset(setTried) == multiset(setTried - {vTried[p]}) + multiset{vTried[p]};
        setTried := setTried - {vTried[p]};
      }
      assert vTried[..|vTried|] == vTried;
    }
    assert vvTried[..|vvTried|] == vvTried;
    NothingLeft(setTried, multiset(Flat(vvTried)), all);
    return true, setTried;
  }

  lemma StruckTwice(vv: seq<seq<int>>, all: set<int>, n: nat, p: nat, left: set<int>)
    requires n < |vv| && p < |vv[n]| && vv[n][p] !in left
    requires multiset(Flat(vv[..n])) + multiset(vv[n][..p]) + multiset(left) == multiset(all)
    ensures multiset(Flat(vv)) != multiset(all)
  {
    var id, before := vv[n][p], multiset(Flat(vv[..n])) + multiset(vv[n][..p]);
    FlatNext(vv, n);
    FlatPrefix(vv, n + 1);
    assert vv[n] == vv[n][..p] + ([id] + vv[n][p + 1..]);
    assert multiset(Flat(vv[..n + 1]))[id] >= before[id] + 1;
    assert multiset(all)[id] == before[id];
  }

  lemma NothingLeft(left: set<int>, done: multiset<int>, all: set<int>)
    requires done + multiset(left) == multiset(all)
    ensures left == {} <==> done == multiset(all)
  {
    if i :| i in left {
      assert multiset(all)[i] == done[i] + multiset(left)[i] == done[i] + 1;
    } else {
      assert left == {} by { forall i | i in left ensures false { } }
    }
  }

  /** The loop over the "new" buckets: counts the references down. */
  method CheckNew(vvNew: seq<set<int>>, refs: map<int, int>) returns (ok: bool, mapNew: map<int, int>)
    requires forall id :: id in refs ==> refs[id] >= 1
    ensures ok && mapNew == map[] <==> forall id :: CountIn(vvNew, id) == Left(refs, id)
  {
    mapNew := refs;
    for n := 0 to |vvNew|
      invariant forall id :: id in mapNew ==> mapNew[id] >= 1
      invariant forall id :: CountIn(vvNew[..n], id) + Left(mapNew, id) == Left(refs, id)
    {
      ghost var before := mapNew;
      var todo := vvNew[n];
      while todo != {}
        invariant todo <= vvNew[n]
        invariant forall id :: id in mapNew ==> mapNew[id] >= 1
        invariant forall id :: Left(mapNew, id) == Left(before, id) - (if id in vvNew[n] && id !in todo then 1 else 0)
      {
        var id := Pick(todo);
        if id !in mapNew {
          TooManyPlaces(vvNew, n, id, Left(refs, id));
          return false, mapNew;
        }
        todo := todo - {id};
        mapNew := mapNew[id := mapNew[id] - 1];
        if mapNew[id] == 0 { mapNew := mapNew - {id}; }
      }
      forall id ensures CountIn(vvNew[..n + 1], id) == CountIn(vvNew[..n], id) + (if id in vvNew[n] then 1 else 0) {
        CountPrefix(vvNew, n, id);
      }
    }
    assert vvNew[..|vvNew|] == vvNew;
    NoneOwed(vvNew, refs, mapNew);
    return true, mapNew;
  }

  lemma NoneOwed(vv: seq<set<int>>, refs: map<int, int>, left: map<int, int>)
    requires forall id :: id in left ==> left[id] >= 1
    requires forall id :: CountIn(vv, id) + Left(left, id) == Left(refs, id)
    ensures left == map[] <==> forall id :: CountIn(vv, id) == Left(refs, id)
  {
    if id :| id in left {
      assert CountIn(vv, id) + Left(left, id) == Left(refs, id);
    } else {
      assert left == map[] by { forall id | id in left ensures false { } }
    }
  }

  lemma {:induction false} CountPrefix(vv: seq<set<int>>, n: nat, id: int)
    requires n < |vv|
    ensures CountIn(vv[..n + 1], id) == CountIn(vv[..n], id) + (if id in vv[n] then 1 else 0)
  {
    if n == 0 {
      assert vv[..1][1..] == [];
    } else {
      CountPrefix(vv[1..], n - 1, id);
      assert vv[..n + 1][1..] == vv[1..][..n] && vv[..n][1..] == vv[1..][..n - 1];
    }
  }

  lemma {:induction false} CountGrows(vv: seq<set<int>>, n: nat, id: int)
    requires n <= |vv|
    ensures CountIn(vv[..n], id) <= CountIn(vv, id)
    decreases |vv| - n
  {
    if n < |vv| {
      CountPrefix(vv, n, id);
      CountGrows(vv, n + 1, id);
    } else {
      assert vv[..n] == vv;
    }
  }

  lemma TooManyPlaces(vv: seq<set<int>>, n: nat, id: int, refs: int)
    requires n < |vv| && id in vv[n] && CountIn(vv[..n], id) == refs
    ensures CountIn(vv, id) != refs
  {
    CountPrefix(vv, n, id);
    CountGrows(vv, n + 1, id);
  }

  /** Check_. Entries are visited in no particular order. */
  method Check_(s: Book) returns (r: int)
    ensures r == 0 <==> CheckOk(s)
  {
    if |s.vRandom| != s.nTried + s.nNew { return -7; }
    var setTried, mapNew, ok;
    r, setTried, mapNew := CheckEntries(s);
    if r != 0 { return; }
    if |setTried| != s.nTried { return -9; }
    if |mapNew.Keys| != s.nNew { return -10; }
    forall id ensures Left(mapNew, id) == RefsOf(s.mapInfo, id) {
      assert id in mapNew.Keys <==> id in NewIds(s.mapInfo);
    }
    forall id | id in mapNew ensures mapNew[id] >= 1 {
      assert id in mapNew.Keys;
      assert EntryOk(s, id);
    }
    ok, setTried := CheckTried(s.vvTried, setTried);
    if !ok { return -11; }
    ok, mapNew := CheckNew(s.vvNew, mapNew);
    if !ok { return -12; }
    if setTried != {} { return -13; }
    if mapNew != map[] { return -15; }
    return 0;
  }

  // ----- the invariant passes the check -----

  lemma {:induction false} DistinctMultiset(v: seq<int>, id: int)
    requires forall p, q :: 0 <= p < q < |v| ==> v[p] != v[q]
    ensures multiset(v)[id] == if id in v then 1 else 0
  {
    if v != [] {
      var n := |v| - 1;
      DistinctMultiset(v[..n], id);
      assert v == v[..n] + [v[n]];
    }
  }

  /** Each tried entry occurs once in the "tried" buckets up to n, if its own is among them. */
  lemma {:induction false} TriedOnce(env: Env, s: Book, n: nat, id: int)
    requires TriedOk(env, s) && n <= |s.vvTried|
    ensures multiset(Flat(s.vvTried[..n]))[id] ==
            if id in s.mapInfo && s.mapInfo[id].fInTried && TriedBucket(env, s.nKey, s.mapInfo[id]) < n then 1 else 0
  {
    if n > 0 {
      TriedOnce(env, s, n - 1, id);
      InOwnBucket(env, s, n - 1, id);
      hide TriedBucket, TriedOk;
      FlatNext(s.vvTried, n - 1);
    }
  }

  lemma InOwnBucket(env: Env, s: Book, k: nat, id: int)
    requires TriedOk(env, s) && k < |s.vvTried|
    ensures multiset(s.vvTried[k])[id] ==
            if id in s.mapInfo && s.mapInfo[id].fInTried && TriedBucket(env, s.nKey, s.mapInfo[id]) == k then 1 else 0
  {
    hide TriedBucket;
    DistinctMultiset(s.vvTried[k], id);
    assert TriedMembers(env, s) && TriedComplete(env, s);
  }

  lemma TriedPasses(env: Env, s: Book)
    requires TriedOk(env, s)
    ensures multiset(Flat(s.vvTried)) == multiset(TriedIds(s.mapInfo))
  {
    forall id ensures multiset(Flat(s.vvTried))[id] == multiset(TriedIds(s.mapInfo))[id] {
      TriedOnce(env, s, |s.vvTried|, id);
      assert s.vvTried[..|s.vvTried|] == s.vvTried;
    }
  }

  lemma RefsPass(s: Book)
    requires NewBucketsOk(s) && RefsOkBut(s, -1, 0) && MapsOk(s)
    ensures forall id :: CountIn(s.vvNew, id) == RefsOf(s.mapInfo, id)
  {
    forall id ensures CountIn(s.vvNew, id) == RefsOf(s.mapInfo, id) {
      CountZero(s.vvNew, id);
    }
  }

  /** When the five indexes agree, Check_ passes exactly if the time stamps are in order too. */
  lemma LinkedPassesIff(env: Env, s: Book)
    requires Linked(env, s)
    ensures CheckOk(s) <==> BookOk(env, s)
  {
    TriedPasses(env, s);
    RefsPass(s);
    hide TriedOk, NewBucketsOk;
    if CheckOk(s) {
      forall id | id in s.mapInfo
        ensures s.mapInfo[id].nLastTry >= 0 && s.mapInfo[id].nLastSuccess >= 0
        ensures s.mapInfo[id].fInTried ==> s.mapInfo[id].nLastSuccess != 0
      {
        assert EntryOk(s, id);
      }
    }
  }

  /** The invariant that every operation keeps implies everything that Check_ checks. */
  lemma BookPassesCheck(env: Env, s: Book)
    requires BookOk(env, s)
    ensures CheckOk(s)
  {
    LinkedPassesIff(env, s);
  }

  /** After Good_ found its entry, Check_ passes if and only if the time was positive. */
  lemma GoodPassesIff(env: Env, s: Book, id: int, nTime: int, origin: nat, drawn: seq<nat>, s': Book)
    requires BookOk(env, s) && id in s.mapInfo && MadeGood(env, s, id, nTime, origin, drawn, s') && Linked(env, s')
    ensures CheckOk(s') <==> nTime > 0
  {
    hide MadeGood, CheckOk, StampsOk, TriedOk, NewBucketsOk, MapsOk, RandomOk, RefsOkBut, CountsOk;
    GoodStamp(env, s, id, nTime, origin, drawn, s');
    LinkedPassesIff(env, s');
  }
}
