/** The address manager's state and its invariant (CAddrMan in a3/a2/addrman.h; Check_ in a3/a2/addrman.cpp). */
module AddrBook {
  const TRIED_BUCKET_COUNT: nat := 64
  const TRIED_BUCKET_SIZE: nat := 64
  const NEW_BUCKET_COUNT: nat := 256
  const NEW_BUCKET_SIZE: nat := 64
  const NEW_BUCKETS_PER_ADDRESS: nat := 4
  const TRIED_ENTRIES_INSPECT_ON_EVICT: nat := 4
  const HORIZON_DAYS: int := 30
  const RETRIES: int := 3
  const MAX_FAILURES: int := 10
  const MIN_FAIL_DAYS: int := 7
  const GETADDR_MAX_PCT: nat := 23
  const GETADDR_MAX: nat := 2500

  type NetAddr = nat
  type Key = seq<nat>

  /** CAddress: an address and port, with what its peers say about it. */
  datatype Address = Address(ip: NetAddr, port: nat, nServices: bv64, nTime: nat)

  /** CAddrInfo. */
  datatype AddrInfo = AddrInfo(
    ip: NetAddr, port: nat, nServices: bv64, nTime: nat, source: NetAddr,
    nLastSuccess: int, nLastTry: int, nAttempts: int,
    nRefCount: int, fInTried: bool, nRandomPos: int)
  {
    predicate IsTerrible(nNow: int) {
      if nLastTry != 0 && nLastTry >= nNow - 60 then false
      else if nTime > nNow + 10 * 60 then true
      else if nTime == 0 || nNow - nTime > HORIZON_DAYS * 86400 then true
      else if nLastSuccess == 0 && nAttempts >= RETRIES then true
      else nNow - nLastSuccess > MIN_FAIL_DAYS * 86400 && nAttempts >= MAX_FAILURES
    }
  }

  /** The hash functions behind the bucket choice, and the routability test. */
  datatype Env = Env(
    triedHash: (Key, NetAddr, nat) -> nat,
    newHash: (Key, NetAddr, NetAddr) -> nat,
    routable: NetAddr -> bool)

  /** The fields of CAddrMan. */
  datatype Book = Book(
    nKey: Key, nIdCount: nat,
    mapInfo: map<int, AddrInfo>, mapAddr: map<NetAddr, int>, vRandom: seq<int>,
    nTried: int, vvTried: seq<seq<int>>, nNew: int, vvNew: seq<set<int>>)

  function TriedBucket(env: Env, key: Key, info: AddrInfo): (b: nat)
    ensures b < TRIED_BUCKET_COUNT
  {
    env.triedHash(key, info.ip, info.port) % TRIED_BUCKET_COUNT
  }

  function NewBucket(env: Env, key: Key, ip: NetAddr, source: NetAddr): (b: nat)
    ensures b < NEW_BUCKET_COUNT
  {
    env.newHash(key, ip, source) % NEW_BUCKET_COUNT
  }

  /** In how many of the buckets the id is. */
  function CountIn(vv: seq<set<int>>, id: int): (n: nat)
    ensures n <= |vv|
  {
    if vv == [] then 0 else (if id in vv[0] then 1 else 0) + CountIn(vv[1..], id)
  }

  // ----- the invariant, clause by clause -----

  /** mapInfo and mapAddr are inverse to each other, and ids come from the counter. */
  predicate MapsOk(s: Book) {
    && (forall id :: id in s.mapInfo ==> 0 <= id < s.nIdCount)
    && (forall id :: id in s.mapInfo ==> s.mapInfo[id].ip in s.mapAddr && s.mapAddr[s.mapInfo[id].ip] == id)
    && (forall a :: a in s.mapAddr ==> s.mapAddr[a] in s.mapInfo && s.mapInfo[s.mapAddr[a]].ip == a)
  }

  /** mapInfo and vRandom are inverse to each other. */
  predicate RandomOk(s: Book) {
    && (forall id :: id in s.mapInfo ==>
          0 <= s.mapInfo[id].nRandomPos < |s.vRandom| && s.vRandom[s.mapInfo[id].nRandomPos] == id)
    && (forall p :: 0 <= p < |s.vRandom| ==> s.vRandom[p] in s.mapInfo && s.mapInfo[s.vRandom[p]].nRandomPos == p)
  }

  /** The "new" buckets: at most 64 entries each, all of them known and not tried. */
  predicate NewBucketsOk(s: Book) {
    && |s.vvNew| == NEW_BUCKET_COUNT
    && (forall b :: 0 <= b < |s.vvNew| ==> |s.vvNew[b]| <= NEW_BUCKET_SIZE)
    && (forall b, id :: 0 <= b < |s.vvNew| && id in s.vvNew[b] ==> id in s.mapInfo && !s.mapInfo[id].fInTried)
  }

  /** Reference counts are the numbers of "new" buckets, between 1 and 4; only the entry x that is being added may be
      out by d. */
  predicate RefsOkBut(s: Book, x: int, d: int) {
    forall id :: id in s.mapInfo ==>
      var info := s.mapInfo[id];
      if info.fInTried then info.nRefCount == 0
      else if id == x then info.nRefCount == CountIn(s.vvNew, id) + d && info.nRefCount <= NEW_BUCKETS_PER_ADDRESS
      else info.nRefCount == CountIn(s.vvNew, id) && 1 <= info.nRefCount <= NEW_BUCKETS_PER_ADDRESS
  }

  /** What is in a "tried" bucket is a tried entry, and that bucket is its own. */
  predicate TriedMembers(env: Env, s: Book) {
    forall b, p :: 0 <= b < |s.vvTried| && 0 <= p < |s.vvTried[b]| ==>
      var id := s.vvTried[b][p];
      id in s.mapInfo && s.mapInfo[id].fInTried && TriedBucket(env, s.nKey, s.mapInfo[id]) == b
  }

  predicate TriedDistinct(s: Book) {
    forall b, p, q :: 0 <= b < |s.vvTried| && 0 <= p < q < |s.vvTried[b]| ==> s.vvTried[b][p] != s.vvTried[b][q]
  }

  predicate TriedComplete(env: Env, s: Book)
    requires |s.vvTried| == TRIED_BUCKET_COUNT
  {
    forall id :: id in s.mapInfo && s.mapInfo[id].fInTried ==> id in s.vvTried[TriedBucket(env, s.nKey, s.mapInfo[id])]
  }

  /** The "tried" buckets: at most 64 entries each, every tried entry once, in its own bucket. */
  predicate TriedOk(env: Env, s: Book) {
    && |s.vvTried| == TRIED_BUCKET_COUNT
    && (forall b :: 0 <= b < |s.vvTried| ==> |s.vvTried[b]| <= TRIED_BUCKET_SIZE)
    && TriedMembers(env, s) && TriedDistinct(s) && TriedComplete(env, s)
  }

  function TriedIds(m: map<int, AddrInfo>): set<int> { set id | id in m && m[id].fInTried }

  function NewIds(m: map<int, AddrInfo>): set<int> { set id | id in m && !m[id].fInTried }

  predicate CountsOk(s: Book) {
    s.nTried == |TriedIds(s.mapInfo)| && s.nNew == |NewIds(s.mapInfo)| && |s.vRandom| == s.nTried + s.nNew
  }

  /** Times are not negative, and a tried entry has had a success. */
  predicate StampsOk(s: Book) {
    forall id :: id in s.mapInfo ==>
      && s.mapInfo[id].nLastTry >= 0 && s.mapInfo[id].nLastSuccess >= 0
      && (s.mapInfo[id].fInTried ==> s.mapInfo[id].nLastSuccess != 0)
  }

  /** The five indexes agree. */
  predicate LinkedBut(env: Env, s: Book, x: int, d: int) {
    && MapsOk(s) && RandomOk(s) && NewBucketsOk(s) && RefsOkBut(s, x, d)
    && TriedOk(env, s) && CountsOk(s)
  }

  predicate Linked(env: Env, s: Book) { LinkedBut(env, s, -1, 0) }

  predicate BookOkBut(env: Env, s: Book, x: int, d: int) { LinkedBut(env, s, x, d) && StampsOk(s) }

  /** The whole invariant. -1 is never an id. */
  predicate BookOk(env: Env, s: Book) { BookOkBut(env, s, -1, 0) }

  /** The book of a new manager. */
  function EmptyBook(key: Key): Book {
    Book(key, 0, map[], map[], [], 0, seq(TRIED_BUCKET_COUNT, _ => []), 0, seq(NEW_BUCKET_COUNT, _ => {}))
  }

  lemma EmptyBookOk(env: Env, key: Key)
    ensures BookOk(env, EmptyBook(key))
  {
  }

  // ----- counting -----

  lemma {:induction false} CountOf(vv: seq<set<int>>, id: int, b: nat, bucket: set<int>)
    requires b < |vv|
    ensures CountIn(vv[b := bucket], id) ==
        CountIn(vv, id) - (if id in vv[b] then 1 else 0) + (if id in bucket then 1 else 0)
  {
    if b == 0 {
      assert vv[b := bucket][1..] == vv[1..];
    } else {
      CountOf(vv[1..], id, b - 1, bucket);
      assert vv[b := bucket][1..] == vv[1..][b - 1 := bucket];
    }
  }

  lemma {:induction false} CountZero(vv: seq<set<int>>, id: int)
    ensures CountIn(vv, id) == 0 <==> forall b :: 0 <= b < |vv| ==> id !in vv[b]
  {
    if vv == [] {
    } else {
      CountZero(vv[1..], id);
      if CountIn(vv, id) == 0 {
        forall b | 0 <= b < |vv| ensures id !in vv[b] {
          if b > 0 { assert vv[b] == vv[1..][b - 1]; }
        }
      }
    }
  }
}
