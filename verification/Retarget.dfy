/** GetNextWorkRequired (a3/a2/main.cpp): the compact target of the next block, and how far one retarget can move it. */
module Retarget {
  import opened Bytes
  import opened BigNum
  import opened Compact

  const nTargetTimespan: int := 14 * 24 * 60 * 60
  const nTargetSpacing: int := 10 * 60
  const nInterval: nat := 2016

  /** The fields of a block index entry that count here; a branch is the list of its entries by height. */
  datatype Header = Header(nTime: nat, nBits: nat)

  predicate BitsOk(chain: seq<Header>) { forall i :: 0 <= i < |chain| ==> chain[i].nBits < 0x1_0000_0000 }

  /** A proof-of-work limit is a positive 256-bit number. */
  predicate LimitOk(limit: int) { 0 < limit < Pow256(32) }

  /** Division of CBigNum, towards zero. */
  function TruncDiv(a: int, b: int): int
    requires b > 0
  {
    if a >= 0 then a / b else -((-a) / b)
  }

  function Clamped(nActualTimespan: int): (t: int)
    ensures nTargetTimespan / 4 <= t <= nTargetTimespan * 4
  {
    if nActualTimespan < nTargetTimespan / 4 then nTargetTimespan / 4
    else if nActualTimespan > nTargetTimespan * 4 then nTargetTimespan * 4
    else nActualTimespan
  }

  /** The new target before it is made compact. */
  function NewTarget(oldBits: nat, nActualTimespan: int, limit: int): int
    requires oldBits < 0x1_0000_0000
  {
    var bnNew := TruncDiv(Decoded(oldBits) * Clamped(nActualTimespan), nTargetTimespan);
    if bnNew > limit then limit else bnNew
  }

  /** The block on which the testnet rule falls back: the last one that is the first of its interval or has not the
      minimum difficulty. */
  predicate LastReal(chain: seq<Header>, limitBits: nat, i: nat) {
    && i < |chain| && (i % nInterval == 0 || chain[i].nBits != limitBits)
    && forall j :: i < j < |chain| ==> j % nInterval != 0 && chain[j].nBits == limitBits
  }

  /** What the next block must meet. */
  ghost predicate NextWork(chain: seq<Header>, fTestNet: bool, nBlockTime: int, limit: int, nBits: nat)
    requires BitsOk(chain)
  {
    if chain == [] then nBits == Encoded(limit)
    else
      var last := chain[|chain| - 1];
      if |chain| % nInterval == 0 then
        AtLeastOneInterval(|chain|);
        nBits == Encoded(NewTarget(last.nBits, last.nTime - chain[|chain| - nInterval].nTime, limit))
      else if !fTestNet then nBits == last.nBits
      else if nBlockTime > last.nTime + nTargetSpacing * 2 then nBits == Encoded(limit)
      else exists i: nat :: LastReal(chain, Encoded(limit), i) && nBits == chain[i].nBits
  }

  /** GetNextWorkRequired. pindexLast is the last entry of the branch, or null if the branch is empty. */
  method GetNextWorkRequired(chain: seq<Header>, fTestNet: bool, nBlockTime: int, limit: int) returns (nBits: nat)
    requires BitsOk(chain)
    ensures NextWork(chain, fTestNet, nBlockTime, limit, nBits)
  {
    hide Decoded, Encoded;
    var bnLimit := new CBigNum(limit);
    var nProofOfWorkLimit := bnLimit.GetCompact();
    if chain == [] { return nProofOfWorkLimit; }
    var pindexLast := |chain| - 1;
    if (pindexLast + 1) % nInterval != 0 {
      if fTestNet {
        if nBlockTime > chain[pindexLast].nTime + nTargetSpacing * 2 { return nProofOfWorkLimit; }
        var pindex := pindexLast;
        while pindex > 0 && pindex % nInterval != 0 && chain[pindex].nBits == nProofOfWorkLimit
          invariant 0 <= pindex < |chain|
          invariant forall j :: pindex < j < |chain| ==> j % nInterval != 0 && chain[j].nBits == nProofOfWorkLimit
        {
          pindex := pindex - 1;
        }
        assert LastReal(chain, nProofOfWorkLimit, pindex);
        return chain[pindex].nBits;
      }
      return chain[pindexLast].nBits;
    }
    AtLeastOneInterval(|chain|);
    var pindexFirst := pindexLast;
    var i := 0;
    while pindexFirst >= 0 && i < nInterval - 1
      invariant 0 <= i <= nInterval - 1 && pindexFirst == pindexLast - i && pindexFirst >= 0
    {
      pindexFirst := pindexFirst - 1;
      i := i + 1;
    }
    var nActualTimespan := chain[pindexLast].nTime - chain[pindexFirst].nTime;
    if nActualTimespan < nTargetTimespan / 4 { nActualTimespan := nTargetTimespan / 4; }
    if nActualTimespan > nTargetTimespan * 4 { nActualTimespan := nTargetTimespan * 4; }
    var bnNew := new CBigNum(0);
    bnNew.SetCompact(chain[pindexLast].nBits);
    bnNew.bn := bnNew.bn * nActualTimespan;
    bnNew.bn := TruncDiv(bnNew.bn, nTargetTimespan);
    if bnNew.bn > limit { bnNew.bn := limit; }
    nBits := bnNew.GetCompact();
  }

  lemma AtLeastOneInterval(n: nat)
    requires n > 0 && n % nInterval == 0
    ensures n >= nInterval
  {
  }

  /** No retarget goes above the limit. From a target that is not negative it does not go above four times that one
      either, and what it sets is the new target rounded down with a relative error below 2^-15. From a negative target,
      which no hash meets, it does not get to a positive one. */
  lemma RetargetIsBounded(oldBits: nat, nActualTimespan: int, limit: int)
    requires oldBits < 0x1_0000_0000 && LimitOk(limit)
    ensures var nBits := Encoded(NewTarget(oldBits, nActualTimespan, limit));
      && Decoded(nBits) <= limit
      && (Decoded(oldBits) >= 0 ==>
            && 0 <= Decoded(nBits) <= 4 * Decoded(oldBits)
            && Close(NewTarget(oldBits, nActualTimespan, limit), Decoded(nBits)))
      && (Decoded(oldBits) < 0 ==> Decoded(nBits) <= 0)
  {
    hide Decoded, Encoded, Pow256;
    var x := NewTarget(oldBits, nActualTimespan, limit);
    assert Back(x) == Decoded(Encoded(x));
    var old_, t := Decoded(oldBits), Clamped(nActualTimespan);
    if old_ >= 0 {
      ScaleBound(old_, t);
      PowGrows(32, 254);
      CompactIsClose(x);
    } else {
      ScaleBound(-old_, t);
      assert old_ * t == -((-old_) * t);
      assert old_ * t < 0;
      NegativeStays(x);
    }
  }

  lemma ScaleBound(x: int, t: int)
    requires x >= 0 && 0 <= t <= nTargetTimespan * 4
    ensures 0 <= x * t / nTargetTimespan <= 4 * x
  {
    assert x * t <= x * (nTargetTimespan * 4);
    assert x * (nTargetTimespan * 4) == 4 * x * nTargetTimespan;
  }
}
