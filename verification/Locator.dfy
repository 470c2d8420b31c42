/** CBlockLocator (a3/a2/main.h): a list of block hashes, ten steps of one and then doubling steps back from a tip, by
    which another node finds where the two main chains part. */
module Locator {
  import opened Transactions
  import opened BlockChain
  import opened BlockIndex
  import opened MainChain
  import opened ChainState
  import opened Words

  /** How far before the tip the entry k of a locator is: 0 to 10, and then 9 and a power of two. */
  function Offset(k: nat): nat { if k <= 10 then k else 9 + Pow2(k - 10) }

  /** The step from entry k to the next one. */
  function Step(k: nat): nat { if k <= 10 then 1 else Pow2(k - 10) }

  lemma StepsToOffset(k: nat)
    ensures Offset(k + 1) == Offset(k) + Step(k) && Step(k) >= 1
    ensures Step(k + 1) == if k >= 10 then 2 * Step(k) else Step(k)
    ensures Offset(k + 1) > 10 <==> k >= 10
  {
    assert Pow2(1) == 2;
  }

  /** How many entries, from k on, a branch with a tip at this height has. */
  function EntriesFrom(height: nat, k: nat): (n: nat)
    ensures n >= k && Offset(n) > height
    ensures forall i :: k <= i < n ==> Offset(i) <= height
    decreases height + 1 - Offset(k)
  {
    if Offset(k) > height then k
    else
      StepsToOffset(k);
      EntriesFrom(height, k + 1)
  }

  /** The locator of a branch, given by its hashes from the genesis block on. */
  function LocatorOf(branch: seq<BlockHash>, hashGenesisBlock: BlockHash): seq<BlockHash>
    requires branch != []
  {
    var t := |branch| - 1;
    seq(EntriesFrom(t, 0), k requires 0 <= k < EntriesFrom(t, 0) => branch[t - Offset(k)]) + [hashGenesisBlock]
  }

  ghost function HashesOf(tip: CBlockIndex): (branch: seq<BlockHash>)
    ensures |branch| == |tip.anc| + 1
  {
    seq<BlockHash>(|tip.anc| + 1, i requires 0 <= i <= |tip.anc| => Path(tip)[i].hash)
  }

  /** The hash is that of a block on the main chain of the node. */
  ghost predicate InMain(cs: CChainState, h: BlockHash)
    reads cs
  {
    cs.pindexBest != null && h in cs.mapBlockIndex && OnPath(cs.mapBlockIndex[h], cs.pindexBest)
  }

  /** i is the first entry on the main chain; the length of the list if there is none. */
  ghost predicate FirstInMain(cs: CChainState, vHave: seq<BlockHash>, i: nat)
    reads cs
  {
    && i <= |vHave| && (i < |vHave| ==> InMain(cs, vHave[i]))
    && forall j :: 0 <= j < i ==> !InMain(cs, vHave[j])
  }

  /** The block that the first entry on the main chain leads to. */
  ghost function FoundAt(cs: CChainState, vHave: seq<BlockHash>, i: nat): CBlockIndex?
    reads cs
    requires FirstInMain(cs, vHave, i)
  {
    if i < |vHave| then cs.mapBlockIndex[vHave[i]] else cs.pindexGenesisBlock
  }

  /** IsInMainChain. */
  method IsInMainChain(cs: CChainState, pindex: CBlockIndex) returns (b: bool)
    requires cs.Valid() && pindex in cs.Nodes()
    ensures b <==> cs.pindexBest != null && OnPath(pindex, cs.pindexBest)
  {
    hide OnPath, LinksTo;
    if cs.pindexBest != null { LinksMeaning(cs.Nodes(), cs.pindexBest, pindex); }
    b := pindex.pnext != null || pindex == cs.pindexBest;
  }

  class CBlockLocator {
    const hashGenesisBlock: BlockHash
    var vHave: seq<BlockHash>

    constructor (hashGenesisBlock: BlockHash)
      ensures this.hashGenesisBlock == hashGenesisBlock && vHave == []
    {
      this.hashGenesisBlock, this.vHave := hashGenesisBlock, [];
    }

    method Set(tip: CBlockIndex?)
      requires tip != null ==> WellFormed(tip)
      modifies this
      ensures vHave == if tip == null then [hashGenesisBlock] else LocatorOf(HashesOf(tip), hashGenesisBlock)
    {
      hide WellFormed, EntriesFrom, Offset, Step;
      vHave := [];
      var nStep := 1;
      var pindex := tip;
      ghost var k: nat := 0;
      FirstStep();
      while pindex != null
        invariant tip == null ==> pindex == null && vHave == []
        invariant tip != null ==> At(tip, Offset(k), pindex) && |vHave| == k && k <= EntriesFrom(|tip.anc|, 0)
        invariant nStep == Step(k)
        invariant tip != null ==> forall i :: 0 <= i < k ==>
            Offset(i) <= |tip.anc| && vHave[i] == HashesOf(tip)[|tip.anc| - Offset(i)]
        decreases if tip == null then 0 else EntriesFrom(|tip.anc|, 0) - k
      {
        AtHash(tip, Offset(k), pindex);
        EntryExists(tip, k);
        StepsToOffset(k);
        vHave := vHave + [pindex.hash];
        pindex := WalkBack(tip, pindex, Offset(k), nStep);
        if |vHave| > 10 { nStep := nStep * 2; }
        k := k + 1;
      }
      if tip != null {
        EntryEnds(tip, k);
      }
      vHave := vHave + [hashGenesisBlock];
    }

    /** GetBlockIndex: the first block of the list that is on the node's main chain, or else the genesis block. */
    method GetBlockIndex(cs: CChainState) returns (pindex: CBlockIndex?)
      requires cs.Valid()
      ensures exists i: nat :: FirstInMain(cs, vHave, i) && pindex == FoundAt(cs, vHave, i)
    {
      hide OnPath, LinksTo, TreeOk;
      for k := 0 to |vHave|
        invariant forall j :: 0 <= j < k ==> !InMain(cs, vHave[j])
      {
        if vHave[k] in cs.mapBlockIndex {
          pindex := cs.mapBlockIndex[vHave[k]];
          var main := IsInMainChain(cs, pindex);
          if main {
            assert FirstInMain(cs, vHave, k);
            return pindex;
          }
        }
      }
      assert FirstInMain(cs, vHave, |vHave|);
      return cs.pindexGenesisBlock;
    }

    /** GetDistanceBack. */
    method GetDistanceBack(cs: CChainState) returns (nDistance: nat)
      requires cs.Valid()
      ensures exists i: nat :: FirstInMain(cs, vHave, i) && nDistance == Offset(i)
    {
      hide OnPath, LinksTo, TreeOk, Offset, Step;
      nDistance := 0;
      var nStep := 1;
      FirstStep();
      for k := 0 to |vHave|
        invariant nDistance == Offset(k) && nStep == Step(k)
        invariant forall j :: 0 <= j < k ==> !InMain(cs, vHave[j])
      {
        if vHave[k] in cs.mapBlockIndex {
          var main := IsInMainChain(cs, cs.mapBlockIndex[vHave[k]]);
          if main {
            assert FirstInMain(cs, vHave, k);
            return nDistance;
          }
        }
        StepsToOffset(k);
        nDistance := nDistance + nStep;
        if nDistance > 10 { nStep := nStep * 2; }
      }
      assert FirstInMain(cs, vHave, |vHave|);
    }
  }

  lemma FirstStep()
    ensures Offset(0) == 0 && Step(0) == 1
  {
  }

  /** n stands d blocks before the tip; it is null when that is before the genesis block. */
  ghost predicate At(tip: CBlockIndex, d: nat, n: CBlockIndex?) {
    if d <= |tip.anc| then n == Path(tip)[|tip.anc| - d] else n == null
  }

  lemma AtHash(tip: CBlockIndex, d: nat, n: CBlockIndex)
    requires WellFormed(tip) && At(tip, d, n)
    ensures d <= |tip.anc| && n.hash == HashesOf(tip)[|tip.anc| - d]
  {
  }

  lemma EntryExists(tip: CBlockIndex, k: nat)
    requires WellFormed(tip) && k <= EntriesFrom(|tip.anc|, 0) && Offset(k) <= |tip.anc|
    ensures k < EntriesFrom(|tip.anc|, 0)
  {
    hide EntriesFrom, Offset;
  }

  /** The list ends where the offsets pass the height. */
  lemma EntryEnds(tip: CBlockIndex, k: nat)
    requires k <= EntriesFrom(|tip.anc|, 0)
    ensures Offset(k) > |tip.anc| <==> k == EntriesFrom(|tip.anc|, 0)
  {
    hide EntriesFrom, Offset;
  }

  /** The inner loop of Set. */
  method WalkBack(tip: CBlockIndex, start: CBlockIndex, ghost d: nat, nStep: nat) returns (pindex: CBlockIndex?)
    requires WellFormed(tip) && At(tip, d, start)
    ensures At(tip, d + nStep, pindex)
  {
    hide WellFormed, At;
    pindex := start;
    var i := 0;
    while pindex != null && i < nStep
      invariant 0 <= i <= nStep && (pindex != null ==> At(tip, d + i, pindex))
      invariant pindex == null ==> At(tip, d + nStep, pindex)
    {
      OneBack(tip, d + i, pindex, nStep - i);
      pindex := pindex.pprev;
      i := i + 1;
    }
  }

  /** One step back; before the genesis block there is nothing, however many steps follow. */
  lemma OneBack(tip: CBlockIndex, d: nat, p: CBlockIndex, more: nat)
    requires WellFormed(tip) && At(tip, d, p) && more >= 1
    ensures p.pprev != null ==> At(tip, d + 1, p.pprev)
    ensures p.pprev == null ==> At(tip, d + more, null)
  {
    PathWellFormed(tip, |tip.anc| - d);
  }

  // ----- what the other node finds -----

  /** The branch, given by its hashes, leaves the node's main chain after height f. */
  ghost predicate LeavesAt(cs: CChainState, branch: seq<BlockHash>, f: nat)
    reads cs
  {
    && cs.pindexBest != null && f < |branch| && f <= |cs.pindexBest.anc|
    && (forall h :: 0 <= h <= f ==> branch[h] == Path(cs.pindexBest)[h].hash)
    && (forall h :: f < h < |branch| ==> !InMain(cs, branch[h]))
  }

  /** A common block is found under its hash. */
  lemma CommonIsFound(cs: CChainState, branch: seq<BlockHash>, f: nat, h: nat)
    requires cs.Valid() && LeavesAt(cs, branch, f) && h <= f
    ensures InMain(cs, branch[h]) && branch[h] in cs.mapBlockIndex
    ensures OnPath(cs.mapBlockIndex[branch[h]], cs.pindexBest) && cs.mapBlockIndex[branch[h]].nHeight == h
  {
    hide LinksTo;
    var n := Path(cs.pindexBest)[h];
    assert n in cs.Nodes();
    PathWellFormed(cs.pindexBest, h);
  }

  lemma OffsetValues(d: nat)
    requires d <= 11
    ensures Offset(d) == d
  {
    assert Pow2(1) == 2;
  }

  lemma OffsetDoubles(k: nat)
    requires k >= 10
    ensures Offset(k + 1) + 9 == 2 * Offset(k)
  {
  }

  /** The first offset that is not below d lies less than 2d-9 back, and is d itself up to 11. */
  lemma FirstOffsetNotBelow(i: nat, d: nat)
    requires Offset(i) >= d && forall j :: 0 <= j < i ==> Offset(j) < d
    ensures d <= 11 ==> i == d && Offset(i) == d
    ensures d > 11 ==> Offset(i) < 2 * d - 9
  {
    hide Offset;
    OffsetValues(0);
    OffsetValues(11);
    if d <= 11 {
      OffsetValues(d);
      if i < d { OffsetValues(i); }
    } else {
      if i <= 11 { OffsetValues(i); }
      OffsetDoubles(i - 1);
    }
  }

  /** The entry i of the locator leads to the fork, or close to it. */
  ghost predicate Leads(cs: CChainState, branch: seq<BlockHash>, f: nat, i: nat)
    reads cs
    requires f < |branch|
  {
    var vHave := LocatorOf(branch, branch[0]);
    var t, d := |branch| - 1, |branch| - 1 - f;
    && cs.pindexBest != null && i < |vHave| && vHave[i] in cs.mapBlockIndex
    && var found := cs.mapBlockIndex[vHave[i]];
       && OnPath(found, cs.pindexBest) && found.nHeight <= f
       && (d <= 11 ==> found.nHeight == f)
       && (d > 11 ==> t - found.nHeight < 2 * d - 9)
       && (i < |vHave| - 1 ==> t - found.nHeight == Offset(i))
  }

  /** A locator leads the other node to the block where the branches part, if that is at most 11 blocks back, and
      otherwise to a common block less than 2d-9 blocks back. GetDistanceBack tells its exact distance, unless only the
      genesis block at the end of the list was recognized. */
  lemma LocatorFindsFork(cs: CChainState, branch: seq<BlockHash>, f: nat, i: nat)
    requires cs.Valid() && LeavesAt(cs, branch, f) && FirstInMain(cs, LocatorOf(branch, branch[0]), i)
    ensures Leads(cs, branch, f, i)
  {
    hide CChainState.Valid, Path, OnPath, InMain, Offset, EntriesFrom, Leads;
    var n := EntriesFrom(|branch| - 1, 0);
    EntriesTell(cs, branch, f, n);
    CommonIsFound(cs, branch, f, 0);
    assert LocatorOf(branch, branch[0])[n] == branch[0];
    hide LocatorOf;
    if i < n { LeadsByEntry(cs, branch, f, i, n); } else { LeadsToGenesis(cs, branch, f, n); }
  }

  /** What EntriesTell says, as one fact. */
  ghost predicate Told(cs: CChainState, branch: seq<BlockHash>, f: nat, n: nat)
    reads cs
    requires f < |branch|
  {
    var vHave := LocatorOf(branch, branch[0]);
    |vHave| == n + 1 && forall j :: 0 <= j < n ==> ToldAt(cs, branch, f, vHave[j], Offset(j))
  }

  ghost predicate ToldAt(cs: CChainState, branch: seq<BlockHash>, f: nat, entry: BlockHash, offset: nat)
    reads cs
    requires f < |branch|
  {
    offset <= |branch| - 1 && entry == branch[|branch| - 1 - offset]
        && (InMain(cs, entry) <==> offset >= |branch| - 1 - f)
  }

  lemma LeadsByEntry(cs: CChainState, branch: seq<BlockHash>, f: nat, i: nat, n: nat)
    requires cs.Valid() && LeavesAt(cs, branch, f) && FirstInMain(cs, LocatorOf(branch, branch[0]), i)
    requires Told(cs, branch, f, n) && i < n
    ensures Leads(cs, branch, f, i)
  {
    hide CChainState.Valid, Path, OnPath, InMain, Offset, LocatorOf;
    var entry := LocatorOf(branch, branch[0])[i];
    assert ToldAt(cs, branch, f, entry, Offset(i));
    CommonIsFound(cs, branch, f, |branch| - 1 - Offset(i));
    forall j | 0 <= j < i ensures Offset(j) < |branch| - 1 - f { assert !InMain(cs, LocatorOf(branch, branch[0])[j]); }
    FirstOffsetNotBelow(i, |branch| - 1 - f);
  }

  lemma LeadsToGenesis(cs: CChainState, branch: seq<BlockHash>, f: nat, n: nat)
    requires cs.Valid() && LeavesAt(cs, branch, f) && FirstInMain(cs, LocatorOf(branch, branch[0]), n)
    requires Told(cs, branch, f, n) && Offset(n) > |branch| - 1 && LocatorOf(branch, branch[0])[n] == branch[0]
    ensures Leads(cs, branch, f, n)
  {
    hide CChainState.Valid, Path, OnPath, InMain, Offset, LocatorOf;
    CommonIsFound(cs, branch, f, 0);
    forall j | 0 <= j < n ensures Offset(j) < |branch| - 1 - f { assert !InMain(cs, LocatorOf(branch, branch[0])[j]); }
    FirstOffsetNotBelow(n, |branch| - 1 - f);
  }

  /** An entry is on the main chain exactly when its offset reaches back to the fork. */
  lemma EntriesTell(cs: CChainState, branch: seq<BlockHash>, f: nat, n: nat)
    requires cs.Valid() && LeavesAt(cs, branch, f) && n == EntriesFrom(|branch| - 1, 0)
    ensures Told(cs, branch, f, n)
  {
    hide Offset, EntriesFrom, CChainState.Valid, InMain, OnPath, Path, ToldAt;
    var vHave := LocatorOf(branch, branch[0]);
    forall j | 0 <= j < n ensures ToldAt(cs, branch, f, vHave[j], Offset(j)) {
      assert Offset(j) <= |branch| - 1 && vHave[j] == branch[|branch| - 1 - Offset(j)];
      EntryTells(cs, branch, f, Offset(j));
    }
  }

  lemma EntryTells(cs: CChainState, branch: seq<BlockHash>, f: nat, offset: nat)
    requires cs.Valid() && LeavesAt(cs, branch, f) && offset <= |branch| - 1
    ensures ToldAt(cs, branch, f, branch[|branch| - 1 - offset], offset)
  {
    hide CChainState.Valid, InMain, OnPath, Path;
    if offset >= |branch| - 1 - f { CommonIsFound(cs, branch, f, |branch| - 1 - offset); }
  }
}
