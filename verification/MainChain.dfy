/** Choosing and switching the main chain (FindBlockByHeight, Reorganize, SetBestChainInner, SetBestChain and
    AddToBlockIndex in a3/a2/main.cpp; CBlockIndex::IsInMainChain in a3/a2/main.h). */
module MainChain {
  import opened Wrappers
  import opened Transactions
  import opened ChainIndex
  import opened BlockChain
  import opened BlockIndex
  import opened TxDb
  import Ledger
  import Reorganization

  /** The nodes form trees: parents are nodes too. */
  ghost predicate TreeOk(nodes: set<CBlockIndex>) {
    forall n :: n in nodes ==> WellFormed(n) && forall i :: 0 <= i < |n.anc| ==> n.anc[i] in nodes
  }

  ghost predicate OnPath(n: CBlockIndex, tip: CBlockIndex) {
    n.nHeight <= |tip.anc| && Path(tip)[n.nHeight] == n
  }

  /** The successor of n on the way to tip, if n is on the path below height h; otherwise null. */
  ghost function NextBelow(n: CBlockIndex, tip: CBlockIndex, h: nat): CBlockIndex?
    requires h <= |tip.anc|
  {
    if OnPath(n, tip) && n.nHeight < h then Path(tip)[n.nHeight + 1] else null
  }

  /** pnext leads along the path of tip up to height h, and is null everywhere else. */
  ghost predicate LinksUpTo(nodes: set<CBlockIndex>, tip: CBlockIndex, h: nat)
    requires h <= |tip.anc|
    reads nodes
  {
    forall n :: n in nodes ==> n.pnext == NextBelow(n, tip, h)
  }

  /** pnext leads along the path to tip, and is null everywhere else. */
  ghost predicate LinksTo(nodes: set<CBlockIndex>, tip: CBlockIndex)
    reads nodes
  {
    LinksUpTo(nodes, tip, |tip.anc|)
  }

  /** What pnext then means: it is non-null exactly on the proper ancestors of the tip, and there it inverts pprev. */
  lemma LinksMeaning(nodes: set<CBlockIndex>, tip: CBlockIndex, n: CBlockIndex)
    requires TreeOk(nodes) && tip in nodes && n in nodes && LinksTo(nodes, tip)
    ensures n.pnext != null <==> n in tip.anc
    ensures n.pnext != null ==> n.pnext in nodes && n.pnext.pprev == n
    ensures (n.pnext != null || n == tip) <==> OnPath(n, tip)
  {
    if OnPath(n, tip) {
      if n.nHeight < |tip.anc| { PathWellFormed(tip, n.nHeight + 1); }
    }
    if n in tip.anc {
      var i :| 0 <= i < |tip.anc| && tip.anc[i] == n;
      assert n.nHeight == i;
    }
  }

  /** The links can lead to one tip only. */
  lemma OneTip(nodes: set<CBlockIndex>, a: CBlockIndex, b: CBlockIndex)
    requires TreeOk(nodes) && a in nodes && LinksTo(nodes, a) && LinksTo(nodes, b) && OnPath(a, b)
    ensures a == b
  {
    assert a.nHeight == |a.anc|;
    assert a.pnext == NextBelow(a, a, |a.anc|) == NextBelow(a, b, |b.anc|);
  }

  /** Two paths that meet at one height are the same below it. */
  lemma PathsMeet(a: CBlockIndex, b: CBlockIndex, i: nat)
    requires WellFormed(a) && WellFormed(b) && i <= a.nHeight && i <= b.nHeight && Path(a)[i] == Path(b)[i]
    ensures forall j :: 0 <= j <= i ==> Path(a)[j] == Path(b)[j]
  {
    PathWellFormed(a, i);
    PathWellFormed(b, i);
    forall j | 0 <= j <= i ensures Path(a)[j] == Path(b)[j] {
      assert Path(a)[j] == Path(a)[..i + 1][j] == Path(b)[..i + 1][j] == Path(b)[j];
    }
  }

  /** f is the last common block of the branches of a and b. */
  ghost predicate IsFork(f: CBlockIndex, a: CBlockIndex, b: CBlockIndex) {
    && OnPath(f, a) && OnPath(f, b)
    && forall i :: f.nHeight < i <= |a.anc| && i <= |b.anc| ==> Path(a)[i] != Path(b)[i]
  }

  /** A common block of the two branches is at height h or below. */
  ghost predicate CommonWithin(a: CBlockIndex, b: CBlockIndex, h: nat) {
    forall i :: 0 <= i <= |a.anc| && i <= |b.anc| && Path(a)[i] == Path(b)[i] ==> i <= h
  }

  /** One step along pprev stays on the path. */
  lemma StepBack(tip: CBlockIndex, p: CBlockIndex)
    requires WellFormed(tip) && OnPath(p, tip)
    ensures p.pprev == null <==> p.nHeight == 0
    ensures p.pprev != null ==> OnPath(p.pprev, tip) && p.pprev.nHeight == p.nHeight - 1
  {
    PathWellFormed(tip, p.nHeight);
    if p.nHeight > 0 { PathWellFormed(tip, p.nHeight - 1); }
  }

  lemma TipOnPath(tip: CBlockIndex)
    requires WellFormed(tip)
    ensures OnPath(tip, tip) && |tip.anc| == tip.nHeight
  {
  }

  /** When the two searches stand at the same height on different blocks, the common blocks are below. */
  lemma NotCommonHere(a: CBlockIndex, b: CBlockIndex, p: CBlockIndex, q: CBlockIndex)
    requires OnPath(p, a) && OnPath(q, b) && p != q && q.nHeight <= p.nHeight
    requires CommonWithin(a, b, p.nHeight) && CommonWithin(a, b, q.nHeight)
    ensures p.nHeight > 0 ==> CommonWithin(a, b, p.nHeight - 1)
    ensures p.nHeight == 0 ==> Path(a)[0] != Path(b)[0]
  {
  }

  lemma ForkFound(a: CBlockIndex, b: CBlockIndex, f: CBlockIndex)
    requires WellFormed(a) && WellFormed(b) && OnPath(f, a) && OnPath(f, b) && CommonWithin(a, b, f.nHeight)
    ensures IsFork(f, a, b) && Path(a)[0] == Path(b)[0]
  {
    PathsMeet(a, b, f.nHeight);
  }

  lemma CommonWithinLower(a: CBlockIndex, b: CBlockIndex, g: nat, h: nat)
    requires CommonWithin(a, b, g) && g <= h
    ensures CommonWithin(a, b, h)
  {
  }

  lemma CommonWithinTips(a: CBlockIndex, b: CBlockIndex)
    requires WellFormed(a) && WellFormed(b)
    ensures CommonWithin(a, b, a.nHeight) && CommonWithin(a, b, b.nHeight)
  {
  }

  /** The fork search of Reorganize. None is its error return: the branches have no block in common. */
  method FindFork(pindexBest: CBlockIndex, pindexNew: CBlockIndex) returns (fork: Option<CBlockIndex>)
    requires WellFormed(pindexBest) && WellFormed(pindexNew)
    ensures fork.Some? ==> IsFork(fork.value, pindexBest, pindexNew)
    ensures fork.None? <==> Path(pindexBest)[0] != Path(pindexNew)[0]
  {
    hide OnPath, CommonWithin, WellFormed, Path, IsFork;
    var pfork: CBlockIndex, plonger: CBlockIndex := pindexBest, pindexNew;
    TipOnPath(pindexBest);
    TipOnPath(pindexNew);
    CommonWithinTips(pindexBest, pindexNew);
    while pfork != plonger
      invariant OnPath(pfork, pindexBest) && OnPath(plonger, pindexNew)
      invariant CommonWithin(pindexBest, pindexNew, pfork.nHeight)
      invariant CommonWithin(pindexBest, pindexNew, plonger.nHeight)
      decreases pfork.nHeight + plonger.nHeight
    {
      ghost var h0 := plonger.nHeight;
      while plonger.nHeight > pfork.nHeight
        invariant OnPath(plonger, pindexNew) && plonger.nHeight <= h0
        invariant CommonWithin(pindexBest, pindexNew, plonger.nHeight)
        decreases plonger.nHeight
      {
        StepBack(pindexNew, plonger);
        if plonger.pprev == null { return None; }
        CommonWithinLower(pindexBest, pindexNew, pfork.nHeight, plonger.nHeight - 1);
        plonger := plonger.pprev;
      }
      if pfork == plonger { break; }
      StepBack(pindexBest, pfork);
      NotCommonHere(pindexBest, pindexNew, pfork, plonger);
      if pfork.pprev == null { return None; }
      pfork := pfork.pprev;
    }
    ForkFound(pindexBest, pindexNew, pfork);
    return Some(pfork);
  }

  /** The blocks of the branch of tip above height h, tip first. */
  ghost function BranchAbove(tip: CBlockIndex, h: nat): (v: seq<CBlockIndex>)
    requires WellFormed(tip) && h <= tip.nHeight
    ensures |v| == tip.nHeight - h
  {
    seq(tip.nHeight - h, k requires 0 <= k < tip.nHeight - h => Path(tip)[tip.nHeight - k])
  }

  lemma BranchAboveNext(tip: CBlockIndex, p: CBlockIndex)
    requires WellFormed(tip) && OnPath(p, tip) && p.nHeight > 0
    ensures BranchAbove(tip, p.nHeight - 1) == BranchAbove(tip, p.nHeight) + [p]
  {
  }

  /** The list loops of Reorganize. */
  method BranchDown(tip: CBlockIndex, pfork: CBlockIndex) returns (v: seq<CBlockIndex>)
    requires WellFormed(tip) && OnPath(pfork, tip)
    ensures v == BranchAbove(tip, pfork.nHeight)
  {
    hide OnPath, WellFormed, Path, BranchAbove;
    TipOnPath(tip);
    ForkBelow(tip, pfork, tip);
    v := [];
    var pindex: CBlockIndex := tip;
    while pindex != pfork
      invariant OnPath(pindex, tip) && pfork.nHeight <= pindex.nHeight
      invariant v == BranchAbove(tip, pindex.nHeight)
      decreases pindex.nHeight
    {
      ForkBelow(tip, pfork, pindex);
      StepBack(tip, pindex);
      BranchAboveNext(tip, pindex);
      v := v + [pindex];
      pindex := pindex.pprev;
    }
  }

  lemma ForkBelow(tip: CBlockIndex, p: CBlockIndex, q: CBlockIndex)
    requires WellFormed(tip) && OnPath(p, tip) && OnPath(q, tip)
    ensures p.nHeight <= tip.nHeight
    ensures p.nHeight == q.nHeight ==> p == q
    ensures BranchAbove(tip, tip.nHeight) == []
  {
  }

  /** std::reverse on a vector. */
  function Reversed(v: seq<CBlockIndex>): (w: seq<CBlockIndex>)
    ensures |w| == |v| && forall k :: 0 <= k < |v| ==> w[k] == v[|v| - 1 - k]
  {
    seq(|v|, k requires 0 <= k < |v| => v[|v| - 1 - k])
  }

  /** The search of SetBestChain for the first block that makes the new branch better than the old tip.
      The blocks above it are postponed, the highest first. */
  method PickTarget(pindexNew: CBlockIndex, bnBestWork: nat)
    returns (pindexIntermediate: CBlockIndex, vSecondary: seq<CBlockIndex>)
    requires WellFormed(pindexNew) && pindexNew.nChainWork > bnBestWork
    ensures OnPath(pindexIntermediate, pindexNew)
    ensures pindexIntermediate.nChainWork > bnBestWork
    ensures pindexIntermediate.pprev == null || pindexIntermediate.pprev.nChainWork <= bnBestWork
    ensures pindexIntermediate.nHeight <= pindexNew.nHeight
    ensures vSecondary == BranchAbove(pindexNew, pindexIntermediate.nHeight)
  {
    hide OnPath, WellFormed, Path, BranchAbove;
    TipOnPath(pindexNew);
    ForkBelow(pindexNew, pindexNew, pindexNew);
    pindexIntermediate, vSecondary := pindexNew, [];
    while pindexIntermediate.pprev != null && pindexIntermediate.pprev.nChainWork > bnBestWork
      invariant OnPath(pindexIntermediate, pindexNew) && pindexIntermediate.nChainWork > bnBestWork
      invariant pindexIntermediate.nHeight <= pindexNew.nHeight
      invariant vSecondary == BranchAbove(pindexNew, pindexIntermediate.nHeight)
      decreases pindexIntermediate.nHeight
    {
      StepBack(pindexNew, pindexIntermediate);
      BranchAboveNext(pindexNew, pindexIntermediate);
      vSecondary := vSecondary + [pindexIntermediate];
      pindexIntermediate := pindexIntermediate.pprev;
    }
  }

  /** One step along pnext stays on the path. */
  lemma StepForward(nodes: set<CBlockIndex>, tip: CBlockIndex, p: CBlockIndex)
    requires TreeOk(nodes) && tip in nodes && LinksTo(nodes, tip) && OnPath(p, tip) && p.nHeight < tip.nHeight
    ensures p.pnext != null && OnPath(p.pnext, tip) && p.pnext.nHeight == p.nHeight + 1
  {
    PathWellFormed(tip, p.nHeight + 1);
    assert p in nodes;
  }

  /** The two walks of FindBlockByHeight: down along pprev, then up along pnext. */
  method WalkToHeight(start: CBlockIndex, nHeight: int, ghost tip: CBlockIndex, ghost nodes: set<CBlockIndex>)
    returns (p: CBlockIndex)
    requires TreeOk(nodes) && tip in nodes && LinksTo(nodes, tip)
    requires OnPath(start, tip) && 0 <= nHeight <= tip.nHeight
    ensures OnPath(p, tip) && p.nHeight == nHeight
  {
    hide OnPath, LinksTo;
    p := start;
    while p.nHeight > nHeight
      invariant OnPath(p, tip)
      decreases p.nHeight
    {
      StepBack(tip, p);
      p := p.pprev;
    }
    while p.nHeight < nHeight
      invariant OnPath(p, tip) && p.nHeight <= nHeight
      decreases nHeight - p.nHeight
    {
      StepForward(nodes, tip, p);
      p := p.pnext;
    }
  }

  // ----- switching branches -----

  /** Clearing the link into the block at height h shortens the linked path by one. */
  method Unlink(pindex: CBlockIndex, ghost nodes: set<CBlockIndex>, ghost tip: CBlockIndex)
    requires TreeOk(nodes) && tip in nodes && OnPath(pindex, tip) && pindex.nHeight <= |tip.anc|
    requires pindex.nHeight > 0 && LinksUpTo(nodes, tip, pindex.nHeight)
    modifies nodes`pnext
    ensures LinksUpTo(nodes, tip, pindex.nHeight - 1)
  {
    StepBack(tip, pindex);
    assert pindex.pprev == tip.anc[pindex.nHeight - 1];
    if pindex.pprev != null {
      pindex.pprev.pnext := null;
    }
  }

  /** Setting the link into the block at height h lengthens the linked path by one. */
  method Link(pindex: CBlockIndex, ghost nodes: set<CBlockIndex>, ghost tip: CBlockIndex)
    requires TreeOk(nodes) && tip in nodes && OnPath(pindex, tip) && pindex.nHeight <= |tip.anc|
    requires pindex.nHeight > 0 && LinksUpTo(nodes, tip, pindex.nHeight - 1)
    modifies nodes`pnext
    ensures LinksUpTo(nodes, tip, pindex.nHeight)
  {
    StepBack(tip, pindex);
    assert pindex.pprev == tip.anc[pindex.nHeight - 1];
    if pindex.pprev != null {
      pindex.pprev.pnext := pindex;
    }
  }

  lemma BranchAt(tip: CBlockIndex, h: nat, k: nat)
    requires WellFormed(tip) && h <= tip.nHeight && k < tip.nHeight - h
    ensures var p := BranchAbove(tip, h)[k];
            && OnPath(p, tip) && p.nHeight == tip.nHeight - k
            && AsChainBlock(p) == ChainOf(tip)[tip.nHeight - k - 1]
  {
    PathWellFormed(tip, tip.nHeight - k);
  }

  /** Below the fork both branches are linked the same way. */
  lemma LinksAtFork(nodes: set<CBlockIndex>, f: CBlockIndex, a: CBlockIndex, b: CBlockIndex)
    requires WellFormed(a) && WellFormed(b) && IsFork(f, a, b) && f.nHeight <= |a.anc| && f.nHeight <= |b.anc|
    requires LinksUpTo(nodes, a, f.nHeight)
    ensures LinksUpTo(nodes, b, f.nHeight)
  {
    PathsMeet(a, b, f.nHeight);
  }

  /** The last two loops over the blocks in Reorganize. */
  method Relink(vDisconnect: seq<CBlockIndex>, vConnect: seq<CBlockIndex>,
                ghost nodes: set<CBlockIndex>, ghost fork: CBlockIndex, ghost best: CBlockIndex,
                ghost new_: CBlockIndex)
    requires TreeOk(nodes) && best in nodes && new_ in nodes && IsFork(fork, best, new_)
    requires vDisconnect == BranchAbove(best, fork.nHeight)
    requires vConnect == Reversed(BranchAbove(new_, fork.nHeight))
    requires LinksTo(nodes, best)
    modifies nodes`pnext
    ensures LinksTo(nodes, new_)
  {
    hide OnPath, Path, BranchAbove, IsFork, LinksUpTo, WellFormed;
    TipOnPath(best);
    TipOnPath(new_);
    ForkHeights(fork, best, new_);
    for k := 0 to |vDisconnect|
      invariant LinksUpTo(nodes, best, best.nHeight - k)
    {
      BranchAt(best, fork.nHeight, k);
      Unlink(vDisconnect[k], nodes, best);
    }
    LinksAtFork(nodes, fork, best, new_);
    for k := 0 to |vConnect|
      invariant LinksUpTo(nodes, new_, fork.nHeight + k)
    {
      BranchAt(new_, fork.nHeight, |vConnect| - 1 - k);
      Link(vConnect[k], nodes, new_);
    }
  }

  lemma ForkHeights(f: CBlockIndex, a: CBlockIndex, b: CBlockIndex)
    requires WellFormed(a) && WellFormed(b) && IsFork(f, a, b)
    ensures f.nHeight <= a.nHeight && f.nHeight <= b.nHeight && OnPath(f, a) && OnPath(f, b)
  {
  }

  /** The index after switching from the branch of a to the branch of b at their fork: all or nothing. */
  ghost function Switched(r: Rules, ix: Index, a: CBlockIndex, fork: CBlockIndex, b: CBlockIndex,
        skip: bool): Option<Index>
    requires fork.nHeight <= |a.anc| && fork.nHeight <= |b.anc|
  {
    match Ledger.DisconnectDown(TxLedger(r), ix, ChainOf(a), |a.anc|, fork.nHeight)
    case None => None
    case Some(mid) =>
      Ledger.ConnectBlocks(TxLedger(r), mid, ChainOf(b)[fork.nHeight..], |b.anc| - fork.nHeight, skip)
  }

  /** The disconnect loop of Reorganize. */
  method DisconnectEach(r: Rules, db: CTxDB, v: seq<CBlockIndex>, ghost tip: CBlockIndex, ghost h: nat)
    returns (ok: bool)
    requires WellFormed(tip) && h <= tip.nHeight && v == BranchAbove(tip, h)
    modifies db`index
    ensures ok == Ledger.DisconnectDown(TxLedger(r), old(db.index), ChainOf(tip), |tip.anc|, h).Some?
    ensures ok ==> Ledger.DisconnectDown(TxLedger(r), old(db.index), ChainOf(tip), |tip.anc|, h) == Some(db.index)
  {
    hide BranchAbove, AsChainBlock, DisconnectedIndex, ChainOf, TxLedger, WellFormed;
    ghost var l, ix, chain := TxLedger(r), db.index, ChainOf(tip);
    TipOnPath(tip);
    for k := 0 to |v|
      invariant Ledger.DisconnectDown(l, ix, chain, tip.nHeight, h) == Ledger.DisconnectDown(l, db.index, chain,
          tip.nHeight - k, h)
    {
      BranchAt(tip, h, k);
      DisconnectNext(r, db.index, chain, tip.nHeight - k, h);
      ok := DisconnectBlock(r, db, v[k]);
      if !ok { return false; }
    }
    return true;
  }

  lemma DisconnectNext(r: Rules, ix: Index, chain: seq<ChainBlock>, n: nat, m: nat)
    requires m < n <= |chain|
    ensures Ledger.DisconnectDown(TxLedger(r), ix, chain, n, m) ==
            match DisconnectedIndex(r, ix, chain[n - 1])
            case None => None
            case Some(ix') => Ledger.DisconnectDown(TxLedger(r), ix', chain, n - 1, m)
  {
    hide DisconnectedIndex;
  }

  lemma {:induction false} ConnectFails(r: Rules, ix: Index, cs: seq<ChainBlock>, k: nat, n: nat, skip: bool)
    requires k <= n <= |cs| && Ledger.ConnectBlocks(TxLedger(r), ix, cs, k, skip).None?
    ensures Ledger.ConnectBlocks(TxLedger(r), ix, cs, n, skip).None?
  {
    hide ConnectOk, ConnectedIndex;
    if k < n { ConnectFails(r, ix, cs, k, n - 1, skip); }
  }

  lemma ConnectNext(r: Rules, ix: Index, cs: seq<ChainBlock>, k: nat, mid: Index, skip: bool)
    requires k < |cs| && Ledger.ConnectBlocks(TxLedger(r), ix, cs, k, skip) == Some(mid)
    ensures Ledger.ConnectBlocks(TxLedger(r), ix, cs, k + 1, skip) ==
            if ConnectOk(r, mid, cs[k], skip) then Some(ConnectedIndex(r, mid, cs[k])) else None
  {
    hide ConnectOk, ConnectedIndex;
  }

  lemma ConnectOrder(tip: CBlockIndex, h: nat, k: nat)
    requires WellFormed(tip) && h <= tip.nHeight && k < tip.nHeight - h
    ensures var v := Reversed(BranchAbove(tip, h));
            && |v| == tip.nHeight - h == |ChainOf(tip)[h..]| && WellFormed(v[k])
                && AsChainBlock(v[k]) == ChainOf(tip)[h..][k]
  {
    BranchAt(tip, h, tip.nHeight - h - 1 - k);
    PathWellFormed(tip, h + 1 + k);
  }

  /** The connect loop of Reorganize. */
  method ConnectEach(r: Rules, db: CTxDB, v: seq<CBlockIndex>, skip: bool, ghost tip: CBlockIndex,
      ghost h: nat) returns (ok: bool)
    requires WellFormed(tip) && h <= tip.nHeight && v == Reversed(BranchAbove(tip, h))
    modifies db`index
    ensures ok == Ledger.ConnectBlocks(TxLedger(r), old(db.index), ChainOf(tip)[h..], |tip.anc| - h, skip).Some?
    ensures ok ==>
        Ledger.ConnectBlocks(TxLedger(r), old(db.index), ChainOf(tip)[h..], |tip.anc| - h, skip) == Some(db.index)
  {
    hide BranchAbove, AsChainBlock, ConnectedIndex, ConnectOk, ChainOf, TxLedger, WellFormed;
    TipOnPath(tip);
    ghost var ix, cs := db.index, ChainOf(tip)[h..];
    for k := 0 to |v|
      invariant Ledger.ConnectBlocks(TxLedger(r), ix, cs, k, skip) == Some(db.index)
    {
      ConnectOrder(tip, h, k);
      ConnectNext(r, ix, cs, k, db.index, skip);
      ok := ConnectBlock(r, db, v[k], skip);
      if !ok {
        ConnectFails(r, ix, cs, k + 1, |cs|, skip);
        return false;
      }
    }
    return true;
  }

  /** Reorganize. On failure nothing but the open database transaction has changed, and the caller aborts that. */
  method Reorganize(r: Rules, db: CTxDB, pindexBest: CBlockIndex, pindexNew: CBlockIndex, skip: bool,
      ghost nodes: set<CBlockIndex>)
    returns (ok: bool, ghost fork: Option<CBlockIndex>)
    requires TreeOk(nodes) && pindexBest in nodes && pindexNew in nodes && LinksTo(nodes, pindexBest)
    requires db.saved.Some?
    modifies db, nodes`pnext
    ensures fork.None? <==> Path(pindexBest)[0] != Path(pindexNew)[0]
    ensures fork.Some? ==> IsFork(fork.value, pindexBest, pindexNew)
    ensures ok <==> fork.Some? && Switched(r, old(db.index), pindexBest, fork.value, pindexNew, skip).Some?
    ensures ok ==> Switched(r, old(db.index), pindexBest, fork.value, pindexNew, skip) == Some(db.index)
    ensures ok ==> db.hashBestChain == pindexNew.hash && db.saved.None? && LinksTo(nodes, pindexNew)
    ensures !ok ==> db.saved == old(db.saved) && LinksTo(nodes, pindexBest)
  {
    hide OnPath, Path, BranchAbove, LinksTo, WellFormed, ChainOf, Ledger.DisconnectDown, Ledger.ConnectBlocks,
        TxLedger, IsFork;
    var f := FindFork(pindexBest, pindexNew);
    fork := f;
    if f.None? { return false, fork; }
    ForkHeights(f.value, pindexBest, pindexNew);
    TipOnPath(pindexBest);
    TipOnPath(pindexNew);
    var vDisconnect := BranchDown(pindexBest, f.value);
    var vConnect := BranchDown(pindexNew, f.value);
    vConnect := Reversed(vConnect);
    ok := DisconnectEach(r, db, vDisconnect, pindexBest, f.value.nHeight);
    if !ok { return false, fork; }
    ok := ConnectEach(r, db, vConnect, skip, pindexNew, f.value.nHeight);
    if !ok { return false, fork; }
    db.WriteHashBestChain(pindexNew.hash);
    ok := db.TxnCommit();
    Relink(vDisconnect, vConnect, nodes, f.value, pindexBest, pindexNew);
    return ok, fork;
  }

  // ----- the index follows the tip -----

  /** The index is the replay of the branch of tip, every block of which connected. */
  ghost predicate IndexAt(r: Rules, ix: Index, tip: CBlockIndex) {
    Ledger.Replayed(TxLedger(r), Ledger.Node(ix, ChainOf(tip)))
  }

  /** The blocks of the branch above height h repeat no transaction hash that was known when they were connected. */
  ghost predicate NewAbove(r: Rules, tip: CBlockIndex, h: nat) {
    Ledger.NewBetween(TxLedger(r), ChainOf(tip), h, |ChainOf(tip)|)
  }

  lemma BranchesShareChain(f: CBlockIndex, a: CBlockIndex, b: CBlockIndex)
    requires WellFormed(a) && WellFormed(b) && IsFork(f, a, b)
    ensures f.nHeight <= |ChainOf(a)| && f.nHeight <= |ChainOf(b)|
    ensures ChainOf(a)[..f.nHeight] == ChainOf(b)[..f.nHeight]
  {
    hide AsChainBlock;
    PathsMeet(a, b, f.nHeight);
    forall k | 0 <= k < f.nHeight ensures ChainOf(a)[k] == ChainOf(b)[k] {
      assert Path(a)[k + 1] == Path(b)[k + 1];
    }
  }

  /** A completed switch leaves the index at the new tip, if the blocks above the fork were new. */
  lemma SwitchKeepsReplay(r: Rules, ix: Index, f: CBlockIndex, a: CBlockIndex, b: CBlockIndex, skip: bool)
    requires WellFormed(a) && WellFormed(b) && IsFork(f, a, b) && f.nHeight <= |a.anc| && f.nHeight <= |b.anc|
    requires IndexAt(r, ix, a) && NewAbove(r, a, f.nHeight)
    ensures Ledger.DisconnectDown(TxLedger(r), ix, ChainOf(a), |a.anc|, f.nHeight).Some?
    ensures Switched(r, ix, a, f, b, skip).Some? ==> IndexAt(r, Switched(r, ix, a, f, b, skip).value, b)
  {
    hide WellFormed, Path, TxLedger, Ledger.Undoable, Ledger.Replayed, Ledger.NewBetween, Ledger.ConnectBlocks,
        Ledger.DisconnectDown, ChainOf;
    BranchesShareChain(f, a, b);
    TxLedgerUndoable(r);
    var n := Ledger.Node(ix, ChainOf(a));
    var cs := ChainOf(b)[f.nHeight..];
    Ledger.ReorganizeReplayed(TxLedger(r), n, f.nHeight, cs, skip);
    assert ChainOf(a)[..f.nHeight] + cs == ChainOf(b);
  }

  /** Connecting the child of the tip moves the index to the child. */
  lemma ExtendReplay(r: Rules, ix: Index, child: CBlockIndex, tip: CBlockIndex, skip: bool)
    requires WellFormed(child) && child.pprev == tip && IndexAt(r, ix, tip)
    requires ConnectOk(r, ix, AsChainBlock(child), skip)
    ensures IndexAt(r, ConnectedIndex(r, ix, AsChainBlock(child)), child)
  {
    hide ConnectOk, ConnectedIndex, Ledger.Undoable, Ledger.Replayed;
    ChildChain(child, tip);
    TxLedgerUndoable(r);
    Ledger.Extended(TxLedger(r), Ledger.Node(ix, ChainOf(tip)), AsChainBlock(child), skip);
  }

  lemma ChildChain(child: CBlockIndex, tip: CBlockIndex)
    requires WellFormed(child) && child.pprev == tip
    ensures ChainOf(child) == ChainOf(tip) + [AsChainBlock(child)]
    ensures child.anc == tip.anc + [tip]
  {
    PathWellFormed(child, child.nHeight - 1);
    forall k | 0 <= k < |tip.anc| ensures ChainOf(child)[k] == ChainOf(tip)[k] {
      assert Path(child)[k + 1] == Path(tip)[k + 1];
    }
  }

  /** SetBestChainInner: one more block on top of the linked tip, in its own database transaction. */
  method SetBestChainInner(r: Rules, db: CTxDB, pindexNew: CBlockIndex, skip: bool, ghost tip: CBlockIndex,
      ghost nodes: set<CBlockIndex>)
    returns (ok: bool)
    requires TreeOk(nodes) && pindexNew in nodes && tip in nodes && pindexNew.pprev == tip && LinksTo(nodes, tip)
    requires db.saved.Some?
    modifies db, nodes`pnext
    ensures ok == ConnectOk(r, old(db.index), AsChainBlock(pindexNew), skip)
    ensures db.saved.None?
    ensures ok ==>
      && db.index == ConnectedIndex(r, old(db.index), AsChainBlock(pindexNew))
      && db.hashBestChain == pindexNew.hash
      && LinksTo(nodes, pindexNew)
    ensures !ok ==>
      && (db.index, db.hashBestChain) == old(db.saved.value)
      && LinksTo(nodes, tip)
  {
    hide AsChainBlock, ConnectOk, ConnectedIndex, Path, LinksUpTo;
    ok := ConnectBlock(r, db, pindexNew, skip);
    if !ok {
      var aborted := db.TxnAbort();
      return false;
    }
    db.WriteHashBestChain(pindexNew.hash);
    ok := db.TxnCommit();
    ChildChain(pindexNew, tip);
    TipOnPath(pindexNew);
    LinksExtend(nodes, tip, pindexNew);
    Link(pindexNew, nodes, pindexNew);
    return true;
  }

  lemma LinksExtend(nodes: set<CBlockIndex>, tip: CBlockIndex, child: CBlockIndex)
    requires WellFormed(child) && child.pprev == tip && |child.anc| == |tip.anc| + 1
    requires LinksUpTo(nodes, tip, |tip.anc|)
    ensures LinksUpTo(nodes, child, |tip.anc|)
  {
    ChildChain(child, tip);
  }

  /** Whether every postponed block above the target connects, starting from the index `mid`. */
  ghost predicate PostponedConnect(r: Rules, mid: Index, target: CBlockIndex, pindexNew: CBlockIndex, skip: bool)
    requires target.nHeight <= |pindexNew.anc|
  {
    Ledger.ConnectBlocks(TxLedger(r), mid, ChainOf(pindexNew)[target.nHeight..], |pindexNew.anc| - target.nHeight,
        skip).Some?
  }

  /** The index after the blocks of the branch of n from height h to height k are connected to the index mid. */
  ghost function ConnectedUpTo(r: Rules, mid: Index, n: CBlockIndex, h: nat, k: nat, skip: bool): Option<Index>
    requires h <= k <= |n.anc|
  {
    Ledger.ConnectBlocks(TxLedger(r), mid, ChainOf(n)[h..], k - h, skip)
  }

  /** Connecting a part of the branch above a replay gives the replay of that part. */
  lemma ConnectedIsReplay(r: Rules, mid: Index, target: CBlockIndex, reached: CBlockIndex, n: CBlockIndex, skip: bool)
    requires WellFormed(n) && OnPath(target, n) && OnPath(reached, n) && target.nHeight <= reached.nHeight <= |n.anc|
    requires IndexAt(r, mid, target) && ConnectedUpTo(r, mid, n, target.nHeight, reached.nHeight, skip).Some?
    ensures IndexAt(r, ConnectedUpTo(r, mid, n, target.nHeight, reached.nHeight, skip).value, reached)
  {
    ChainPrefix(target, n);
    ChainPrefix(reached, n);
    hide *;
    TxLedgerUndoable(r);
    ConnectedNode(r, mid, target, reached, n, skip);
  }

  lemma ChainPrefix(p: CBlockIndex, n: CBlockIndex)
    requires WellFormed(n) && OnPath(p, n) && p.nHeight <= |n.anc|
    ensures ChainOf(p) == ChainOf(n)[..p.nHeight]
  {
    hide AsChainBlock;
    PathWellFormed(n, p.nHeight);
    forall k | 0 <= k < p.nHeight ensures ChainOf(p)[k] == ChainOf(n)[k] {
      assert Path(p)[k + 1] == Path(n)[k + 1];
    }
  }

  lemma ConnectedNode(r: Rules, mid: Index, target: CBlockIndex, reached: CBlockIndex, n: CBlockIndex, skip: bool)
    requires target.nHeight <= reached.nHeight <= |n.anc|
    requires ChainOf(target) == ChainOf(n)[..target.nHeight] && ChainOf(reached) == ChainOf(n)[..reached.nHeight]
    requires IndexAt(r, mid, target) && ConnectedUpTo(r, mid, n, target.nHeight, reached.nHeight, skip).Some?
    ensures IndexAt(r, ConnectedUpTo(r, mid, n, target.nHeight, reached.nHeight, skip).value, reached)
  {
    hide TxLedger, Ledger.Undoable, Ledger.Replayed, Ledger.ConnectBlocks, ChainOf;
    TxLedgerUndoable(r);
    var h, k, cs := target.nHeight, reached.nHeight, ChainOf(n)[target.nHeight..];
    Ledger.ConnectBlocksReplay(TxLedger(r), Ledger.Node(mid, ChainOf(target)), cs, k - h, skip);
    assert ChainOf(target) + cs[..k - h] == ChainOf(reached);
  }

  lemma NextOfBranch(nodes: set<CBlockIndex>, tip: CBlockIndex, reached: CBlockIndex, h: nat, k: nat)
    requires TreeOk(nodes) && tip in nodes && OnPath(reached, tip) && h + k < tip.nHeight && reached.nHeight == h + k
    ensures var p := Reversed(BranchAbove(tip, h))[k];
            && p in nodes && WellFormed(p) && OnPath(p, tip) && p.nHeight == h + k + 1 && p.pprev == reached
            && AsChainBlock(p) == ChainOf(tip)[h..][k]
  {
    ConnectOrder(tip, h, k);
    PathWellFormed(tip, h + k + 1);
  }

  /** The loop of SetBestChain over the postponed blocks. An error there is not fatal: the loop just stops, at the
      block `reached`, which is pindexNew exactly when every postponed block connects. */
  method ConnectPostponed(r: Rules, db: CTxDB, vSecondary: seq<CBlockIndex>, skip: bool,
                          ghost target: CBlockIndex, ghost pindexNew: CBlockIndex, ghost nodes: set<CBlockIndex>)
    returns (ghost reached: CBlockIndex)
    requires TreeOk(nodes) && pindexNew in nodes && OnPath(target, pindexNew) && target.nHeight <= pindexNew.nHeight
    requires vSecondary == BranchAbove(pindexNew, target.nHeight)
    requires LinksTo(nodes, target) && db.saved.None? && db.hashBestChain == target.hash
    modifies db, nodes`pnext
    ensures OnPath(reached, pindexNew) && target.nHeight <= reached.nHeight <= |pindexNew.anc|
    ensures reached in nodes && LinksTo(nodes, reached) && db.saved.None? && db.hashBestChain == reached.hash
    ensures ConnectedUpTo(r, old(db.index), pindexNew, target.nHeight, reached.nHeight, skip) == Some(db.index)
    ensures reached == pindexNew <==> PostponedConnect(r, old(db.index), target, pindexNew, skip)
  {
    hide OnPath, BranchAbove, LinksTo, WellFormed, ChainOf, AsChainBlock, ConnectOk, ConnectedIndex, TxLedger, Path;
    reached := target;
    var order := Reversed(vSecondary);
    TipInTree(nodes, pindexNew);
    OnPathInTree(nodes, target, pindexNew);
    ghost var mid, cs := db.index, ChainOf(pindexNew)[target.nHeight..];
    for k := 0 to |order|
      invariant OnPath(reached, pindexNew) && reached.nHeight == target.nHeight + k
      invariant reached in nodes && LinksTo(nodes, reached) && db.saved.None? && db.hashBestChain == reached.hash
      invariant Ledger.ConnectBlocks(TxLedger(r), mid, cs, k, skip) == Some(db.index)
    {
      NextOfBranch(nodes, pindexNew, reached, target.nHeight, k);
      ConnectNext(r, mid, cs, k, db.index, skip);
      var begun := db.TxnBegin();
      var ok := SetBestChainInner(r, db, order[k], skip, reached, nodes);
      if !ok {
        ConnectFails(r, mid, cs, k + 1, |cs|, skip);
        return;
      }
      reached := order[k];
    }
    TipReached(pindexNew, reached);
  }

  lemma TipInTree(nodes: set<CBlockIndex>, tip: CBlockIndex)
    requires TreeOk(nodes) && tip in nodes
    ensures WellFormed(tip) && OnPath(tip, tip) && |tip.anc| == tip.nHeight
  {
  }

  lemma TipReached(tip: CBlockIndex, p: CBlockIndex)
    requires OnPath(p, tip) && p.nHeight == |tip.anc|
    ensures p == tip
  {
  }

  /** The last branch of SetBestChain: reorganize to the first block that beats the old tip, then connect the rest. */
  method SwitchBranch(r: Rules, db: CTxDB, pindexBest: CBlockIndex, pindexNew: CBlockIndex, skip: bool,
      ghost nodes: set<CBlockIndex>)
    returns (ok: bool, ghost target: CBlockIndex, ghost fork: CBlockIndex, ghost reached: CBlockIndex)
    requires TreeOk(nodes) && pindexNew in nodes && pindexBest in nodes
    requires LinksTo(nodes, pindexBest) && db.saved == Some((db.index, db.hashBestChain))
    requires pindexNew.nChainWork > pindexBest.nChainWork
    modifies db, nodes`pnext
    ensures db.saved.None?
    ensures Picked(target, fork, pindexBest, pindexNew)
    ensures ok <==> SameRoot(pindexBest, pindexNew) && Switched(r, old(db.index), pindexBest, fork, target, skip).Some?
    ensures !ok ==> LinksTo(nodes, pindexBest) && db.index == old(db.index) && db.hashBestChain == old(db.hashBestChain)
    ensures ok ==> reached in nodes && LinksTo(nodes, reached) && db.hashBestChain == reached.hash
    ensures ok ==> Extended(r, Switched(r, old(db.index), pindexBest, fork, target, skip).value, target, pindexNew,
                            skip, reached, db.index)
  {
    hide OnPath, Path, BranchAbove, LinksTo, WellFormed, ChainOf, IsFork, Switched, PostponedConnect, ConnectedUpTo;
    TipInTree(nodes, pindexBest);
    TipInTree(nodes, pindexNew);
    var pindexIntermediate, vSecondary := PickTarget(pindexNew, pindexBest.nChainWork);
    target := pindexIntermediate;
    reached := target;
    OnPathInTree(nodes, target, pindexNew);
    ghost var f;
    ok, f := Reorganize(r, db, pindexBest, pindexIntermediate, skip, nodes);
    fork := if f.Some? then f.value else target;
    if f.Some? { ForkHeights(fork, pindexBest, target); }
    if !ok {
      var aborted := db.TxnAbort();
      return;
    }
    reached := ConnectPostponed(r, db, vSecondary, skip, target, pindexNew, nodes);
  }

  /** The postponed blocks from the target to `reached` are connected to mid, and that is all of them or as far as
      they connect. */
  ghost predicate Extended(r: Rules, mid: Index, target: CBlockIndex, n: CBlockIndex, skip: bool, reached: CBlockIndex,
                           ix: Index)
  {
    && OnPath(reached, n) && target.nHeight <= reached.nHeight <= |n.anc|
    && ConnectedUpTo(r, mid, n, target.nHeight, reached.nHeight, skip) == Some(ix)
    && (reached == n <==> PostponedConnect(r, mid, target, n, skip))
  }

  /** The branches of the two blocks have a block in common. */
  ghost predicate SameRoot(a: CBlockIndex, b: CBlockIndex) { Path(a)[0] == Path(b)[0] }

  /** The first block of the branch of n that beats `best` in work, and its fork from the branch of `best`, if there is
      one. */
  ghost predicate Picked(target: CBlockIndex, fork: CBlockIndex, best: CBlockIndex, n: CBlockIndex) {
    && OnPath(target, n) && target.nHeight <= |n.anc|
    && target.nChainWork > best.nChainWork
    && (target.pprev == null || target.pprev.nChainWork <= best.nChainWork)
    && (SameRoot(best, n) ==> IsFork(fork, best, target) && fork.nHeight <= |best.anc| && fork.nHeight <= |target.anc|)
  }

  /** When SetBestChain succeeds in leaving the tip `best` for n, how far it gets, and the index that it makes of ix. */
  ghost predicate Moved(r: Rules, ix: Index, best: CBlockIndex?, n: CBlockIndex, skip: bool,
                        ok: bool, target: CBlockIndex, fork: CBlockIndex, reached: CBlockIndex, ix': Index)
  {
    && (!ok ==> ix' == ix)
    && if best == null then ok && reached == n && ix' == ix
       else if n.pprev == best then
         && reached == n && ok == ConnectOk(r, ix, AsChainBlock(n), skip)
         && (ok ==> ix' == ConnectedIndex(r, ix, AsChainBlock(n)))
       else
         && Picked(target, fork, best, n)
         && (ok <==> SameRoot(best, n) && Switched(r, ix, best, fork, target, skip).Some?)
         && (ok ==> Extended(r, Switched(r, ix, best, fork, target, skip).value, target, n, skip, reached, ix'))
  }

  /** What SetBestChain undoes, if it undoes anything, repeats no hash. */
  ghost predicate UndoesOnlyNew(r: Rules, best: CBlockIndex?, n: CBlockIndex, fork: CBlockIndex) {
    best == null || n.pprev == best || NewAbove(r, best, fork.nHeight)
  }

  /** The index follows the tip: from the replay of the old branch to the replay of the branch of `reached`. */
  lemma MovedKeepsReplay(r: Rules, ix: Index, best: CBlockIndex?, n: CBlockIndex, skip: bool,
                         target: CBlockIndex, fork: CBlockIndex, reached: CBlockIndex, ix': Index)
    requires Moved(r, ix, best, n, skip, true, target, fork, reached, ix') && UndoesOnlyNew(r, best, n, fork)
    requires WellFormed(n) && (best == null ==> n.pprev == null && ix == map[])
    requires best != null ==> WellFormed(best) && IndexAt(r, ix, best)
    ensures IndexAt(r, ix', reached)
  {
    if best == null {
      NoAncestors(n);
      hide TxLedger, ConnectOk, ConnectedIndex;
      assert ChainOf(n) == [];
    } else if n.pprev == best {
      hide IndexAt, ConnectOk, ConnectedIndex;
      ExtendReplay(r, ix, n, best, skip);
    } else {
      hide OnPath, IndexAt, NewAbove, Switched, IsFork, ConnectedUpTo, PostponedConnect;
      OnPathWellFormed(target, n);
      SwitchKeepsReplay(r, ix, fork, best, target, skip);
      ConnectedIsReplay(r, Switched(r, ix, best, fork, target, skip).value, target, reached, n, skip);
    }
  }

  /** The branch that the index gets to creates again what is lost in undoing the old one, if anything is undone. */
  ghost predicate MoveRecovers(r: Rules, best: CBlockIndex?, n: CBlockIndex, fork: CBlockIndex, reached: CBlockIndex)
  {
    || best == null || n.pprev == best
    || (fork.nHeight <= |best.anc| && fork.nHeight <= |reached.anc| &&
        var chain, h := ChainOf(best), fork.nHeight;
        Reorganization.Recovers(r, Ledger.Replay(TxLedger(r), chain, h), Reorganization.Lost(r, chain, h),
                                ChainOf(reached)[h..]))
  }

  lemma MovedHeights(r: Rules, ix: Index, best: CBlockIndex?, n: CBlockIndex, skip: bool,
                     target: CBlockIndex, fork: CBlockIndex, reached: CBlockIndex, ix': Index)
    requires Moved(r, ix, best, n, skip, true, target, fork, reached, ix')
    requires WellFormed(n) && best != null && n.pprev != best
    ensures WellFormed(target) && WellFormed(reached) && IsFork(fork, best, target)
    ensures fork.nHeight <= |best.anc| && fork.nHeight <= |target.anc| <= |reached.anc|
    ensures target.nHeight == |target.anc| && reached.nHeight == |reached.anc| <= |n.anc|
    ensures ChainOf(target) == ChainOf(n)[..|target.anc|] && ChainOf(reached) == ChainOf(n)[..|reached.anc|]
  {
    hide Switched, ConnectedUpTo, PostponedConnect, IsFork, AsChainBlock, ChainOf;
    PathWellFormed(n, target.nHeight);
    PathWellFormed(n, reached.nHeight);
    ChainPrefix(target, n);
    ChainPrefix(reached, n);
  }

  /** The two ways in which SetBestChain connects, written out. */
  lemma MovedParts(r: Rules, ix: Index, best: CBlockIndex?, n: CBlockIndex, skip: bool,
                   target: CBlockIndex, fork: CBlockIndex, reached: CBlockIndex, ix': Index)
    returns (mid: Index, switched: Index)
    requires Moved(r, ix, best, n, skip, true, target, fork, reached, ix') && best != null && n.pprev != best
    requires fork.nHeight <= |best.anc| && fork.nHeight <= |target.anc| <= |reached.anc| <= |n.anc|
    requires target.nHeight == |target.anc| && reached.nHeight == |reached.anc|
    ensures Ledger.DisconnectDown(TxLedger(r), ix, ChainOf(best), |best.anc|, fork.nHeight) == Some(mid)
    ensures Ledger.ConnectBlocks(TxLedger(r), mid, ChainOf(target)[fork.nHeight..], |target.anc| - fork.nHeight, skip)
            == Some(switched)
    ensures Ledger.ConnectBlocks(TxLedger(r), switched, ChainOf(n)[|target.anc|..], |reached.anc| - |target.anc|, skip)
            == Some(ix')
  {
    hide TxLedger, Ledger.DisconnectDown, Ledger.ConnectBlocks, ChainOf, Picked, OnPath, PostponedConnect, SameRoot;
    mid := Ledger.DisconnectDown(TxLedger(r), ix, ChainOf(best), |best.anc|, fork.nHeight).value;
    switched := Switched(r, ix, best, fork, target, skip).value;
  }

  /** The index that SetBestChain leaves comes from undoing the old branch to the fork and connecting the new one as far
      as it gets. */
  lemma MovedConnects(r: Rules, ix: Index, best: CBlockIndex?, n: CBlockIndex, skip: bool,
                      target: CBlockIndex, fork: CBlockIndex, reached: CBlockIndex, ix': Index)
    requires Moved(r, ix, best, n, skip, true, target, fork, reached, ix')
    requires WellFormed(n) && best != null && n.pprev != best
    ensures fork.nHeight <= |best.anc| && fork.nHeight <= |reached.anc|
    ensures var mid := Ledger.DisconnectDown(TxLedger(r), ix, ChainOf(best), |best.anc|, fork.nHeight);
      && mid.Some?
      && Ledger.ConnectBlocks(TxLedger(r), mid.value, ChainOf(reached)[fork.nHeight..], |reached.anc| - fork.nHeight,
                              skip) == Some(ix')
  {
    hide *;
    MovedHeights(r, ix, best, n, skip, target, fork, reached, ix');
    var mid, switched := MovedParts(r, ix, best, n, skip, target, fork, reached, ix');
    BranchInTwo(r, mid, ChainOf(n), fork.nHeight, |target.anc|, |reached.anc|, skip);
  }

  lemma BranchInTwo(r: Rules, mid: Index, chain: seq<ChainBlock>, h: nat, t: nat, k: nat, skip: bool)
    requires h <= t <= k <= |chain|
    ensures Ledger.ConnectBlocks(TxLedger(r), mid, chain[..k][h..], k - h, skip) ==
            match Ledger.ConnectBlocks(TxLedger(r), mid, chain[..t][h..], t - h, skip)
            case None => None
            case Some(ix) => Ledger.ConnectBlocks(TxLedger(r), ix, chain[t..], k - t, skip)
  {
    hide TxLedger, Ledger.ConnectBlocks;
    var a, b := chain[..t][h..], chain[t..];
    assert a + b == chain[h..];
    assert chain[..k][h..][..k - h] == chain[h..][..k - h];
    Ledger.ConnectBlocksSplit(TxLedger(r), mid, a, b, k - t, skip);
    Ledger.ConnectBlocksPrefix(TxLedger(r), mid, a + b, chain[..k][h..], k - h, skip);
  }

  lemma SameBeginning(a: seq<ChainBlock>, b: seq<ChainBlock>, c: seq<ChainBlock>, h: nat, t: nat, k: nat)
    requires h <= t <= k <= |c| && h <= |a| && b == c[..t] && a[..h] == b[..h]
    ensures a[..h] + c[..k][h..] == c[..k]
  {
    assert b[..h] == c[..k][..h];
  }

  lemma SwitchIsReplayIff(r: Rules, ix: Index, best: CBlockIndex, n: CBlockIndex, skip: bool,
                          target: CBlockIndex, fork: CBlockIndex, reached: CBlockIndex, ix': Index)
    requires Moved(r, ix, best, n, skip, true, target, fork, reached, ix') && n.pprev != best
    requires WellFormed(n) && WellFormed(best) && IndexAt(r, ix, best)
    ensures fork.nHeight <= |best.anc| && fork.nHeight <= |reached.anc|
    ensures IndexAt(r, ix', reached) <==> MoveRecovers(r, best, n, fork, reached)
  {
    hide *;
    MovedConnects(r, ix, best, n, skip, target, fork, reached, ix');
    MovedHeights(r, ix, best, n, skip, target, fork, reached, ix');
    BranchesShareChain(fork, best, target);
    SameBeginning(ChainOf(best), ChainOf(target), ChainOf(n), fork.nHeight, |target.anc|, |reached.anc|);
    BranchIsReplayIff(r, ix, best, n, fork, reached, skip, ix');
  }

  lemma BranchIsReplayIff(r: Rules, ix: Index, best: CBlockIndex, n: CBlockIndex, fork: CBlockIndex,
                          reached: CBlockIndex, skip: bool, ix': Index)
    requires n.pprev != best && IndexAt(r, ix, best) && fork.nHeight <= |best.anc| && fork.nHeight <= |reached.anc|
    requires ChainOf(best)[..fork.nHeight] + ChainOf(reached)[fork.nHeight..] == ChainOf(reached)
    requires var mid := Ledger.DisconnectDown(TxLedger(r), ix, ChainOf(best), |best.anc|, fork.nHeight);
      mid.Some? && Ledger.ConnectBlocks(TxLedger(r), mid.value, ChainOf(reached)[fork.nHeight..],
                                        |reached.anc| - fork.nHeight, skip) == Some(ix')
    ensures IndexAt(r, ix', reached) <==> MoveRecovers(r, best, n, fork, reached)
  {
    hide TxLedger, Ledger.DisconnectDown, Ledger.ConnectBlocks, Ledger.Replayed, ChainOf, Reorganization.Recovers,
        Reorganization.Lost, Ledger.Replay;
    var h := fork.nHeight;
    Reorganization.ReorganizeIff(r, Ledger.Node(ix, ChainOf(best)), h, ChainOf(reached)[h..], skip);
  }

  /** The index follows the tip exactly if what is lost on the way comes back. */
  lemma MovedIsReplayIff(r: Rules, ix: Index, best: CBlockIndex?, n: CBlockIndex, skip: bool,
                         target: CBlockIndex, fork: CBlockIndex, reached: CBlockIndex, ix': Index)
    requires Moved(r, ix, best, n, skip, true, target, fork, reached, ix')
    requires WellFormed(n) && (best == null ==> n.pprev == null && ix == map[])
    requires best != null ==> WellFormed(best) && IndexAt(r, ix, best)
    ensures IndexAt(r, ix', reached) <==> MoveRecovers(r, best, n, fork, reached)
  {
    if best == null || n.pprev == best {
      hide IndexAt;
      MovedKeepsReplay(r, ix, best, n, skip, target, fork, reached, ix');
    } else {
      SwitchIsReplayIff(r, ix, best, n, skip, target, fork, reached, ix');
    }
  }

  /** A block that starts a tree of its own never becomes the tip: Reorganize finds no common block. */
  lemma OtherRootFails(r: Rules, nodes: set<CBlockIndex>, ix: Index, best: CBlockIndex, n: CBlockIndex, skip: bool,
                       ok: bool, target: CBlockIndex, fork: CBlockIndex, reached: CBlockIndex, ix': Index)
    requires TreeOk(nodes) && best in nodes && n !in nodes && WellFormed(n) && n.pprev == null
    requires Moved(r, ix, best, n, skip, ok, target, fork, reached, ix')
    ensures !ok
  {
    hide Picked, Switched, Extended, ConnectOk, ConnectedIndex;
    NoAncestors(n);
    OnPathInTree(nodes, Path(best)[0], best);
  }

  lemma OnPathWellFormed(p: CBlockIndex, n: CBlockIndex)
    requires WellFormed(n) && OnPath(p, n)
    ensures WellFormed(p)
  {
    PathWellFormed(n, p.nHeight);
  }

  lemma OnPathInTree(nodes: set<CBlockIndex>, p: CBlockIndex, tip: CBlockIndex)
    requires TreeOk(nodes) && tip in nodes && OnPath(p, tip)
    ensures p in nodes && WellFormed(p) && |p.anc| == p.nHeight && Path(p)[0] == Path(tip)[0]
  {
    PathWellFormed(tip, p.nHeight);
  }

  // ----- a new node -----

  lemma TreeInsert(nodes: set<CBlockIndex>, n: CBlockIndex)
    requires TreeOk(nodes) && WellFormed(n) && (n.pprev == null || n.pprev in nodes)
    ensures TreeOk(nodes + {n})
    ensures n.pprev != null ==> Path(n)[0] == Path(n.pprev)[0]
  {
    hide WellFormed, AsChainBlock;
    if n.pprev != null { ChildChain(n, n.pprev); } else { NoAncestors(n); }
  }

  lemma NoAncestors(n: CBlockIndex)
    requires WellFormed(n) && n.pprev == null
    ensures n.anc == []
  {
  }

  lemma LinksInsert(nodes: set<CBlockIndex>, tip: CBlockIndex, n: CBlockIndex)
    requires TreeOk(nodes) && tip in nodes && n !in nodes && n.pnext == null && LinksTo(nodes, tip)
    ensures LinksTo(nodes + {n}, tip)
  {
    if OnPath(n, tip) { OnPathInTree(nodes, n, tip); }
  }
}
