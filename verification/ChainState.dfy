/** The globals of a3/a2/main.cpp that describe the block tree and its main chain, and the operations on them. */
module ChainState {
  import opened Wrappers
  import opened Transactions
  import opened ChainIndex
  import opened BlockChain
  import opened BlockIndex
  import opened TxDb
  import opened MainChain
  import Ledger

  class CChainState {
    const r: Rules
    const hashGenesisBlock: BlockHash
    /** Checkpoints::GetTotalBlocksEstimate(): below this height signatures are not checked. */
    const nTotalBlocksEstimate: nat
    const db: CTxDB
    var mapBlockIndex: map<BlockHash, CBlockIndex>
    var pindexGenesisBlock: CBlockIndex?
    var pindexBest: CBlockIndex?
    var hashBestChain: BlockHash
    var nBestHeight: int
    var bnBestChainWork: nat
    var pblockindexFBBHLast: CBlockIndex?

    constructor (r: Rules, hashGenesisBlock: BlockHash, nTotalBlocksEstimate: nat)
      ensures this.r == r && this.hashGenesisBlock == hashGenesisBlock
      ensures this.nTotalBlocksEstimate == nTotalBlocksEstimate
      ensures mapBlockIndex == map[] && pindexBest == null && fresh(db)
      ensures Valid() && IndexIsReplay()
    {
      this.r, this.hashGenesisBlock, this.nTotalBlocksEstimate := r, hashGenesisBlock, nTotalBlocksEstimate;
      db := new CTxDB(0);
      mapBlockIndex, pindexGenesisBlock, pindexBest := map[], null, null;
      hashBestChain, nBestHeight, bnBestChainWork, pblockindexFBBHLast := 0, -1, 0, null;
    }

    ghost function Nodes(): set<CBlockIndex>
      reads this`mapBlockIndex
    {
      mapBlockIndex.Values
    }

    /** The block index is made of trees, keyed by block hash. A block whose parent was unknown starts a tree of its
        own. */
    ghost predicate TreeValid()
      reads this`mapBlockIndex
    {
      && TreeOk(Nodes())
      && (forall h :: h in mapBlockIndex ==> mapBlockIndex[h].hash == h)
      && (forall n :: n in Nodes() ==> n.hash in mapBlockIndex && mapBlockIndex[n.hash] == n)
      && (forall n :: n in Nodes() && n.pprev != null ==> n.block.hashPrev == n.pprev.hash)
    }

    /** Main chain, links and cached globals agree. Nothing is indexed before the genesis block. */
    ghost predicate TipValid()
      reads this, db, Nodes()
    {
      && db.saved.None?
      && (pindexBest == null ==>
           && pindexGenesisBlock == null && db.index == map[] && bnBestChainWork == 0 && pblockindexFBBHLast == null
           && forall n :: n in Nodes() ==> n.pprev == null && n.hash == hashGenesisBlock && n.pnext == null)
      && (pindexBest != null ==>
           && pindexBest in Nodes() && Path(pindexBest)[0] == pindexGenesisBlock
           && LinksTo(Nodes(), pindexBest)
           && hashBestChain == pindexBest.hash
           && nBestHeight == pindexBest.nHeight
           && bnBestChainWork == pindexBest.nChainWork
           && (pblockindexFBBHLast != null ==> OnPath(pblockindexFBBHLast, pindexBest)))
    }

    ghost predicate Valid()
      reads this, db, Nodes()
    {
      TreeValid() && TipValid()
    }

    /** The transaction index is the replay of the main chain. */
    ghost predicate IndexIsReplay()
      reads this, db
    {
      if pindexBest == null then db.index == map[] else IndexAt(r, db.index, pindexBest)
    }

    /** A block without a parent in the tree is the genesis block, or it does not name the tip as its parent. */
    ghost predicate Founded(n: CBlockIndex)
      reads this
    {
      n.pprev == null && pindexBest != null ==> n.block.hashPrev != hashBestChain
    }

    /** The part of SetBestChain that moves the links and the index; on failure they are back where they were. */
    method MoveTip(pindexNew: CBlockIndex)
      returns (ok: bool, ghost target: CBlockIndex, ghost fork: CBlockIndex, ghost reached: CBlockIndex)
      requires Valid() && pindexNew in Nodes() && pindexNew.nChainWork > bnBestChainWork && Founded(pindexNew)
      modifies this`pindexGenesisBlock, db, Nodes()`pnext
      ensures Moved(r, old(db.index), pindexBest, pindexNew, nBestHeight < nTotalBlocksEstimate, ok, target, fork,
                    reached, db.index)
      ensures TreeValid() && db.saved.None?
      ensures !ok ==> Valid() && db.index == old(db.index)
      ensures ok ==> Path(pindexNew)[0] == pindexGenesisBlock && OnPath(reached, pindexNew)
      ensures ok ==> reached in Nodes() && LinksTo(Nodes(), reached)
    {
      hide OnPath, LinksTo, TreeOk, WellFormed, Path, Picked, Switched, ConnectedUpTo, PostponedConnect,
          ConnectOk, ConnectedIndex, AsChainBlock;
      target, fork, reached := pindexNew, pindexNew, pindexNew;
      TipInTree(Nodes(), pindexNew);
      var skip := nBestHeight < nTotalBlocksEstimate;
      if pindexBest == null { RootStands(pindexNew); }
      else if pindexNew.block.hashPrev == hashBestChain { ParentIsBest(pindexNew); }
      var begun := db.TxnBegin();
      if pindexGenesisBlock == null && pindexNew.hash == hashGenesisBlock {
        db.WriteHashBestChain(pindexNew.hash);
        var committed := db.TxnCommit();
        pindexGenesisBlock := pindexNew;
      } else if pindexNew.block.hashPrev == hashBestChain {
        ghost var tip := pindexBest;
        ok := SetBestChainInner(r, db, pindexNew, skip, tip, Nodes());
        if !ok { return; }
      } else {
        ok, target, fork, reached := SwitchBranch(r, db, pindexBest, pindexNew, skip, Nodes());
        if !ok { return; }
      }
      ok := true;
    }

    /** SetBestChain. On success the tip is pindexNew; the links and the index stand at `reached`, which is pindexNew
        too unless a postponed block fails to connect, and the state is valid in that case only. An index that was
        the replay of its chain is one again exactly if the entries lost on the way come back, and always if the blocks
        that are undone repeat no transaction hash. */
    method SetBestChain(pindexNew: CBlockIndex)
      returns (ok: bool, ghost target: CBlockIndex, ghost fork: CBlockIndex, ghost reached: CBlockIndex)
      requires Valid() && pindexNew in Nodes() && pindexNew.nChainWork > bnBestChainWork && Founded(pindexNew)
      modifies this, db, Nodes()`pnext
      ensures Moved(r, old(db.index), old(pindexBest), pindexNew, old(nBestHeight) < nTotalBlocksEstimate, ok,
                    target, fork, reached, db.index)
      ensures mapBlockIndex == old(mapBlockIndex) && TreeValid()
      ensures !ok ==> Valid() && pindexBest == old(pindexBest) && db.index == old(db.index)
      ensures ok ==> pindexBest == pindexNew && bnBestChainWork == pindexNew.nChainWork
      ensures ok ==> OnPath(reached, pindexNew) && reached in Nodes() && LinksTo(Nodes(), reached)
      ensures ok ==> (reached == pindexNew <==> Valid())
      ensures ok && old(IndexIsReplay()) ==>
          (IndexAt(r, db.index, reached) <==> MoveRecovers(r, old(pindexBest), pindexNew, fork, reached))
      ensures ok && old(IndexIsReplay()) && UndoesOnlyNew(r, old(pindexBest), pindexNew, fork) ==>
          IndexAt(r, db.index, reached)
    {
      hide *;
      ghost var before, best, skip, replayed := db.index, pindexBest, nBestHeight < nTotalBlocksEstimate,
            IndexIsReplay();
      ReplayBefore(pindexNew);
      ok, target, fork, reached := MoveTip(pindexNew);
      if !ok { return; }
      hashBestChain := pindexNew.hash;
      pindexBest := pindexNew;
      pblockindexFBBHLast := null;
      nBestHeight := pindexBest.nHeight;
      bnBestChainWork := pindexNew.nChainWork;
      ReachedIsTip(reached);
      if replayed {
        MovedIsReplayIff(r, before, best, pindexNew, skip, target, fork, reached, db.index);
        if UndoesOnlyNew(r, best, pindexNew, fork) {
          MovedKeepsReplay(r, before, best, pindexNew, skip, target, fork, reached, db.index);
        }
      }
    }

    lemma ReplayBefore(n: CBlockIndex)
      requires Valid() && n in Nodes()
      ensures WellFormed(n) && (pindexBest == null ==> n.pprev == null && db.index == map[])
      ensures pindexBest != null ==> WellFormed(pindexBest) && (IndexIsReplay() ==> IndexAt(r, db.index, pindexBest))
    {
    }

    /** With the globals set to a tip, the state is valid exactly when the links stand at that tip. */
    lemma ReachedIsTip(reached: CBlockIndex)
      requires TreeValid() && db.saved.None? && pindexBest != null && Path(pindexBest)[0] == pindexGenesisBlock
      requires pindexBest in Nodes()
      requires hashBestChain == pindexBest.hash && nBestHeight == pindexBest.nHeight
      requires bnBestChainWork == pindexBest.nChainWork
      requires pblockindexFBBHLast == null && OnPath(reached, pindexBest) && reached in Nodes()
      requires LinksTo(Nodes(), reached)
      ensures reached == pindexBest <==> Valid()
    {
      hide OnPath, LinksTo, TreeOk, WellFormed, Path;
      if Valid() { OneTip(Nodes(), reached, pindexBest); }
    }

    /** mapBlockIndex.insert */
    method Insert(pindexNew: CBlockIndex)
      requires Valid() && pindexNew !in Nodes() && pindexNew.hash !in mapBlockIndex
      requires WellFormed(pindexNew) && pindexNew.pnext == null
      requires pindexNew.pprev != null ==>
          pindexBest != null && pindexNew.pprev in Nodes() && pindexNew.block.hashPrev == pindexNew.pprev.hash
      requires pindexBest == null ==> mapBlockIndex == map[] && pindexNew.hash == hashGenesisBlock
      modifies this`mapBlockIndex
      ensures mapBlockIndex == old(mapBlockIndex)[pindexNew.hash := pindexNew]
      ensures Nodes() == old(Nodes()) + {pindexNew}
      ensures Valid()
    {
      hide OnPath, LinksTo, TreeOk, WellFormed, Path;
      TreeInsert(Nodes(), pindexNew);
      if pindexBest != null { LinksInsert(Nodes(), pindexBest, pindexNew); }
      mapBlockIndex := mapBlockIndex[pindexNew.hash := pindexNew];
      assert pindexNew.hash in mapBlockIndex;
      assert Nodes() == old(Nodes()) + {pindexNew} by {
        forall n | n in old(Nodes()) ensures n in Nodes() {
          assert n.hash in mapBlockIndex && mapBlockIndex[n.hash] == n;
        }
      }
    }

    /** AddToBlockIndex. The callers see to it that the genesis block comes first. No block names itself as its parent,
        because its hash is taken over that name. */
    method AddToBlockIndex(block: Block, at: BlockPos, nBlockWork: nat)
      returns (ok: bool, ghost target: CBlockIndex?, ghost fork: CBlockIndex?, ghost reached: CBlockIndex?)
      requires Valid()
      requires if pindexBest == null then mapBlockIndex == map[] && block.hash == hashGenesisBlock
               else block.hashPrev != block.hash
      modifies this, db, Nodes()`pnext
      ensures block.hash in old(mapBlockIndex) ==> !ok && Valid() && mapBlockIndex == old(mapBlockIndex)
      ensures TreeValid() && mapBlockIndex.Keys == old(mapBlockIndex).Keys + {block.hash}
      ensures forall h :: h in old(mapBlockIndex) ==> mapBlockIndex[h] == old(mapBlockIndex)[h]
      ensures !ok ==> Valid() && pindexBest == old(pindexBest) && db.index == old(db.index)
      ensures block.hash !in old(mapBlockIndex) ==>
        var n := mapBlockIndex[block.hash];
        && fresh(n) && n.block == block && n.at == at
        && n.pprev == (if block.hashPrev in old(mapBlockIndex) then old(mapBlockIndex)[block.hashPrev] else null)
        && n.nChainWork == (if n.pprev == null then 0 else n.pprev.nChainWork) + nBlockWork
      ensures block.hash !in old(mapBlockIndex) && block.hashPrev !in old(mapBlockIndex) && old(pindexBest) != null ==>
        (ok <==> mapBlockIndex[block.hash].nChainWork <= old(bnBestChainWork))
      ensures block.hash !in old(mapBlockIndex) && mapBlockIndex[block.hash].nChainWork <= old(bnBestChainWork) ==>
        ok && Valid() && pindexBest == old(pindexBest) && db.index == old(db.index)
      ensures block.hash !in old(mapBlockIndex) && mapBlockIndex[block.hash].nChainWork > old(bnBestChainWork) ==>
        && target != null && fork != null && reached != null
        && var n := mapBlockIndex[block.hash];
           && Moved(r, old(db.index), old(pindexBest), n, old(nBestHeight) < nTotalBlocksEstimate, ok, target, fork,
                    reached, db.index)
           && (ok ==> pindexBest == n && OnPath(reached, n) && reached in Nodes() && LinksTo(Nodes(), reached))
           && (ok ==> (reached == n <==> Valid()))
           && (ok && old(IndexIsReplay()) ==>
               (IndexAt(r, db.index, reached) <==> MoveRecovers(r, old(pindexBest), n, fork, reached)))
           && (ok && old(IndexIsReplay()) && UndoesOnlyNew(r, old(pindexBest), n, fork) ==>
               IndexAt(r, db.index, reached))
    {
      hide Moved, OnPath, LinksTo, TreeOk, IndexAt, WellFormed, Path, UndoesOnlyNew, MoveRecovers;
      target, fork, reached := null, null, null;
      if block.hash in mapBlockIndex { return false, target, fork, reached; }
      var pprev: CBlockIndex? := if block.hashPrev in mapBlockIndex then mapBlockIndex[block.hashPrev] else null;
      if pprev != null { TipInTree(Nodes(), pprev); }
      ghost var nodes, ix, best, skip := Nodes(), db.index, pindexBest, nBestHeight < nTotalBlocksEstimate;
      var pindexNew := new CBlockIndex(block, at, pprev, nBlockWork);
      Insert(pindexNew);
      if pindexNew.nChainWork > bnBestChainWork {
        ok, target, fork, reached := SetBestChain(pindexNew);
        if pprev == null && best != null {
          OtherRootFails(r, nodes, ix, best, pindexNew, skip, ok, target, fork, reached, db.index);
        }
        return ok, target, fork, reached;
      }
      return true, target, fork, reached;
    }

    lemma ParentIsBest(n: CBlockIndex)
      requires Valid() && pindexBest != null && n in Nodes() && n.nChainWork > bnBestChainWork
          && n.block.hashPrev == hashBestChain && Founded(n)
      ensures n.pprev == pindexBest && SameRoot(n, pindexBest)
    {
      assert n.pprev != null;
    }

    /** The only node there can be before the genesis block is connected. */
    lemma RootStands(n: CBlockIndex)
      requires Valid() && pindexBest == null && n in Nodes()
      ensures n.hash == hashGenesisBlock && n.pprev == null
      ensures LinksTo(Nodes(), n) && OnPath(n, n) && forall m :: m in Nodes() ==> Path(m)[0] == n
    {
    }

    /** FindBlockByHeight, for a height on the main chain. It starts from the genesis block, the tip or the block
        found last, whichever is nearest. */
    method FindBlockByHeight(nHeight: int) returns (pblockindex: CBlockIndex)
      requires Valid() && pindexBest != null && 0 <= nHeight <= nBestHeight
      modifies this`pblockindexFBBHLast
      ensures Valid()
      ensures pblockindex.nHeight == nHeight && OnPath(pblockindex, pindexBest)
    {
      hide OnPath, LinksTo, TreeOk, WellFormed;
      GenesisOnPath();
      BestWellFormed();
      TipOnPath(pindexBest);
      var p: CBlockIndex := if nHeight < nBestHeight / 2 then pindexGenesisBlock else pindexBest;
      if pblockindexFBBHLast != null && Abs(nHeight - p.nHeight) > Abs(nHeight - pblockindexFBBHLast.nHeight) {
        p := pblockindexFBBHLast;
      }
      p := WalkToHeight(p, nHeight, pindexBest, Nodes());
      pblockindexFBBHLast := p;
      return p;
    }

    lemma BestWellFormed()
      requires Valid() && pindexBest != null
      ensures WellFormed(pindexBest)
    {
    }

    lemma GenesisOnPath()
      requires Valid() && pindexBest != null
      ensures pindexGenesisBlock != null && OnPath(pindexGenesisBlock, pindexBest) && pindexGenesisBlock.nHeight == 0
    {
      PathWellFormed(pindexBest, 0);
    }
  }

  function Abs(x: int): int { if x < 0 then -x else x }
}
