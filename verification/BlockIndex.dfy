/** The tree of block headers kept in memory (CBlockIndex in a3/a2/main.h). */
module BlockIndex {
  import opened Transactions
  import opened ChainIndex
  import opened BlockChain

  /** A node of the block tree. Everything but `pnext` is fixed when the node is made. `block` is what reading the
      block file at `at` yields; `anc` lists the proper ancestors, root first. */
  class CBlockIndex {
    const hash: BlockHash
    const pprev: CBlockIndex?
    const nHeight: nat
    const at: BlockPos
    const nChainWork: nat
    const block: Block
    ghost const anc: seq<CBlockIndex>
    var pnext: CBlockIndex?

    /** AddToBlockIndex: height and work follow from the parent. */
    constructor (block: Block, at: BlockPos, pprev: CBlockIndex?, nBlockWork: nat)
      requires pprev != null ==> WellFormed(pprev)
      ensures WellFormed(this)
      ensures this.hash == block.hash && this.pprev == pprev && this.at == at && this.block == block
      ensures pnext == null
      ensures nHeight == (if pprev == null then 0 else pprev.nHeight + 1)
      ensures nChainWork == (if pprev == null then 0 else pprev.nChainWork) + nBlockWork
    {
      this.hash := block.hash;
      this.block := block;
      this.at := at;
      this.pprev := pprev;
      this.nHeight := if pprev == null then 0 else pprev.nHeight + 1;
      this.nChainWork := (if pprev == null then 0 else pprev.nChainWork) + nBlockWork;
      this.anc := if pprev == null then [] else pprev.anc + [pprev];
      this.pnext := null;
    }
  }

  /** The ghost list of ancestors describes the chain of parent pointers, all the way to the root. */
  ghost predicate WellFormed(n: CBlockIndex) {
    && n.nHeight == |n.anc|
    && n.hash == n.block.hash
    && n.pprev == Parent(n.anc, |n.anc|)
    && (n.pprev != null ==> n.anc[0].nChainWork <= n.nChainWork)
    && forall i :: 0 <= i < |n.anc| ==>
         && n.anc[i].anc == n.anc[..i]
         && n.anc[i].nHeight == i
         && n.anc[i].hash == n.anc[i].block.hash
         && n.anc[i].pprev == Parent(n.anc, i)
         && n.anc[0].nChainWork <= n.anc[i].nChainWork
  }

  ghost function Parent(path: seq<CBlockIndex>, i: nat): CBlockIndex?
    requires i <= |path|
  {
    if i == 0 then null else path[i - 1]
  }

  /** The nodes from the root to n. */
  ghost function Path(n: CBlockIndex): (p: seq<CBlockIndex>)
    ensures |p| == |n.anc| + 1
  {
    n.anc + [n]
  }

  lemma PathWellFormed(n: CBlockIndex, i: nat)
    requires WellFormed(n) && i <= n.nHeight
    ensures WellFormed(Path(n)[i]) && Path(n)[i].nHeight == i && Path(Path(n)[i]) == Path(n)[..i + 1]
    ensures Path(n)[i].pprev == Parent(Path(n), i)
  {
    var m := Path(n)[i];
    if i < n.nHeight {
      forall j | 0 <= j < i ensures m.anc[j].anc == m.anc[..j] {
        assert m.anc[j] == n.anc[j];
      }
    }
  }

  /** Disk positions of a block and its ancestors, nearest first. */
  ghost function Recent(n: CBlockIndex): seq<BlockPos> {
    seq(|n.anc| + 1, k requires 0 <= k <= |n.anc| => Path(n)[|n.anc| - k].at)
  }

  ghost function AsChainBlock(n: CBlockIndex): ChainBlock {
    ChainBlock(n.block, n.nHeight, n.at, Recent(n))
  }

  /** The blocks from height 1 to n: the genesis block is never connected. */
  ghost function ChainOf(n: CBlockIndex): (chain: seq<ChainBlock>)
    ensures |chain| == |n.anc|
  {
    seq(|n.anc|, k requires 0 <= k < |n.anc| => AsChainBlock(Path(n)[k + 1]))
  }
}
