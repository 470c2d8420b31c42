/** Concrete inputs for which the chain code does not do what one would expect. */
module Counterexamples {
  import opened Wrappers
  import opened Transactions
  import opened ChainIndex
  import opened BlockChain
  import opened BlockIndex
  import opened TxDb
  import opened MainChain
  import opened ChainState
  import Miner

  /** Rules that accept every header and signature. The hash of a transaction is its lock time. */
  function Plain(): Rules {
    Rules((tx: Tx) => tx.nLockTime, (tx: Tx) => 1, (b: Block) => true, (tx: Tx) => 0, (o: TxOut, i: TxIn) => 0,
          (txPrev: Tx, tx: Tx, n: nat, strict: bool) => true)
  }

  /** A coinbase with the hash h and one output that is worth nothing. */
  function Reward(h: TxId): Tx { Tx([TxIn(OutPoint(0, NULL_N), [0, 0])], [TxOut(0, [])], h) }

  function PlainBlock(hash: BlockHash, hashPrev: BlockHash, vtx: seq<Tx>): Block { Block(hash, hashPrev, 0, vtx) }

  lemma OneReward(h: TxId, base: Index, c: ChainBlock, skip: bool)
    requires c.block.vtx == [Reward(h)] && MayWrite(base, h)
    ensures ConnectOk(Plain(), base, c, skip)
    ensures ConnectedIndex(Plain(), base, c) ==
            base[h := TxIndex(DiskPos(c.at, TxPos(Plain(), c, 0)), Reward(h), [None])]
  {
    var r, tx := Plain(), Reward(h);
    assert OutSum(tx.vout, 1) == OutSum(tx.vout, 0) + 0 == 0;
    assert TransactionOk(r, tx);
    assert LegacySigOps(r, c.block.vtx, 1) == LegacySigOps(r, c.block.vtx, 0) + 0 == 0;
    assert SigOps(r, base, c, 1) == SigOps(r, base, c, 0) + 0 == 0;
    assert TxAccepted(r, base, c, 0, skip);
    assert Fees(r, base, c, 1) == Fees(r, base, c, 0) + 0 == 0;
    assert Located(r, c)[0] == PosTx(tx, DiskPos(c.at, TxPos(r, c, 0)));
    assert NewEntry(Located(r, c)[0]).vSpent == [None];
    assert ConnectTxs(r, base, Located(r, c), 1) ==
        ConnectTx(r, ConnectTxs(r, base, Located(r, c), 0), Located(r, c)[0]);
  }

  function Spending(prevouts: seq<OutPoint>): Tx {
    Tx(seq(|prevouts|, i requires 0 <= i < |prevouts| => TxIn(prevouts[i], [])), [TxOut(0, [])], 0)
  }

  /** A pool of two transactions: 2 spends from 1 and from one that is nowhere. Nothing is on disk. */
  function OrphanPool(): Miner.Pool {
    Miner.Pool(Plain(), map[1 := Spending([]), 2 := Spending([OutPoint(1, 0), OutPoint(9, 0)])], (tx: Tx) => true,
               (o: OutPoint) => false, (c: TxId) => 0.0, (c: TxId) => 0.0, (vtx: seq<TxId>, c: TxId) => true,
               (vtx: seq<TxId>, c: TxId) => 0)
  }

  /** CreateNewBlock drops the record of transaction 2 and keeps a pointer to it for when 1 is in the block. */
  lemma RecordIsDropped()
    ensures var p := OrphanPool();
            Miner.Dropped(p, 2) && Miner.Names(p, 2, 1) && Miner.Eligible(p, 1) && !Miner.NoneDropped(p)
  {
    var p := OrphanPool();
    var vin := p.mapTx[2].vin;
    assert !p.onDisk(vin[0].prevout) && Miner.Missing(p, vin[1].prevout) && !Miner.Missing(p, vin[0].prevout);
    assert Miner.Reached(p, vin) == 1;
    assert Miner.ParentsUpTo(p, vin, 1) == Miner.ParentsUpTo(p, vin, 0) + {1};
    assert Miner.Dropped(p, 2);
    Miner.NoneDroppedIff(p);
  }

  /** A coinbase whose outputs are all spent is repeated. The block connects, and undoing it takes the old entry out of
      the index instead of bringing it back. */
  lemma RepeatedIsNotRestored(c: ChainBlock, at: DiskPos, spender: DiskPos)
    requires c.block == PlainBlock(1, 0, [Reward(7)])
    ensures var base: Index := map[7 := TxIndex(at, Reward(7), [Some(spender)])];
            && ConnectOk(Plain(), base, c, false) && !TxidsNew(Plain(), base, c)
            && DisconnectedIndex(Plain(), ConnectedIndex(Plain(), base, c), c) == Some(map[]) != Some(base)
  {
    var r, base: Index := Plain(), map[7 := TxIndex(at, Reward(7), [Some(spender)])];
    OneReward(7, base, c, false);
    assert r.hash(c.block.vtx[0]) == 7 && 7 in base.Keys;
    assert 7 in TxIds(r, c.block.vtx, 1);
    var ix := ConnectedIndex(r, base, c);
    assert DisconnectTx(r, ix, Located(r, c)[0].tx) == Some(ix - {7});
    assert ix - {7} == map[];
    assert DisconnectTxs(r, ix, Located(r, c), 1) == DisconnectTxs(r, ix - {7}, Located(r, c), 0);
    assert 7 in base;
  }

  /** A branch g, n1, n2 whose first block connects and whose second one is empty. */
  ghost predicate EmptyAtTheEnd(g: CBlockIndex, n1: CBlockIndex, n2: CBlockIndex) {
    && WellFormed(g) && WellFormed(n1) && WellFormed(n2)
    && g.pprev == null && n1.pprev == g && n2.pprev == n1
    && n1.block == PlainBlock(1, 0, [Reward(1)]) && n2.block == PlainBlock(2, 1, [])
    && g.nChainWork == 1 && n1.nChainWork == 2 && n2.nChainWork == 3
  }

  lemma TargetIsFirst(g: CBlockIndex, n1: CBlockIndex, n2: CBlockIndex, target: CBlockIndex, fork: CBlockIndex)
    requires EmptyAtTheEnd(g, n1, n2) && Picked(target, fork, g, n2)
    ensures target == n1 && fork == g
    ensures g.anc == [] && n1.anc == [g] && n2.anc == [g, n1]
  {
    NoAncestors(g);
    ChildChain(n1, g);
    ChildChain(n2, n1);
    assert Path(n2) == [g, n1, n2];
    assert Path(g) == [g];
  }

  lemma ChainsAre(g: CBlockIndex, n1: CBlockIndex, n2: CBlockIndex)
    requires g.anc == [] && n1.anc == [g] && n2.anc == [g, n1]
    ensures ChainOf(g) == [] && ChainOf(n1)[0..] == [AsChainBlock(n1)] && ChainOf(n2)[1..] == [AsChainBlock(n2)]
  {
    hide AsChainBlock;
    assert Path(n1)[1] == n1 && Path(n2)[2] == n2;
  }

  /** The reorganization to n1 succeeds, and the postponed block n2 does not connect. */
  lemma SecondDoesNotConnect(g: CBlockIndex, n1: CBlockIndex, n2: CBlockIndex)
    requires g.anc == [] && n1.anc == [g] && n2.anc == [g, n1] && EmptyAtTheEnd(g, n1, n2) && n1.nHeight == 1
    requires g.nHeight == 0
    ensures Switched(Plain(), map[], g, g, n1, false).Some?
    ensures !PostponedConnect(Plain(), Switched(Plain(), map[], g, g, n1, false).value, n1, n2, false)
  {
    ChainsAre(g, n1, n2);
    OneReward(1, map[], AsChainBlock(n1), false);
    hide ConnectedIndex, TxsAccepted, ChainOf;
    var mid := ConnectedIndex(Plain(), map[], AsChainBlock(n1));
    ConnectNext(Plain(), map[], [AsChainBlock(n1)], 0, map[], false);
    ConnectNext(Plain(), mid, [AsChainBlock(n2)], 0, mid, false);
  }

  lemma StopsShort(g: CBlockIndex, n1: CBlockIndex, n2: CBlockIndex, ok: bool, target: CBlockIndex, fork: CBlockIndex,
                   reached: CBlockIndex, ix: Index)
    requires EmptyAtTheEnd(g, n1, n2) && Moved(Plain(), map[], g, n2, false, ok, target, fork, reached, ix)
    ensures ok && reached != n2
  {
    hide ConnectOk, ConnectedIndex, Switched, PostponedConnect, ConnectedUpTo, WellFormed, Picked, OnPath;
    TargetIsFirst(g, n1, n2, target, fork);
    HeightsAre(g, n1);
    SecondDoesNotConnect(g, n1, n2);
  }

  lemma HeightsAre(g: CBlockIndex, n1: CBlockIndex)
    requires WellFormed(g) && WellFormed(n1) && g.anc == [] && n1.anc == [g]
    ensures g.nHeight == 0 && n1.nHeight == 1
  {
  }

  /** A node that has connected a genesis block and knows nothing else. */
  method OneBlock() returns (cs: CChainState, g: CBlockIndex)
    ensures fresh(cs) && fresh(cs.db) && cs.r == Plain() && cs.Valid()
    ensures WellFormed(g) && g.pprev == null && g.hash == 0 && g.nChainWork == 1
    ensures cs.mapBlockIndex == map[0 := g] && cs.pindexBest == g && fresh(g) && cs.db.index == map[]
    ensures cs.nBestHeight >= cs.nTotalBlocksEstimate && cs.bnBestChainWork == 1
  {
    hide CChainState.TreeValid, WellFormed, LinksTo, OnPath, Path, UndoesOnlyNew, IndexAt, Picked, Switched, ConnectOk;
    cs := new CChainState(Plain(), 0, 0);
    ghost var ok, t, f, q;
    ok, t, f, q := cs.AddToBlockIndex(PlainBlock(0, 0, []), BlockPos(0, 0), 1);
    g := cs.mapBlockIndex[0];
    assert g in cs.Nodes();
    KnownNode(cs, g);
  }

  /** A node that has connected the genesis block g and knows two more blocks, of which the second is empty. */
  method ThreeBlocks() returns (cs: CChainState, n2: CBlockIndex, ghost g: CBlockIndex, ghost n1: CBlockIndex)
    ensures fresh(cs) && fresh(cs.db) && fresh(cs.Nodes()) && cs.r == Plain() && cs.Valid()
    ensures EmptyAtTheEnd(g, n1, n2) && cs.pindexBest == g && n2 in cs.Nodes() && cs.db.index == map[]
    ensures cs.Founded(n2) && cs.nBestHeight >= cs.nTotalBlocksEstimate && cs.bnBestChainWork == 1 && n2.nChainWork == 3
  {
    hide CChainState.Valid, CChainState.TreeValid, WellFormed;
    var root;
    cs, root := OneBlock();
    g := root;
    var first := new CBlockIndex(PlainBlock(1, 0, [Reward(1)]), BlockPos(0, 81), root, 1);
    n1 := first;
    assert root in cs.Nodes() by { assert 0 in cs.mapBlockIndex; }
    cs.Insert(first);
    assert first in cs.Nodes();
    n2 := new CBlockIndex(PlainBlock(2, 1, []), BlockPos(0, 163), first, 1);
    cs.Insert(n2);
  }

  lemma KnownNode(cs: CChainState, n: CBlockIndex)
    requires cs.Valid() && n in cs.Nodes()
    ensures WellFormed(n)
  {
  }

  /** SetBestChain for the empty block succeeds, although the links and the index get to the block before it only. */
  method PostponedBlockFails() returns (cs: CChainState, pindexNew: CBlockIndex, ok: bool, ghost reached: CBlockIndex)
    ensures ok && cs.pindexBest == pindexNew && reached != pindexNew && LinksTo(cs.Nodes(), reached) && !cs.Valid()
  {
    hide *;
    ghost var g, n1, target, fork;
    cs, pindexNew, g, n1 := ThreeBlocks();
    ok, target, fork, reached := cs.SetBestChain(pindexNew);
    StopsShort(g, n1, pindexNew, ok, target, fork, reached, cs.db.index);
  }
}
