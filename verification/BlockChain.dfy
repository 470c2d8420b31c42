/** Connecting whole blocks, and runs of connects, disconnects and reorganizations
    (CBlock::ConnectBlock, CBlock::DisconnectBlock, Reorganize and SetBestChain in a3/a2/main.cpp). */
module BlockChain {
  import opened Transactions
  import opened ChainIndex
  import opened Wrappers
  import Ledger

  /** A block with its place in the tree: `recent` lists the disk positions of the block itself and of its
      ancestors, nearest first. */
  datatype ChainBlock = ChainBlock(block: Block, nHeight: nat, at: BlockPos, recent: seq<BlockPos>)

  const BIP16_SWITCH_TIME: nat := 1333238400

  predicate StrictP2sh(c: ChainBlock) { c.block.nTime >= BIP16_SWITCH_TIME }

  /** The two blocks that are allowed to overwrite unspent transactions. */
  predicate Bip30Exempt(nHeight: nat, hash: BlockHash) {
    || (nHeight == 91842 && hash == 0x00000000000a4d0a398161ffc163c503763b1f4360639393e0e4c8e300e0caec)
    || (nHeight == 91880 && hash == 0x00000000000743f190a18c5577a3c2d2a1f610ae9601ac046a38084ccb7cd721)
  }

  function SizeOfCompactSize(n: nat): nat {
    if n < 253 then 1 else if n <= 0xffff then 3 else if n <= 0xffff_ffff then 5 else 9
  }

  /** The offset that ConnectBlock computes for transaction n: an empty block is 81 bytes. */
  function TxPos(r: Rules, c: ChainBlock, n: nat): nat
    requires n <= |c.block.vtx|
  {
    if n == 0 then c.at.nBlockPos + 81 - 1 + SizeOfCompactSize(|c.block.vtx|)
    else TxPos(r, c, n - 1) + r.txSize(c.block.vtx[n - 1])
  }

  function Located(r: Rules, c: ChainBlock): (ts: seq<PosTx>)
    ensures |ts| == |c.block.vtx|
    ensures forall k :: 0 <= k < |ts| ==> ts[k] == PosTx(c.block.vtx[k], DiskPos(c.at, TxPos(r, c, k)))
  {
    seq(|c.block.vtx|, k requires 0 <= k < |c.block.vtx| => PosTx(c.block.vtx[k], DiskPos(c.at, TxPos(r, c, k))))
  }

  /** The index as the block's first n transactions leave it. */
  function View(r: Rules, base: Index, c: ChainBlock, n: nat): Index
    requires n <= |c.block.vtx|
  {
    ConnectTxs(r, base, Located(r, c), n)
  }

  function SigOps(r: Rules, base: Index, c: ChainBlock, n: nat): nat
    requires n <= |c.block.vtx|
  {
    if n == 0 then 0
    else
      var tx := c.block.vtx[n - 1];
      SigOps(r, base, c, n - 1) + r.legacySigOps(tx) +
      if StrictP2sh(c) && !tx.IsCoinBase() then P2shSigOps(r, View(r, base, c, n - 1), tx.vin, |tx.vin|) else 0
  }

  function Fees(r: Rules, base: Index, c: ChainBlock, n: nat): int
    requires n <= |c.block.vtx|
  {
    if n == 0 then 0
    else
      var tx := c.block.vtx[n - 1];
      Fees(r, base, c, n - 1) +
      if tx.IsCoinBase() then 0 else ValueIn(View(r, base, c, n - 1), tx.vin, |tx.vin|) - ValueOut(tx)
  }

  /** BIP 30: a known transaction may be overwritten only when all its outputs are spent. */
  predicate MayWrite(base: Index, h: TxId) {
    h in base ==> forall k :: 0 <= k < |base[h].vSpent| ==> base[h].vSpent[k].Some?
  }

  predicate TxAccepted(r: Rules, base: Index, c: ChainBlock, k: nat, skip: bool)
    requires k < |c.block.vtx|
  {
    var tx := c.block.vtx[k];
    && (Bip30Exempt(c.nHeight, c.block.hash) || MayWrite(base, r.hash(tx)))
    && SigOps(r, base, c, k + 1) <= MAX_BLOCK_SIGOPS
    && (tx.IsCoinBase() || SpendOk(r, View(r, base, c, k), tx, c.recent, StrictP2sh(c), skip))
  }

  predicate TxsAccepted(r: Rules, base: Index, c: ChainBlock, n: nat, skip: bool)
    requires n <= |c.block.vtx|
  {
    forall k :: 0 <= k < n ==> TxAccepted(r, base, c, k, skip)
  }

  const HALVING: nat := 210000

  /** v >> n */
  function ShiftRight(v: nat, n: nat): nat {
    if n == 0 then v else ShiftRight(v, n - 1) / 2
  }

  /** The block subsidy: halved every 210000 blocks. */
  function Subsidy(nHeight: nat): nat { ShiftRight(50 * COIN, nHeight / HALVING) }

  function BlockValue(nHeight: nat, nFees: int): int { Subsidy(nHeight) + nFees }

  /** What ConnectBlock accepts; `skip` is true below the last checkpoint. */
  predicate ConnectOk(r: Rules, base: Index, c: ChainBlock, skip: bool) {
    && BlockOk(r, c.block)
    && TxsAccepted(r, base, c, |c.block.vtx|, skip)
    && ValueOut(c.block.vtx[0]) <= BlockValue(c.nHeight, Fees(r, base, c, |c.block.vtx|))
  }

  function ConnectedIndex(r: Rules, base: Index, c: ChainBlock): Index {
    View(r, base, c, |c.block.vtx|)
  }

  function DisconnectedIndex(r: Rules, ix: Index, c: ChainBlock): Option<Index> {
    DisconnectTxs(r, ix, Located(r, c), |c.block.vtx|)
  }

  predicate TxidsNew(r: Rules, base: Index, c: ChainBlock) {
    TxIds(r, c.block.vtx, |c.block.vtx|) !! base.Keys
  }

  lemma LocatedIds(r: Rules, c: ChainBlock)
    ensures Ids(r, Located(r, c), |c.block.vtx|) == TxIds(r, c.block.vtx, |c.block.vtx|)
    ensures DistinctHashes(r, Located(r, c), |c.block.vtx|) <==> DistinctIds(r, c.block.vtx, |c.block.vtx|)
  {
    var ts, vtx := Located(r, c), c.block.vtx;
    assert forall k :: 0 <= k < |ts| ==> ts[k].tx == vtx[k];
    forall h ensures h in Ids(r, ts, |vtx|) <==> h in TxIds(r, vtx, |vtx|) {
      if h in TxIds(r, vtx, |vtx|) {
        var k :| 0 <= k < |vtx| && r.hash(vtx[k]) == h;
        assert r.hash(ts[k].tx) == h;
      }
    }
    if DistinctHashes(r, ts, |vtx|) {
      forall j, k | 0 <= j < k < |vtx| ensures r.hash(vtx[j]) != r.hash(vtx[k]) {
        assert r.hash(ts[j].tx) != r.hash(ts[k].tx);
      }
    }
  }

  lemma AcceptedInputsAreFree(r: Rules, base: Index, c: ChainBlock, n: nat, skip: bool)
    requires n <= |c.block.vtx| && TxsAccepted(r, base, c, n, skip)
    ensures AllInputsFree(r, base, Located(r, c), n)
  {
    var ts := Located(r, c);
    forall k | 0 <= k < n ensures InputsFree(ConnectTxs(r, base, ts, k), ts[k].tx) {
      assert TxAccepted(r, base, c, k, skip);
    }
  }

  /** The transactions of a block that connects find their inputs free, and have different hashes. */
  lemma ConnectOkIsFree(r: Rules, base: Index, c: ChainBlock, skip: bool)
    requires ConnectOk(r, base, c, skip)
    ensures AllInputsFree(r, base, Located(r, c), |c.block.vtx|)
    ensures DistinctHashes(r, Located(r, c), |c.block.vtx|)
  {
    AcceptedInputsAreFree(r, base, c, |c.block.vtx|, skip);
    LocatedIds(r, c);
  }

  /** A block that connects can be undone exactly if and only if all its transaction hashes were new to the index. */
  lemma DisconnectBlockRestores(r: Rules, base: Index, c: ChainBlock, skip: bool)
    requires ConnectOk(r, base, c, skip)
    ensures DisconnectedIndex(r, ConnectedIndex(r, base, c), c) == Some(base) <==> TxidsNew(r, base, c)
  {
    ConnectOkIsFree(r, base, c, skip);
    LocatedIds(r, c);
    UndoExactlyWhenNew(r, base, Located(r, c));
  }

  // ----- chains -----

  /** The transaction index as a ledger. The genesis block is never connected, so it starts empty. */
  function TxLedger(r: Rules): Ledger.Ledger<Index, ChainBlock> {
    Ledger.Ledger(
      map[],
      (ix, c, skip) => ConnectOk(r, ix, c, skip),
      (ix, c) => ConnectedIndex(r, ix, c),
      (ix, c) => DisconnectedIndex(r, ix, c),
      (ix, c) => TxidsNew(r, ix, c))
  }

  lemma SpendOkWithoutSignatures(r: Rules, ix: Index, tx: Tx, recent: seq<BlockPos>, strict: bool, skip: bool)
    ensures SpendOk(r, ix, tx, recent, strict, skip) ==> SpendOk(r, ix, tx, recent, strict, true)
  {
  }

  /** Skipping signatures accepts whatever checking them accepts. */
  lemma ConnectOkWithoutSignatures(r: Rules, base: Index, c: ChainBlock, skip: bool)
    requires ConnectOk(r, base, c, skip)
    ensures ConnectOk(r, base, c, true)
  {
    forall k | 0 <= k < |c.block.vtx| ensures TxAccepted(r, base, c, k, true) {
      assert TxAccepted(r, base, c, k, skip);
      SpendOkWithoutSignatures(r, View(r, base, c, k), c.block.vtx[k], c.recent, StrictP2sh(c), skip);
    }
  }

  lemma TxLedgerUndoable(r: Rules)
    ensures Ledger.Undoable(TxLedger(r))
  {
    var l := TxLedger(r);
    forall ix, c, skip | l.accepts(ix, c, skip)
      ensures l.accepts(ix, c, true)
      ensures l.disconnect(l.connect(ix, c), c) == Some(ix) <==> l.isNew(ix, c)
    {
      ConnectOkWithoutSignatures(r, ix, c, skip);
      DisconnectBlockRestores(r, ix, c, skip);
    }
  }

  /** After any run of connects, disconnects and reorganizations the index is the replay of the main chain, if the
      transaction hashes of every block that a step undoes were new when it was connected. Blocks that stay connected
      may repeat fully spent hashes, and the two exempt blocks unspent ones. */
  lemma RunIsReplay(r: Rules, steps: seq<Ledger.Step<ChainBlock>>)
    requires forall k :: 0 <= k < |steps| ==> Ledger.UndoesNew(TxLedger(r), Ledger.Run(TxLedger(r), steps, k), steps[k])
    ensures Ledger.Replayed(TxLedger(r), Ledger.Run(TxLedger(r), steps, |steps|))
  {
    TxLedgerUndoable(r);
    Ledger.RunReplays(TxLedger(r), steps, |steps|);
  }

  /** Dropping the tip keeps the index the replay of the chain if and only if the hashes of the tip were new, or the
      undo failed and changed nothing. */
  lemma DropIsReplayIff(r: Rules, n: Ledger.Node<Index, ChainBlock>)
    requires Ledger.Replayed(TxLedger(r), n)
    ensures Ledger.Replayed(TxLedger(r), Ledger.Apply(TxLedger(r), n, Ledger.Detach)) <==>
            Ledger.UndoesNew(TxLedger(r), n, Ledger.Detach)
  {
    TxLedgerUndoable(r);
    Ledger.DetachReplayedIff(TxLedger(r), n);
  }
}
