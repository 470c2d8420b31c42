/** When a reorganization keeps the transaction index the replay of the main chain, also if it undoes blocks that repeat
    transaction hashes (Reorganize and DisconnectInputs in a3/a2/main.cpp). What is lost in undoing them must be created
    again by the new branch. */
module Reorganization {
  import opened Transactions
  import opened ChainIndex
  import opened BlockChain
  import opened Wrappers
  import Ledger

  // ----- undoing what was connected, with some entries gone -----

  /** Undoing a transaction brings back the index before it, but for its own entry and those that are gone. */
  lemma UndoTxWithout(r: Rules, ix: Index, t: PosTx, gone: set<TxId>)
    requires InputsFree(ix, t.tx) && DisconnectTx(r, ConnectTx(r, ix, t) - gone, t.tx).Some?
    ensures DisconnectTx(r, ConnectTx(r, ix, t) - gone, t.tx) == Some(ix - (gone + {r.hash(t.tx)}))
  {
    var outs, h := Prevouts(t.tx.vin, |t.tx.vin|), r.hash(t.tx);
    if t.tx.IsCoinBase() {
      assert ix[h := NewEntry(t)] - gone - {h} == ix - (gone + {h});
    } else {
      UnmarkMark(ix, outs, Some(t.pos));
      MarkWithout(Mark(ix, outs, Some(t.pos)), outs, h, NewEntry(t), gone);
    }
  }

  lemma MarkWithout(ix: Index, outs: set<OutPoint>, h: TxId, e: TxIndex, gone: set<TxId>)
    ensures Mark(ix[h := e] - gone, outs, None) - {h} == Mark(ix, outs, None) - (gone + {h})
  {
    hide MarkVector;
  }

  lemma {:induction false} UndoTxsWithout(r: Rules, ix: Index, ts: seq<PosTx>, n: nat, gone: set<TxId>)
    requires n <= |ts| && AllInputsFree(r, ix, ts, n)
    requires DisconnectTxs(r, ConnectTxs(r, ix, ts, n) - gone, ts, n).Some?
    ensures DisconnectTxs(r, ConnectTxs(r, ix, ts, n) - gone, ts, n) == Some(ix - (gone + Ids(r, ts, n)))
  {
    hide *;
    if n == 0 {
      UndoNoTx(r, ix, ts, gone);
    } else {
      var mid, h := ConnectTxs(r, ix, ts, n - 1), r.hash(ts[n - 1].tx);
      UndoLastTx(r, ix, ts, n, ConnectTxs(r, ix, ts, n) - gone);
      UndoTxWithout(r, mid, ts[n - 1], gone);
      UndoTxsWithout(r, ix, ts, n - 1, gone + {h});
      IdsNext(r, ts, n - 1);
      assert gone + {h} + Ids(r, ts, n - 1) == gone + Ids(r, ts, n);
    }
  }

  lemma UndoNoTx(r: Rules, ix: Index, ts: seq<PosTx>, gone: set<TxId>)
    ensures DisconnectTxs(r, ConnectTxs(r, ix, ts, 0) - gone, ts, 0) == Some(ix - (gone + Ids(r, ts, 0)))
  {
    assert gone + Ids(r, ts, 0) == gone;
  }

  lemma UndoLastTx(r: Rules, ix: Index, ts: seq<PosTx>, n: nat, now: Index)
    requires 0 < n <= |ts| && AllInputsFree(r, ix, ts, n)
    ensures var mid := ConnectTxs(r, ix, ts, n - 1);
      && ConnectTxs(r, ix, ts, n) == ConnectTx(r, mid, ts[n - 1])
      && InputsFree(mid, ts[n - 1].tx) && AllInputsFree(r, ix, ts, n - 1)
    ensures DisconnectTxs(r, now, ts, n) ==
      match DisconnectTx(r, now, ts[n - 1].tx) case None => None case Some(ix') => DisconnectTxs(r, ix', ts, n - 1)
  {
    hide ConnectTx, DisconnectTx, InputsFree;
  }

  lemma IdsNext(r: Rules, ts: seq<PosTx>, n: nat)
    requires n < |ts|
    ensures Ids(r, ts, n + 1) == Ids(r, ts, n) + {r.hash(ts[n].tx)}
  {
  }

  /** The hashes of the transactions of the blocks m to n - 1. */
  function HashesOf(r: Rules, chain: seq<ChainBlock>, m: nat, n: nat): set<TxId>
    requires m <= n <= |chain|
  {
    if m == n then {} else HashesOf(r, chain, m, n - 1) + BlockHashes(r, chain[n - 1])
  }

  function BlockHashes(r: Rules, c: ChainBlock): set<TxId> { TxIds(r, c.block.vtx, |c.block.vtx|) }

  lemma UndoBlockWithout(r: Rules, ix: Index, c: ChainBlock, skip: bool, gone: set<TxId>)
    requires ConnectOk(r, ix, c, skip) && DisconnectedIndex(r, ConnectedIndex(r, ix, c) - gone, c).Some?
    ensures DisconnectedIndex(r, ConnectedIndex(r, ix, c) - gone, c) == Some(ix - (gone + BlockHashes(r, c)))
  {
    ConnectOkIsFree(r, ix, c, skip);
    LocatedIds(r, c);
    UndoTxsWithout(r, ix, Located(r, c), |c.block.vtx|, gone);
  }

  /** Undoing the blocks from n - 1 down to m, if it succeeds, leaves the replay up to m without their hashes. */
  lemma {:induction false} UndoWithout(r: Rules, chain: seq<ChainBlock>, n: nat, m: nat, gone: set<TxId>)
    requires m <= n <= |chain| && Ledger.ChainAccepted(TxLedger(r), chain)
    requires Ledger.DisconnectDown(TxLedger(r), Ledger.Replay(TxLedger(r), chain, n) - gone, chain, n, m).Some?
    ensures Ledger.DisconnectDown(TxLedger(r), Ledger.Replay(TxLedger(r), chain, n) - gone, chain, n, m) ==
            Some(Ledger.Replay(TxLedger(r), chain, m) - (gone + HashesOf(r, chain, m, n)))
  {
    hide ConnectOk, ConnectedIndex, DisconnectedIndex, BlockHashes;
    if n == m {
      assert gone + HashesOf(r, chain, m, n) == gone;
    } else {
      var before, c := Ledger.Replay(TxLedger(r), chain, n - 1), chain[n - 1];
      assert TxLedger(r).accepts(before, c, true);
      UndoBlockWithout(r, before, c, true, gone);
      UndoWithout(r, chain, n - 1, m, gone + BlockHashes(r, c));
      assert gone + BlockHashes(r, c) + HashesOf(r, chain, m, n - 1) == gone + HashesOf(r, chain, m, n);
    }
  }

  // ----- connecting with some entries gone -----

  /** Connecting goes on beside the entries that are gone. */
  lemma ConnectTxWithout(r: Rules, ix: Index, t: PosTx, gone: set<TxId>)
    ensures ConnectTx(r, ix - gone, t) == ConnectTx(r, ix, t) - (gone - {r.hash(t.tx)})
  {
    hide MarkVector, NewEntry;
  }

  lemma {:induction false} ConnectTxsWithout(r: Rules, ix: Index, ts: seq<PosTx>, n: nat, gone: set<TxId>)
    requires n <= |ts|
    ensures ConnectTxs(r, ix - gone, ts, n) == ConnectTxs(r, ix, ts, n) - (gone - Ids(r, ts, n))
  {
    if n == 0 {
      assert gone - Ids(r, ts, 0) == gone;
    } else {
      ConnectTxsWithout(r, ix, ts, n - 1, gone);
      ConnectTxWithout(r, ConnectTxs(r, ix, ts, n - 1), ts[n - 1], gone - Ids(r, ts, n - 1));
      IdsNext(r, ts, n - 1);
      assert gone - Ids(r, ts, n - 1) - {r.hash(ts[n - 1].tx)} == gone - Ids(r, ts, n);
    }
  }

  /** What is found with entries gone is found, and is the same, with them there. */
  lemma {:induction false} ValuesWithout(r: Rules, ix: Index, vin: seq<TxIn>, n: nat, gone: set<TxId>)
    requires n <= |vin| && InputsFound(ix - gone, vin, n)
    ensures ValueIn(ix, vin, n) == ValueIn(ix - gone, vin, n)
    ensures P2shSigOps(r, ix, vin, n) == P2shSigOps(r, ix - gone, vin, n)
  {
    if n > 0 {
      assert HasOutput(ix - gone, vin[n - 1].prevout);
      ValuesWithout(r, ix, vin, n - 1, gone);
    }
  }

  lemma SpendWithout(r: Rules, ix: Index, tx: Tx, recent: seq<BlockPos>, strict: bool, skip: bool, gone: set<TxId>)
    requires SpendOk(r, ix - gone, tx, recent, strict, skip)
    ensures SpendOk(r, ix, tx, recent, strict, skip)
    ensures ValueIn(ix, tx.vin, |tx.vin|) == ValueIn(ix - gone, tx.vin, |tx.vin|)
    ensures P2shSigOps(r, ix, tx.vin, |tx.vin|) == P2shSigOps(r, ix - gone, tx.vin, |tx.vin|)
    ensures forall k :: 0 <= k < |tx.vin| ==> tx.vin[k].prevout.hash !in gone
  {
    forall n | 0 <= n <= |tx.vin|
      ensures ValueIn(ix, tx.vin, n) == ValueIn(ix - gone, tx.vin, n)
      ensures P2shSigOps(r, ix, tx.vin, n) == P2shSigOps(r, ix - gone, tx.vin, n)
    {
      ValuesWithout(r, ix, tx.vin, n, gone);
    }
    forall k | 0 <= k < |tx.vin| ensures tx.vin[k].prevout.hash !in gone {
      assert HasOutput(ix - gone, tx.vin[k].prevout);
    }
  }

  /** A transaction that is accepted with entries gone can spend the same with them there, and touches none of them. */
  lemma TxWithout(r: Rules, ix: Index, c: ChainBlock, k: nat, skip: bool, gone: set<TxId>)
    requires k < |c.block.vtx| && TxAccepted(r, ix - gone, c, k, skip) && !c.block.vtx[k].IsCoinBase()
    ensures var tx, now, full := c.block.vtx[k], View(r, ix - gone, c, k), View(r, ix, c, k);
      && SpendOk(r, full, tx, c.recent, StrictP2sh(c), skip)
      && ValueIn(full, tx.vin, |tx.vin|) == ValueIn(now, tx.vin, |tx.vin|)
      && P2shSigOps(r, full, tx.vin, |tx.vin|) == P2shSigOps(r, now, tx.vin, |tx.vin|)
      && forall i :: 0 <= i < |tx.vin| ==> tx.vin[i].prevout.hash !in gone - Ids(r, Located(r, c), k)
  {
    var tx := c.block.vtx[k];
    ConnectTxsWithout(r, ix, Located(r, c), k, gone);
    hide SpendOk, ConnectTxs, Located, ValueIn, P2shSigOps, ValueOut, MayWrite;
    SpendWithout(r, View(r, ix, c, k), tx, c.recent, StrictP2sh(c), skip, gone - Ids(r, Located(r, c), k));
  }

  /** The counts of a block are the same. */
  lemma {:induction false} CountsWithout(r: Rules, ix: Index, c: ChainBlock, n: nat, skip: bool, gone: set<TxId>)
    requires n <= |c.block.vtx| && TxsAccepted(r, ix - gone, c, n, skip)
    ensures SigOps(r, ix, c, n) == SigOps(r, ix - gone, c, n) && Fees(r, ix, c, n) == Fees(r, ix - gone, c, n)
  {
    hide TxAccepted, View, P2shSigOps, ValueIn, ValueOut;
    if n > 0 {
      CountsWithout(r, ix, c, n - 1, skip, gone);
      assert TxAccepted(r, ix - gone, c, n - 1, skip);
      if !c.block.vtx[n - 1].IsCoinBase() { TxWithout(r, ix, c, n - 1, skip, gone); }
    }
  }

  /** The entries of the block that are gone may be written when they are there. */
  predicate MayWriteGone(r: Rules, ix: Index, c: ChainBlock, gone: set<TxId>) {
    Bip30Exempt(c.nHeight, c.block.hash) || forall h :: h in BlockHashes(r, c) && h in gone ==> MayWrite(ix, h)
  }

  lemma MayWriteWithout(ix: Index, h: TxId, gone: set<TxId>)
    requires h !in gone
    ensures MayWrite(ix - gone, h) <==> MayWrite(ix, h)
  {
    assert h in ix - gone <==> h in ix;
    if h in ix { assert (ix - gone)[h] == ix[h]; }
  }

  lemma PrefixAccepted(r: Rules, ix: Index, c: ChainBlock, n: nat, k: nat, skip: bool)
    requires k < n <= |c.block.vtx| && TxsAccepted(r, ix, c, n, skip)
    ensures TxsAccepted(r, ix, c, k + 1, skip) && TxAccepted(r, ix, c, k, skip)
  {
    hide TxAccepted;
  }

  lemma AcceptedWithout(r: Rules, ix: Index, c: ChainBlock, k: nat, skip: bool, gone: set<TxId>)
    requires k < |c.block.vtx| && TxsAccepted(r, ix - gone, c, k + 1, skip)
    ensures var h := r.hash(c.block.vtx[k]);
      TxAccepted(r, ix, c, k, skip) <==> Bip30Exempt(c.nHeight, c.block.hash) || h !in gone || MayWrite(ix, h)
  {
    var h := r.hash(c.block.vtx[k]);
    PrefixAccepted(r, ix - gone, c, k + 1, k, skip);
    CountsWithout(r, ix, c, k + 1, skip, gone);
    if !c.block.vtx[k].IsCoinBase() { TxWithout(r, ix, c, k, skip, gone); }
    if h !in gone { MayWriteWithout(ix, h, gone); }
    hide SigOps, Fees, SpendOk, Bip30Exempt, MayWrite, View, TxsAccepted, ValueIn, P2shSigOps, Located;
  }

  lemma AllAcceptedWithout(r: Rules, ix: Index, c: ChainBlock, skip: bool, gone: set<TxId>)
    requires TxsAccepted(r, ix - gone, c, |c.block.vtx|, skip)
    ensures TxsAccepted(r, ix, c, |c.block.vtx|, skip) <==> MayWriteGone(r, ix, c, gone)
  {
    hide TxAccepted, Bip30Exempt, MayWrite;
    var n := |c.block.vtx|;
    forall k | 0 <= k < n
      ensures var h := r.hash(c.block.vtx[k]);
        TxAccepted(r, ix, c, k, skip) <==> Bip30Exempt(c.nHeight, c.block.hash) || h !in gone || MayWrite(ix, h)
    {
      PrefixAccepted(r, ix - gone, c, n, k, skip);
      AcceptedWithout(r, ix, c, k, skip, gone);
    }
    if TxsAccepted(r, ix, c, n, skip) && !Bip30Exempt(c.nHeight, c.block.hash) {
      forall h | h in BlockHashes(r, c) && h in gone ensures MayWrite(ix, h) {
        var k :| 0 <= k < n && r.hash(c.block.vtx[k]) == h;
        assert TxAccepted(r, ix, c, k, skip);
      }
    }
    if MayWriteGone(r, ix, c, gone) {
      forall k | 0 <= k < n ensures TxAccepted(r, ix, c, k, skip) {
        assert r.hash(c.block.vtx[k]) in BlockHashes(r, c);
      }
    }
  }

  /** A block that connects with entries gone connects with them there exactly if it may write what it writes of them.
      The two indexes then differ by the entries that are still gone. */
  lemma ConnectWithout(r: Rules, ix: Index, c: ChainBlock, skip: bool, gone: set<TxId>)
    requires ConnectOk(r, ix - gone, c, skip)
    ensures ConnectOk(r, ix, c, skip) <==> MayWriteGone(r, ix, c, gone)
    ensures ConnectedIndex(r, ix - gone, c) == ConnectedIndex(r, ix, c) - (gone - BlockHashes(r, c))
  {
    var n := |c.block.vtx|;
    CountsWithout(r, ix, c, n, skip, gone);
    AllAcceptedWithout(r, ix, c, skip, gone);
    LocatedIds(r, c);
    ConnectTxsWithout(r, ix, Located(r, c), n, gone);
    hide TxsAccepted, BlockOk, SigOps, Fees, MayWriteGone, ValueOut, ConnectTxs, Ids, TxIds, Located, DistinctHashes,
        DistinctIds;
  }

  // ----- a branch -----

  /** The index after connecting the first n blocks, whether they are accepted or not. */
  function Forward(r: Rules, ix: Index, cs: seq<ChainBlock>, n: nat): Index
    requires n <= |cs|
  {
    if n == 0 then ix else ConnectedIndex(r, Forward(r, ix, cs, n - 1), cs[n - 1])
  }

  /** The first n blocks are accepted, one after the other. */
  predicate Accepted(r: Rules, ix: Index, cs: seq<ChainBlock>, n: nat, skip: bool)
    requires n <= |cs|
  {
    forall i :: 0 <= i < n ==> ConnectOk(r, Forward(r, ix, cs, i), cs[i], skip)
  }

  /** The first n blocks write none of the lost entries unless they may. Only the first one to write an entry counts. */
  predicate WritesOk(r: Rules, ix: Index, cs: seq<ChainBlock>, n: nat, lost: set<TxId>)
    requires n <= |cs|
  {
    forall i :: 0 <= i < n ==> MayWriteGone(r, Forward(r, ix, cs, i), cs[i], lost - HashesOf(r, cs, 0, i))
  }

  /** Connecting a branch with entries gone: the branch is accepted with them there exactly if it may write what it
      writes of them, and the two indexes differ by the entries that it does not write. */
  lemma {:induction false} ConnectBranchWithout(r: Rules, ix: Index, cs: seq<ChainBlock>, n: nat, skip: bool,
                                                lost: set<TxId>)
    requires n <= |cs| && Ledger.ConnectBlocks(TxLedger(r), ix - lost, cs, n, skip).Some?
    ensures Accepted(r, ix, cs, n, skip) <==> WritesOk(r, ix, cs, n, lost)
    ensures Ledger.ConnectBlocks(TxLedger(r), ix - lost, cs, n, skip) ==
            Some(Forward(r, ix, cs, n) - (lost - HashesOf(r, cs, 0, n)))
  {
    hide ConnectOk, ConnectedIndex, MayWriteGone, BlockHashes;
    if n == 0 {
      assert lost - HashesOf(r, cs, 0, 0) == lost;
    } else {
      ConnectBranchWithout(r, ix, cs, n - 1, skip, lost);
      var still := lost - HashesOf(r, cs, 0, n - 1);
      ConnectWithout(r, Forward(r, ix, cs, n - 1), cs[n - 1], skip, still);
      assert still - BlockHashes(r, cs[n - 1]) == lost - HashesOf(r, cs, 0, n);
    }
  }

  // ----- lost entries -----

  predicate SameEntry(a: Index, b: Index, h: TxId) { (h in a <==> h in b) && (h in a ==> a[h] == b[h]) }

  lemma UntouchedByTx(r: Rules, ix: Index, t: PosTx, h: TxId)
    requires h != r.hash(t.tx)
    requires t.tx.IsCoinBase() || forall i :: 0 <= i < |t.tx.vin| ==> t.tx.vin[i].prevout.hash != h
    ensures SameEntry(ix, ConnectTx(r, ix, t), h)
  {
    if h in ix && !t.tx.IsCoinBase() {
      var outs := Prevouts(t.tx.vin, |t.tx.vin|);
      assert MarkVector(h, ix[h].vSpent, outs, Some(t.pos)) == ix[h].vSpent;
    }
  }

  lemma UntouchedNext(r: Rules, ix: Index, c: ChainBlock, k: nat, skip: bool, gone: set<TxId>, h: TxId)
    requires k < |c.block.vtx| && TxAccepted(r, ix - gone, c, k, skip)
    requires h in gone && h !in Ids(r, Located(r, c), k + 1)
    ensures h !in Ids(r, Located(r, c), k) && SameEntry(View(r, ix, c, k), View(r, ix, c, k + 1), h)
  {
    IdsNext(r, Located(r, c), k);
    if !c.block.vtx[k].IsCoinBase() { TxWithout(r, ix, c, k, skip, gone); }
    hide TxAccepted, ConnectTx, Located, Ids, SpendOk, ValueIn, P2shSigOps, SameEntry;
    UntouchedByTx(r, View(r, ix, c, k), Located(r, c)[k], h);
  }

  /** A block that is accepted with an entry gone leaves the entry alone until it creates it again. */
  lemma {:induction false} UntouchedByTxs(r: Rules, ix: Index, c: ChainBlock, n: nat, skip: bool, gone: set<TxId>,
                                          h: TxId)
    requires n <= |c.block.vtx| && TxsAccepted(r, ix - gone, c, n, skip)
    requires h in gone && h !in Ids(r, Located(r, c), n)
    ensures SameEntry(ix, View(r, ix, c, n), h)
  {
    hide TxAccepted, Located, Ids, ConnectTx;
    if n > 0 {
      PrefixAccepted(r, ix - gone, c, n, n - 1, skip);
      UntouchedNext(r, ix, c, n - 1, skip, gone, h);
      UntouchedByTxs(r, ix, c, n - 1, skip, gone, h);
      hide ConnectTxs;
    }
  }

  lemma UntouchedByBlock(r: Rules, ix: Index, c: ChainBlock, skip: bool, gone: set<TxId>, h: TxId)
    requires ConnectOk(r, ix - gone, c, skip) && h in gone && h !in BlockHashes(r, c)
    ensures SameEntry(ix, ConnectedIndex(r, ix, c), h)
  {
    LocatedIds(r, c);
    hide TxsAccepted, View, SameEntry, Ids, TxIds;
    UntouchedByTxs(r, ix, c, |c.block.vtx|, skip, gone, h);
  }

  lemma {:induction false} UntouchedByBranch(r: Rules, ix: Index, cs: seq<ChainBlock>, n: nat, skip: bool,
                                             lost: set<TxId>, h: TxId)
    requires n <= |cs| && Ledger.ConnectBlocks(TxLedger(r), ix - lost, cs, n, skip).Some?
    requires h in lost && h !in HashesOf(r, cs, 0, n)
    ensures SameEntry(ix, Forward(r, ix, cs, n), h)
  {
    hide ConnectOk, ConnectedIndex, BlockHashes;
    if n > 0 {
      UntouchedByBranch(r, ix, cs, n - 1, skip, lost, h);
      ConnectBranchWithout(r, ix, cs, n - 1, skip, lost);
      UntouchedByBlock(r, Forward(r, ix, cs, n - 1), cs[n - 1], skip, lost - HashesOf(r, cs, 0, n - 1), h);
    }
  }

  /** Block i of the branch is the first to create h, and may do so when h is in the index. */
  predicate CreatedAt(r: Rules, ix: Index, cs: seq<ChainBlock>, h: TxId, i: nat) {
    && i < |cs| && h in BlockHashes(r, cs[i]) && h !in HashesOf(r, cs, 0, i)
    && (Bip30Exempt(cs[i].nHeight, cs[i].block.hash) || MayWrite(ix, h))
  }

  /** Every lost entry is created again by the branch. */
  predicate Recovers(r: Rules, ix: Index, lost: set<TxId>, cs: seq<ChainBlock>) {
    forall h :: h in lost ==> exists i :: 0 <= i < |cs| && CreatedAt(r, ix, cs, h, i)
  }

  lemma {:induction false} FirstCreator(r: Rules, cs: seq<ChainBlock>, n: nat, h: TxId) returns (i: nat)
    requires n <= |cs| && h in HashesOf(r, cs, 0, n)
    ensures i < n && h in BlockHashes(r, cs[i]) && h !in HashesOf(r, cs, 0, i)
  {
    hide BlockHashes;
    if h in HashesOf(r, cs, 0, n - 1) { i := FirstCreator(r, cs, n - 1, h); } else { i := n - 1; }
  }

  lemma {:induction false} HashesGrow(r: Rules, cs: seq<ChainBlock>, i: nat, n: nat)
    requires i < n <= |cs|
    ensures BlockHashes(r, cs[i]) <= HashesOf(r, cs, 0, n) && HashesOf(r, cs, 0, i) <= HashesOf(r, cs, 0, n)
  {
    hide BlockHashes;
    if i < n - 1 { HashesGrow(r, cs, i, n - 1); }
  }

  lemma BlockKeeps(r: Rules, ix: Index, c: ChainBlock)
    ensures ix.Keys <= ConnectedIndex(r, ix, c).Keys
  {
    hide ConnectTxs, Located, Ids;
    ConnectTxsKeys(r, ix, Located(r, c), |c.block.vtx|);
  }

  lemma {:induction false} ForwardKeeps(r: Rules, ix: Index, cs: seq<ChainBlock>, n: nat)
    requires n <= |cs|
    ensures ix.Keys <= Forward(r, ix, cs, n).Keys
  {
    hide ConnectedIndex;
    if n > 0 {
      ForwardKeeps(r, ix, cs, n - 1);
      BlockKeeps(r, Forward(r, ix, cs, n - 1), cs[n - 1]);
    }
  }

  /** Whether a block may write the lost entries that it is the first to create, seen from the index at the fork. */
  lemma WritesAtFork(r: Rules, ix: Index, cs: seq<ChainBlock>, i: nat, skip: bool, lost: set<TxId>)
    requires i < |cs| && Ledger.ConnectBlocks(TxLedger(r), ix - lost, cs, i, skip).Some?
    ensures MayWriteGone(r, Forward(r, ix, cs, i), cs[i], lost - HashesOf(r, cs, 0, i)) <==>
            forall h :: h in lost && h in BlockHashes(r, cs[i]) && h !in HashesOf(r, cs, 0, i) ==>
              CreatedAt(r, ix, cs, h, i)
  {
    hide BlockHashes, Forward, HashesOf, Bip30Exempt;
    forall h | h in lost && h !in HashesOf(r, cs, 0, i)
      ensures MayWrite(Forward(r, ix, cs, i), h) <==> MayWrite(ix, h)
    {
      UntouchedByBranch(r, ix, cs, i, skip, lost, h);
    }
    hide MayWrite;
  }

  lemma {:induction false} ConnectedSoFar(r: Rules, ix: Index, cs: seq<ChainBlock>, n: nat, i: nat, skip: bool)
    requires i <= n <= |cs| && Ledger.ConnectBlocks(TxLedger(r), ix, cs, n, skip).Some?
    ensures Ledger.ConnectBlocks(TxLedger(r), ix, cs, i, skip).Some?
  {
    hide ConnectOk, ConnectedIndex;
    if i < n { ConnectedSoFar(r, ix, cs, n - 1, i, skip); }
  }

  /** The branch may write what it writes of the lost entries. */
  predicate CreatesOk(r: Rules, ix: Index, cs: seq<ChainBlock>, lost: set<TxId>) {
    forall i, h :: 0 <= i < |cs| && h in lost && h in BlockHashes(r, cs[i]) && h !in HashesOf(r, cs, 0, i) ==>
      CreatedAt(r, ix, cs, h, i)
  }

  lemma WritesIff(r: Rules, ix: Index, cs: seq<ChainBlock>, skip: bool, lost: set<TxId>)
    requires Ledger.ConnectBlocks(TxLedger(r), ix - lost, cs, |cs|, skip).Some?
    ensures WritesOk(r, ix, cs, |cs|, lost) <==> CreatesOk(r, ix, cs, lost)
  {
    hide TxLedger, Ledger.ConnectBlocks, MayWriteGone, Forward, HashesOf, BlockHashes, CreatedAt;
    forall i | 0 <= i < |cs|
      ensures MayWriteGone(r, Forward(r, ix, cs, i), cs[i], lost - HashesOf(r, cs, 0, i)) <==>
              forall h :: h in lost && h in BlockHashes(r, cs[i]) && h !in HashesOf(r, cs, 0, i) ==>
                CreatedAt(r, ix, cs, h, i)
    {
      ConnectedSoFar(r, ix - lost, cs, |cs|, i, skip);
      WritesAtFork(r, ix, cs, i, skip, lost);
    }
  }

  lemma SameWithout(ix: Index, still: set<TxId>)
    requires still <= ix.Keys
    ensures ix - still == ix <==> still == {}
  {
    if still != {} {
      var h :| h in still;
      assert h in ix && h !in ix - still;
    }
  }

  /** A branch that connects with entries lost connects with them there, to the same index, if and only if it creates
      every one of them again where it may. */
  lemma RecoversIff(r: Rules, ix: Index, cs: seq<ChainBlock>, skip: bool, lost: set<TxId>)
    requires lost <= ix.Keys && Ledger.ConnectBlocks(TxLedger(r), ix - lost, cs, |cs|, skip).Some?
    ensures Accepted(r, ix, cs, |cs|, skip) &&
            Ledger.ConnectBlocks(TxLedger(r), ix - lost, cs, |cs|, skip) == Some(Forward(r, ix, cs, |cs|)) <==>
            Recovers(r, ix, lost, cs)
  {
    hide *;
    var n := |cs|;
    var last, still := Forward(r, ix, cs, n), lost - HashesOf(r, cs, 0, n);
    ConnectBranchWithout(r, ix, cs, n, skip, lost);
    ForwardKeeps(r, ix, cs, n);
    SameWithout(last, still);
    assert still == {} <==> lost <= HashesOf(r, cs, 0, n);
    WritesIff(r, ix, cs, skip, lost);
    RecoversWrites(r, ix, cs, lost);
  }

  lemma RecoversWrites(r: Rules, ix: Index, cs: seq<ChainBlock>, lost: set<TxId>)
    ensures Recovers(r, ix, lost, cs) <==> lost <= HashesOf(r, cs, 0, |cs|) && CreatesOk(r, ix, cs, lost)
  {
    hide HashesOf, BlockHashes, MayWrite, Bip30Exempt;
    if Recovers(r, ix, lost, cs) {
      forall h | h in lost ensures h in HashesOf(r, cs, 0, |cs|) {
        var i :| 0 <= i < |cs| && CreatedAt(r, ix, cs, h, i);
        HashesGrow(r, cs, i, |cs|);
      }
      forall i, h | 0 <= i < |cs| && h in lost && h in BlockHashes(r, cs[i]) && h !in HashesOf(r, cs, 0, i)
        ensures CreatedAt(r, ix, cs, h, i)
      {
        var j :| 0 <= j < |cs| && CreatedAt(r, ix, cs, h, j);
        if j < i { HashesGrow(r, cs, j, i); } else if i < j { HashesGrow(r, cs, i, j); }
      }
    }
    if lost <= HashesOf(r, cs, 0, |cs|) {
      forall h | h in lost
        ensures exists i :: 0 <= i < |cs| && h in BlockHashes(r, cs[i]) && h !in HashesOf(r, cs, 0, i)
      {
        var i := FirstCreator(r, cs, |cs|, h);
      }
    }
  }

  // ----- steps and runs -----

  /** The hashes that undoing the blocks from m on takes out of the index although they were there before. */
  function Lost(r: Rules, chain: seq<ChainBlock>, m: nat): set<TxId>
    requires m <= |chain|
  {
    Ledger.Replay(TxLedger(r), chain, m).Keys * HashesOf(r, chain, m, |chain|)
  }

  lemma WithoutLost(base: Index, hs: set<TxId>)
    ensures base - ({} + hs) == base - (base.Keys * hs)
  {
  }

  lemma UndoneIs(r: Rules, n: Ledger.Node<Index, ChainBlock>, m: nat)
    requires Ledger.Replayed(TxLedger(r), n) && m <= |n.chain|
    requires Ledger.DisconnectDown(TxLedger(r), n.state, n.chain, |n.chain|, m).Some?
    ensures Ledger.DisconnectDown(TxLedger(r), n.state, n.chain, |n.chain|, m) ==
            Some(Ledger.Replay(TxLedger(r), n.chain, m) - Lost(r, n.chain, m))
  {
    hide TxLedger, Ledger.DisconnectDown, Ledger.Replay, Ledger.ChainAccepted, HashesOf;
    assert n.state - {} == n.state;
    WithoutLost(Ledger.Replay(TxLedger(r), n.chain, m), HashesOf(r, n.chain, m, |n.chain|));
    UndoWithout(r, n.chain, |n.chain|, m, {});
  }

  lemma {:induction false} WithoutSignatures(r: Rules, ix: Index, cs: seq<ChainBlock>, n: nat, skip: bool)
    requires n <= |cs| && Ledger.ConnectBlocks(TxLedger(r), ix, cs, n, skip).Some?
    ensures Ledger.ConnectBlocks(TxLedger(r), ix, cs, n, true) == Ledger.ConnectBlocks(TxLedger(r), ix, cs, n, skip)
  {
    hide ConnectOk, ConnectedIndex;
    if n > 0 {
      WithoutSignatures(r, ix, cs, n - 1, skip);
      ConnectOkWithoutSignatures(r, Ledger.ConnectBlocks(TxLedger(r), ix, cs, n - 1, skip).value, cs[n - 1], skip);
    }
  }

  lemma {:induction false} ForwardIsReplay(r: Rules, chain: seq<ChainBlock>, m: nat, cs: seq<ChainBlock>, n: nat)
    requires m <= |chain| && n <= |cs|
    ensures Forward(r, Ledger.Replay(TxLedger(r), chain, m), cs, n) ==
            Ledger.Replay(TxLedger(r), chain[..m] + cs, m + n)
  {
    hide ConnectedIndex;
    if n == 0 {
      Ledger.ReplayPrefix(TxLedger(r), chain, chain[..m] + cs, m);
    } else {
      ForwardIsReplay(r, chain, m, cs, n - 1);
      assert (chain[..m] + cs)[m + n - 1] == cs[n - 1];
    }
  }

  /** Behind an accepted chain, a branch makes an accepted chain exactly if it is accepted there. */
  lemma AcceptedIff(r: Rules, chain: seq<ChainBlock>, m: nat, cs: seq<ChainBlock>)
    requires m <= |chain| && Ledger.ChainAccepted(TxLedger(r), chain)
    ensures Ledger.ChainAccepted(TxLedger(r), chain[..m] + cs) <==>
            Accepted(r, Ledger.Replay(TxLedger(r), chain, m), cs, |cs|, true)
  {
    hide ConnectOk, Forward, Ledger.Replay;
    var base, all := Ledger.Replay(TxLedger(r), chain, m), chain[..m] + cs;
    forall i | 0 <= i < |cs|
      ensures ConnectOk(r, Forward(r, base, cs, i), cs[i], true) <==>
              TxLedger(r).accepts(Ledger.Replay(TxLedger(r), all, m + i), all[m + i], true)
    {
      ForwardIsReplay(r, chain, m, cs, i);
    }
    forall k | 0 <= k < m ensures TxLedger(r).accepts(Ledger.Replay(TxLedger(r), all, k), all[k], true) {
      assert all[..k] == chain[..k];
      Ledger.ReplayPrefix(TxLedger(r), chain, all, k);
      assert TxLedger(r).accepts(Ledger.Replay(TxLedger(r), chain, k), chain[k], true);
    }
    if Ledger.ChainAccepted(TxLedger(r), all) {
      forall i | 0 <= i < |cs| ensures ConnectOk(r, Forward(r, base, cs, i), cs[i], true) {
        assert TxLedger(r).accepts(Ledger.Replay(TxLedger(r), all, m + i), all[m + i], true);
      }
    }
    if Accepted(r, base, cs, |cs|, true) {
      forall k | m <= k < |all| ensures TxLedger(r).accepts(Ledger.Replay(TxLedger(r), all, k), all[k], true) {
        assert ConnectOk(r, Forward(r, base, cs, k - m), cs[k - m], true);
      }
    }
  }

  /** A reorganization that succeeds leaves the replay of the new chain if and only if the new branch creates again
      every entry that is lost in undoing the old one, where it may. */
  lemma ReorganizeIff(r: Rules, n: Ledger.Node<Index, ChainBlock>, m: nat, cs: seq<ChainBlock>, skip: bool)
    requires Ledger.Replayed(TxLedger(r), n) && m <= |n.chain|
    requires var mid := Ledger.DisconnectDown(TxLedger(r), n.state, n.chain, |n.chain|, m);
             mid.Some? && Ledger.ConnectBlocks(TxLedger(r), mid.value, cs, |cs|, skip).Some?
    ensures var mid := Ledger.DisconnectDown(TxLedger(r), n.state, n.chain, |n.chain|, m).value;
            var state := Ledger.ConnectBlocks(TxLedger(r), mid, cs, |cs|, skip).value;
            Ledger.Replayed(TxLedger(r), Ledger.Node(state, n.chain[..m] + cs)) <==>
            Recovers(r, Ledger.Replay(TxLedger(r), n.chain, m), Lost(r, n.chain, m), cs)
  {
    hide *;
    UndoneIs(r, n, m);
    LostIsThere(r, n.chain, m);
    BranchIff(r, n, m, cs, skip, Ledger.Replay(TxLedger(r), n.chain, m), Lost(r, n.chain, m));
  }

  lemma LostIsThere(r: Rules, chain: seq<ChainBlock>, m: nat)
    requires m <= |chain|
    ensures Lost(r, chain, m) <= Ledger.Replay(TxLedger(r), chain, m).Keys
  {
    hide TxLedger, Ledger.Replay;
  }

  lemma BranchIff(r: Rules, n: Ledger.Node<Index, ChainBlock>, m: nat, cs: seq<ChainBlock>, skip: bool, base: Index,
                  lost: set<TxId>)
    requires Ledger.Replayed(TxLedger(r), n) && m <= |n.chain| && base == Ledger.Replay(TxLedger(r), n.chain, m)
    requires lost <= base.Keys && Ledger.ConnectBlocks(TxLedger(r), base - lost, cs, |cs|, skip).Some?
    ensures var state := Ledger.ConnectBlocks(TxLedger(r), base - lost, cs, |cs|, skip).value;
      Ledger.Replayed(TxLedger(r), Ledger.Node(state, n.chain[..m] + cs)) <==> Recovers(r, base, lost, cs)
  {
    hide TxLedger, Ledger.ConnectBlocks, Ledger.Replay, Ledger.ChainAccepted, Recovers, Accepted, Forward;
    WithoutSignatures(r, base - lost, cs, |cs|, skip);
    RecoversIff(r, base, cs, true, lost);
    AcceptedIff(r, n.chain, m, cs);
    ForwardIsReplay(r, n.chain, m, cs, |cs|);
  }

  /** The step changes nothing, or the blocks it connects create again what is lost in undoing others. */
  ghost predicate StepRecovers(r: Rules, n: Ledger.Node<Index, ChainBlock>, step: Ledger.Step<ChainBlock>) {
    Ledger.Apply(TxLedger(r), n, step) == n ||
    match step
    case Attach(_, _) => true
    case Detach => n.chain != [] && Lost(r, n.chain, |n.chain| - 1) == {}
    case Reorganize(back, cs, _) => BranchRecovers(r, n.chain, back, cs)
  }

  /** The branch `cs` creates again what is lost in undoing the last `back` blocks of the chain. */
  predicate BranchRecovers(r: Rules, chain: seq<ChainBlock>, back: nat, cs: seq<ChainBlock>) {
    back <= |chain| &&
    Recovers(r, Ledger.Replay(TxLedger(r), chain, |chain| - back), Lost(r, chain, |chain| - back), cs)
  }

  /** Dropping the tip is a reorganization to no blocks. */
  lemma DetachIs(r: Rules, n: Ledger.Node<Index, ChainBlock>)
    ensures Ledger.Apply(TxLedger(r), n, Ledger.Detach) == Ledger.Apply(TxLedger(r), n, Ledger.Reorganize(1, [], true))
  {
    hide DisconnectedIndex;
    if n.chain != [] {
      var m := |n.chain| - 1;
      assert n.chain[..m] + [] == n.chain[..m];
      var l := TxLedger(r);
      assert Ledger.DisconnectDown(l, n.state, n.chain, |n.chain|, m) == l.disconnect(n.state, n.chain[m]);
    }
  }

  /** Any step keeps the index the replay of the main chain if and only if what it loses comes back. */
  lemma StepIff(r: Rules, n: Ledger.Node<Index, ChainBlock>, step: Ledger.Step<ChainBlock>)
    requires Ledger.Replayed(TxLedger(r), n)
    ensures Ledger.Replayed(TxLedger(r), Ledger.Apply(TxLedger(r), n, step)) <==> StepRecovers(r, n, step)
  {
    match step
    case Attach(c, skip) =>
      hide TxLedger, Ledger.Replayed;
      TxLedgerUndoable(r);
      if TxLedger(r).accepts(n.state, c, skip) { Ledger.Extended(TxLedger(r), n, c, skip); }
    case Detach =>
      DetachIs(r, n);
      hide TxLedger, Ledger.Replayed, Ledger.DisconnectDown, Ledger.ConnectBlocks, Ledger.Replay, Lost;
      SwitchIff(r, n, 1, [], true);
    case Reorganize(back, cs, skip) =>
      hide TxLedger, Ledger.Replayed, Ledger.Apply, Recovers, Ledger.Replay, Lost;
      SwitchIff(r, n, back, cs, skip);
  }

  lemma SwitchIff(r: Rules, n: Ledger.Node<Index, ChainBlock>, back: nat, cs: seq<ChainBlock>, skip: bool)
    requires Ledger.Replayed(TxLedger(r), n)
    ensures var n' := Ledger.Apply(TxLedger(r), n, Ledger.Reorganize(back, cs, skip));
      Ledger.Replayed(TxLedger(r), n') <==> (n' == n || BranchRecovers(r, n.chain, back, cs))
  {
    hide TxLedger, Ledger.Replayed, Ledger.DisconnectDown, Ledger.ConnectBlocks, Ledger.Replay, Recovers, Lost;
    var n' := Ledger.Apply(TxLedger(r), n, Ledger.Reorganize(back, cs, skip));
    if n' != n { ReorganizeIff(r, n, |n.chain| - back, cs, skip); }
  }

  /** The index is the replay of the main chain after each of the first n steps of a run, and before the first one. */
  ghost predicate ReplayedThrough(r: Rules, steps: seq<Ledger.Step<ChainBlock>>, n: nat)
    requires n <= |steps|
  {
    forall k :: 0 <= k <= n ==> Ledger.Replayed(TxLedger(r), Ledger.Run(TxLedger(r), steps, k))
  }

  ghost predicate RecoversThrough(r: Rules, steps: seq<Ledger.Step<ChainBlock>>, n: nat)
    requires n <= |steps|
  {
    forall k :: 0 <= k < n ==> StepRecovers(r, Ledger.Run(TxLedger(r), steps, k), steps[k])
  }

  lemma ThroughLast(r: Rules, steps: seq<Ledger.Step<ChainBlock>>, n: nat)
    requires 0 < n <= |steps|
    ensures ReplayedThrough(r, steps, n) <==>
            ReplayedThrough(r, steps, n - 1) && Ledger.Replayed(TxLedger(r), Ledger.Run(TxLedger(r), steps, n))
    ensures ReplayedThrough(r, steps, n - 1) ==> Ledger.Replayed(TxLedger(r), Ledger.Run(TxLedger(r), steps, n - 1))
    ensures RecoversThrough(r, steps, n) <==>
            RecoversThrough(r, steps, n - 1) && StepRecovers(r, Ledger.Run(TxLedger(r), steps, n - 1), steps[n - 1])
    ensures Ledger.Run(TxLedger(r), steps, n) ==
            Ledger.Apply(TxLedger(r), Ledger.Run(TxLedger(r), steps, n - 1), steps[n - 1])
  {
    hide TxLedger, Ledger.Replayed, Ledger.Apply, StepRecovers;
  }

  /** In any run, the index is at every moment the replay of the main chain if and only if every step brings back what
      it loses. */
  lemma {:induction false} RunIff(r: Rules, steps: seq<Ledger.Step<ChainBlock>>, n: nat)
    requires n <= |steps|
    ensures ReplayedThrough(r, steps, n) <==> RecoversThrough(r, steps, n)
  {
    if n == 0 {
      Ledger.RunOfNothing(TxLedger(r));
      hide TxLedger, Ledger.Replayed;
    } else {
      hide *;
      RunIff(r, steps, n - 1);
      ThroughLast(r, steps, n);
      var last := Ledger.Run(TxLedger(r), steps, n - 1);
      if Ledger.Replayed(TxLedger(r), last) { StepIff(r, last, steps[n - 1]); }
    }
  }
}
