/** Connecting and disconnecting blocks in the transaction database
    (CTxDB in a3/a2/db.h and a3/a2/db.cpp; the methods of CTransaction and CBlock in a3/a2/main.cpp). */
module TxDb {
  import opened Wrappers
  import opened Transactions
  import opened ChainIndex
  import opened BlockChain
  import opened BlockIndex

  /** The transaction database. `index` is what a read sees, including the writes of the open database transaction;
      `saved` holds the committed contents while one is open. */
  class CTxDB {
    var index: Index
    var hashBestChain: BlockHash
    var saved: Option<(Index, BlockHash)>

    constructor (hashBestChain: BlockHash)
      ensures index == map[] && this.hashBestChain == hashBestChain && saved == None
    {
      this.index, this.hashBestChain, this.saved := map[], hashBestChain, None;
    }

    method TxnBegin() returns (ok: bool)
      modifies this`saved
      ensures ok == old(saved.None?)
      ensures saved == if ok then Some((index, hashBestChain)) else old(saved)
    {
      if saved.Some? { return false; }
      saved := Some((index, hashBestChain));
      return true;
    }

    method TxnCommit() returns (ok: bool)
      modifies this`saved
      ensures ok == old(saved.Some?) && saved == None
    {
      if saved.None? { return false; }
      saved := None;
      return true;
    }

    method TxnAbort() returns (ok: bool)
      modifies this
      ensures ok == old(saved.Some?) && saved == None
      ensures (index, hashBestChain) == if ok then old(saved.value) else old((index, hashBestChain))
    {
      if saved.None? { return false; }
      index, hashBestChain, saved := saved.value.0, saved.value.1, None;
      return true;
    }

    method ReadTxIndex(h: TxId) returns (e: Option<TxIndex>)
      ensures e == if h in index then Some(index[h]) else None
    {
      e := if h in index then Some(index[h]) else None;
    }

    method UpdateTxIndex(h: TxId, e: TxIndex)
      modifies this`index
      ensures index == old(index)[h := e]
    {
      index := index[h := e];
    }

    method EraseTxIndex(h: TxId)
      modifies this`index
      ensures index == old(index) - {h}
    {
      index := index - {h};
    }

    method WriteHashBestChain(h: BlockHash)
      modifies this`hashBestChain
      ensures hashBestChain == h
    {
      hashBestChain := h;
    }
  }

  /** FetchInputs for a block or for the miner: entries come from the queued changes first, then from the database. */
  method FetchInputs(db: CTxDB, pool: Index, vin: seq<TxIn>) returns (ok: bool, inputs: Index)
    ensures ok == InputsFound(db.index + pool, vin, |vin|)
    ensures ok ==> forall k :: 0 <= k < |vin| ==> vin[k].prevout.hash in inputs
    ensures forall h :: h in inputs ==> h in db.index + pool && inputs[h] == (db.index + pool)[h]
  {
    inputs := map[];
    for i := 0 to |vin|
      invariant forall h :: h in inputs ==> h in db.index + pool && inputs[h] == (db.index + pool)[h]
      invariant forall k :: 0 <= k < i ==> vin[k].prevout.hash in inputs
    {
      var h := vin[i].prevout.hash;
      if h in inputs { continue; }
      if h in pool {
        inputs := inputs[h := pool[h]];
      } else {
        var e := db.ReadTxIndex(h);
        if e.None? {
          assert !HasOutput(db.index + pool, vin[i].prevout);
          return false, inputs;
        }
        inputs := inputs[h := e.value];
      }
    }
    for i := 0 to |vin|
      invariant InputsFound(db.index + pool, vin, i)
    {
      var o := vin[i].prevout;
      if o.n >= |inputs[o.hash].tx.vout| || o.n >= |inputs[o.hash].vSpent| {
        assert !HasOutput(db.index + pool, vin[i].prevout);
        return false, inputs;
      }
    }
    return true, inputs;
  }

  lemma RecentIs(n: CBlockIndex)
    ensures |Recent(n)| == |n.anc| + 1 && Path(n)[|n.anc|] == n
    ensures forall k :: 0 <= k <= |n.anc| ==> Recent(n)[k] == Path(n)[|n.anc| - k].at
  {
  }

  /** Walks back over at most the last 100 blocks, looking for the one that holds the coinbase. */
  method IsMature(pindexBlock: CBlockIndex, pos: DiskPos) returns (mature: bool)
    requires WellFormed(pindexBlock)
    ensures mature == Matured(pos, Recent(pindexBlock))
  {
    hide Path, Recent;
    RecentIs(pindexBlock);
    var pindex: CBlockIndex? := pindexBlock;
    ghost var k := 0;
    while pindex != null && pindexBlock.nHeight - pindex.nHeight < COINBASE_MATURITY
      invariant 0 <= k <= pindexBlock.nHeight + 1
      invariant pindex == if k <= pindexBlock.nHeight then Path(pindexBlock)[pindexBlock.nHeight - k] else null
      invariant forall j :: 0 <= j < k ==> Recent(pindexBlock)[j] != pos.at
      invariant k <= COINBASE_MATURITY
      decreases pindexBlock.nHeight + 1 - k
    {
      PathWellFormed(pindexBlock, pindexBlock.nHeight - k);
      if pindex.at == pos.at {
        assert Recent(pindexBlock)[k] == pos.at;
        return false;
      }
      pindex := pindex.pprev;
      k := k + 1;
    }
    if k <= pindexBlock.nHeight { PathWellFormed(pindexBlock, pindexBlock.nHeight - k); }
    return true;
  }

  /** The first loop of ConnectInputs: range, maturity and value checks. */
  method CheckInputs(tx: Tx, inputs: Index, pindexBlock: CBlockIndex, ghost view: Index)
    returns (ok: bool, nValueIn: int)
    requires WellFormed(pindexBlock)
    requires forall k :: 0 <= k < |tx.vin| ==> tx.vin[k].prevout.hash in inputs
    requires forall h :: h in inputs ==> h in view && inputs[h] == view[h]
    ensures ok == InputsCheap(view, tx.vin, |tx.vin|, Recent(pindexBlock))
    ensures ok ==> nValueIn == ValueIn(view, tx.vin, |tx.vin|)
  {
    nValueIn := 0;
    for i := 0 to |tx.vin|
      invariant nValueIn == ValueIn(view, tx.vin, i)
      invariant InputsCheap(view, tx.vin, i, Recent(pindexBlock))
    {
      var o := tx.vin[i].prevout;
      var prev := inputs[o.hash];
      if o.n >= |prev.tx.vout| || o.n >= |prev.vSpent| {
        assert !HasOutput(view, tx.vin[i].prevout);
        return false, nValueIn;
      }
      if prev.tx.IsCoinBase() {
        var mature := IsMature(pindexBlock, prev.pos);
        if !mature { return false, nValueIn; }
      }
      nValueIn := nValueIn + prev.tx.vout[o.n].nValue;
      if !MoneyRange(prev.tx.vout[o.n].nValue) || !MoneyRange(nValueIn) {
        assert nValueIn == ValueIn(view, tx.vin, i + 1);
        return false, nValueIn;
      }
    }
    return true, nValueIn;
  }

  /** After the first i inputs are marked, the slot of input i is taken iff it was taken before or is one of them. */
  lemma SlotTaken(view: Index, vin: seq<TxIn>, i: nat, pos: DiskPos)
    requires i < |vin| && HasOutput(view, vin[i].prevout)
    ensures var o, marked := vin[i].prevout, Mark(view, Prevouts(vin, i), Some(pos));
            && HasOutput(marked, o) && marked[o.hash].tx == view[o.hash].tx
            && (SpentBy(marked, o).None? <==>
                SpentBy(view, o).None? && forall j :: 0 <= j < i ==> vin[j].prevout != o)
  {
  }

  lemma MarkNext(view: Index, vin: seq<TxIn>, i: nat, pos: DiskPos)
    requires i < |vin| && HasOutput(view, vin[i].prevout)
    ensures var o, marked := vin[i].prevout, Mark(view, Prevouts(vin, i), Some(pos));
            && HasOutput(marked, o)
            && Mark(view, Prevouts(vin, i + 1), Some(pos)) == marked[o.hash := MarkOne(marked[o.hash], o.n, Some(pos))]
  {
    assert Prevouts(vin, i + 1) == Prevouts(vin, i) + {vin[i].prevout};
    MarkSlotOneMore(view, Prevouts(vin, i), vin[i].prevout, Some(pos));
  }

  lemma UnspentNext(r: Rules, view: Index, tx: Tx, i: nat, strict: bool, skip: bool)
    requires i < |tx.vin| && HasOutput(view, tx.vin[i].prevout)
    ensures InputsUnspent(r, view, tx, i + 1, strict, skip) <==>
      && InputsUnspent(r, view, tx, i, strict, skip)
      && SpentBy(view, tx.vin[i].prevout).None?
      && (forall j :: 0 <= j < i ==> tx.vin[j].prevout != tx.vin[i].prevout)
      && (skip || r.verify(view[tx.vin[i].prevout.hash].tx, tx, i, strict))
  {
  }

  lemma UnspentPrefix(r: Rules, view: Index, tx: Tx, i: nat, n: nat, strict: bool, skip: bool)
    requires i <= n <= |tx.vin| && InputsUnspent(r, view, tx, n, strict, skip)
    ensures InputsUnspent(r, view, tx, i, strict, skip)
  {
  }

  /** The second loop of ConnectInputs: each input is checked, marked spent in the local copy, and written back. */
  method SpendEach(r: Rules, tx: Tx, inputs: Index, pool: Index, pos: DiskPos, strict: bool, skip: bool,
        ghost base: Index)
    returns (ok: bool, pool': Index)
    requires forall k :: 0 <= k < |tx.vin| ==>
        tx.vin[k].prevout.hash in inputs && HasOutput(base + pool, tx.vin[k].prevout)
    requires forall h :: h in inputs ==> h in base + pool && inputs[h] == (base + pool)[h]
    ensures ok == InputsUnspent(r, base + pool, tx, |tx.vin|, strict, skip)
    ensures ok ==> base + pool' == Mark(base + pool, Prevouts(tx.vin, |tx.vin|), Some(pos))
  {
    hide Mark, InputsUnspent, SpentBy, Prevouts;
    ghost var view := base + pool;
    var mine := inputs;
    pool' := pool;
    NothingMarked(r, view, tx, pos, strict, skip);
    for i := 0 to |tx.vin|
      invariant mine.Keys == inputs.Keys
      invariant base + pool' == Mark(view, Prevouts(tx.vin, i), Some(pos))
      invariant forall h :: h in mine ==> h in base + pool' && mine[h] == (base + pool')[h]
      invariant InputsUnspent(r, view, tx, i, strict, skip)
    {
      var o := tx.vin[i].prevout;
      SlotTaken(view, tx.vin, i, pos);
      UnspentNext(r, view, tx, i, strict, skip);
      SpentBySlot(base + pool', o);
      if mine[o.hash].vSpent[o.n].Some? || (!skip && !r.verify(mine[o.hash].tx, tx, i, strict)) {
        if InputsUnspent(r, view, tx, |tx.vin|, strict, skip) {
          UnspentPrefix(r, view, tx, i + 1, |tx.vin|, strict, skip);
        }
        return false, pool';
      }
      MarkNext(view, tx.vin, i, pos);
      mine := mine[o.hash := MarkOne(mine[o.hash], o.n, Some(pos))];
      pool' := pool'[o.hash := mine[o.hash]];
    }
    return true, pool';
  }

  lemma NothingMarked(r: Rules, view: Index, tx: Tx, pos: DiskPos, strict: bool, skip: bool)
    ensures Mark(view, Prevouts(tx.vin, 0), Some(pos)) == view
    ensures InputsUnspent(r, view, tx, 0, strict, skip)
  {
    assert Prevouts(tx.vin, 0) == {};
    MarkNothing(view, Some(pos));
  }

  lemma SpentBySlot(ix: Index, o: OutPoint)
    requires HasOutput(ix, o)
    ensures SpentBy(ix, o) == ix[o.hash].vSpent[o.n]
  {
  }

  /** ConnectInputs for a block or for the miner. */
  method ConnectInputs(r: Rules, tx: Tx, inputs: Index, pool: Index, pos: DiskPos, pindexBlock: CBlockIndex,
                       strict: bool, skip: bool, ghost base: Index)
    returns (ok: bool, pool': Index)
    requires WellFormed(pindexBlock)
    requires !tx.IsCoinBase() ==> forall k :: 0 <= k < |tx.vin| ==> tx.vin[k].prevout.hash in inputs
    requires forall h :: h in inputs ==> h in base + pool && inputs[h] == (base + pool)[h]
    ensures ok == (tx.IsCoinBase() || SpendOk(r, base + pool, tx, Recent(pindexBlock), strict, skip))
    ensures ok ==> base + pool' == SpendInputs(base + pool, PosTx(tx, pos))
  {
    pool' := pool;
    if !tx.IsCoinBase() {
      var nValueIn;
      ok, nValueIn := CheckInputs(tx, inputs, pindexBlock, base + pool);
      if !ok { return false, pool'; }
      ok, pool' := SpendEach(r, tx, inputs, pool, pos, strict, skip, base);
      if !ok { return false, pool'; }
      var nValueOut := SumOutputs(tx);
      if nValueIn < nValueOut { return false, pool'; }
      var nTxFee := nValueIn - nValueOut;
      if nTxFee < 0 { return false, pool'; }
      if !MoneyRange(nTxFee) { return false, pool'; }
    }
    return true, pool';
  }

  /** GetValueOut. */
  method SumOutputs(tx: Tx) returns (nValueOut: int)
    ensures nValueOut == ValueOut(tx)
  {
    nValueOut := 0;
    for i := 0 to |tx.vout|
      invariant nValueOut == OutSum(tx.vout, i)
    {
      nValueOut := nValueOut + tx.vout[i].nValue;
    }
  }

  /** GetValueIn. */
  method SumInputs(tx: Tx, inputs: Index, ghost view: Index) returns (nResult: int)
    requires InputsFound(view, tx.vin, |tx.vin|)
    requires forall k :: 0 <= k < |tx.vin| ==> tx.vin[k].prevout.hash in inputs
    requires forall h :: h in inputs ==> h in view && inputs[h] == view[h]
    ensures nResult == ValueIn(view, tx.vin, |tx.vin|)
  {
    nResult := 0;
    for i := 0 to |tx.vin|
      invariant nResult == ValueIn(view, tx.vin, i)
    {
      assert HasOutput(view, tx.vin[i].prevout);
      nResult := nResult + inputs[tx.vin[i].prevout.hash].tx.vout[tx.vin[i].prevout.n].nValue;
    }
  }

  /** GetP2SHSigOpCount. */
  method CountP2shSigOps(r: Rules, tx: Tx, inputs: Index, ghost view: Index) returns (nSigOps: nat)
    requires InputsFound(view, tx.vin, |tx.vin|)
    requires forall k :: 0 <= k < |tx.vin| ==> tx.vin[k].prevout.hash in inputs
    requires forall h :: h in inputs ==> h in view && inputs[h] == view[h]
    ensures nSigOps == P2shSigOps(r, view, tx.vin, |tx.vin|)
  {
    nSigOps := 0;
    for i := 0 to |tx.vin|
      invariant nSigOps == P2shSigOps(r, view, tx.vin, i)
    {
      assert HasOutput(view, tx.vin[i].prevout);
      nSigOps := nSigOps + r.p2shSigOps(inputs[tx.vin[i].prevout.hash].tx.vout[tx.vin[i].prevout.n], tx.vin[i]);
    }
  }

  /** The BIP 30 rule, read from the database and not from the queued changes. */
  method MayOverwrite(db: CTxDB, h: TxId) returns (ok: bool)
    ensures ok == MayWrite(db.index, h)
  {
    var txindexOld := db.ReadTxIndex(h);
    if txindexOld.Some? {
      var v := txindexOld.value.vSpent;
      for i := 0 to |v|
        invariant forall k :: 0 <= k < i ==> v[k].Some?
      {
        if v[i].None? { return false; }
      }
    }
    return true;
  }

  ghost predicate LoopState(r: Rules, base: Index, c: ChainBlock, k: nat, queued: Index, nSigOps: nat, nFees: int,
      nTxPos: nat) {
    && k <= |c.block.vtx|
    && base + queued == View(r, base, c, k)
    && nSigOps == SigOps(r, base, c, k)
    && nFees == Fees(r, base, c, k)
    && nTxPos == TxPos(r, c, k)
  }

  lemma ViewNext(r: Rules, base: Index, c: ChainBlock, k: nat, view: Index, nTxPos: nat)
    requires k < |c.block.vtx| && view == View(r, base, c, k) && nTxPos == TxPos(r, c, k)
    ensures View(r, base, c, k + 1) == ConnectTx(r, view, PosTx(c.block.vtx[k], DiskPos(c.at, nTxPos)))
  {
    hide ConnectTx, TxPos, Located;
    assert Located(r, c)[k] == PosTx(c.block.vtx[k], DiskPos(c.at, nTxPos));
  }

  lemma LoopStep(r: Rules, base: Index, c: ChainBlock, k: nat, queued: Index, nSigOps: nat, nFees: int, nTxPos: nat,
      queued': Index)
    requires LoopState(r, base, c, k, queued, nSigOps, nFees, nTxPos) && k < |c.block.vtx|
    requires var t := PosTx(c.block.vtx[k], DiskPos(c.at, nTxPos));
             base + queued' == SpendInputs(base + queued, t)
    ensures var tx := c.block.vtx[k];
            var t := PosTx(tx, DiskPos(c.at, nTxPos));
            var p2sh := if StrictP2sh(c) && !tx.IsCoinBase() then P2shSigOps(r, base + queued, tx.vin, |tx.vin|) else 0;
            var fee := if tx.IsCoinBase() then 0 else ValueIn(base + queued, tx.vin, |tx.vin|) - ValueOut(tx);
            LoopState(r, base, c, k + 1, queued'[r.hash(tx) := NewEntry(t)], nSigOps + r.legacySigOps(tx) + p2sh,
                      nFees + fee, nTxPos + r.txSize(tx))
  {
    hide SpendInputs, NewEntry, HasOutput, P2shSigOps, ValueIn, ValueOut, View, StrictP2sh;
    var tx := c.block.vtx[k];
    var t := PosTx(tx, DiskPos(c.at, nTxPos));
    ViewNext(r, base, c, k, base + queued, nTxPos);
    assert base + queued'[r.hash(tx) := NewEntry(t)] == (base + queued')[r.hash(tx) := NewEntry(t)];
  }

  /** Fetches the inputs of a transaction, and counts what they add to the signature operations and the fees. */
  method GatherInputs(r: Rules, db: CTxDB, tx: Tx, queued: Index, strict: bool)
    returns (found: bool, inputs: Index, nSigOps: nat, nFee: int)
    ensures found == InputsFound(db.index + queued, tx.vin, |tx.vin|)
    ensures found ==> forall k :: 0 <= k < |tx.vin| ==> tx.vin[k].prevout.hash in inputs
    ensures forall h :: h in inputs ==> h in db.index + queued && inputs[h] == (db.index + queued)[h]
    ensures found ==>
      && nSigOps == (if strict then P2shSigOps(r, db.index + queued, tx.vin, |tx.vin|) else 0)
      && nFee == ValueIn(db.index + queued, tx.vin, |tx.vin|) - ValueOut(tx)
  {
    nSigOps, nFee := 0, 0;
    found, inputs := FetchInputs(db, queued, tx.vin);
    if found {
      if strict { nSigOps := CountP2shSigOps(r, tx, inputs, db.index + queued); }
      var nValueIn := SumInputs(tx, inputs, db.index + queued);
      var nValueOut := SumOutputs(tx);
      nFee := nValueIn - nValueOut;
    }
  }

  /** The body of ConnectBlock's loop over the transactions. */
  method ConnectNextTx(r: Rules, db: CTxDB, pindex: CBlockIndex, k: nat, queued: Index, nSigOps: nat, nFees: int,
      nTxPos: nat, skip: bool)
    returns (ok: bool, queued': Index, nSigOps': nat, nFees': int, nTxPos': nat)
    requires WellFormed(pindex) && k < |pindex.block.vtx|
    requires LoopState(r, db.index, AsChainBlock(pindex), k, queued, nSigOps, nFees, nTxPos)
    ensures ok == TxAccepted(r, db.index, AsChainBlock(pindex), k, skip)
    ensures ok ==> LoopState(r, db.index, AsChainBlock(pindex), k + 1, queued', nSigOps', nFees', nTxPos')
  {
    hide Bip30Exempt, HasOutput, Mark, LoopState, SpendOk, InputsFound, MayWrite, View, Recent,
        SpendInputs, P2shSigOps, ValueIn, ValueOut, SigOps, Fees;
    ghost var base, c := db.index, AsChainBlock(pindex);
    var block := pindex.block;
    var tx := block.vtx[k];
    var hashTx := r.hash(tx);
    queued', nSigOps', nFees', nTxPos' := queued, nSigOps, nFees, nTxPos;
    LoopStateMeans(r, base, c, k, queued, nSigOps, nFees, nTxPos);
    if !Bip30Exempt(pindex.nHeight, pindex.hash) {
      var mayWrite := MayOverwrite(db, hashTx);
      if !mayWrite { return false, queued', nSigOps', nFees', nTxPos'; }
    }
    nSigOps' := nSigOps + r.legacySigOps(tx);
    if nSigOps' > MAX_BLOCK_SIGOPS { return false, queued', nSigOps', nFees', nTxPos'; }
    var posThisTx := DiskPos(pindex.at, nTxPos);
    nTxPos' := nTxPos + r.txSize(tx);
    var strict := block.nTime >= BIP16_SWITCH_TIME;
    var inputs: Index := map[];
    if !tx.IsCoinBase() {
      var found, n, nFee;
      found, inputs, n, nFee := GatherInputs(r, db, tx, queued, strict);
      if !found {
        NotFoundNotAccepted(r, base + queued, tx, c.recent, strict, skip);
        return false, queued', nSigOps', nFees', nTxPos';
      }
      nSigOps' := nSigOps' + n;
      if nSigOps' > MAX_BLOCK_SIGOPS { return false, queued', nSigOps', nFees', nTxPos'; }
      nFees' := nFees + nFee;
    }
    ok, queued' := ConnectInputs(r, tx, inputs, queued, posThisTx, pindex, strict, skip, base);
    if !ok { return false, queued', nSigOps', nFees', nTxPos'; }
    LoopStep(r, base, c, k, queued, nSigOps, nFees, nTxPos, queued');
    queued' := queued'[hashTx := TxIndex(posThisTx, tx, seq(|tx.vout|, _ => None))];
    return true, queued', nSigOps', nFees', nTxPos';
  }

  lemma LoopStateMeans(r: Rules, base: Index, c: ChainBlock, k: nat, queued: Index, nSigOps: nat, nFees: int,
        nTxPos: nat)
    requires LoopState(r, base, c, k, queued, nSigOps, nFees, nTxPos) && k < |c.block.vtx|
    ensures base + queued == View(r, base, c, k)
    ensures var tx := c.block.vtx[k];
            SigOps(r, base, c, k + 1) == nSigOps + r.legacySigOps(tx) +
              if StrictP2sh(c) && !tx.IsCoinBase() then P2shSigOps(r, base + queued, tx.vin, |tx.vin|) else 0
  {
  }

  lemma NotFoundNotAccepted(r: Rules, view: Index, tx: Tx, recent: seq<BlockPos>, strict: bool, skip: bool)
    requires !InputsFound(view, tx.vin, |tx.vin|)
    ensures !SpendOk(r, view, tx, recent, strict, skip)
  {
    var k :| 0 <= k < |tx.vin| && !HasOutput(view, tx.vin[k].prevout);
  }

  /** Writes the queued changes to the database, one entry at a time. */
  method WriteQueued(db: CTxDB, queued: Index)
    modifies db`index
    ensures db.index == old(db.index) + queued
  {
    var todo := queued.Keys;
    while todo != {}
      invariant todo <= queued.Keys
      invariant db.index.Keys == old(db.index).Keys + (queued.Keys - todo)
      invariant forall h :: h in db.index ==>
        db.index[h] == if h in queued && h !in todo then queued[h] else old(db.index)[h]
      decreases |todo|
    {
      var h :| h in todo;
      db.UpdateTxIndex(h, queued[h]);
      todo := todo - {h};
    }
  }

  /** ConnectBlock, when the block is really being connected (fJustCheck is false). */
  method ConnectBlock(r: Rules, db: CTxDB, pindex: CBlockIndex, skip: bool) returns (ok: bool)
    requires WellFormed(pindex)
    modifies db`index
    ensures ok == ConnectOk(r, old(db.index), AsChainBlock(pindex), skip)
    ensures db.index == if ok then ConnectedIndex(r, old(db.index), AsChainBlock(pindex)) else old(db.index)
  {
    hide BlockOk, TxAccepted, LoopState, Located, ConnectTxs, SigOps, Fees, TxPos, Recent;
    ghost var base, c := db.index, AsChainBlock(pindex);
    var block := pindex.block;
    var blockOk := CheckBlock(r, block);
    if !blockOk { return false; }
    BlockNotEmpty(r, block);
    var nTxPos: nat := pindex.at.nBlockPos + 81 - 1 + SizeOfCompactSize(|block.vtx|);
    var queued: Index, nSigOps, nFees := map[], 0, 0;
    LoopStart(r, base, c);
    for k := 0 to |block.vtx|
      invariant db.index == base
      invariant TxsAccepted(r, base, c, k, skip)
      invariant LoopState(r, base, c, k, queued, nSigOps, nFees, nTxPos)
    {
      ok, queued, nSigOps, nFees, nTxPos := ConnectNextTx(r, db, pindex, k, queued, nSigOps, nFees, nTxPos, skip);
      if !ok { return false; }
    }
    LoopEnd(r, base, c, queued, nSigOps, nFees, nTxPos);
    var nCoinBaseOut := SumOutputs(block.vtx[0]);
    if nCoinBaseOut > BlockValue(pindex.nHeight, nFees) { return false; }
    WriteQueued(db, queued);
    return true;
  }

  lemma BlockNotEmpty(r: Rules, block: Block)
    requires BlockOk(r, block)
    ensures block.vtx != []
  {
  }

  lemma LoopStart(r: Rules, base: Index, c: ChainBlock)
    ensures LoopState(r, base, c, 0, map[], 0, 0, c.at.nBlockPos + 81 - 1 + SizeOfCompactSize(|c.block.vtx|))
  {
    assert base + map[] == base;
  }

  lemma LoopEnd(r: Rules, base: Index, c: ChainBlock, queued: Index, nSigOps: nat, nFees: int, nTxPos: nat)
    requires LoopState(r, base, c, |c.block.vtx|, queued, nSigOps, nFees, nTxPos)
    ensures base + queued == ConnectedIndex(r, base, c) && nFees == Fees(r, base, c, |c.block.vtx|)
  {
  }

  // ----- disconnecting -----

  /** DisconnectInputs. On an error some marks may already be cleared: the caller aborts the database transaction. */
  method DisconnectInputs(r: Rules, db: CTxDB, tx: Tx) returns (ok: bool)
    modifies db`index
    ensures ok == DisconnectTx(r, old(db.index), tx).Some?
    ensures ok ==> db.index == DisconnectTx(r, old(db.index), tx).value
  {
    hide Mark, Prevouts;
    ghost var ix := db.index;
    if !tx.IsCoinBase() {
      NothingUnmarked(ix, tx.vin);
      for i := 0 to |tx.vin|
        invariant db.index == Mark(ix, Prevouts(tx.vin, i), None)
        invariant forall k :: 0 <= k < i ==> HasSlot(ix, tx.vin[k].prevout)
      {
        var o := tx.vin[i].prevout;
        UnmarkNext(ix, tx.vin, i);
        var e := db.ReadTxIndex(o.hash);
        if e.None? {
          assert !HasSlot(ix, tx.vin[i].prevout);
          return false;
        }
        if o.n >= |e.value.vSpent| {
          assert !HasSlot(ix, tx.vin[i].prevout);
          return false;
        }
        db.UpdateTxIndex(o.hash, MarkOne(e.value, o.n, None));
      }
    }
    db.EraseTxIndex(r.hash(tx));
    return true;
  }

  lemma NothingUnmarked(ix: Index, vin: seq<TxIn>)
    ensures Mark(ix, Prevouts(vin, 0), None) == ix
  {
    assert Prevouts(vin, 0) == {};
    MarkNothing(ix, None);
  }

  lemma UnmarkNext(ix: Index, vin: seq<TxIn>, i: nat)
    requires i < |vin|
    ensures var o, marked := vin[i].prevout, Mark(ix, Prevouts(vin, i), None);
            && (HasSlot(marked, o) <==> HasSlot(ix, o))
            && (o.hash in marked <==> o.hash in ix)
            && (HasSlot(ix, o) ==>
                  Mark(ix, Prevouts(vin, i + 1), None) == marked[o.hash := MarkOne(marked[o.hash], o.n, None)])
  {
    var o := vin[i].prevout;
    assert Prevouts(vin, i + 1) == Prevouts(vin, i) + {o};
    if HasSlot(ix, o) { MarkSlotOneMore(ix, Prevouts(vin, i), o, None); }
  }

  /** DisconnectBlock: the transactions are disconnected in reverse order. */
  method DisconnectBlock(r: Rules, db: CTxDB, pindex: CBlockIndex) returns (ok: bool)
    modifies db`index
    ensures ok == DisconnectedIndex(r, old(db.index), AsChainBlock(pindex)).Some?
    ensures ok ==> db.index == DisconnectedIndex(r, old(db.index), AsChainBlock(pindex)).value
  {
    hide DisconnectTx, Recent, TxPos, Located;
    ghost var ix, ts := db.index, Located(r, AsChainBlock(pindex));
    var vtx := pindex.block.vtx;
    var i := |vtx|;
    while i > 0
      invariant 0 <= i <= |vtx|
      invariant DisconnectTxs(r, ix, ts, |vtx|) == DisconnectTxs(r, db.index, ts, i)
    {
      i := i - 1;
      ok := DisconnectInputs(r, db, vtx[i]);
      if !ok { return false; }
    }
    return true;
  }
}
