/** The transaction index as values: what connecting and disconnecting blocks does to it
    (CTxIndex in a3/a2/main.h; FetchInputs, ConnectInputs, DisconnectInputs, ConnectBlock and
    DisconnectBlock in a3/a2/main.cpp). */
module ChainIndex {
  import opened Transactions
  import opened Wrappers

  /** CDiskTxPos. The null position is Option.None. */
  datatype DiskPos = DiskPos(at: BlockPos, nTxPos: nat)

  /** Where a block lies on disk: file and offset. */
  datatype BlockPos = BlockPos(nFile: nat, nBlockPos: nat)

  /** CTxIndex. `tx` is the transaction that reading the disk at `pos` yields. */
  datatype TxIndex = TxIndex(pos: DiskPos, tx: Tx, vSpent: seq<Option<DiskPos>>)

  type Index = map<TxId, TxIndex>

  predicate HasOutput(ix: Index, o: OutPoint) {
    o.hash in ix && o.n < |ix[o.hash].tx.vout| && o.n < |ix[o.hash].vSpent|
  }

  predicate HasSlot(ix: Index, o: OutPoint) {
    o.hash in ix && o.n < |ix[o.hash].vSpent|
  }

  function SpentBy(ix: Index, o: OutPoint): Option<DiskPos>
    requires HasOutput(ix, o)
  {
    ix[o.hash].vSpent[o.n]
  }

  function OutputOf(ix: Index, o: OutPoint): TxOut
    requires HasOutput(ix, o)
  {
    ix[o.hash].tx.vout[o.n]
  }

  /** The spent marks of one entry after every outpoint of `outs` in it got the mark s. */
  function MarkVector(h: TxId, v: seq<Option<DiskPos>>, outs: set<OutPoint>, s: Option<DiskPos>): seq<Option<DiskPos>> {
    seq(|v|, k requires 0 <= k < |v| => if OutPoint(h, k) in outs then s else v[k])
  }

  /** The index after every outpoint of `outs` got the mark s, all at once. */
  function Mark(ix: Index, outs: set<OutPoint>, s: Option<DiskPos>): Index {
    map h | h in ix :: ix[h].(vSpent := MarkVector(h, ix[h].vSpent, outs, s))
  }

  /** One assignment to a single vSpent slot, as the code makes it. */
  function MarkOne(e: TxIndex, n: nat, s: Option<DiskPos>): TxIndex
    requires n < |e.vSpent|
  {
    e.(vSpent := e.vSpent[n := s])
  }

  lemma MarkSlotOneMore(ix: Index, outs: set<OutPoint>, o: OutPoint, s: Option<DiskPos>)
    requires HasSlot(ix, o)
    ensures Mark(ix, outs + {o}, s) == Mark(ix, outs, s)[o.hash := MarkOne(Mark(ix, outs, s)[o.hash], o.n, s)]
  {
    forall h | h in ix
      ensures MarkVector(h, ix[h].vSpent, outs + {o}, s) ==
              if h == o.hash then MarkVector(h, ix[h].vSpent, outs, s)[o.n := s]
                  else MarkVector(h, ix[h].vSpent, outs, s)
    {
    }
  }

  lemma MarkNothing(ix: Index, s: Option<DiskPos>)
    ensures Mark(ix, {}, s) == ix
  {
    forall h | h in ix ensures MarkVector(h, ix[h].vSpent, {}, s) == ix[h].vSpent { }
  }

  /** Clearing the marks that a transaction set gives back the index, if they were clear before. */
  lemma UnmarkMark(ix: Index, outs: set<OutPoint>, s: Option<DiskPos>)
    requires forall o :: o in outs && HasSlot(ix, o) ==> ix[o.hash].vSpent[o.n].None?
    ensures Mark(Mark(ix, outs, s), outs, None) == ix
  {
    var mid := Mark(ix, outs, s);
    forall h | h in ix
      ensures MarkVector(h, mid[h].vSpent, outs, None) == ix[h].vSpent
    {
      forall k | 0 <= k < |ix[h].vSpent|
        ensures MarkVector(h, mid[h].vSpent, outs, None)[k] == ix[h].vSpent[k]
      {
        if OutPoint(h, k) in outs { assert HasSlot(ix, OutPoint(h, k)); }
      }
    }
  }

  function Prevouts(vin: seq<TxIn>, n: nat): set<OutPoint>
    requires n <= |vin|
  {
    set k | 0 <= k < n :: vin[k].prevout
  }

  // ----- one transaction -----

  /** A transaction together with the place on disk that ConnectBlock computes for it. */
  datatype PosTx = PosTx(tx: Tx, pos: DiskPos)

  /** Sum of the values of the first n inputs; a missing output counts 0. */
  function ValueIn(ix: Index, vin: seq<TxIn>, n: nat): int
    requires n <= |vin|
  {
    if n == 0 then 0
    else ValueIn(ix, vin, n - 1) + if HasOutput(ix, vin[n - 1].prevout) then OutputOf(ix, vin[n - 1].prevout).nValue
        else 0
  }

  function P2shSigOps(r: Rules, ix: Index, vin: seq<TxIn>, n: nat): nat
    requires n <= |vin|
  {
    if n == 0 then 0
    else P2shSigOps(r, ix, vin, n - 1) +
         if HasOutput(ix, vin[n - 1].prevout) then r.p2shSigOps(OutputOf(ix, vin[n - 1].prevout), vin[n - 1]) else 0
  }

  /** A coinbase at `pos` may be spent unless its block is among the last 100, counting the spending block itself. */
  predicate Matured(pos: DiskPos, recent: seq<BlockPos>) {
    forall k :: 0 <= k < |recent| && k < COINBASE_MATURITY ==> recent[k] != pos.at
  }

  predicate InputsFound(ix: Index, vin: seq<TxIn>, n: nat)
    requires n <= |vin|
  {
    forall k :: 0 <= k < n ==> HasOutput(ix, vin[k].prevout)
  }

  /** The inexpensive checks of the first loop of ConnectInputs, for the first n inputs. */
  predicate InputsCheap(ix: Index, vin: seq<TxIn>, n: nat, recent: seq<BlockPos>)
    requires n <= |vin|
  {
    forall k :: 0 <= k < n ==>
      && HasOutput(ix, vin[k].prevout)
      && (ix[vin[k].prevout.hash].tx.IsCoinBase() ==> Matured(ix[vin[k].prevout.hash].pos, recent))
      && MoneyRange(OutputOf(ix, vin[k].prevout).nValue)
      && MoneyRange(ValueIn(ix, vin, k + 1))
  }

  /** The double-spend and signature checks of its second loop, for the first n inputs. */
  predicate InputsUnspent(r: Rules, ix: Index, tx: Tx, n: nat, strict: bool, skip: bool)
    requires n <= |tx.vin|
  {
    && DistinctPrevouts(tx.vin, n)
    && forall k :: 0 <= k < n ==>
         && HasOutput(ix, tx.vin[k].prevout)
         && SpentBy(ix, tx.vin[k].prevout).None?
         && (skip || r.verify(ix[tx.vin[k].prevout.hash].tx, tx, k, strict))
  }

  /** What ConnectInputs accepts for a transaction that is not a coinbase. */
  predicate SpendOk(r: Rules, ix: Index, tx: Tx, recent: seq<BlockPos>, strict: bool, skip: bool) {
    var n := |tx.vin|;
    && InputsCheap(ix, tx.vin, n, recent)
    && InputsUnspent(r, ix, tx, n, strict, skip)
    && ValueIn(ix, tx.vin, n) >= ValueOut(tx)
    && MoneyRange(ValueIn(ix, tx.vin, n) - ValueOut(tx))
  }

  /** The inputs of a transaction are marked spent by it. */
  function SpendInputs(ix: Index, t: PosTx): Index {
    if t.tx.IsCoinBase() then ix else Mark(ix, Prevouts(t.tx.vin, |t.tx.vin|), Some(t.pos))
  }

  function NewEntry(t: PosTx): TxIndex {
    TxIndex(t.pos, t.tx, seq(|t.tx.vout|, _ => None))
  }

  function ConnectTx(r: Rules, ix: Index, t: PosTx): Index {
    SpendInputs(ix, t)[r.hash(t.tx) := NewEntry(t)]
  }

  predicate SlotsPresent(ix: Index, tx: Tx) {
    forall k :: 0 <= k < |tx.vin| ==> HasSlot(ix, tx.vin[k].prevout)
  }

  /** DisconnectInputs: None is its error return. */
  function DisconnectTx(r: Rules, ix: Index, tx: Tx): Option<Index> {
    if tx.IsCoinBase() then Some(ix - {r.hash(tx)})
    else if SlotsPresent(ix, tx) then Some(Mark(ix, Prevouts(tx.vin, |tx.vin|), None) - {r.hash(tx)})
    else None
  }

  /** Every input the transaction needs is there and unspent, and no two are the same. */
  predicate InputsFree(ix: Index, tx: Tx) {
    tx.IsCoinBase() ||
    (DistinctPrevouts(tx.vin, |tx.vin|) &&
     forall k :: 0 <= k < |tx.vin| ==> HasOutput(ix, tx.vin[k].prevout) && SpentBy(ix, tx.vin[k].prevout).None?)
  }

  /** Disconnecting a transaction just connected restores the index, if its hash was new. */
  lemma UndoTx(r: Rules, ix: Index, t: PosTx)
    requires r.hash(t.tx) !in ix
    requires InputsFree(ix, t.tx)
    ensures DisconnectTx(r, ConnectTx(r, ix, t), t.tx) == Some(ix)
  {
    var outs, h := Prevouts(t.tx.vin, |t.tx.vin|), r.hash(t.tx);
    if t.tx.IsCoinBase() {
      assert ix[h := NewEntry(t)] - {h} == ix;
    } else {
      var marked := Mark(ix, outs, Some(t.pos));
      UnmarkMark(ix, outs, Some(t.pos));
      assert SlotsPresent(ConnectTx(r, ix, t), t.tx) by {
        forall k | 0 <= k < |t.tx.vin| ensures HasSlot(ConnectTx(r, ix, t), t.tx.vin[k].prevout) {
          assert HasSlot(ix, t.tx.vin[k].prevout);
        }
      }
      assert Mark(marked[h := NewEntry(t)], outs, None) - {h} == Mark(marked, outs, None);
    }
  }

  // ----- a list of transactions -----

  function ConnectTxs(r: Rules, ix: Index, ts: seq<PosTx>, n: nat): (ix': Index)
    requires n <= |ts|
  {
    if n == 0 then ix else ConnectTx(r, ConnectTxs(r, ix, ts, n - 1), ts[n - 1])
  }

  /** Disconnects the first n transactions, the last one first. */
  function DisconnectTxs(r: Rules, ix: Index, ts: seq<PosTx>, n: nat): Option<Index>
    requires n <= |ts|
  {
    if n == 0 then Some(ix)
    else match DisconnectTx(r, ix, ts[n - 1].tx)
      case None => None
      case Some(ix') => DisconnectTxs(r, ix', ts, n - 1)
  }

  function Ids(r: Rules, ts: seq<PosTx>, n: nat): set<TxId>
    requires n <= |ts|
  {
    set k | 0 <= k < n :: r.hash(ts[k].tx)
  }

  lemma {:induction false} ConnectTxsKeys(r: Rules, ix: Index, ts: seq<PosTx>, n: nat)
    requires n <= |ts|
    ensures ConnectTxs(r, ix, ts, n).Keys == ix.Keys + Ids(r, ts, n)
  {
    if n == 0 {
    } else {
      ConnectTxsKeys(r, ix, ts, n - 1);
      assert Ids(r, ts, n) == Ids(r, ts, n - 1) + {r.hash(ts[n - 1].tx)};
    }
  }

  predicate AllInputsFree(r: Rules, ix: Index, ts: seq<PosTx>, n: nat)
    requires n <= |ts|
  {
    forall k :: 0 <= k < n ==> InputsFree(ConnectTxs(r, ix, ts, k), ts[k].tx)
  }

  predicate DistinctHashes(r: Rules, ts: seq<PosTx>, n: nat)
    requires n <= |ts|
  {
    forall j, k :: 0 <= j < k < n ==> r.hash(ts[j].tx) != r.hash(ts[k].tx)
  }

  lemma LastHashIsNew(r: Rules, ix: Index, ts: seq<PosTx>, n: nat)
    requires 0 < n <= |ts|
    requires DistinctHashes(r, ts, n) && Ids(r, ts, n) !! ix.Keys
    ensures r.hash(ts[n - 1].tx) !in ConnectTxs(r, ix, ts, n - 1)
    ensures Ids(r, ts, n - 1) !! ix.Keys
  {
    ConnectTxsKeys(r, ix, ts, n - 1);
    assert r.hash(ts[n - 1].tx) in Ids(r, ts, n);
    assert Ids(r, ts, n - 1) <= Ids(r, ts, n);
  }

  lemma {:induction false} UndoTxs(r: Rules, ix: Index, ts: seq<PosTx>, n: nat)
    requires n <= |ts|
    requires AllInputsFree(r, ix, ts, n) && DistinctHashes(r, ts, n)
    requires Ids(r, ts, n) !! ix.Keys
    ensures DisconnectTxs(r, ConnectTxs(r, ix, ts, n), ts, n) == Some(ix)
  {
    if n == 0 {
    } else {
      LastHashIsNew(r, ix, ts, n);
      UndoTx(r, ConnectTxs(r, ix, ts, n - 1), ts[n - 1]);
      UndoTxs(r, ix, ts, n - 1);
    }
  }

  /** Disconnecting never brings a transaction into the index, and takes out every one it undoes. */
  lemma {:induction false} DisconnectTxsKeys(r: Rules, ix: Index, ts: seq<PosTx>, n: nat)
    requires n <= |ts|
    requires DisconnectTxs(r, ix, ts, n).Some?
    ensures DisconnectTxs(r, ix, ts, n).value.Keys == ix.Keys - Ids(r, ts, n)
  {
    if n == 0 {
      assert Ids(r, ts, n) == {};
    } else {
      var ix' := DisconnectTx(r, ix, ts[n - 1].tx).value;
      assert ix'.Keys == ix.Keys - {r.hash(ts[n - 1].tx)};
      DisconnectTxsKeys(r, ix', ts, n - 1);
      assert Ids(r, ts, n) == Ids(r, ts, n - 1) + {r.hash(ts[n - 1].tx)};
    }
  }

  /** Undo is exact if and only if every transaction hash was new to the index. */
  lemma UndoExactlyWhenNew(r: Rules, ix: Index, ts: seq<PosTx>)
    requires AllInputsFree(r, ix, ts, |ts|) && DistinctHashes(r, ts, |ts|)
    ensures DisconnectTxs(r, ConnectTxs(r, ix, ts, |ts|), ts, |ts|) == Some(ix) <==> Ids(r, ts, |ts|) !! ix.Keys
  {
    var n := |ts|;
    if Ids(r, ts, n) !! ix.Keys {
      UndoTxs(r, ix, ts, n);
    } else if DisconnectTxs(r, ConnectTxs(r, ix, ts, n), ts, n) == Some(ix) {
      DisconnectTxsKeys(r, ConnectTxs(r, ix, ts, n), ts, n);
      assert false;
    }
  }
}
