/** Conservation of money: what the index leaves unspent never exceeds the subsidies paid
    (GetBlockValue and ConnectBlock in a3/a2/main.cpp; MAX_MONEY in a3/a2/main.h). */
module Supply {
  import opened Wrappers
  import opened Transactions
  import opened ChainIndex
  import opened BlockChain
  import Ledger

  /** Value of the first n outputs of an entry that nobody has spent. */
  function UnspentUpTo(vout: seq<TxOut>, v: seq<Option<DiskPos>>, n: nat): int
    requires n <= |vout| && n <= |v|
  {
    if n == 0 then 0
    else UnspentUpTo(vout, v, n - 1) + if v[n - 1].None? then vout[n - 1].nValue else 0
  }

  /** Entries have one mark for each output, and outputs in range. */
  predicate EntryOk(e: TxIndex) {
    && |e.vSpent| == |e.tx.vout|
    && OutputsInRange(e.tx.vout, |e.tx.vout|)
  }

  predicate IndexOk(ix: Index) {
    forall h :: h in ix ==> EntryOk(ix[h])
  }

  function Unspent(e: TxIndex): int
    requires EntryOk(e)
  {
    UnspentUpTo(e.tx.vout, e.vSpent, |e.vSpent|)
  }

  /** The total unspent value of an index. */
  ghost function Total(ix: Index): int
    requires IndexOk(ix)
  {
    if ix == map[] then 0
    else
      var h :| h in ix;
      Unspent(ix[h]) + Total(ix - {h})
  }

  lemma {:induction false} TotalSplit(ix: Index, h: TxId)
    requires IndexOk(ix) && h in ix
    ensures Total(ix) == Unspent(ix[h]) + Total(ix - {h})
    decreases |ix|
  {
    var g :| g in ix && Total(ix) == Unspent(ix[g]) + Total(ix - {g});
    if g != h {
      assert |ix - {g}| < |ix| by { assert (ix - {g}).Keys == ix.Keys - {g}; }
      assert |ix - {h}| < |ix| by { assert (ix - {h}).Keys == ix.Keys - {h}; }
      TotalSplit(ix - {g}, h);
      TotalSplit(ix - {h}, g);
      assert (ix - {g}) - {h} == (ix - {h}) - {g};
    }
  }

  lemma TotalUpdate(ix: Index, h: TxId, e: TxIndex)
    requires IndexOk(ix) && EntryOk(e)
    ensures IndexOk(ix[h := e])
    ensures Total(ix[h := e]) == Total(ix) + Unspent(e) - if h in ix then Unspent(ix[h]) else 0
  {
    TotalSplit(ix[h := e], h);
    if h in ix {
      TotalSplit(ix, h);
      assert ix[h := e] - {h} == ix - {h};
    } else {
      assert ix[h := e] - {h} == ix;
    }
  }

  lemma {:induction false} UnspentUpToNonNegative(vout: seq<TxOut>, v: seq<Option<DiskPos>>, n: nat)
    requires n <= |vout| && n <= |v| && OutputsInRange(vout, |vout|)
    ensures UnspentUpTo(vout, v, n) >= 0
  {
    if n > 0 {
      UnspentUpToNonNegative(vout, v, n - 1);
      assert MoneyRange(vout[n - 1].nValue);
    }
  }

  lemma {:induction false} TotalNonNegative(ix: Index)
    requires IndexOk(ix)
    ensures Total(ix) >= 0
    decreases |ix|
  {
    if ix == map[] {
      assert Total(ix) == 0;
    } else {
      var h :| h in ix;
      TotalSplit(ix, h);
      UnspentUpToNonNegative(ix[h].tx.vout, ix[h].vSpent, |ix[h].vSpent|);
      assert |ix - {h}| < |ix| by { assert (ix - {h}).Keys == ix.Keys - {h}; }
      TotalNonNegative(ix - {h});
    }
  }

  lemma {:induction false} UnspentUpdate(vout: seq<TxOut>, v: seq<Option<DiskPos>>, n: nat, k: nat, p: DiskPos)
    requires n <= |vout| && n <= |v| && k < |v| && v[k].None?
    ensures UnspentUpTo(vout, v[k := Some(p)], n) == UnspentUpTo(vout, v, n) - if k < n then vout[k].nValue else 0
  {
    if n > 0 { UnspentUpdate(vout, v, n - 1, k, p); }
  }

  lemma {:induction false} UnspentFresh(vout: seq<TxOut>, v: seq<Option<DiskPos>>, n: nat)
    requires n <= |vout| && n <= |v|
    requires forall k :: 0 <= k < n ==> v[k].None?
    ensures UnspentUpTo(vout, v, n) == OutSum(vout, n)
  {
    if n > 0 { UnspentFresh(vout, v, n - 1); }
  }

  lemma TotalMarkOne(ix: Index, o: OutPoint, p: DiskPos)
    requires IndexOk(ix) && HasOutput(ix, o) && SpentBy(ix, o).None?
    ensures var ix' := ix[o.hash := MarkOne(ix[o.hash], o.n, Some(p))];
            IndexOk(ix') && Total(ix') == Total(ix) - OutputOf(ix, o).nValue
  {
    var e := ix[o.hash];
    assert EntryOk(e);
    UnspentUpdate(e.tx.vout, e.vSpent, |e.vSpent|, o.n, p);
    TotalUpdate(ix, o.hash, MarkOne(e, o.n, Some(p)));
  }

  lemma {:induction false} TotalMark(ix: Index, vin: seq<TxIn>, n: nat, p: DiskPos)
    requires n <= |vin| && IndexOk(ix) && DistinctPrevouts(vin, n)
    requires forall k :: 0 <= k < n ==> HasOutput(ix, vin[k].prevout) && SpentBy(ix, vin[k].prevout).None?
    ensures IndexOk(Mark(ix, Prevouts(vin, n), Some(p)))
    ensures Total(Mark(ix, Prevouts(vin, n), Some(p))) == Total(ix) - ValueIn(ix, vin, n)
  {
    if n == 0 {
      assert Prevouts(vin, 0) == {};
      MarkNothing(ix, Some(p));
    } else {
      TotalMark(ix, vin, n - 1, p);
      var o, outs := vin[n - 1].prevout, Prevouts(vin, n - 1);
      assert Prevouts(vin, n) == outs + {o};
      MarkSlotOneMore(ix, outs, o, Some(p));
      assert o !in outs;
      TotalMarkOne(Mark(ix, outs, Some(p)), o, p);
    }
  }

  /** Connecting one transaction: the new total is at most the old one less the inputs plus the outputs. */
  lemma TotalConnectTx(r: Rules, ix: Index, t: PosTx)
    requires IndexOk(ix) && InputsFree(ix, t.tx) && OutputsInRange(t.tx.vout, |t.tx.vout|)
    ensures IndexOk(ConnectTx(r, ix, t))
    ensures Total(ConnectTx(r, ix, t)) <=
            Total(ix) + ValueOut(t.tx) - if t.tx.IsCoinBase() then 0 else ValueIn(ix, t.tx.vin, |t.tx.vin|)
    ensures r.hash(t.tx) !in ix ==>
            (Total(ConnectTx(r, ix, t)) ==
             Total(ix) + ValueOut(t.tx) - if t.tx.IsCoinBase() then 0 else ValueIn(ix, t.tx.vin, |t.tx.vin|))
  {
    var h, e := r.hash(t.tx), NewEntry(t);
    if !t.tx.IsCoinBase() { TotalMark(ix, t.tx.vin, |t.tx.vin|, t.pos); }
    var marked := SpendInputs(ix, t);
    assert EntryOk(e);
    TotalUpdate(marked, h, e);
    UnspentFresh(t.tx.vout, e.vSpent, |e.vSpent|);
    if h in marked { UnspentUpToNonNegative(marked[h].tx.vout, marked[h].vSpent, |marked[h].vSpent|); }
  }

  // ----- a block -----

  /** The part of TxAccepted and CheckBlock that moves money. */
  lemma AcceptedTx(r: Rules, base: Index, c: ChainBlock, k: nat, skip: bool)
    requires k < |c.block.vtx| && TxAccepted(r, base, c, k, skip)
    ensures InputsFree(View(r, base, c, k), c.block.vtx[k])
    ensures var tx := c.block.vtx[k];
            !tx.IsCoinBase() ==> ValueIn(View(r, base, c, k), tx.vin, |tx.vin|) >= ValueOut(tx)
  {
  }

  /** One more transaction of an accepted block. */
  lemma ViewStep(r: Rules, base: Index, c: ChainBlock, k: nat, skip: bool)
    requires k < |c.block.vtx| && TxAccepted(r, base, c, k, skip) && TransactionOk(r, c.block.vtx[k])
    requires IndexOk(View(r, base, c, k))
    ensures IndexOk(View(r, base, c, k + 1))
    ensures var tx := c.block.vtx[k];
            Total(View(r, base, c, k + 1)) <=
            Total(View(r, base, c, k)) + Fees(r, base, c, k) - Fees(r, base, c, k + 1)
            + if tx.IsCoinBase() then ValueOut(tx) else 0
  {
    hide TxAccepted, InputsFree, ConnectTx, TransactionOk, IndexOk, Total;
    AcceptedTx(r, base, c, k, skip);
    OutputsChecked(r, c.block.vtx[k]);
    TotalConnectTx(r, View(r, base, c, k), Located(r, c)[k]);
  }

  lemma ViewOfNothing(r: Rules, base: Index, c: ChainBlock)
    ensures View(r, base, c, 0) == base && Fees(r, base, c, 0) == 0
  {
  }

  lemma {:induction false} TotalView(r: Rules, base: Index, c: ChainBlock, n: nat, skip: bool)
    requires n <= |c.block.vtx| && IndexOk(base)
    requires TxsAccepted(r, base, c, n, skip) && TransactionsOk(r, c.block.vtx) && CoinBaseFirstOnly(c.block.vtx)
    ensures IndexOk(View(r, base, c, n))
    ensures Total(View(r, base, c, n)) <=
        Total(base) + (if n == 0 then 0 else ValueOut(c.block.vtx[0])) - Fees(r, base, c, n)
  {
    hide TxAccepted, TransactionOk, IndexOk, Total, View, Fees, ValueOut;
    if n == 0 {
      ViewOfNothing(r, base, c);
    } else {
      TotalView(r, base, c, n - 1, skip);
      ViewStep(r, base, c, n - 1, skip);
    }
  }

  lemma OutputsChecked(r: Rules, tx: Tx)
    requires TransactionOk(r, tx)
    ensures OutputsInRange(tx.vout, |tx.vout|) && MoneyRange(ValueOut(tx))
  {
    assert MoneyRange(OutSum(tx.vout, |tx.vout| - 1 + 1));
  }

  /** A block that connects adds at most its subsidy to the unspent total, duplicates included. */
  lemma BlockAddsAtMostSubsidy(r: Rules, base: Index, c: ChainBlock, skip: bool)
    requires IndexOk(base) && ConnectOk(r, base, c, skip)
    ensures IndexOk(ConnectedIndex(r, base, c))
    ensures Total(ConnectedIndex(r, base, c)) <= Total(base) + Subsidy(c.nHeight)
  {
    TotalView(r, base, c, |c.block.vtx|, skip);
  }

  lemma {:induction false} FeesNonNegative(r: Rules, base: Index, c: ChainBlock, n: nat, skip: bool)
    requires n <= |c.block.vtx| && TxsAccepted(r, base, c, n, skip)
    ensures Fees(r, base, c, n) >= 0
  {
    hide TxAccepted, InputsFree, View;
    if n > 0 {
      FeesNonNegative(r, base, c, n - 1, skip);
      AcceptedTx(r, base, c, n - 1, skip);
    }
  }

  /** The running fee total of ConnectBlock stays far from the limits of a 64-bit integer. */
  lemma FeesFit(r: Rules, base: Index, c: ChainBlock, n: nat, skip: bool)
    requires 0 < n <= |c.block.vtx| && IndexOk(base) && Total(base) <= MAX_MONEY
    requires TxsAccepted(r, base, c, n, skip) && TransactionsOk(r, c.block.vtx) && CoinBaseFirstOnly(c.block.vtx)
    ensures 0 <= Fees(r, base, c, n) <= 2 * MAX_MONEY < 0x8000_0000_0000_0000
  {
    FeesNonNegative(r, base, c, n, skip);
    TotalView(r, base, c, n, skip);
    TotalNonNegative(View(r, base, c, n));
    OutputsChecked(r, c.block.vtx[0]);
  }

  // ----- a chain -----

  /** Sum of the subsidies of heights 1 to n. */
  function SubsidySum(n: nat): nat {
    if n == 0 then 0 else SubsidySum(n - 1) + Subsidy(n)
  }

  predicate HeightsFollow(chain: seq<ChainBlock>) {
    forall k :: 0 <= k < |chain| ==> chain[k].nHeight == k + 1
  }

  lemma PreviousHeight(n: nat)
    requires n > 0
    ensures n % HALVING == 0 ==> (n - 1) / HALVING == n / HALVING - 1 && (n - 1) % HALVING == HALVING - 1
    ensures n % HALVING != 0 ==> (n - 1) / HALVING == n / HALVING && (n - 1) % HALVING == n % HALVING - 1
  {
  }

  lemma OneMore(k: nat, s: nat)
    ensures (k + 1) * s == k * s + s
  {
  }

  /** What is still to be paid at height n bounds what has been paid. */
  lemma {:induction false} SubsidySumBound(n: nat)
    ensures SubsidySum(n) <= MAX_MONEY - 420000 * Subsidy(n) + (n % HALVING + 1) * Subsidy(n)
  {
    if n == 0 {
    } else {
      SubsidySumBound(n - 1);
      PreviousHeight(n);
      var s', s := Subsidy(n - 1), Subsidy(n);
      if n % HALVING == 0 {
        assert s == s' / 2;
      } else {
        assert s == s';
        OneMore(n % HALVING, s);
      }
    }
  }

  lemma SubsidySumWithinMaxMoney(n: nat)
    ensures SubsidySum(n) <= MAX_MONEY
  {
    hide Subsidy, SubsidySum;
    SubsidySumBound(n);
    AtMostTimes(n % HALVING + 1, 420000, Subsidy(n));
  }

  lemma AtMostTimes(a: nat, b: nat, s: nat)
    requires a <= b
    ensures a * s <= b * s
  {
  }

  /** Conservation of money over a connected chain; fully spent duplicates and the two exempt blocks are allowed. */
  lemma {:induction false} MoneyIsConserved(r: Rules, chain: seq<ChainBlock>, n: nat)
    requires n <= |chain| && Ledger.ChainAccepted(TxLedger(r), chain) && HeightsFollow(chain)
    ensures IndexOk(Ledger.Replay(TxLedger(r), chain, n))
    ensures 0 <= Total(Ledger.Replay(TxLedger(r), chain, n)) <= SubsidySum(n) <= MAX_MONEY
  {
    hide *;
    if n == 0 {
      NothingReplayed(r, chain);
    } else {
      NextBlock(r, chain, n);
      MoneyIsConserved(r, chain, n - 1);
      BlockAddsAtMostSubsidy(r, Ledger.Replay(TxLedger(r), chain, n - 1), chain[n - 1], true);
      NextSubsidy(chain, n);
    }
    TotalNonNegative(Ledger.Replay(TxLedger(r), chain, n));
    SubsidySumWithinMaxMoney(n);
  }

  lemma NextSubsidy(chain: seq<ChainBlock>, n: nat)
    requires 0 < n <= |chain| && HeightsFollow(chain)
    ensures SubsidySum(n) == SubsidySum(n - 1) + Subsidy(chain[n - 1].nHeight)
  {
    hide Subsidy;
  }

  lemma NextBlock(r: Rules, chain: seq<ChainBlock>, n: nat)
    requires 0 < n <= |chain| && Ledger.ChainAccepted(TxLedger(r), chain)
    ensures var base := Ledger.Replay(TxLedger(r), chain, n - 1);
            ConnectOk(r, base, chain[n - 1], true)
                && Ledger.Replay(TxLedger(r), chain, n) == ConnectedIndex(r, base, chain[n - 1])
  {
    hide ConnectOk, ConnectedIndex;
    assert TxLedger(r).accepts(Ledger.Replay(TxLedger(r), chain, n - 1), chain[n - 1], true);
  }

  lemma NothingReplayed(r: Rules, chain: seq<ChainBlock>)
    ensures var start := Ledger.Replay(TxLedger(r), chain, 0);
            IndexOk(start) && Total(start) == SubsidySum(0) == 0
  {
  }
}
