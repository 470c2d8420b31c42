/** Who spends what: along any connected chain an output is spent at most once for each time that its transaction is
    created, and its mark in the index names the spender. A hash is created again when a fully spent transaction is
    repeated, which BIP 30 allows, or in one of the two blocks that are exempt from it. */
module Spending {
  import opened Wrappers
  import opened Transactions
  import opened ChainIndex
  import opened BlockChain
  import Ledger

  predicate Spends(t: PosTx, o: OutPoint) {
    !t.tx.IsCoinBase() && o in Prevouts(t.tx.vin, |t.tx.vin|)
  }

  predicate Creates(r: Rules, t: PosTx, h: TxId) { r.hash(t.tx) == h }

  /** One of the transactions from m to n - 1 spends o. */
  predicate SpentBetween(ts: seq<PosTx>, m: nat, n: nat, o: OutPoint)
    requires n <= |ts|
  {
    exists i :: m <= i < n && Spends(ts[i], o)
  }

  predicate CreatedBetween(r: Rules, ts: seq<PosTx>, m: nat, n: nat, h: TxId)
    requires n <= |ts|
  {
    exists i :: m <= i < n && Creates(r, ts[i], h)
  }

  /** Behind the last of the first n transactions that creates h; 0 if none does. */
  function LastCreated(r: Rules, ts: seq<PosTx>, n: nat, h: TxId): (m: nat)
    requires n <= |ts|
    ensures m <= n && (m > 0 ==> Creates(r, ts[m - 1], h)) && !CreatedBetween(r, ts, m, n, h)
  {
    if n == 0 then 0 else if Creates(r, ts[n - 1], h) then n else LastCreated(r, ts, n - 1, h)
  }

  /** No two of the transactions from m to n - 1 spend o. */
  predicate SpentAtMostOnce(ts: seq<PosTx>, m: nat, n: nat, o: OutPoint)
    requires n <= |ts|
  {
    forall i, j :: m <= i < j < n ==> !(Spends(ts[i], o) && Spends(ts[j], o))
  }

  /** Between two spenders of o its transaction is created again. */
  predicate RespentOnlyIfRecreated(r: Rules, ts: seq<PosTx>, n: nat, o: OutPoint)
    requires n <= |ts|
  {
    forall i, j :: 0 <= i < j < n && Spends(ts[i], o) && Spends(ts[j], o) ==> CreatedBetween(r, ts, i, j, o.hash)
  }

  /** The mark of o names the transaction from m on that spends it, and there is no mark if there is no such one. */
  predicate MarkIsSpender(ix: Index, ts: seq<PosTx>, m: nat, n: nat, o: OutPoint)
    requires n <= |ts|
  {
    HasSlot(ix, o) ==>
      match ix[o.hash].vSpent[o.n]
      case None => !SpentBetween(ts, m, n, o)
      case Some(p) => exists i :: m <= i < n && Spends(ts[i], o) && ts[i].pos == p
  }

  /** What holds of o since the transaction with its hash was last created. */
  predicate History(r: Rules, ts: seq<PosTx>, n: nat, o: OutPoint)
    requires n <= |ts|
  {
    var m := LastCreated(r, ts, n, o.hash);
    && (SpentBetween(ts, m, n, o) ==> HasSlot(ConnectTxs(r, map[], ts, n), o))
    && MarkIsSpender(ConnectTxs(r, map[], ts, n), ts, m, n, o)
    && SpentAtMostOnce(ts, m, n, o)
  }

  /** One transaction changes the slot of o only by spending it or by creating it. */
  lemma SlotAfter(r: Rules, ix: Index, t: PosTx, o: OutPoint)
    ensures Creates(r, t, o.hash) && HasSlot(ConnectTx(r, ix, t), o) ==> ConnectTx(r, ix, t)[o.hash].vSpent[o.n].None?
    ensures !Creates(r, t, o.hash) ==> (HasSlot(ix, o) <==> HasSlot(ConnectTx(r, ix, t), o))
    ensures !Creates(r, t, o.hash) && HasSlot(ix, o) ==>
      ConnectTx(r, ix, t)[o.hash].vSpent[o.n] == if Spends(t, o) then Some(t.pos) else ix[o.hash].vSpent[o.n]
  {
  }

  lemma SpendsNeedsSlot(ix: Index, t: PosTx, o: OutPoint)
    requires InputsFree(ix, t.tx) && Spends(t, o)
    ensures HasSlot(ix, o) && ix[o.hash].vSpent[o.n].None?
  {
    var k :| 0 <= k < |t.tx.vin| && t.tx.vin[k].prevout == o;
    assert HasOutput(ix, t.tx.vin[k].prevout);
  }

  lemma HistoryStep(r: Rules, ts: seq<PosTx>, n: nat, o: OutPoint)
    requires n < |ts| && History(r, ts, n, o)
    requires InputsFree(ConnectTxs(r, map[], ts, n), ts[n].tx)
    ensures History(r, ts, n + 1, o)
  {
    var ix, t, m := ConnectTxs(r, map[], ts, n), ts[n], LastCreated(r, ts, n, o.hash);
    SlotAfter(r, ix, t, o);
    if !Creates(r, t, o.hash) {
      if Spends(t, o) {
        SpendsNeedsSlot(ix, t, o);
        assert !SpentBetween(ts, m, n, o);
      } else {
        assert SpentBetween(ts, m, n + 1, o) <==> SpentBetween(ts, m, n, o);
        if HasSlot(ix, o) && ix[o.hash].vSpent[o.n].Some? {
          var i :| m <= i < n && Spends(ts[i], o) && ts[i].pos == ix[o.hash].vSpent[o.n].value;
        }
      }
    }
  }

  lemma HistoryOfNothing(r: Rules, ts: seq<PosTx>, o: OutPoint)
    ensures History(r, ts, 0, o)
  {
  }

  /** Over any list of connected transactions. */
  lemma {:induction false} SpendHistory(r: Rules, ts: seq<PosTx>, n: nat, o: OutPoint)
    requires n <= |ts| && AllInputsFree(r, map[], ts, n)
    ensures History(r, ts, n, o)
  {
    hide History, InputsFree;
    if n == 0 {
      HistoryOfNothing(r, ts, o);
    } else {
      SpendHistory(r, ts, n - 1, o);
      HistoryStep(r, ts, n - 1, o);
    }
  }

  /** A second spender needs the output unspent, so that its transaction was created after the first one. */
  lemma SecondSpender(r: Rules, ts: seq<PosTx>, i: nat, j: nat, o: OutPoint)
    requires i < j < |ts| && AllInputsFree(r, map[], ts, |ts|) && Spends(ts[i], o) && Spends(ts[j], o)
    ensures CreatedBetween(r, ts, i, j, o.hash)
  {
    hide InputsFree, Spends, ConnectTxs;
    SpendHistory(r, ts, j, o);
    SpendsNeedsSlot(ConnectTxs(r, map[], ts, j), ts[j], o);
    var m := LastCreated(r, ts, j, o.hash);
    assert !SpentBetween(ts, m, j, o);
    assert i < m && Creates(r, ts[m - 1], o.hash);
  }

  lemma RespentIsRecreated(r: Rules, ts: seq<PosTx>, o: OutPoint)
    requires AllInputsFree(r, map[], ts, |ts|)
    ensures RespentOnlyIfRecreated(r, ts, |ts|, o)
  {
    hide AllInputsFree, CreatedBetween, Spends;
    forall i, j | 0 <= i < j < |ts| && Spends(ts[i], o) && Spends(ts[j], o)
      ensures CreatedBetween(r, ts, i, j, o.hash)
    {
      SecondSpender(r, ts, i, j, o);
    }
  }

  lemma CreatedBeforeSpent(r: Rules, ts: seq<PosTx>, i: nat, o: OutPoint)
    requires i < |ts| && AllInputsFree(r, map[], ts, |ts|) && Spends(ts[i], o)
    ensures CreatedBetween(r, ts, 0, i, o.hash)
  {
    hide InputsFree, Spends, ConnectTxs;
    SpendsNeedsSlot(ConnectTxs(r, map[], ts, i), ts[i], o);
    ConnectTxsKeys(r, map[], ts, i);
    var a :| 0 <= a < i && r.hash(ts[a].tx) == o.hash;
    assert Creates(r, ts[a], o.hash);
  }

  /** When no hash repeats, there is one spender at most. */
  lemma OneSpenderIfDistinct(r: Rules, ts: seq<PosTx>, o: OutPoint)
    requires AllInputsFree(r, map[], ts, |ts|) && DistinctHashes(r, ts, |ts|)
    ensures SpentAtMostOnce(ts, 0, |ts|, o)
  {
    hide AllInputsFree, Spends;
    forall i, j | 0 <= i < j < |ts| ensures !(Spends(ts[i], o) && Spends(ts[j], o)) {
      if Spends(ts[i], o) && Spends(ts[j], o) {
        CreatedBeforeSpent(r, ts, i, o);
        SecondSpender(r, ts, i, j, o);
      }
    }
  }

  // ----- the transactions of a chain, in order -----

  function ChainTxs(r: Rules, chain: seq<ChainBlock>, n: nat): seq<PosTx>
    requires n <= |chain|
  {
    if n == 0 then [] else ChainTxs(r, chain, n - 1) + Located(r, chain[n - 1])
  }

  lemma {:induction false} ConnectTxsAppend(r: Rules, ix: Index, a: seq<PosTx>, b: seq<PosTx>, m: nat)
    requires m <= |b|
    ensures ConnectTxs(r, ix, a + b, |a| + m) == ConnectTxs(r, ConnectTxs(r, ix, a, |a|), b, m)
  {
    if m == 0 {
      ConnectTxsPrefix(r, ix, a, b, |a|);
    } else {
      ConnectTxsAppend(r, ix, a, b, m - 1);
      assert (a + b)[|a| + m - 1] == b[m - 1];
    }
  }

  lemma {:induction false} ConnectTxsPrefix(r: Rules, ix: Index, a: seq<PosTx>, b: seq<PosTx>, n: nat)
    requires n <= |a|
    ensures ConnectTxs(r, ix, a + b, n) == ConnectTxs(r, ix, a, n)
  {
    if n == 0 {
    } else {
      ConnectTxsPrefix(r, ix, a, b, n - 1);
      assert (a + b)[n - 1] == a[n - 1];
    }
  }

  lemma AppendFree(r: Rules, ix: Index, a: seq<PosTx>, b: seq<PosTx>)
    requires AllInputsFree(r, ix, a, |a|)
    requires AllInputsFree(r, ConnectTxs(r, ix, a, |a|), b, |b|)
    ensures AllInputsFree(r, ix, a + b, |a + b|)
  {
    hide InputsFree, ConnectTxs;
    forall k | 0 <= k < |a + b| ensures InputsFree(ConnectTxs(r, ix, a + b, k), (a + b)[k].tx) {
      if k < |a| {
        ConnectTxsPrefix(r, ix, a, b, k);
      } else {
        ConnectTxsAppend(r, ix, a, b, k - |a|);
        assert InputsFree(ConnectTxs(r, ConnectTxs(r, ix, a, |a|), b, k - |a|), b[k - |a|].tx);
      }
    }
  }

  lemma {:induction false} ChainIsOneList(r: Rules, chain: seq<ChainBlock>, n: nat)
    requires n <= |chain| && Ledger.ChainAccepted(TxLedger(r), chain)
    ensures var ts := ChainTxs(r, chain, n);
            && Ledger.Replay(TxLedger(r), chain, n) == ConnectTxs(r, map[], ts, |ts|)
            && AllInputsFree(r, map[], ts, |ts|)
  {
    hide ConnectOk, ConnectedIndex, TxidsNew, AllInputsFree, Located;
    if n == 0 {
      NothingIsFree(r);
    } else {
      ChainIsOneList(r, chain, n - 1);
      var a, c := ChainTxs(r, chain, n - 1), chain[n - 1];
      var base := Ledger.Replay(TxLedger(r), chain, n - 1);
      assert TxLedger(r).accepts(base, c, true);
      BlockExtendsList(r, base, c, a);
    }
  }

  lemma NothingIsFree(r: Rules)
    ensures AllInputsFree(r, map[], [], 0)
  {
  }

  lemma BlockExtendsList(r: Rules, base: Index, c: ChainBlock, a: seq<PosTx>)
    requires ConnectOk(r, base, c, true) && base == ConnectTxs(r, map[], a, |a|) && AllInputsFree(r, map[], a, |a|)
    ensures var ts := a + Located(r, c);
            ConnectedIndex(r, base, c) == ConnectTxs(r, map[], ts, |ts|) && AllInputsFree(r, map[], ts, |ts|)
  {
    hide AllInputsFree, DistinctHashes, ConnectOk, Located, ConnectTxs;
    var b := Located(r, c);
    ConnectOkIsFree(r, base, c, true);
    AppendFree(r, map[], a, b);
    ConnectTxsAppend(r, map[], a, b, |b|);
  }

  /** On every connected chain: between two spenders of an output its transaction is created again; since it was last
      created at most one transaction spends it, and its mark in the index is the position of that one. */
  lemma EachOutputSpentOnce(r: Rules, chain: seq<ChainBlock>, o: OutPoint)
    requires Ledger.ChainAccepted(TxLedger(r), chain)
    ensures var ts, ix := ChainTxs(r, chain, |chain|), Ledger.Replay(TxLedger(r), chain, |chain|);
            var m := LastCreated(r, ts, |ts|, o.hash);
            && RespentOnlyIfRecreated(r, ts, |ts|, o)
            && SpentAtMostOnce(ts, m, |ts|, o)
            && MarkIsSpender(ix, ts, m, |ts|, o)
            && (SpentBetween(ts, m, |ts|, o) ==> HasSlot(ix, o))
  {
    hide AllInputsFree, RespentOnlyIfRecreated, SpentAtMostOnce, MarkIsSpender, SpentBetween, LastCreated;
    ChainIsOneList(r, chain, |chain|);
    var ts := ChainTxs(r, chain, |chain|);
    SpendHistory(r, ts, |ts|, o);
    RespentIsRecreated(r, ts, o);
  }

  /** On a connected chain on which no transaction hash repeats, no output is spent twice. */
  lemma EachOutputSpentOnceIfDistinct(r: Rules, chain: seq<ChainBlock>, o: OutPoint)
    requires Ledger.ChainAccepted(TxLedger(r), chain)
    requires var ts := ChainTxs(r, chain, |chain|); DistinctHashes(r, ts, |ts|)
    ensures var ts := ChainTxs(r, chain, |chain|); SpentAtMostOnce(ts, 0, |ts|, o)
  {
    hide AllInputsFree, SpentAtMostOnce, DistinctHashes;
    ChainIsOneList(r, chain, |chain|);
    OneSpenderIfDistinct(r, ChainTxs(r, chain, |chain|), o);
  }
}
