/** Transactions and blocks, and the checks on them that need no context
    (a3/a2/main.h, CTransaction::CheckTransaction and CBlock::CheckBlock in a3/a2/main.cpp).

    Hashing, serialized sizes, script evaluation and signature-operation counts are fields of `Rules`,
    so that every result holds for all of them. */
module Transactions {
  const COIN: int := 100000000
  const MAX_MONEY: int := 21000000 * COIN
  const MAX_BLOCK_SIZE: nat := 1000000
  const MAX_BLOCK_SIGOPS: nat := MAX_BLOCK_SIZE / 50
  const COINBASE_MATURITY: nat := 100
  const NULL_N: nat := 0xffff_ffff

  type TxId = nat
  type BlockHash = nat

  datatype OutPoint = OutPoint(hash: TxId, n: nat) {
    predicate IsNull() { hash == 0 && n == NULL_N }
  }

  datatype TxIn = TxIn(prevout: OutPoint, scriptSig: seq<nat>)

  datatype TxOut = TxOut(nValue: int, scriptPubKey: seq<nat>)

  datatype Tx = Tx(vin: seq<TxIn>, vout: seq<TxOut>, nLockTime: nat) {
    predicate IsCoinBase() { |vin| == 1 && vin[0].prevout.IsNull() }
  }

  datatype Block = Block(hash: BlockHash, hashPrev: BlockHash, nTime: nat, vtx: seq<Tx>)

  /** Everything the code calls out to: hashes, sizes, header checks and scripts. */
  datatype Rules = Rules(
    hash: Tx -> TxId,
    txSize: Tx -> nat,
    headerOk: Block -> bool,
    legacySigOps: Tx -> nat,
    p2shSigOps: (TxOut, TxIn) -> nat,
    verify: (Tx, Tx, nat, bool) -> bool)

  predicate MoneyRange(v: int) { 0 <= v <= MAX_MONEY }

  /** Sum of the first n output values. */
  function OutSum(vout: seq<TxOut>, n: nat): (s: int)
    requires n <= |vout|
  {
    if n == 0 then 0 else OutSum(vout, n - 1) + vout[n - 1].nValue
  }

  function ValueOut(tx: Tx): int { OutSum(tx.vout, |tx.vout|) }

  predicate OutputsInRange(vout: seq<TxOut>, n: nat)
    requires n <= |vout|
  {
    forall k :: 0 <= k < n ==> MoneyRange(vout[k].nValue) && MoneyRange(OutSum(vout, k + 1))
  }

  predicate DistinctPrevouts(vin: seq<TxIn>, n: nat)
    requires n <= |vin|
  {
    forall j, k :: 0 <= j < k < n ==> vin[j].prevout != vin[k].prevout
  }

  /** What CheckTransaction accepts. */
  predicate TransactionOk(r: Rules, tx: Tx) {
    && tx.vin != [] && tx.vout != []
    && r.txSize(tx) <= MAX_BLOCK_SIZE
    && OutputsInRange(tx.vout, |tx.vout|)
    && DistinctPrevouts(tx.vin, |tx.vin|)
    && (if tx.IsCoinBase()
        then 2 <= |tx.vin[0].scriptSig| <= 100
        else forall k :: 0 <= k < |tx.vin| ==> !tx.vin[k].prevout.IsNull())
  }

  method CheckTransaction(r: Rules, tx: Tx) returns (ok: bool)
    ensures ok == TransactionOk(r, tx)
  {
    if tx.vin == [] { return false; }
    if tx.vout == [] { return false; }
    if r.txSize(tx) > MAX_BLOCK_SIZE { return false; }

    var nValueOut := 0;
    for i := 0 to |tx.vout|
      invariant nValueOut == OutSum(tx.vout, i)
      invariant OutputsInRange(tx.vout, i)
    {
      var v := tx.vout[i].nValue;
      nValueOut := nValueOut + v;
      if v < 0 || v > MAX_MONEY || !MoneyRange(nValueOut) {
        assert !(MoneyRange(tx.vout[i].nValue) && MoneyRange(OutSum(tx.vout, i + 1)));
        return false;
      }
    }

    var vInOutPoints: set<OutPoint> := {};
    for i := 0 to |tx.vin|
      invariant vInOutPoints == set k | 0 <= k < i :: tx.vin[k].prevout
      invariant DistinctPrevouts(tx.vin, i)
    {
      if tx.vin[i].prevout in vInOutPoints {
        var k :| 0 <= k < i && tx.vin[k].prevout == tx.vin[i].prevout;
        return false;
      }
      vInOutPoints := vInOutPoints + {tx.vin[i].prevout};
    }

    if tx.IsCoinBase() {
      return 2 <= |tx.vin[0].scriptSig| <= 100;
    }
    for i := 0 to |tx.vin|
      invariant forall k :: 0 <= k < i ==> !tx.vin[k].prevout.IsNull()
    {
      if tx.vin[i].prevout.IsNull() { return false; }
    }
    return true;
  }

  function TxIds(r: Rules, vtx: seq<Tx>, n: nat): set<TxId>
    requires n <= |vtx|
  {
    set k | 0 <= k < n :: r.hash(vtx[k])
  }

  predicate DistinctIds(r: Rules, vtx: seq<Tx>, n: nat)
    requires n <= |vtx|
  {
    forall j, k :: 0 <= j < k < n ==> r.hash(vtx[j]) != r.hash(vtx[k])
  }

  function LegacySigOps(r: Rules, vtx: seq<Tx>, n: nat): nat
    requires n <= |vtx|
  {
    if n == 0 then 0 else LegacySigOps(r, vtx, n - 1) + r.legacySigOps(vtx[n - 1])
  }

  predicate CoinBaseFirstOnly(vtx: seq<Tx>) {
    && vtx != []
    && vtx[0].IsCoinBase()
    && forall k :: 1 <= k < |vtx| ==> !vtx[k].IsCoinBase()
  }

  predicate TransactionsOk(r: Rules, vtx: seq<Tx>) {
    forall k :: 0 <= k < |vtx| ==> TransactionOk(r, vtx[k])
  }

  /** What CheckBlock accepts. */
  predicate BlockOk(r: Rules, b: Block) {
    && 0 < |b.vtx| <= MAX_BLOCK_SIZE
    && r.headerOk(b)
    && CoinBaseFirstOnly(b.vtx)
    && TransactionsOk(r, b.vtx)
    && DistinctIds(r, b.vtx, |b.vtx|)
    && LegacySigOps(r, b.vtx, |b.vtx|) <= MAX_BLOCK_SIGOPS
  }

  /** The set of the first n hashes has n elements exactly when the hashes are pairwise different. */
  lemma {:induction false} TxIdsCount(r: Rules, vtx: seq<Tx>, n: nat)
    requires n <= |vtx|
    ensures |TxIds(r, vtx, n)| <= n
    ensures |TxIds(r, vtx, n)| == n <==> DistinctIds(r, vtx, n)
  {
    hide *;
    if n == 0 {
      NoIds(r, vtx);
    } else {
      TxIdsCount(r, vtx, n - 1);
      OneMoreId(r, vtx, n - 1);
    }
  }

  lemma NoIds(r: Rules, vtx: seq<Tx>)
    ensures TxIds(r, vtx, 0) == {} && DistinctIds(r, vtx, 0)
  {
  }

  lemma OneMoreId(r: Rules, vtx: seq<Tx>, n: nat)
    requires n < |vtx|
    ensures var ids, h := TxIds(r, vtx, n), r.hash(vtx[n]);
      && TxIds(r, vtx, n + 1) == ids + {h}
      && (DistinctIds(r, vtx, n + 1) <==> DistinctIds(r, vtx, n) && h !in ids)
  {
    var ids, h := TxIds(r, vtx, n), r.hash(vtx[n]);
    if h !in ids {
      forall j | 0 <= j < n ensures r.hash(vtx[j]) != h { assert r.hash(vtx[j]) in ids; }
    }
  }

  method UniqueTxIds(r: Rules, vtx: seq<Tx>) returns (unique: bool)
    ensures unique == DistinctIds(r, vtx, |vtx|)
  {
    var uniqueTx: set<TxId> := {};
    for i := 0 to |vtx|
      invariant uniqueTx == TxIds(r, vtx, i)
    {
      uniqueTx := uniqueTx + {r.hash(vtx[i])};
    }
    TxIdsCount(r, vtx, |vtx|);
    return |uniqueTx| == |vtx|;
  }

  method CheckBlock(r: Rules, b: Block) returns (ok: bool)
    ensures ok == BlockOk(r, b)
  {
    if b.vtx == [] || |b.vtx| > MAX_BLOCK_SIZE { return false; }
    if !r.headerOk(b) { return false; }
    if !b.vtx[0].IsCoinBase() { return false; }
    for i := 1 to |b.vtx|
      invariant forall k :: 1 <= k < i ==> !b.vtx[k].IsCoinBase()
    {
      if b.vtx[i].IsCoinBase() { return false; }
    }
    for i := 0 to |b.vtx|
      invariant forall k :: 0 <= k < i ==> TransactionOk(r, b.vtx[k])
    {
      var txOk := CheckTransaction(r, b.vtx[i]);
      if !txOk { return false; }
    }
    var unique := UniqueTxIds(r, b.vtx);
    if !unique { return false; }
    var nSigOps := 0;
    for i := 0 to |b.vtx|
      invariant nSigOps == LegacySigOps(r, b.vtx, i)
    {
      nSigOps := nSigOps + r.legacySigOps(b.vtx[i]);
    }
    return nSigOps <= MAX_BLOCK_SIGOPS;
  }
}
