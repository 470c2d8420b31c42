/** CreateNewBlock (a3/a2/main.cpp): which transactions of the memory pool go into a new block, and in which order. */
module Miner {
  import opened Transactions
  import opened Wrappers

  /** What the scheduler calls out to. Priorities and fees per kilobyte are numbers that belong to a transaction;
      `connects` and `p2shSigOps` are the outcome of FetchInputs, GetP2SHSigOpCount and ConnectInputs after the
      transactions that are in the block so far. */
  datatype Pool = Pool(
    r: Rules,
    mapTx: map<TxId, Tx>,
    isFinal: Tx -> bool,
    onDisk: OutPoint -> bool,
    dPriority: TxId -> real,
    dFeePerKb: TxId -> real,
    connects: (seq<TxId>, TxId) -> bool,
    p2shSigOps: (seq<TxId>, TxId) -> nat)

  predicate Candidate(p: Pool, id: TxId) {
    id in p.mapTx && !p.mapTx[id].IsCoinBase() && p.isFinal(p.mapTx[id])
  }

  /** The input is neither on disk nor in the pool. */
  predicate Missing(p: Pool, o: OutPoint) { !p.onDisk(o) && o.hash !in p.mapTx }

  /** A transaction that can go into a block once its parents are in it. */
  predicate Eligible(p: Pool, id: TxId) {
    Candidate(p, id) && forall k :: 0 <= k < |p.mapTx[id].vin| ==> !Missing(p, p.mapTx[id].vin[k].prevout)
  }

  /** The transactions of the pool that this one spends from: it must wait for them. */
  function Parents(p: Pool, id: TxId): set<TxId>
    requires id in p.mapTx
  {
    ParentsUpTo(p, p.mapTx[id].vin, |p.mapTx[id].vin|)
  }

  function ParentsUpTo(p: Pool, vin: seq<TxIn>, n: nat): set<TxId>
    requires n <= |vin|
  {
    if n == 0 then {}
    else ParentsUpTo(p, vin, n - 1) + if p.onDisk(vin[n - 1].prevout) then {} else {vin[n - 1].prevout.hash}
  }

  /** How many inputs stand before the first missing one. */
  function Reached(p: Pool, vin: seq<TxIn>): (k: nat)
    ensures k <= |vin| && (forall j :: 0 <= j < k ==> !Missing(p, vin[j].prevout))
    ensures k < |vin| ==> Missing(p, vin[k].prevout)
  {
    if vin == [] || Missing(p, vin[0].prevout) then 0
    else
      var k := Reached(p, vin[1..]);
      assert forall j :: 1 <= j < k + 1 ==> vin[j] == vin[1..][j - 1];
      k + 1
  }

  /** The parents under which mapDependers names the record of a transaction: those before the first missing input. */
  function Named(p: Pool, id: TxId): set<TxId>
    requires id in p.mapTx
  {
    ParentsUpTo(p, p.mapTx[id].vin, Reached(p, p.mapTx[id].vin))
  }

  /** The record of a transaction is dropped when it meets a missing input, but the pointers to it stay. */
  predicate Dropped(p: Pool, id: TxId) { Candidate(p, id) && !Eligible(p, id) && Named(p, id) != {} }

  /** k is the first missing input. */
  predicate FirstMissing(p: Pool, vin: seq<TxIn>, k: nat) {
    k < |vin| && Missing(p, vin[k].prevout) && forall j :: 0 <= j < k ==> !Missing(p, vin[j].prevout)
  }

  /** All inputs before a missing one are on disk. */
  ghost predicate NoneDropped(p: Pool) {
    forall id, j: nat, k: nat :: Candidate(p, id) && FirstMissing(p, p.mapTx[id].vin, k) && j < k ==>
        p.onDisk(p.mapTx[id].vin[j].prevout)
  }

  lemma {:induction false} NoParentsIff(p: Pool, vin: seq<TxIn>, n: nat)
    requires n <= |vin|
    ensures ParentsUpTo(p, vin, n) == {} <==> forall j :: 0 <= j < n ==> p.onDisk(vin[j].prevout)
  {
    if n > 0 { NoParentsIff(p, vin, n - 1); }
  }

  /** Nothing is dropped exactly when no input in the pool stands before a missing one. */
  lemma NoneDroppedIff(p: Pool)
    ensures NoneDropped(p) <==> forall id :: !Dropped(p, id)
  {
    forall id | Candidate(p, id)
      ensures Dropped(p, id) <==> exists j: nat, k: nat :: FirstMissing(p, p.mapTx[id].vin, k) && j < k
                                    && !p.onDisk(p.mapTx[id].vin[j].prevout)
    {
      DroppedIff(p, id);
    }
    hide Dropped, FirstMissing;
    if !NoneDropped(p) {
      var id, j: nat, k: nat :| Candidate(p, id) && FirstMissing(p, p.mapTx[id].vin, k) && j < k
                                  && !p.onDisk(p.mapTx[id].vin[j].prevout);
      assert Dropped(p, id);
    }
  }

  lemma DroppedIff(p: Pool, id: TxId)
    requires Candidate(p, id)
    ensures Dropped(p, id) <==> exists j: nat, k: nat :: FirstMissing(p, p.mapTx[id].vin, k) && j < k
                                  && !p.onDisk(p.mapTx[id].vin[j].prevout)
  {
    var vin := p.mapTx[id].vin;
    var f := Reached(p, vin);
    hide Missing;
    NoParentsIff(p, vin, f);
    if Dropped(p, id) {
      assert FirstMissing(p, vin, f);
      var j: nat :| j < f && !p.onDisk(vin[j].prevout);
    }
    if j: nat, k: nat :| FirstMissing(p, vin, k) && j < k && !p.onDisk(vin[j].prevout) {
      assert k == f;
    }
  }

  /** A transaction that can go into a block waits for all its parents. */
  lemma NamedIfEligible(p: Pool, id: TxId)
    requires Eligible(p, id)
    ensures Named(p, id) == Parents(p, id)
  {
  }

  predicate InPool(p: Pool, ids: seq<TxId>) { forall i :: 0 <= i < |ids| ==> ids[i] in p.mapTx }

  function SizeOf(p: Pool, ids: seq<TxId>): nat
    requires InPool(p, ids)
  {
    if ids == [] then 0 else SizeOf(p, ids[..|ids| - 1]) + p.r.txSize(p.mapTx[ids[|ids| - 1]])
  }

  /** Signature operations by the miner's count. */
  function SigOpsOf(p: Pool, ids: seq<TxId>): nat
    requires InPool(p, ids)
  {
    if ids == [] then 0
    else
      var n := |ids| - 1;
      SigOpsOf(p, ids[..n]) + p.r.legacySigOps(p.mapTx[ids[n]]) + p.p2shSigOps(ids[..n], ids[n])
  }

  predicate Distinct(s: seq<TxId>) { forall i, j :: 0 <= i < j < |s| ==> s[i] != s[j] }

  function Ids(s: seq<TxId>): set<TxId> { set i | i in s }

  /** Every parent in the pool stands before its child. */
  predicate ParentsFirst(p: Pool, ids: seq<TxId>)
    requires InPool(p, ids)
  {
    forall i :: 0 <= i < |ids| ==> Parents(p, ids[i]) <= Ids(ids[..i])
  }

  // ----- waiting for parents -----

  /** setDependsOn of each transaction that waits, and mapDependers: who waits for a transaction, once for each
      input. */
  datatype Waiting = Waiting(dependsOn: map<TxId, set<TxId>>, dependers: map<TxId, seq<TxId>>)

  predicate Has(d: map<TxId, seq<TxId>>, h: TxId, c: TxId) { h in d && c in d[h] }

  /** c waits for h. */
  predicate Awaits(p: Pool, c: TxId, h: TxId) { Eligible(p, c) && h in Parents(p, c) }

  /** mapDependers gets a pointer to the record of c under h. */
  predicate Names(p: Pool, c: TxId, h: TxId) { Candidate(p, c) && h in Named(p, c) }

  /** mapDependers after the transactions `seen`, and after the parents `cur` of the transaction c. */
  ghost predicate Linked(p: Pool, seen: set<TxId>, c: TxId, cur: set<TxId>, d: map<TxId, seq<TxId>>) {
    forall h, x :: Has(d, h, x) <==> (x in seen && Names(p, x, h)) || (x == c && h in cur)
  }

  /** setDependsOn after the transactions `seen`: exactly those with parents wait, for all of them. */
  ghost predicate Depending(p: Pool, seen: set<TxId>, m: map<TxId, set<TxId>>) {
    && (forall c :: c in m <==> c in seen && Eligible(p, c) && Parents(p, c) != {})
    && (forall c :: c in m ==> m[c] == Parents(p, c))
  }

  lemma LinkedAdd(p: Pool, seen: set<TxId>, c: TxId, cur: set<TxId>, d: map<TxId, seq<TxId>>, h: TxId)
    requires Linked(p, seen, c, cur, d)
    ensures Linked(p, seen, c, cur + {h}, d[h := (if h in d then d[h] else []) + [c]])
  {
    hide Names;
    var d' := d[h := (if h in d then d[h] else []) + [c]];
    forall g, x ensures Has(d', g, x) <==> Has(d, g, x) || (g == h && x == c) { }
  }

  lemma LinkedDone(p: Pool, seen: set<TxId>, c: TxId, d: map<TxId, seq<TxId>>)
    requires Candidate(p, c) && Linked(p, seen, c, Named(p, c), d)
    ensures forall y, e :: e == {} ==> Linked(p, seen + {c}, y, e, d)
  {
    hide Has;
  }

  lemma LinkedSkip(p: Pool, seen: set<TxId>, c: TxId, d: map<TxId, seq<TxId>>)
    requires !Candidate(p, c) && Linked(p, seen, c, {}, d)
    ensures Linked(p, seen + {c}, c, {}, d)
  {
    hide Has;
  }

  lemma LinkedOther(p: Pool, seen: set<TxId>, c: TxId, y: TxId, d: map<TxId, seq<TxId>>)
    requires Linked(p, seen, c, {}, d)
    ensures Linked(p, seen, y, {}, d)
  {
    hide Has, Names;
  }

  /** The inputs of one transaction. It is left out if one of them is missing; its record is dropped then, if it has
      one, while mapDependers goes on to name it. */
  method CollectInputs(p: Pool, c: TxId, d0: map<TxId, seq<TxId>>, ghost seen: set<TxId>)
    returns (missing: bool, orphan: bool, setDependsOn: set<TxId>, mapDependers: map<TxId, seq<TxId>>)
    requires Candidate(p, c) && Linked(p, seen, c, {}, d0)
    ensures missing <==> !Eligible(p, c)
    ensures setDependsOn == Named(p, c) && (orphan <==> Named(p, c) != {})
    ensures Linked(p, seen, c, Named(p, c), mapDependers)
  {
    hide Linked, Missing;
    missing, orphan, setDependsOn, mapDependers := false, false, {}, d0;
    var vin := p.mapTx[c].vin;
    for k := 0 to |vin|
      invariant forall j :: 0 <= j < k ==> !Missing(p, vin[j].prevout)
      invariant setDependsOn == ParentsUpTo(p, vin, k) && (orphan <==> setDependsOn != {})
      invariant Linked(p, seen, c, setDependsOn, mapDependers)
    {
      var prevout := vin[k].prevout;
      MissingIs(p, prevout);
      if !p.onDisk(prevout) {
        if prevout.hash !in p.mapTx {
          assert Reached(p, vin) == k;
          missing := true;
          return;
        }
        LinkedAdd(p, seen, c, setDependsOn, mapDependers, prevout.hash);
        orphan := true;
        mapDependers := mapDependers[prevout.hash :=
            (if prevout.hash in mapDependers then mapDependers[prevout.hash] else []) + [c]];
        setDependsOn := setDependsOn + {prevout.hash};
      }
    }
  }

  lemma MissingIs(p: Pool, o: OutPoint)
    ensures Missing(p, o) <==> !p.onDisk(o) && o.hash !in p.mapTx
  {
  }

  /** The first part of CreateNewBlock, for any pool: the transactions that can go first, and who waits for whom. The
      pool is visited in no particular order. `dropped` are the records that are gone and still named. */
  method Collect(p: Pool) returns (vecPriority: seq<TxId>, w: Waiting, ghost dropped: set<TxId>)
    ensures Distinct(vecPriority)
    ensures forall c :: c in vecPriority <==> Eligible(p, c) && Parents(p, c) == {}
    ensures Depending(p, p.mapTx.Keys, w.dependsOn) && Linked(p, p.mapTx.Keys, 0, {}, w.dependers)
    ensures forall c :: c in dropped <==> Dropped(p, c)
    ensures forall c :: c in dropped <==> c !in w.dependsOn && exists h :: Has(w.dependers, h, c)
    ensures dropped == {} <==> NoneDropped(p)
  {
    hide Linked, Depending, NoneDropped, Named, Dropped;
    vecPriority, dropped := [], {};
    var dependsOn: map<TxId, set<TxId>>, dependers: map<TxId, seq<TxId>> := map[], map[];
    var todo := p.mapTx.Keys;
    NothingCollected(p);
    while todo != {}
      invariant todo <= p.mapTx.Keys && Distinct(vecPriority)
      invariant forall c :: c in vecPriority <==> c in p.mapTx && c !in todo && Eligible(p, c) && Parents(p, c) == {}
      invariant forall c :: c in dropped <==> c in p.mapTx && c !in todo && Dropped(p, c)
      invariant Depending(p, p.mapTx.Keys - todo, dependsOn) && Linked(p, p.mapTx.Keys - todo, 0, {}, dependers)
    {
      var c := Pick(todo);
      ghost var seen := p.mapTx.Keys - todo;
      todo := todo - {c};
      assert p.mapTx.Keys - todo == seen + {c};
      LinkedOther(p, seen, 0, c, dependers);
      DependingMore(p, seen, c, dependsOn);
      DroppedIs(p, c);
      if Candidate(p, c) {
        var missing, orphan, setDependsOn;
        missing, orphan, setDependsOn, dependers := CollectInputs(p, c, dependers, seen);
        LinkedDone(p, seen, c, dependers);
        if missing {
          if orphan { dropped := dropped + {c}; }
        } else {
          NamedIfEligible(p, c);
          if orphan { dependsOn := dependsOn[c := setDependsOn]; } else { vecPriority := vecPriority + [c]; }
        }
      } else {
        LinkedSkip(p, seen, c, dependers);
        LinkedOther(p, seen + {c}, c, 0, dependers);
      }
    }
    assert p.mapTx.Keys - todo == p.mapTx.Keys;
    w := Waiting(dependsOn, dependers);
    NoneDroppedIff(p);
    StillNamed(p, w, dropped);
  }

  lemma DroppedIs(p: Pool, c: TxId)
    ensures Dropped(p, c) <==> Candidate(p, c) && !Eligible(p, c) && Named(p, c) != {}
  {
  }

  /** The dropped records are those that mapDependers names and that are no longer in the list. */
  lemma StillNamed(p: Pool, w: Waiting, dropped: set<TxId>)
    requires Depending(p, p.mapTx.Keys, w.dependsOn) && Linked(p, p.mapTx.Keys, 0, {}, w.dependers)
    requires forall c :: c in dropped <==> c in p.mapTx && Dropped(p, c)
    ensures forall c :: c in dropped <==> Dropped(p, c)
    ensures forall c :: c in dropped <==> c !in w.dependsOn && exists h :: Has(w.dependers, h, c)
  {
    forall c ensures c in dropped <==> c !in w.dependsOn && exists h :: Has(w.dependers, h, c) {
      if Eligible(p, c) { NamedIfEligible(p, c); }
      hide Eligible, Named, Has;
      if c in dropped {
        var h :| h in Named(p, c);
        assert Has(w.dependers, h, c);
      }
    }
    forall c | Dropped(p, c) ensures c in dropped { }
  }

  lemma NothingCollected(p: Pool)
    ensures Depending(p, p.mapTx.Keys - p.mapTx.Keys, map[]) && Linked(p, p.mapTx.Keys - p.mapTx.Keys, 0, {}, map[])
  {
  }

  lemma DependingMore(p: Pool, seen: set<TxId>, c: TxId, m: map<TxId, set<TxId>>)
    requires Depending(p, seen, m) && c in p.mapTx && c !in seen
    ensures Depending(p, seen + {c}, if Eligible(p, c) && Parents(p, c) != {} then m[c := Parents(p, c)] else m)
  {
    hide Eligible;
  }

  // ----- filling the block -----

  /** TxPriorityCompare: by priority and then by fee, or the other way round. */
  predicate Before(p: Pool, byFee: bool, a: TxId, b: TxId) {
    var pa, pb, fa, fb := p.dPriority(a), p.dPriority(b), p.dFeePerKb(a), p.dFeePerKb(b);
    if byFee then (if fa == fb then pa < pb else fa < fb) else (if pa == pb then fa < fb else pa < pb)
  }

  /** Taking the front of the heap: an element that none is above, by the comparison in force. */
  method PopHeap(p: Pool, byFee: bool, queue: seq<TxId>) returns (x: TxId, rest: seq<TxId>, ghost at: nat)
    requires queue != []
    ensures at < |queue| && x == queue[at] && rest == queue[..at] + queue[at + 1..]
    ensures forall i :: 0 <= i < |queue| ==> !Before(p, byFee, x, queue[i])
  {
    var best := 0;
    for k := 1 to |queue|
      invariant 0 <= best < k && forall i :: 0 <= i < k ==> !Before(p, byFee, queue[best], queue[i])
    {
      if Before(p, byFee, queue[best], queue[k]) { best := k; }
    }
    x, rest, at := queue[best], queue[..best] + queue[best + 1..], best;
  }

  /** `queued` lists every transaction that was ever put into the queue, and nothing is missing from it: these are
      exactly the eligible ones whose parents are all in the block so far. Who still waits, waits for the others. */
  ghost predicate Scheduled(p: Pool, w: Waiting, queue: seq<TxId>, queued: seq<TxId>, vtx: seq<TxId>) {
    && Distinct(queue) && Distinct(queued) && Ids(queue) <= Ids(queued)
    && (forall c :: c in queued <==> Eligible(p, c) && Parents(p, c) <= Ids(vtx))
    && (forall c :: c in w.dependsOn <==> Eligible(p, c) && Parents(p, c) != {})
    && (forall c :: c in w.dependsOn ==> w.dependsOn[c] == Parents(p, c) - Ids(vtx))
    && (forall h, c :: Has(w.dependers, h, c) <==> Awaits(p, c, h))
  }

  /** The block so far: every transaction once, out of the queue, after its parents. */
  ghost predicate Filled(p: Pool, queue: seq<TxId>, queued: seq<TxId>, vtx: seq<TxId>) {
    && Distinct(vtx) && InPool(p, vtx) && ParentsFirst(p, vtx) && Ids(vtx) <= Ids(queued) && Ids(vtx) !! Ids(queue)
  }

  lemma CollectedIsScheduled(p: Pool, w: Waiting, queue: seq<TxId>)
    requires NoneDropped(p)
    requires Distinct(queue) && forall c :: c in queue <==> Eligible(p, c) && Parents(p, c) == {}
    requires Depending(p, p.mapTx.Keys, w.dependsOn) && Linked(p, p.mapTx.Keys, 0, {}, w.dependers)
    ensures Scheduled(p, w, queue, queue, []) && Filled(p, queue, queue, [])
  {
    NoneDroppedIff(p);
    forall h, c ensures Has(w.dependers, h, c) <==> Awaits(p, c, h) {
      assert !Dropped(p, c);
      if Eligible(p, c) { NamedIfEligible(p, c); }
    }
    hide Parents, Named, Has, NoneDropped;
    assert Ids([]) == {};
  }

  /** The front is gone from the queue. */
  lemma PoppedIsScheduled(p: Pool, w: Waiting, queue: seq<TxId>, queued: seq<TxId>, vtx: seq<TxId>, at: nat)
    requires Scheduled(p, w, queue, queued, vtx) && Filled(p, queue, queued, vtx) && at < |queue|
    ensures var rest := queue[..at] + queue[at + 1..];
      && Scheduled(p, w, rest, queued, vtx) && Filled(p, rest, queued, vtx)
      && queue[at] !in rest && queue[at] !in vtx && queue[at] in queued && Eligible(p, queue[at])
        && Parents(p, queue[at]) <= Ids(vtx)
      && Ids(queue) == Ids(rest) + {queue[at]}
  {
    var rest, x := queue[..at] + queue[at + 1..], queue[at];
    assert queue[at] in Ids(queue);
    assert Ids(queue) == Ids(rest) + {x} by {
      forall i ensures i in Ids(queue) <==> i in Ids(rest) + {x} {
        if i in queue { var k :| 0 <= k < |queue|
            && queue[k] == i; if k != at { assert rest[if k < at then k else k - 1] == i; } }
      }
    }
    hide Eligible, Parents, Has, Awaits;
    forall i, j | 0 <= i < j < |rest| ensures rest[i] != rest[j] { }
  }

  /** What the round of a transaction that is added has still to do: its dependers from k on. */
  ghost predicate Releasing(p: Pool, w: Waiting, queue: seq<TxId>, queued: seq<TxId>, vtx: seq<TxId>, h: TxId, k: nat) {
    var vtx' := vtx + [h];
    var list := if h in w.dependers then w.dependers[h] else [];
    && k <= |list|
    && Distinct(queue) && Distinct(queued) && Ids(queue) <= Ids(queued)
    && (forall c :: c in queued <==>
        Eligible(p, c) && (Parents(p, c) <= Ids(vtx) || (Parents(p, c) <= Ids(vtx') && c in list[..k])))
    && (forall c :: c in w.dependsOn <==> Eligible(p, c) && Parents(p, c) != {})
    && (forall c :: c in w.dependsOn ==>
        w.dependsOn[c] == Parents(p, c) - (if c in list[..k] then Ids(vtx') else Ids(vtx)))
    && (forall g, c :: Has(w.dependers, g, c) <==> Awaits(p, c, g))
  }

  function ListOf(w: Waiting, h: TxId): seq<TxId> { if h in w.dependers then w.dependers[h] else [] }

  lemma IdsAppend(s: seq<TxId>, x: TxId)
    ensures Ids(s + [x]) == Ids(s) + {x}
  {
  }

  lemma ReleaseStarts(p: Pool, w: Waiting, queue: seq<TxId>, queued: seq<TxId>, vtx: seq<TxId>, h: TxId)
    requires Scheduled(p, w, queue, queued, vtx)
    ensures Releasing(p, w, queue, queued, vtx, h, 0)
  {
    hide Eligible, Parents, Has, Awaits, Distinct, Ids;
    assert ListOf(w, h)[..0] == [];
  }

  lemma ReleaseEnds(p: Pool, w: Waiting, queue: seq<TxId>, queued: seq<TxId>, vtx: seq<TxId>, h: TxId)
    requires Releasing(p, w, queue, queued, vtx, h, |ListOf(w, h)|)
    ensures Scheduled(p, w, queue, queued, vtx + [h])
  {
    hide Parents, Distinct, Ids;
    var list := ListOf(w, h);
    assert list[..|list|] == list;
    IdsAppend(vtx, h);
    forall c | Eligible(p, c) && c !in list ensures h !in Parents(p, c) { assert !Has(w.dependers, h, c); }
  }

  /** One depender: its set shrinks, and when it becomes empty the transaction is queued. */
  lemma ReleaseGoesOn(p: Pool, w: Waiting, queue: seq<TxId>, queued: seq<TxId>, vtx: seq<TxId>, h: TxId, k: nat)
    requires Releasing(p, w, queue, queued, vtx, h, k) && k < |ListOf(w, h)| && h !in vtx
    ensures var c := ListOf(w, h)[k];
      && c in w.dependsOn
      && var left := w.dependsOn[c] - {h};
         var w' := if w.dependsOn[c] != {} then w.(dependsOn := w.dependsOn[c := left]) else w;
         if w.dependsOn[c] != {} && left == {} then Releasing(p, w', queue + [c], queued + [c], vtx, h, k + 1)
         else Releasing(p, w', queue, queued, vtx, h, k + 1)
  {
    var list := ListOf(w, h);
    var c := list[k];
    assert Has(w.dependers, h, c);
    assert Awaits(p, c, h);
    hide Eligible, Parents, Awaits, Has;
    IdsAppend(vtx, h);
    assert list[..k + 1] == list[..k] + [c];
    var left := w.dependsOn[c] - {h};
    assert h !in Ids(vtx);
    assert left == Parents(p, c) - Ids(vtx + [h]);
    if w.dependsOn[c] != {} && left == {} {
      assert c !in list[..k] && c !in queued;
      IdsAppend(queue, c);
      IdsAppend(queued, c);
      assert c !in Ids(queue);
      hide Ids;
      ReleaseQueued(p, w, queue, queued, vtx, h, k);
    }
  }

  lemma DistinctAppend(s: seq<TxId>, x: TxId)
    requires Distinct(s) && x !in s
    ensures Distinct(s + [x])
  {
  }

  lemma ReleaseQueued(p: Pool, w: Waiting, queue: seq<TxId>, queued: seq<TxId>, vtx: seq<TxId>, h: TxId, k: nat)
    requires Releasing(p, w, queue, queued, vtx, h, k) && k < |ListOf(w, h)|
    requires var c := ListOf(w, h)[k];
        Eligible(p, c) && c !in queued && c !in queue && c in w.dependsOn && Parents(p, c) <= Ids(vtx + [h])
    requires Ids(queue + [ListOf(w, h)[k]]) == Ids(queue) + {ListOf(w, h)[k]}
        && Ids(queued + [ListOf(w, h)[k]]) == Ids(queued) + {ListOf(w, h)[k]}
    ensures var c := ListOf(w, h)[k];
      Releasing(p, w.(dependsOn := w.dependsOn[c := {}]), queue + [c], queued + [c], vtx, h, k + 1)
  {
    assert ListOf(w, h)[k] in p.mapTx;
    hide Eligible, Parents, Awaits, Has, Ids;
    var list := ListOf(w, h);
    var c := list[k];
    DistinctAppend(queue, c);
    DistinctAppend(queued, c);
    assert list[..k + 1] == list[..k] + [c];
    assert Parents(p, c) - Ids(vtx + [h]) == {};
  }

  /** The loop over the dependers of a transaction that was added. */
  method Release(p: Pool, w0: Waiting, queue0: seq<TxId>, ghost queued0: seq<TxId>, ghost vtx: seq<TxId>, h: TxId)
    returns (w: Waiting, queue: seq<TxId>)
    requires Scheduled(p, w0, queue0, queued0, vtx) && h !in vtx && h in queued0 && h !in queue0
    ensures exists more :: queue == queue0 + more && Scheduled(p, w, queue, queued0 + more, vtx + [h])
  {
    hide Releasing, Scheduled;
    ghost var queued := queued0;
    w, queue := w0, queue0;
    ReleaseStarts(p, w, queue, queued, vtx, h);
    ghost var more: seq<TxId> := [];
    var list := ListOf(w0, h);
    for k := 0 to |list|
      invariant w.dependers == w0.dependers && Releasing(p, w, queue, queued, vtx, h, k)
      invariant queue == queue0 + more && queued == queued0 + more
    {
      var c := list[k];
      ReleaseGoesOn(p, w, queue, queued, vtx, h, k);
      if w.dependsOn[c] != {} {
        w := w.(dependsOn := w.dependsOn[c := w.dependsOn[c] - {h}]);
        if w.dependsOn[c] == {} {
          queue, queued, more := queue + [c], queued + [c], more + [c];
        }
      }
    }
    ReleaseEnds(p, w, queue, queued, vtx, h);
  }

  lemma FilledMore(p: Pool, w: Waiting, queue: seq<TxId>, queued: seq<TxId>, vtx: seq<TxId>, x: TxId, more: seq<TxId>)
    requires Filled(p, queue, queued, vtx) && x in p.mapTx && x !in queue && x !in vtx && x in queued
        && Parents(p, x) <= Ids(vtx)
    requires Distinct(queued + more)
    ensures Filled(p, queue + more, queued + more, vtx + [x])
  {
    hide Parents;
    var vtx', queue', queued' := vtx + [x], queue + more, queued + more;
    DistinctAppend(vtx, x);
    IdsAppend(vtx, x);
    forall i | 0 <= i < |vtx'| ensures vtx'[i] in p.mapTx && Parents(p, vtx'[i]) <= Ids(vtx'[..i]) {
      assert vtx'[..i] == if i < |vtx| then vtx[..i] else vtx;
    }
    forall i | i in Ids(vtx') ensures i in Ids(queued') {
      if i == x { } else { assert i in Ids(queued); }
    }
    forall i | i in Ids(vtx') ensures i !in Ids(queue') {
      assert i in queued by { if i != x { assert i in Ids(queued); } }
      NotAgain(queued, more, i);
      if i != x { assert i in Ids(vtx); }
    }
  }

  lemma NotAgain(queued: seq<TxId>, more: seq<TxId>, i: TxId)
    requires Distinct(queued + more) && i in queued
    ensures i !in more
  {
    var a :| 0 <= a < |queued| && queued[a] == i;
    forall b | 0 <= b < |more| ensures more[b] != i {
      assert (queued + more)[a] == i && (queued + more)[|queued| + b] == more[b];
    }
  }

  function MinOf(a: nat, b: nat): nat { if a < b then a else b }

  function MaxOf(a: nat, b: nat): nat { if a < b then b else a }

  /** The limits that the options set. */
  datatype Limits = Limits(nBlockMaxSize: nat, nBlockPrioritySize: nat, nBlockMinSize: nat, nMinTxFee: real)

  /** Why a transaction that is taken out of the queue does not go into the block after `done`: it has no room, or the
      queue is sorted by fee and it pays too little for the room it takes, or it does not connect. */
  predicate RefusedAfter(p: Pool, done: seq<TxId>, c: TxId, l: Limits, fSortedByFee: bool)
    requires InPool(p, done) && c in p.mapTx
  {
    var nTxSize := p.r.txSize(p.mapTx[c]);
    || 1000 + SizeOf(p, done) + nTxSize >= l.nBlockMaxSize
    || 100 + SigOpsOf(p, done) + p.r.legacySigOps(p.mapTx[c]) + p.p2shSigOps(done, c) >= MAX_BLOCK_SIGOPS
    || (fSortedByFee && p.dFeePerKb(c) < l.nMinTxFee && 1000 + SizeOf(p, done) + nTxSize >= l.nBlockMinSize)
    || !p.connects(done, c)
  }

  /** The transaction gets past the first tests and reaches past the room for priorities, or has a low one: from then on
      the queue is sorted by fee. */
  predicate TurnsToFee(p: Pool, done: seq<TxId>, c: TxId, l: Limits)
    requires InPool(p, done) && c in p.mapTx
  {
    var nBlockSize := 1000 + SizeOf(p, done) + p.r.txSize(p.mapTx[c]);
    && nBlockSize < l.nBlockMaxSize
    && 100 + SigOpsOf(p, done) + p.r.legacySigOps(p.mapTx[c]) < MAX_BLOCK_SIGOPS
    && (nBlockSize >= l.nBlockPrioritySize || p.dPriority(c) < (COIN * 144 / 250) as real)
  }

  /** The block when the transactions of `order` were taken out of the queue one after the other: those that were not
      refused. */
  function Chosen(p: Pool, l: Limits, order: seq<TxId>): (vtx: seq<TxId>)
    requires InPool(p, order)
    ensures InPool(p, vtx)
  {
    if order == [] then []
    else
      var n := |order| - 1;
      var done := Chosen(p, l, order[..n]);
      if RefusedAfter(p, done, order[n], l, ByFee(p, l, order[..n])) then done else done + [order[n]]
  }

  /** Whether the queue is sorted by fee then. */
  predicate ByFee(p: Pool, l: Limits, order: seq<TxId>)
    requires InPool(p, order)
  {
    if order == [] then l.nBlockPrioritySize == 0
    else
      var n := |order| - 1;
      ByFee(p, l, order[..n]) || TurnsToFee(p, Chosen(p, l, order[..n]), order[n], l)
  }

  /** The transaction can be taken out of the queue next: all its parents are in the block. */
  predicate Ready(p: Pool, l: Limits, order: seq<TxId>, c: TxId)
    requires InPool(p, order)
  {
    Eligible(p, c) && c !in order && Parents(p, c) <= Ids(Chosen(p, l, order))
  }

  /** Each transaction was ready when it was taken, and none that was ready then is above it in the order in force. */
  ghost predicate BestFirst(p: Pool, l: Limits, order: seq<TxId>)
    requires InPool(p, order)
  {
    forall i :: 0 <= i < |order| ==> InPool(p, order[..i]) && BestReady(p, l, order[..i], order[i])
  }

  ghost predicate BestReady(p: Pool, l: Limits, done: seq<TxId>, x: TxId)
    requires InPool(p, done)
  {
    Ready(p, l, done, x) && forall c :: Ready(p, l, done, c) ==> !Before(p, ByFee(p, l, done), x, c)
  }

  lemma OrderMore(p: Pool, l: Limits, order: seq<TxId>, x: TxId)
    requires InPool(p, order) && x in p.mapTx
    ensures InPool(p, order + [x])
    ensures var done, byFee := Chosen(p, l, order), ByFee(p, l, order);
      && Chosen(p, l, order + [x]) == (if RefusedAfter(p, done, x, l, byFee) then done else done + [x])
      && (ByFee(p, l, order + [x]) <==> byFee || TurnsToFee(p, done, x, l))
  {
    assert (order + [x])[..|order|] == order;
    hide RefusedAfter, TurnsToFee;
  }

  lemma BestMore(p: Pool, l: Limits, order: seq<TxId>, x: TxId)
    requires InPool(p, order) && x in p.mapTx && BestFirst(p, l, order) && BestReady(p, l, order, x)
    ensures InPool(p, order + [x]) && BestFirst(p, l, order + [x])
  {
    hide BestReady;
    var more := order + [x];
    forall i | 0 <= i < |more| ensures InPool(p, more[..i]) && BestReady(p, l, more[..i], more[i]) {
      assert more[..i] == order[..i] && order[..|order|] == order;
    }
  }

  /** What is in the queue is what is ready. */
  lemma QueueIsReady(p: Pool, l: Limits, w: Waiting, queue: seq<TxId>, queued: seq<TxId>, order: seq<TxId>)
    requires InPool(p, order) && Scheduled(p, w, queue, queued, Chosen(p, l, order)) && Taken(p, order, queue, queued)
    ensures forall c :: Ready(p, l, order, c) <==> c in queue
  {
    hide Eligible, Parents, Chosen, Awaits, Has;
    forall c ensures Ready(p, l, order, c) <==> c in queue {
      assert c in queued <==> c in Ids(queued);
      assert c in order <==> c in Ids(order);
      assert c in queue <==> c in Ids(queue);
    }
  }

  /** The tests in the loop of CreateNewBlock. They may turn the order of the queue from priority to fee. */
  method CanAdd(p: Pool, vtx: seq<TxId>, id: TxId, nBlockSize: nat, nBlockSigOps: nat, l: Limits, fSorted: bool)
    returns (fits: bool, nTxSize: nat, nTxSigOps: nat, fSortedByFee: bool)
    requires InPool(p, vtx) && id in p.mapTx
    requires nBlockSize == 1000 + SizeOf(p, vtx) && nBlockSigOps == 100 + SigOpsOf(p, vtx)
    ensures fits ==>
      && nTxSize == p.r.txSize(p.mapTx[id]) && nBlockSize + nTxSize < l.nBlockMaxSize
      && nTxSigOps == p.r.legacySigOps(p.mapTx[id]) + p.p2shSigOps(vtx, id)
          && nBlockSigOps + nTxSigOps < MAX_BLOCK_SIGOPS
      && p.connects(vtx, id)
    ensures fits <==> !RefusedAfter(p, vtx, id, l, fSorted)
    ensures fSortedByFee <==> fSorted || TurnsToFee(p, vtx, id, l)
  {
    var tx := p.mapTx[id];
    fits, fSortedByFee := false, fSorted;
    nTxSize := p.r.txSize(tx);
    nTxSigOps := p.r.legacySigOps(tx);
    if nBlockSize + nTxSize >= l.nBlockMaxSize { return; }
    if nBlockSigOps + nTxSigOps >= MAX_BLOCK_SIGOPS { return; }
    if fSortedByFee && p.dFeePerKb(id) < l.nMinTxFee && nBlockSize + nTxSize >= l.nBlockMinSize { return; }
    if !fSortedByFee && (nBlockSize + nTxSize >= l.nBlockPrioritySize || p.dPriority(id) < (COIN * 144 / 250) as real) {
      fSortedByFee := true;
    }
    nTxSigOps := nTxSigOps + p.p2shSigOps(vtx, id);
    if nBlockSigOps + nTxSigOps >= MAX_BLOCK_SIGOPS { return; }
    if !p.connects(vtx, id) { return; }
    fits := true;
  }

  /** What the limits are for the options -blockmaxsize, -blockprioritysize, -blockminsize and -mintxfee. */
  function LimitsOf(blockmaxsize: nat, blockprioritysize: nat, blockminsize: nat, nMinTxFee: real): Limits {
    var max := MaxOf(1000, MinOf(MAX_BLOCK_SIZE - 1000, blockmaxsize));
    Limits(max, MinOf(max, blockprioritysize), MinOf(max, blockminsize), nMinTxFee)
  }

  /** CreateNewBlock, as far as the choice of transactions goes. The block's size and signature operations are counted
      from 1000 and 100 on. `order` lists the transactions that were taken out of the queue, one after the other. */
  method CreateNewBlock(p: Pool, blockmaxsize: nat, blockprioritysize: nat, blockminsize: nat, nMinTxFee: real)
    returns (vtx: seq<TxId>, nBlockSize: nat, nBlockSigOps: nat, l: Limits, fSortedByFee: bool, ghost order: seq<TxId>)
    requires NoneDropped(p)
    ensures l == LimitsOf(blockmaxsize, blockprioritysize, blockminsize, nMinTxFee)
    ensures InPool(p, vtx) && Distinct(vtx) && ParentsFirst(p, vtx)
    ensures nBlockSize == 1000 + SizeOf(p, vtx) <= l.nBlockMaxSize
    ensures nBlockSigOps == 100 + SigOpsOf(p, vtx) < MAX_BLOCK_SIGOPS
    ensures InPool(p, order) && Distinct(order)
    ensures vtx == Chosen(p, l, order) && fSortedByFee == ByFee(p, l, order)
    ensures BestFirst(p, l, order) && forall c :: !Ready(p, l, order, c)
  {
    var nBlockMaxSize := MinOf(MAX_BLOCK_SIZE - 1000, blockmaxsize);
    if nBlockMaxSize < 1000 { nBlockMaxSize := 1000; }
    l := Limits(nBlockMaxSize, MinOf(nBlockMaxSize, blockprioritysize), MinOf(nBlockMaxSize, blockminsize), nMinTxFee);
    hide *;
    ghost var dropped;
    var vecPriority, w;
    vecPriority, w, dropped := Collect(p);
    CollectedIsScheduled(p, w, vecPriority);
    ghost var queued := vecPriority;
    vtx, order := [], [];
    nBlockSize, nBlockSigOps := 1000, 100;
    fSortedByFee := l.nBlockPrioritySize <= 0;
    NothingAdded(p);
    NothingTaken(p, l, queued);
    while vecPriority != []
      invariant Scheduled(p, w, vecPriority, queued, vtx) && Filled(p, vecPriority, queued, vtx)
      invariant Taken(p, order, vecPriority, queued) && Distinct(order) && InPool(p, vtx) && InPool(p, order)
      invariant vtx == Chosen(p, l, order) && fSortedByFee == ByFee(p, l, order) && BestFirst(p, l, order)
      invariant nBlockSize == 1000 + SizeOf(p, vtx) <= l.nBlockMaxSize
      invariant nBlockSigOps == 100 + SigOpsOf(p, vtx) < MAX_BLOCK_SIGOPS
      decreases |p.mapTx.Keys - Ids(order)|
    {
      ghost var at;
      var id, rest;
      QueueIsReady(p, l, w, vecPriority, queued, order);
      id, rest, at := PopHeap(p, fSortedByFee, vecPriority);
      BestPopped(p, l, order, vecPriority, id, at);
      PoppedIsScheduled(p, w, vecPriority, queued, vtx, at);
      PoppedIsTaken(p, order, vecPriority, queued, rest, id);
      OrderMore(p, l, order, id);
      BestMore(p, l, order, id);
      order := order + [id];
      vecPriority := rest;
      var fits, nTxSize, nTxSigOps;
      fits, nTxSize, nTxSigOps, fSortedByFee := CanAdd(p, vtx, id, nBlockSize, nBlockSigOps, l, fSortedByFee);
      if !fits { continue; }
      CountsMore(p, vtx, id);
      nBlockSize := nBlockSize + nTxSize;
      nBlockSigOps := nBlockSigOps + nTxSigOps;
      ghost var queue1, queued1 := vecPriority, queued;
      w, vecPriority := Release(p, w, vecPriority, queued, vtx, id);
      ghost var more :| vecPriority == queue1 + more && Scheduled(p, w, vecPriority, queued1 + more, vtx + [id]);
      queued := queued1 + more;
      ScheduledQueue(p, w, vecPriority, queued, vtx + [id]);
      FilledMore(p, w, queue1, queued1, vtx, id, more);
      TakenMore(p, order, queue1, queued1, more);
      vtx := vtx + [id];
    }
    QueueIsReady(p, l, w, vecPriority, queued, order);
    FilledBlock(p, vecPriority, queued, vtx);
  }

  lemma BestPopped(p: Pool, l: Limits, order: seq<TxId>, queue: seq<TxId>, x: TxId, at: nat)
    requires InPool(p, order) && (forall c :: Ready(p, l, order, c) <==> c in queue) && at < |queue| && x == queue[at]
    requires forall i :: 0 <= i < |queue| ==> !Before(p, ByFee(p, l, order), x, queue[i])
    ensures BestReady(p, l, order, x)
  {
    hide Ready, Before, ByFee;
    forall c | Ready(p, l, order, c) ensures !Before(p, ByFee(p, l, order), x, c) {
      var i :| 0 <= i < |queue| && queue[i] == c;
    }
  }

  /** What was taken out of the queue was in it, and does not come back. */
  ghost predicate Taken(p: Pool, order: seq<TxId>, queue: seq<TxId>, queued: seq<TxId>) {
    Ids(order) <= p.mapTx.Keys && Ids(queued) == Ids(order) + Ids(queue) && Ids(order) !! Ids(queue)
  }

  lemma NothingTaken(p: Pool, l: Limits, queued: seq<TxId>)
    ensures Taken(p, [], queued, queued) && InPool(p, []) && Distinct([])
    ensures Chosen(p, l, []) == [] && (ByFee(p, l, []) <==> l.nBlockPrioritySize == 0) && BestFirst(p, l, [])
  {
  }

  lemma PoppedIsTaken(p: Pool, order: seq<TxId>, queue: seq<TxId>, queued: seq<TxId>, rest: seq<TxId>, x: TxId)
    requires Taken(p, order, queue, queued) && Ids(queue) == Ids(rest) + {x} && x !in rest && Eligible(p, x)
    requires Distinct(order)
    ensures Taken(p, order + [x], rest, queued) && Distinct(order + [x]) && x in p.mapTx
    ensures |p.mapTx.Keys - Ids(order + [x])| < |p.mapTx.Keys - Ids(order)|
  {
    IdsAppend(order, x);
    assert x in Ids(queue);
    assert x !in order by { assert x !in Ids(order); }
    DistinctAppend(order, x);
    assert p.mapTx.Keys - Ids(order + [x]) == (p.mapTx.Keys - Ids(order)) - {x};
  }

  lemma TakenMore(p: Pool, order: seq<TxId>, queue: seq<TxId>, queued: seq<TxId>, more: seq<TxId>)
    requires Taken(p, order, queue, queued) && Distinct(queued + more)
    ensures Taken(p, order, queue + more, queued + more)
  {
    forall i ensures i in Ids(queued + more) <==> i in Ids(order) + Ids(queue + more) {
      assert i in Ids(queued) <==> i in queued;
    }
    forall i | i in Ids(order) ensures i !in Ids(queue + more) {
      assert i in Ids(queued) && i !in Ids(queue);
      NotAgain(queued, more, i);
    }
  }

  lemma ScheduledQueue(p: Pool, w: Waiting, queue: seq<TxId>, queued: seq<TxId>, vtx: seq<TxId>)
    requires Scheduled(p, w, queue, queued, vtx)
    ensures Distinct(queued) && forall c :: c in queued <==> Eligible(p, c) && Parents(p, c) <= Ids(vtx)
  {
    hide Eligible, Parents;
  }

  lemma FilledBlock(p: Pool, queue: seq<TxId>, queued: seq<TxId>, vtx: seq<TxId>)
    requires Filled(p, queue, queued, vtx)
    ensures InPool(p, vtx) && Distinct(vtx) && ParentsFirst(p, vtx) && Ids(vtx) <= Ids(queued)
  {
  }

  lemma CountsMore(p: Pool, vtx: seq<TxId>, x: TxId)
    requires InPool(p, vtx) && x in p.mapTx
    ensures InPool(p, vtx + [x])
    ensures SizeOf(p, vtx + [x]) == SizeOf(p, vtx) + p.r.txSize(p.mapTx[x])
    ensures SigOpsOf(p, vtx + [x]) == SigOpsOf(p, vtx) + p.r.legacySigOps(p.mapTx[x]) + p.p2shSigOps(vtx, x)
  {
    assert (vtx + [x])[..|vtx|] == vtx;
  }

  lemma NothingAdded(p: Pool)
    ensures SizeOf(p, []) == 0 && SigOpsOf(p, []) == 0
  {
  }
}
