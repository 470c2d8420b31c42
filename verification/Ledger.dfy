/** A ledger is a state that blocks are connected to and disconnected from. This module proves once, for any
    ledger whose disconnect undoes the connect of a new block, that runs of connects, disconnects and all-or-nothing
    reorganizations (SetBestChain, SetBestChainInner and Reorganize in a3/a2/main.cpp) keep the state equal to
    a replay of the main chain. BlockChain instantiates it with the transaction index. */
module Ledger {
  import opened Wrappers

  /** `skip` is the flag that turns signature checks off; `isNew` says that the block names nothing known. */
  datatype Ledger<!S, !B> = Ledger(
    start: S,
    accepts: (S, B, bool) -> bool,
    connect: (S, B) -> S,
    disconnect: (S, B) -> Option<S>,
    isNew: (S, B) -> bool)

  ghost predicate Undoable<S(!new), B(!new)>(l: Ledger<S, B>) {
    && (forall s, b, skip :: l.accepts(s, b, skip) ==> (l.disconnect(l.connect(s, b), b) == Some(s) <==> l.isNew(s, b)))
    && (forall s, b, skip :: l.accepts(s, b, skip) ==> l.accepts(s, b, true))
  }

  /** The state after connecting the first n blocks of a chain. */
  function Replay<S, B>(l: Ledger<S, B>, chain: seq<B>, n: nat): S
    requires n <= |chain|
  {
    if n == 0 then l.start else l.connect(Replay(l, chain, n - 1), chain[n - 1])
  }

  predicate ChainAccepted<S, B>(l: Ledger<S, B>, chain: seq<B>) {
    forall k :: 0 <= k < |chain| ==> l.accepts(Replay(l, chain, k), chain[k], true)
  }

  /** The blocks from m to n - 1 of the chain name nothing that was known when they were connected. */
  predicate NewBetween<S, B>(l: Ledger<S, B>, chain: seq<B>, m: nat, n: nat)
    requires n <= |chain|
  {
    forall k :: m <= k < n ==> l.isNew(Replay(l, chain, k), chain[k])
  }

  /** Undoes blocks n - 1 down to m of a chain, tip first. */
  function DisconnectDown<S, B>(l: Ledger<S, B>, s: S, chain: seq<B>, n: nat, m: nat): Option<S>
    requires m <= n <= |chain|
  {
    if n == m then Some(s)
    else match l.disconnect(s, chain[n - 1])
      case None => None
      case Some(s') => DisconnectDown(l, s', chain, n - 1, m)
  }

  /** Connects the first n blocks of cs, or fails at the first that is not accepted. */
  function ConnectBlocks<S, B>(l: Ledger<S, B>, s: S, cs: seq<B>, n: nat, skip: bool): Option<S>
    requires n <= |cs|
  {
    if n == 0 then Some(s)
    else match ConnectBlocks(l, s, cs, n - 1, skip)
      case None => None
      case Some(s') => if l.accepts(s', cs[n - 1], skip) then Some(l.connect(s', cs[n - 1])) else None
  }

  /** The state and the main chain above the genesis block. */
  datatype Node<S, B> = Node(state: S, chain: seq<B>)

  /** Extend the tip, drop the tip, or replace the last `back` blocks by `cs`. */
  datatype Step<B> =
    | Attach(b: B, skip: bool)
    | Detach
    | Reorganize(back: nat, cs: seq<B>, skip: bool)

  /** All or nothing: a step that fails aborts its database transaction. */
  function Apply<S, B>(l: Ledger<S, B>, n: Node<S, B>, step: Step<B>): Node<S, B> {
    match step
    case Attach(b, skip) =>
      if l.accepts(n.state, b, skip) then Node(l.connect(n.state, b), n.chain + [b]) else n
    case Detach =>
      if n.chain == [] then n
      else (match l.disconnect(n.state, n.chain[|n.chain| - 1])
            case None => n
            case Some(s) => Node(s, n.chain[..|n.chain| - 1]))
    case Reorganize(back, cs, skip) =>
      if back > |n.chain| then n
      else (match DisconnectDown(l, n.state, n.chain, |n.chain|, |n.chain| - back)
            case None => n
            case Some(mid) =>
              match ConnectBlocks(l, mid, cs, |cs|, skip)
              case None => n
              case Some(s) => Node(s, n.chain[..|n.chain| - back] + cs))
  }

  function Run<S, B>(l: Ledger<S, B>, steps: seq<Step<B>>, n: nat): Node<S, B>
    requires n <= |steps|
  {
    if n == 0 then Node(l.start, []) else Apply(l, Run(l, steps, n - 1), steps[n - 1])
  }

  predicate Replayed<S(==), B>(l: Ledger<S, B>, n: Node<S, B>) {
    n.state == Replay(l, n.chain, |n.chain|) && ChainAccepted(l, n.chain)
  }

  lemma {:induction false} ReplayPrefix<S, B>(l: Ledger<S, B>, a: seq<B>, b: seq<B>, n: nat)
    requires n <= |a| && n <= |b| && a[..n] == b[..n]
    ensures Replay(l, a, n) == Replay(l, b, n)
  {
    if n == 0 {
    } else {
      assert a[..n][..n - 1] == a[..n - 1] && b[..n][..n - 1] == b[..n - 1];
      assert a[n - 1] == a[..n][n - 1] == b[..n][n - 1] == b[n - 1];
      ReplayPrefix(l, a, b, n - 1);
    }
  }

  lemma {:induction false} DisconnectDownReplay<S(!new), B(!new)>(l: Ledger<S, B>, chain: seq<B>, n: nat, m: nat)
    requires Undoable(l) && ChainAccepted(l, chain) && m <= n <= |chain| && NewBetween(l, chain, m, n)
    ensures DisconnectDown(l, Replay(l, chain, n), chain, n, m) == Some(Replay(l, chain, m))
  {
    hide *;
    if n == m {
      DownToItself(l, chain, n);
    } else {
      UndoLast(l, chain, n, m);
      NewBetweenNext(l, chain, m, n);
      DisconnectDownReplay(l, chain, n - 1, m);
    }
  }

  lemma PrefixReplayed<S, B>(l: Ledger<S, B>, chain: seq<B>, m: nat)
    requires ChainAccepted(l, chain) && m <= |chain|
    ensures Replayed(l, Node(Replay(l, chain, m), chain[..m]))
  {
    hide Replay;
    forall k | 0 <= k <= m ensures Replay(l, chain[..m], k) == Replay(l, chain, k) {
      assert chain[..m][..k] == chain[..k];
      ReplayPrefix(l, chain[..m], chain, k);
    }
  }

  lemma Extended<S(!new), B(!new)>(l: Ledger<S, B>, n: Node<S, B>, b: B, skip: bool)
    requires Undoable(l) && Replayed(l, n) && l.accepts(n.state, b, skip)
    ensures Replayed(l, Node(l.connect(n.state, b), n.chain + [b]))
  {
    var chain := n.chain + [b];
    forall k | 0 <= k <= |n.chain| ensures Replay(l, chain, k) == Replay(l, n.chain, k) {
      assert chain[..k] == n.chain[..k];
      ReplayPrefix(l, chain, n.chain, k);
    }
    forall k | 0 <= k < |chain| ensures l.accepts(Replay(l, chain, k), chain[k], true) {
      if k < |n.chain| { assert l.accepts(Replay(l, n.chain, k), n.chain[k], true); }
    }
  }

  lemma {:induction false} ConnectBlocksReplay<S(!new), B(!new)>(l: Ledger<S, B>, n: Node<S, B>, cs: seq<B>, k: nat,
      skip: bool)
    requires Undoable(l) && Replayed(l, n) && k <= |cs| && ConnectBlocks(l, n.state, cs, k, skip).Some?
    ensures Replayed(l, Node(ConnectBlocks(l, n.state, cs, k, skip).value, n.chain + cs[..k]))
  {
    if k == 0 {
      assert n.chain + cs[..0] == n.chain;
    } else {
      ConnectBlocksReplay(l, n, cs, k - 1, skip);
      var mid := Node(ConnectBlocks(l, n.state, cs, k - 1, skip).value, n.chain + cs[..k - 1]);
      Extended(l, mid, cs[k - 1], skip);
      assert mid.chain + [cs[k - 1]] == n.chain + cs[..k];
    }
  }

  /** Connecting two lists, one after the other. */
  lemma {:induction false} ConnectBlocksSplit<S, B>(l: Ledger<S, B>, s: S, a: seq<B>, b: seq<B>, k: nat, skip: bool)
    requires k <= |b|
    ensures ConnectBlocks(l, s, a + b, |a| + k, skip) ==
            match ConnectBlocks(l, s, a, |a|, skip)
            case None => None
            case Some(s') => ConnectBlocks(l, s', b, k, skip)
  {
    if k == 0 {
      ConnectBlocksPrefix(l, s, a + b, a, |a|, skip);
    } else {
      ConnectBlocksSplit(l, s, a, b, k - 1, skip);
      assert (a + b)[|a| + k - 1] == b[k - 1];
    }
  }

  lemma {:induction false} ConnectBlocksPrefix<S, B>(l: Ledger<S, B>, s: S, a: seq<B>, b: seq<B>, n: nat, skip: bool)
    requires n <= |a| && n <= |b| && a[..n] == b[..n]
    ensures ConnectBlocks(l, s, a, n, skip) == ConnectBlocks(l, s, b, n, skip)
  {
    if n > 0 {
      assert a[..n][..n - 1] == a[..n - 1] && b[..n][..n - 1] == b[..n - 1];
      assert a[n - 1] == a[..n][n - 1] == b[..n][n - 1] == b[n - 1];
      ConnectBlocksPrefix(l, s, a, b, n - 1, skip);
    }
  }

  /** Undoing the first n blocks of a chain, one by one down to m, goes back through the replays. */
  predicate Retraces<S(==), B>(l: Ledger<S, B>, chain: seq<B>, n: nat, m: nat)
    requires n <= |chain|
  {
    forall k :: m <= k <= n ==> DisconnectDown(l, Replay(l, chain, n), chain, n, k) == Some(Replay(l, chain, k))
  }

  lemma UndoLast<S(!new), B(!new)>(l: Ledger<S, B>, chain: seq<B>, n: nat, k: nat)
    requires Undoable(l) && ChainAccepted(l, chain) && k < n <= |chain|
    ensures DisconnectDown(l, Replay(l, chain, n), chain, n, n - 1) == Some(Replay(l, chain, n - 1)) <==>
            l.isNew(Replay(l, chain, n - 1), chain[n - 1])
    ensures l.isNew(Replay(l, chain, n - 1), chain[n - 1]) ==>
            DisconnectDown(l, Replay(l, chain, n), chain, n, k) ==
                DisconnectDown(l, Replay(l, chain, n - 1), chain, n - 1, k)
  {
    assert l.accepts(Replay(l, chain, n - 1), chain[n - 1], true);
    assert Replay(l, chain, n) == l.connect(Replay(l, chain, n - 1), chain[n - 1]);
    hide Replay;
  }

  lemma RetracesNext<S(!new), B(!new)>(l: Ledger<S, B>, chain: seq<B>, n: nat, m: nat)
    requires Undoable(l) && ChainAccepted(l, chain) && m < n <= |chain|
    ensures Retraces(l, chain, n, m) <==> l.isNew(Replay(l, chain, n - 1), chain[n - 1]) && Retraces(l, chain, n - 1, m)
  {
    hide Replay, DisconnectDown, Undoable, ChainAccepted;
    UndoLast(l, chain, n, m);
    DownToItself(l, chain, n);
    if l.isNew(Replay(l, chain, n - 1), chain[n - 1]) {
      forall k | m <= k < n
        ensures DisconnectDown(l, Replay(l, chain, n), chain, n, k) ==
            DisconnectDown(l, Replay(l, chain, n - 1), chain, n - 1, k)
      {
        UndoLast(l, chain, n, k);
      }
    }
  }

  /** Undoing a chain retraces its replay, block by block, exactly when the undone blocks are new. */
  lemma {:induction false} UndoRetracesIff<S(!new), B(!new)>(l: Ledger<S, B>, chain: seq<B>, n: nat, m: nat)
    requires Undoable(l) && ChainAccepted(l, chain) && m <= n <= |chain|
    ensures Retraces(l, chain, n, m) <==> NewBetween(l, chain, m, n)
  {
    hide *;
    if n == m {
      RetracesNothing(l, chain, n);
    } else {
      RetracesNext(l, chain, n, m);
      NewBetweenNext(l, chain, m, n);
      UndoRetracesIff(l, chain, n - 1, m);
    }
  }

  lemma RetracesNothing<S, B>(l: Ledger<S, B>, chain: seq<B>, n: nat)
    requires n <= |chain|
    ensures Retraces(l, chain, n, n) && NewBetween(l, chain, n, n)
  {
    hide Replay, DisconnectDown;
    DownToItself(l, chain, n);
  }

  lemma NewBetweenNext<S, B>(l: Ledger<S, B>, chain: seq<B>, m: nat, n: nat)
    requires m < n <= |chain|
    ensures NewBetween(l, chain, m, n) <==>
            l.isNew(Replay(l, chain, n - 1), chain[n - 1]) && NewBetween(l, chain, m, n - 1)
  {
    hide Replay;
  }

  lemma DownToItself<S, B>(l: Ledger<S, B>, chain: seq<B>, n: nat)
    requires n <= |chain|
    ensures DisconnectDown(l, Replay(l, chain, n), chain, n, n) == Some(Replay(l, chain, n))
  {
  }

  /** A reorganization whose undone blocks are new, from block m on. */
  lemma ReorganizeReplayed<S(!new), B(!new)>(l: Ledger<S, B>, n: Node<S, B>, m: nat, cs: seq<B>, skip: bool)
    requires Undoable(l) && Replayed(l, n) && m <= |n.chain| && NewBetween(l, n.chain, m, |n.chain|)
    ensures var mid := DisconnectDown(l, n.state, n.chain, |n.chain|, m);
            && mid == Some(Replay(l, n.chain, m))
            && (ConnectBlocks(l, mid.value, cs, |cs|, skip).Some? ==>
                  Replayed(l, Node(ConnectBlocks(l, mid.value, cs, |cs|, skip).value, n.chain[..m] + cs)))
  {
    DisconnectDownReplay(l, n.chain, |n.chain|, m);
    PrefixReplayed(l, n.chain, m);
    var mid := Node(Replay(l, n.chain, m), n.chain[..m]);
    if ConnectBlocks(l, mid.state, cs, |cs|, skip).Some? {
      ConnectBlocksReplay(l, mid, cs, |cs|, skip);
      assert cs[..|cs|] == cs;
    }
  }

  /** How many blocks a step takes off the main chain, if it succeeds. */
  function Undone<S, B>(n: Node<S, B>, step: Step<B>): nat {
    match step
    case Attach(_, _) => 0
    case Detach => if n.chain == [] then 0 else 1
    case Reorganize(back, _, _) => if back > |n.chain| then 0 else back
  }

  /** The step changes nothing, or every block that it undoes was new when it was connected. */
  ghost predicate UndoesNew<S, B>(l: Ledger<S, B>, n: Node<S, B>, step: Step<B>) {
    Apply(l, n, step) == n || NewBetween(l, n.chain, |n.chain| - Undone(n, step), |n.chain|)
  }

  /** Dropping the tip leaves the replay of what is left if and only if the tip block was new, or the undo failed. */
  lemma DetachReplayedIff<S(!new), B(!new)>(l: Ledger<S, B>, n: Node<S, B>)
    requires Undoable(l) && Replayed(l, n)
    ensures Replayed(l, Apply(l, n, Detach)) <==> UndoesNew(l, n, Detach)
  {
    if n.chain != [] {
      var m := |n.chain| - 1;
      PrefixReplayed(l, n.chain, m);
      NewBetweenNext(l, n.chain, m, |n.chain|);
      assert NewBetween(l, n.chain, m, m);
      UndoTip(l, n);
      ReplayPrefix(l, n.chain[..m], n.chain, m);
      hide Replay, Undoable, ChainAccepted, NewBetween;
    }
  }

  lemma UndoTip<S(!new), B(!new)>(l: Ledger<S, B>, n: Node<S, B>)
    requires Undoable(l) && Replayed(l, n) && n.chain != []
    ensures var m := |n.chain| - 1;
      l.disconnect(n.state, n.chain[m]) == Some(Replay(l, n.chain, m)) <==> l.isNew(Replay(l, n.chain, m), n.chain[m])
  {
    var m := |n.chain| - 1;
    assert n.state == l.connect(Replay(l, n.chain, m), n.chain[m]);
    assert l.accepts(Replay(l, n.chain, m), n.chain[m], true);
    hide Replay;
  }

  lemma SwitchReplayed<S(!new), B(!new)>(l: Ledger<S, B>, n: Node<S, B>, back: nat, cs: seq<B>, skip: bool)
    requires Undoable(l) && Replayed(l, n) && UndoesNew(l, n, Reorganize(back, cs, skip))
    ensures Replayed(l, Apply(l, n, Reorganize(back, cs, skip)))
  {
    hide Undoable, Replayed, NewBetween, DisconnectDown, ConnectBlocks, Replay;
    if back <= |n.chain| && Apply(l, n, Reorganize(back, cs, skip)) != n {
      ReorganizeReplayed(l, n, |n.chain| - back, cs, skip);
    }
  }

  lemma ApplyReplayed<S(!new), B(!new)>(l: Ledger<S, B>, n: Node<S, B>, step: Step<B>)
    requires Undoable(l) && Replayed(l, n) && UndoesNew(l, n, step)
    ensures Replayed(l, Apply(l, n, step))
  {
    match step
    case Attach(b, skip) =>
      hide Undoable, Replayed, NewBetween, DisconnectDown, ConnectBlocks, Replay;
      if l.accepts(n.state, b, skip) { Extended(l, n, b, skip); }
    case Detach =>
      hide *;
      DetachReplayedIff(l, n);
    case Reorganize(back, cs, skip) =>
      hide *;
      SwitchReplayed(l, n, back, cs, skip);
  }

  lemma RunOfNothing<S(!new), B(!new)>(l: Ledger<S, B>)
    ensures Replayed(l, Node(l.start, []))
  {
  }

  /** After any run in which every block that a step undoes was new when it was connected, the state is the replay of
      the main chain. Blocks that stay connected may name known things again. */
  lemma {:induction false} RunReplays<S(!new), B(!new)>(l: Ledger<S, B>, steps: seq<Step<B>>, n: nat)
    requires Undoable(l) && n <= |steps|
    requires forall k :: 0 <= k < n ==> UndoesNew(l, Run(l, steps, k), steps[k])
    ensures Replayed(l, Run(l, steps, n))
  {
    hide Undoable, Replayed, UndoesNew, Apply;
    if n == 0 {
      RunOfNothing(l);
      hide Replay;
    } else {
      RunReplays(l, steps, n - 1);
      ApplyReplayed(l, Run(l, steps, n - 1), steps[n - 1]);
      hide Replay;
    }
  }
}
