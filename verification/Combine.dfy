/** CombineMultisig (a3/a2/script.cpp): merging two partial sets of signatures, and why OP_CHECKMULTISIG accepts the
    result when enough signatures came together. */
module Combine {
  import opened Wrappers
  import opened Bytes
  import opened BigNum
  import opened Script
  import opened FindDelete
  import opened Multisig
  import opened Machine
  import Interpreter
  import opened SigOps
  import opened Standard

  /** The signatures found for keys: each is valid for its key, and one that was left over is valid for no free key. */
  ghost predicate Gathered(env: Crypto, code: valtype, keys: seq<valtype>, allsigs: set<valtype>,
                           sigs: map<valtype, valtype>) {
    && (forall k :: k in sigs ==> k in keys && sigs[k] in allsigs && env.checkSig(sigs[k], k, code))
    && (forall s, i :: s in allsigs && 0 <= i < |keys| && env.checkSig(s, keys[i], code) ==>
        s in sigs.Values || keys[i] in sigs)
  }

  /** The signatures in the order of their keys, at most n of them. */
  function Chosen(keys: seq<valtype>, sigs: map<valtype, valtype>, n: nat): (r: seq<valtype>)
    ensures |r| <= n
  {
    if keys == [] || n == 0 then []
    else if keys[0] in sigs then [sigs[keys[0]]] + Chosen(keys[1..], sigs, n - 1)
    else Chosen(keys[1..], sigs, n)
  }

  function Merged(keys: seq<valtype>, sigs: map<valtype, valtype>, n: nat): seq<byte> {
    [OP_0] + PushAllEnc(Chosen(keys, sigs, n)) + Zeros(n - |Chosen(keys, sigs, n)|)
  }

  /** All the signatures that CombineMultisig is given. */
  ghost function AllSigs(sigs1: seq<valtype>, sigs2: seq<valtype>): set<valtype> {
    (set v | v in sigs1 && v != []) + (set v | v in sigs2 && v != [])
  }

  /** The script holds the signatures that were gathered for the keys among the solutions. */
  ghost predicate Combined(env: Crypto, code: valtype, vSolutions: seq<valtype>, allsigs: set<valtype>,
                           sigs: map<valtype, valtype>, result: seq<byte>)
    requires |vSolutions| > 1 && vSolutions[0] != []
  {
    var keys := vSolutions[1..|vSolutions| - 1];
    Gathered(env, code, keys, allsigs, sigs) && result == Merged(keys, sigs, vSolutions[0][0])
  }

  method NonEmpty(sigs: seq<valtype>) returns (s: set<valtype>)
    ensures forall v :: v in s <==> v in sigs && v != []
  {
    s := {};
    for i := 0 to |sigs|
      invariant forall v :: v in s <==> v in sigs[..i] && v != []
    {
      if sigs[i] != [] { s := s + {sigs[i]}; }
    }
  }

  /** The first free key that the signature is valid for. */
  method MatchKey(env: Crypto, code: valtype, keys: seq<valtype>, sig: valtype, sigs0: map<valtype, valtype>)
    returns (sigs: map<valtype, valtype>)
    ensures sigs == sigs0 ==> forall i :: 0 <= i < |keys| && env.checkSig(sig, keys[i], code) ==> keys[i] in sigs0
    ensures sigs != sigs0 ==>
        exists i :: 0 <= i < |keys| && keys[i] !in sigs0 && env.checkSig(sig, keys[i], code)
            && sigs == sigs0[keys[i] := sig]
  {
    for i := 0 to |keys|
      invariant forall j :: 0 <= j < i && env.checkSig(sig, keys[j], code) ==> keys[j] in sigs0
    {
      if keys[i] !in sigs0 && env.checkSig(sig, keys[i], code) {
        return sigs0[keys[i] := sig];
      }
    }
    return sigs0;
  }

  /** CombineMultisig. The signatures are visited in no particular order. */
  method CombineMultisig(env: Crypto, scriptPubKey: valtype, vSolutions: seq<valtype>, sigs1: seq<valtype>,
      sigs2: seq<valtype>)
    returns (result: seq<byte>)
    requires |vSolutions| > 1 && vSolutions[0] != []
    ensures exists sigs :: Combined(env, scriptPubKey, vSolutions, AllSigs(sigs1, sigs2), sigs, result)
  {
    var s1 := NonEmpty(sigs1);
    var s2 := NonEmpty(sigs2);
    var all := s1 + s2;
    var nSigsRequired := vSolutions[0][0];
    var keys := vSolutions[1..|vSolutions| - 1];
    var found: map<valtype, valtype> := map[];
    var todo := all;
    while todo != {}
      invariant todo <= all
      invariant Gathered(env, scriptPubKey, keys, all - todo, found)
    {
      var sig := Pick(todo);
      var next := MatchKey(env, scriptPubKey, keys, sig, found);
      GatheredOneMore(env, scriptPubKey, keys, all - todo, found, sig, next);
      todo := todo - {sig};
      assert all - todo == all - (todo + {sig}) + {sig};
      found := next;
    }
    assert all - todo == all == AllSigs(sigs1, sigs2);
    result := Merge(keys, found, nSigsRequired);
    assert Combined(env, scriptPubKey, vSolutions, AllSigs(sigs1, sigs2), found, result);
  }

  lemma GatheredOneMore(env: Crypto, code: valtype, keys: seq<valtype>, done: set<valtype>, sigs: map<valtype, valtype>,
                        sig: valtype, sigs': map<valtype, valtype>)
    requires Gathered(env, code, keys, done, sigs)
    requires sigs' == sigs ==> forall i :: 0 <= i < |keys| && env.checkSig(sig, keys[i], code) ==> keys[i] in sigs
    requires sigs' != sigs ==>
        exists i :: 0 <= i < |keys| && keys[i] !in sigs && env.checkSig(sig, keys[i], code)
            && sigs' == sigs[keys[i] := sig]
    ensures Gathered(env, code, keys, done + {sig}, sigs')
  {
    if sigs' != sigs {
      var i :| 0 <= i < |keys| && keys[i] !in sigs && env.checkSig(sig, keys[i], code) && sigs' == sigs[keys[i] := sig];
      assert sigs'[keys[i]] == sig && sig in sigs'.Values;
      forall v | v in sigs.Values ensures v in sigs'.Values {
        var k :| k in sigs && sigs[k] == v;
        assert sigs'[k] == v;
      }
    }
  }

  lemma {:induction false} ChosenPrefix(keys: seq<valtype>, sigs: map<valtype, valtype>, n: nat, i: nat)
    requires i < |keys|
    ensures Chosen(keys[..i + 1], sigs, n) ==
      Chosen(keys[..i], sigs, n) + (if |Chosen(keys[..i], sigs, n)| < n && keys[i] in sigs then [sigs[keys[i]]] else [])
  {
    if i == 0 || n == 0 {
      assert keys[..1][1..] == [];
    } else {
      assert keys[..i + 1][1..] == keys[1..][..i] && keys[..i][1..] == keys[1..][..i - 1];
      ChosenPrefix(keys[1..], sigs, if keys[0] in sigs then n - 1 else n, i - 1);
    }
  }

  lemma {:induction false} ChosenFull(keys: seq<valtype>, sigs: map<valtype, valtype>, n: nat, i: nat)
    requires i <= |keys| && |Chosen(keys[..i], sigs, n)| == n
    ensures Chosen(keys, sigs, n) == Chosen(keys[..i], sigs, n)
    decreases |keys| - i
  {
    if i < |keys| {
      ChosenPrefix(keys, sigs, n, i);
      ChosenFull(keys, sigs, n, i + 1);
    } else {
      assert keys[..i] == keys;
    }
  }

  /** The last part of CombineMultisig. */
  method Merge(keys: seq<valtype>, sigs: map<valtype, valtype>, nSigsRequired: nat) returns (result: seq<byte>)
    ensures result == Merged(keys, sigs, nSigsRequired)
  {
    hide PushAllEnc, PushEnc, Chosen;
    var nSigsHave := 0;
    var script := new CScript([]);
    script.PushOpcode(OP_0);
    var i := 0;
    ChosenNone(sigs, nSigsRequired);
    assert keys[..0] == [];
    while i < |keys| && nSigsHave < nSigsRequired
      invariant 0 <= i <= |keys| && nSigsHave == |Chosen(keys[..i], sigs, nSigsRequired)|
      invariant script.vch == [OP_0] + PushAllEnc(Chosen(keys[..i], sigs, nSigsRequired))
    {
      ChosenPrefix(keys, sigs, nSigsRequired, i);
      if keys[i] in sigs {
        PushAllAppend(Chosen(keys[..i], sigs, nSigsRequired), sigs[keys[i]]);
        script.PushData(sigs[keys[i]]);
        nSigsHave := nSigsHave + 1;
      } else {
        assert Chosen(keys[..i], sigs, nSigsRequired) + [] == Chosen(keys[..i], sigs, nSigsRequired);
      }
      i := i + 1;
    }
    if nSigsHave == nSigsRequired { ChosenFull(keys, sigs, nSigsRequired, i); } else { assert keys[..i] == keys; }
    ghost var head := script.vch;
    var have := nSigsHave;
    while have < nSigsRequired
      invariant nSigsHave <= have <= nSigsRequired
      invariant script.vch == head + Zeros(have - nSigsHave)
    {
      script.PushOpcode(OP_0);
      assert Zeros(have + 1 - nSigsHave) == Zeros(have - nSigsHave) + [OP_0];
      have := have + 1;
    }
    result := script.vch;
  }

  lemma ChosenNone(sigs: map<valtype, valtype>, n: nat)
    ensures Chosen([], sigs, n) == [] && PushAllEnc([]) == []
  {
  }

  // ----- the merged signatures fit their keys in order -----

  lemma {:induction false} ChosenAssigned(env: Crypto, code: valtype, keys: seq<valtype>,
                                            sigs: map<valtype, valtype>, n: nat)
    returns (f: seq<nat>)
    requires forall k :: k in sigs ==> env.checkSig(sigs[k], k, code)
    ensures Assigns(env, code, Chosen(keys, sigs, n), keys, f)
  {
    if keys == [] || n == 0 {
      f := [];
    } else {
      hide Assigns;
      var c := Chosen(keys, sigs, n);
      if keys[0] in sigs {
        var g := ChosenAssigned(env, code, keys[1..], sigs, n - 1);
        assert c[1..] == Chosen(keys[1..], sigs, n - 1);
        AssignsTake(env, code, c, keys, g);
        f := [0] + Up(g);
      } else {
        var g := ChosenAssigned(env, code, keys[1..], sigs, n);
        AssignsSkip(env, code, c, keys, g);
        f := Up(g);
      }
    }
  }

  lemma ReverseAssigned(env: Crypto, code: valtype, sigs: seq<valtype>, keys: seq<valtype>, f: seq<nat>)
    requires Assigns(env, code, sigs, keys, f)
    ensures Greedy(env, code, Reverse(sigs), Reverse(keys))
  {
    var g := seq(|f|, i requires 0 <= i < |f| => |keys| - 1 - f[|f| - 1 - i]);
    forall i | 0 <= i < |g| ensures 0 <= g[i] < |keys| && env.checkSig(Reverse(sigs)[i], Reverse(keys)[g[i]], code) {
      assert f[|f| - 1 - i] < |keys|;
    }
    var h: seq<nat> := g;
    GreedyIsComplete(env, code, Reverse(sigs), Reverse(keys), h);
  }

  /** Signatures that do not occur in the script leave it as it is. */
  lemma {:induction false} NothingStripped(code: valtype, sigs: seq<valtype>)
    requires forall i :: 0 <= i < |sigs| ==> Clean(code, PushEnc(sigs[i]))
    ensures Stripped(code, sigs) == code
  {
    hide Clean, PushEnc, Deleted;
    if sigs != [] {
      PushNotEmpty(sigs[0]);
      CleanIsFixed(code, PushEnc(sigs[0]));
      NothingStripped(code, sigs[1..]);
    }
  }

  // ----- running a multisig script -----

  lemma RunOne(env: Crypto, script: seq<byte>, pc: nat, st: State, ops: seq<Op>)
    requires st.codehash <= |script| && pc <= |script| && Ops(script[pc..]) == Some(ops) && ops != []
    ensures pc + ops[0].len <= |script| && Ops(script[pc + ops[0].len..]) == Some(ops[1..])
    ensures Run(env, script, pc, st) ==
      match Step(env, script, st, ops[0], pc + ops[0].len) case None => None case Some(st') => Run(env, script,
          pc + ops[0].len, st')
  {
    hide ParseOp, Step;
    var t := script[pc..];
    OpsUnfold(t);
    if t != [] {
      OpsNonEmpty(t);
      assert t[ops[0].len..] == script[pc + ops[0].len..];
    }
  }

  lemma PushStep(env: Crypto, script: seq<byte>, pc: nat, st: State, op: Op)
    requires st.codehash <= |script| && pc <= |script| && st.vfExec == [] && |st.stack| + 1 + |st.alt| <= MAX_STACK
    requires (IsKey(op.data) && op.opcode <= OP_PUSHDATA4) || (OP_1 <= op.opcode <= OP_16 && op.data == [])
    ensures Step(env, script, st, op, pc) == Some(st.(stack := st.stack + [Pushed(op)]))
  {
    hide Signed;
  }

  lemma {:induction false} RunKeys(env: Crypto, script: seq<byte>, pc: nat, st: State, ops: seq<Op>, n: nat)
    returns (pc': nat)
    requires st.codehash <= |script| && pc <= |script| && Ops(script[pc..]) == Some(ops) && n <= |ops|
    requires st.vfExec == [] && |st.stack| + n + |st.alt| <= MAX_STACK
    requires forall i :: 0 <= i < n ==> IsKey(ops[i].data) && ops[i].opcode <= OP_PUSHDATA4
    ensures pc' <= |script| && Ops(script[pc'..]) == Some(ops[n..])
    ensures Run(env, script, pc, st) == Run(env, script, pc', st.(stack := st.stack + KeysOf(ops[..n])))
    decreases n
  {
    hide Ops, Run, Step;
    if n == 0 {
      pc' := pc;
      assert ops[0..] == ops && st.stack + KeysOf(ops[..0]) == st.stack;
    } else {
      RunOne(env, script, pc, st, ops);
      PushStep(env, script, pc + ops[0].len, st, ops[0]);
      var st' := st.(stack := st.stack + [ops[0].data]);
      pc' := RunKeys(env, script, pc + ops[0].len, st', ops[1..], n - 1);
      assert ops[1..][n - 1..] == ops[n..];
      assert st.stack + [ops[0].data] + KeysOf(ops[1..][..n - 1]) == st.stack + KeysOf(ops[..n]);
    }
  }

  lemma SmallNumber(n: int)
    requires 1 <= n <= 16
    ensures Signed(n) == [n] && Num([n]) == n
  {
    assert n / 256 == 0 && LE(0) == [] && LE(n) == [n];
    assert ([n])[0 := n % 0x80] == [n] && Val([n]) == n;
  }

  /** The operands of OP_CHECKMULTISIG on the stack that a multisig script builds over its signatures. */
  lemma ArgsOfStack(sigs: seq<valtype>, keys: seq<valtype>)
    requires 1 <= |sigs| <= |keys| <= 16
    ensures Args([[]] + sigs + [[|sigs|]] + keys + [[|keys|]]) == Some(MultisigArgs(Reverse(sigs), Reverse(keys),
        3 + |sigs| + |keys|))
  {
    var s: Stack := [[]] + sigs + [[|sigs|]] + keys + [[|keys|]];
    SmallNumber(|sigs|);
    SmallNumber(|keys|);
    assert s[2 + |sigs| + |keys|] == [|keys|] && s[1 + |sigs|] == [|sigs|];
    Interpreter.ArgsFound(s, |keys|, |sigs|);
    hide Num, Args;
    var a := Args(s).value;
    assert a.sigs == Reverse(sigs) by {
      forall k | 0 <= k < |sigs| ensures a.sigs[k] == Reverse(sigs)[k] { assert Top(s,
          3 + |keys| + k) == sigs[|sigs| - 1 - k]; }
    }
    assert a.keys == Reverse(keys) by {
      forall k | 0 <= k < |keys| ensures a.keys[k] == Reverse(keys)[k] { assert Top(s, 2 + k) == keys[|keys| - 1 - k]; }
    }
  }

  lemma MultisigStep(env: Crypto, script: seq<byte>, pc: nat, st: State, op: Op, sigs: seq<valtype>, keys: seq<valtype>)
    requires st.codehash <= |script| && pc <= |script| && IsOp(op, OP_CHECKMULTISIG) && st.alt == []
        && st.vfExec == [] && st.nOpCount == 0
    requires 1 <= |sigs| <= |keys| <= 16 && st.stack == [[]] + sigs + [[|sigs|]] + keys + [[|keys|]]
    requires Greedy(env, Stripped(script[st.codehash..], Reverse(sigs)), Reverse(sigs), Reverse(keys))
    ensures Step(env, script, st, op, pc) == Some(st.(stack := [vchTrue], nOpCount := 1 + |keys|))
  {
    ArgsOfStack(sigs, keys);
    hide Args, Greedy, Stripped;
    var st1 := Counted(st, op);
    assert Exec(env, script, st1, op, pc) == Multi(env, script, st1, op.opcode);
    assert st.stack[..|st.stack| - (3 + |sigs| + |keys|)] == [];
    assert MultisigPicture(env, op.opcode, st.stack, script[st.codehash..]) == Some([] + [vchTrue]);
    assert [] + [vchTrue] == [vchTrue];
  }

  lemma {:induction false} LengthOfOps(t: seq<byte>)
    requires Ops(t).Some? && forall i :: 0 <= i < |Ops(t).value| ==> |Ops(t).value[i].data| <= 120
    ensures |t| <= 125 * |Ops(t).value|
    decreases |t|
  {
    if t != [] {
      OpsNonEmpty(t);
      OpLength(t);
      var ops := Ops(t).value;
      assert forall i :: 0 <= i < |ops| - 1 ==> ops[1..][i] == ops[i + 1];
      LengthOfOps(t[ParseOp(t).value.len..]);
    }
  }

  lemma OpLength(t: seq<byte>)
    requires ParseOp(t).Some?
    ensures ParseOp(t).value.len <= 5 + |ParseOp(t).value.data|
  {
  }

  /** What is known of the instructions of a script that Solver takes for a good multisig script. */
  lemma MultisigOps(script: seq<byte>) returns (ops: seq<Op>, m: nat, n: nat)
    requires Solved(script).ok && Solved(script).typ == TX_MULTISIG
    ensures Ops(script) == Some(ops) && |ops| == n + 3 && 1 <= m <= n <= 16 && |script| <= MAX_SCRIPT_SIZE
    ensures ops[0] == Op(OP_1 + m - 1, [], ops[0].len) && ops[n + 1] == Op(OP_1 + n - 1, [], ops[n + 1].len)
        && IsOp(ops[n + 2], OP_CHECKMULTISIG)
    ensures forall i :: 1 <= i <= n ==> IsKey(ops[i].data) && ops[i].opcode <= OP_PUSHDATA4
    ensures Solved(script).parts == [[m]] + KeysOf(ops[1..n + 1]) + [[n]]
  {
    ops := Ops(script).value;
    assert MultisigShape(ops);
    m, n := DecodeOP_N(ops[0].opcode), DecodeOP_N(ops[|ops| - 2].opcode);
    OpsOperands(script);
    hide Ops;
    forall i | 0 <= i < |ops| ensures |ops[i].data| <= 120 {
      if i == 0 { assert IsSmallInt(ops[0].opcode); } else if i == n + 1 { assert IsSmallInt(ops[i].opcode); }
    }
    LengthOfOps(script);
  }

  /** The run of a good multisig script up to its last instruction. */
  lemma MultisigPushes(env: Crypto, script: seq<byte>, stack: Stack, ops: seq<Op>, m: nat, n: nat) returns (pc: nat)
    requires Ops(script) == Some(ops) && |ops| == n + 3 && 1 <= m <= n <= 16 && |stack| <= 17
    requires ops[0] == Op(OP_1 + m - 1, [], ops[0].len) && ops[n + 1] == Op(OP_1 + n - 1, [], ops[n + 1].len)
    requires forall i :: 1 <= i <= n ==> IsKey(ops[i].data) && ops[i].opcode <= OP_PUSHDATA4
    ensures pc <= |script| && Ops(script[pc..]) == Some(ops[n + 1..][1..])
    ensures Run(env, script, 0, Start(stack)) ==
        Run(env, script, pc, Start(stack + [[m]] + KeysOf(ops[1..n + 1]) + [[n]]))
  {
    hide Ops, Run, Step, Signed;
    var keys := KeysOf(ops[1..n + 1]);
    var st0 := Start(stack);
    assert script[0..] == script;
    SmallNumber(m);
    SmallNumber(n);
    RunOne(env, script, 0, st0, ops);
    PushStep(env, script, ops[0].len, st0, ops[0]);
    var st1 := st0.(stack := st0.stack + [[m]]);
    var pc2 := RunKeys(env, script, ops[0].len, st1, ops[1..], n);
    assert ops[1..][..n] == ops[1..n + 1] && ops[1..][n..] == ops[n + 1..];
    var st2 := st1.(stack := st1.stack + keys);
    RunOne(env, script, pc2, st2, ops[n + 1..]);
    pc := pc2 + ops[n + 1].len;
    PushStep(env, script, pc, st2, ops[n + 1]);
  }

  /** A good multisig script accepts the signatures of a merged script: they fit its keys in order. */
  lemma MultisigAccepts(env: Crypto, script: seq<byte>, sigs: seq<valtype>, f: seq<nat>)
    requires var s := Solved(script); s.ok && s.typ == TX_MULTISIG && |sigs| == s.parts[0][0]
    requires Assigns(env, script, sigs, Solved(script).parts[1..|Solved(script).parts| - 1], f)
    requires forall i :: 0 <= i < |sigs| ==> Clean(script, PushEnc(sigs[i]))
    ensures Eval(env, [[]] + sigs, script) == Some([vchTrue])
  {
    var ops, m, n := MultisigOps(script);
    hide Ops, Solved, Clean, Run, Step, PushEnc, Signed, Greedy, Assigns, Stripped, IsKey, Pushed;
    var keys := KeysOf(ops[1..n + 1]);
    assert Solved(script).parts[1..n + 1] == keys;
    var pc := MultisigPushes(env, script, [[]] + sigs, ops, m, n);
    var st := Start([[]] + sigs + [[m]] + keys + [[n]]);
    RunOne(env, script, pc, st, ops[n + 1..][1..]);
    RestIsDone(env, script, pc, ops, n);
    forall i | 0 <= i < |sigs| ensures Clean(script,
        PushEnc(Reverse(sigs)[i])) { assert Reverse(sigs)[i] == sigs[|sigs| - 1 - i]; }
    NothingStripped(script, Reverse(sigs));
    ReverseAssigned(env, script, sigs, keys, f);
    assert script[0..] == script;
    MultisigStep(env, script, pc + ops[n + 2].len, st, ops[n + 2], sigs, keys);
    RunAtEnd(env, script, st.(stack := [vchTrue], nOpCount := 1 + |keys|));
  }

  lemma RunAtEnd(env: Crypto, script: seq<byte>, st: State)
    requires st.codehash <= |script|
    ensures Run(env, script, |script|, st) == Some(st)
  {
  }

  lemma RestIsDone(env: Crypto, script: seq<byte>, pc: nat, ops: seq<Op>, n: nat)
    requires |ops| == n + 3 && pc <= |script| && Ops(script[pc..]) == Some(ops[n + 1..][1..])
    ensures pc + ops[n + 2].len == |script| && ops[n + 1..][1..] == [ops[n + 2]]
  {
    var t := script[pc..];
    OpsNonEmpty(t);
    var rest := t[ParseOp(t).value.len..];
    if rest != [] { OpsNonEmpty(rest); }
    hide ParseOp;
  }

  /** When CombineMultisig has gathered as many signatures as are required, and none of them occurs in the script, the
      merged script and then the script itself evaluate to true. */
  lemma CombinedIsAccepted(env: Crypto, scriptPubKey: seq<byte>, allsigs: set<valtype>, sigs: map<valtype, valtype>)
    requires var s := Solved(scriptPubKey); s.ok && s.typ == TX_MULTISIG
    requires var parts := Solved(scriptPubKey).parts;
      Gathered(env, scriptPubKey, parts[1..|parts| - 1], allsigs, sigs)
          && |Chosen(parts[1..|parts| - 1], sigs, parts[0][0])| == parts[0][0]
    requires forall s :: s in allsigs ==> |s| <= MAX_ELEMENT_SIZE && Clean(scriptPubKey, PushEnc(s))
    ensures var parts := Solved(scriptPubKey).parts;
      Accepted(env, Merged(parts[1..|parts| - 1], sigs, parts[0][0]), scriptPubKey, false)
  {
    hide *;
    var parts := Solved(scriptPubKey).parts;
    MultisigNumbers(scriptPubKey);
    var keys, m := parts[1..|parts| - 1], parts[0][0];
    var chosen := Chosen(keys, sigs, m);
    GatheredFromAll(env, scriptPubKey, keys, allsigs, sigs);
    ChosenFromAll(keys, allsigs, sigs, m);
    var f := ChosenAssigned(env, scriptPubKey, keys, sigs, m);
    MultisigAccepts(env, scriptPubKey, chosen, f);
    MergedEvaluates(env, chosen);
    MergedIs(keys, sigs, m);
    BothAccepted(env, Merged(keys, sigs, m), scriptPubKey, [[]] + chosen);
  }

  lemma GatheredFromAll(env: Crypto, code: valtype, keys: seq<valtype>, allsigs: set<valtype>,
        sigs: map<valtype, valtype>)
    requires Gathered(env, code, keys, allsigs, sigs)
    ensures forall k :: k in sigs ==> sigs[k] in allsigs && k in keys && env.checkSig(sigs[k], k, code)
  {
  }

  lemma MergedIs(keys: seq<valtype>, sigs: map<valtype, valtype>, m: nat)
    requires |Chosen(keys, sigs, m)| == m
    ensures Merged(keys, sigs, m) == [OP_0] + PushAllEnc(Chosen(keys, sigs, m)) + Zeros(0)
  {
    hide Chosen, PushAllEnc;
  }

  lemma BothAccepted(env: Crypto, scriptSig: seq<byte>, scriptPubKey: seq<byte>, stack: Stack)
    requires Eval(env, [], scriptSig) == Some(stack) && Eval(env, stack, scriptPubKey) == Some([vchTrue])
    ensures Accepted(env, scriptSig, scriptPubKey, false)
  {
    hide Eval, CastToBool;
    OneIsTrue();
  }

  lemma MultisigNumbers(script: seq<byte>)
    requires Solved(script).ok && Solved(script).typ == TX_MULTISIG
    ensures var parts := Solved(script).parts; |parts| >= 2 && |parts[0]| == 1 && 1 <= parts[0][0] <= 16
  {
    var ops, m, n := MultisigOps(script);
    hide Ops, Solved;
  }

  lemma OneIsTrue()
    ensures CastToBool(vchTrue)
  {
    assert vchTrue[0] != 0;
  }

  lemma MergedEvaluates(env: Crypto, chosen: seq<valtype>)
    requires |chosen| <= 16 && forall i :: 0 <= i < |chosen| ==> |chosen[i]| <= MAX_ELEMENT_SIZE
    ensures Eval(env, [], [OP_0] + PushAllEnc(chosen) + Zeros(0)) == Some([[]] + chosen)
  {
    hide Eval, PushEnc, PushAllEnc;
    MergedIsPushes(chosen);
    PushesFit([[]] + chosen);
    EvalPushAll(env, [[]] + chosen);
  }

  lemma {:induction false} ChosenFromAll(keys: seq<valtype>, allsigs: set<valtype>, sigs: map<valtype, valtype>, n: nat)
    requires forall k :: k in sigs ==> sigs[k] in allsigs
    ensures forall i :: 0 <= i < |Chosen(keys, sigs, n)| ==> Chosen(keys, sigs, n)[i] in allsigs
  {
    if keys != [] && n > 0 { ChosenFromAll(keys[1..], allsigs, sigs, if keys[0] in sigs then n - 1 else n); }
  }

  lemma MergedIsPushes(chosen: seq<valtype>)
    ensures [OP_0] + PushAllEnc(chosen) + Zeros(0) == PushAllEnc([[]] + chosen)
  {
    assert ([[]] + chosen)[1..] == chosen;
    assert PushEnc([]) == [OP_0];
  }

  lemma {:induction false} PushesFit(values: seq<valtype>)
    requires forall i :: 0 <= i < |values| ==> |values[i]| <= MAX_ELEMENT_SIZE
    ensures |PushAllEnc(values)| <= 525 * |values|
  {
    if values != [] { PushesFit(values[1..]); }
  }
}
