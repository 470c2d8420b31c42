/** GetSigOpCount and VerifyScript (a3/a2/script.cpp): no script calls CheckSig more often than its count says, whether
    it succeeds or fails. */
module SigOps {
  import opened Wrappers
  import opened Bytes
  import opened BigNum
  import opened Script
  import opened Multisig
  import opened Machine
  import opened Interpreter

  predicate IsOpN(opcode: byte) { OP_1 <= opcode <= OP_16 }

  /** What one instruction adds to the count. */
  function Weight(opcode: byte, last: byte, fAccurate: bool): nat {
    if IsChecksig(opcode) then 1
    else if IsMultisig(opcode) then (if fAccurate && IsOpN(last) then DecodeOP_N(last) else 20)
    else 0
  }

  /** The count from position pc on, after the instruction `last`. */
  function CountFrom(script: seq<byte>, pc: nat, last: byte, fAccurate: bool): nat
    requires pc <= |script|
    decreases |script| - pc
  {
    match ParseOp(script[pc..])
    case None => 0
    case Some(op) => Weight(op.opcode, last, fAccurate) + CountFrom(script, pc + op.len, op.opcode, fAccurate)
  }

  function SigOpCount(script: seq<byte>, fAccurate: bool): nat {
    CountFrom(script, 0, OP_INVALIDOPCODE, fAccurate)
  }

  /** GetSigOpCount(bool). */
  method GetSigOpCount(script: seq<byte>, fAccurate: bool) returns (n: nat)
    ensures n == SigOpCount(script, fAccurate)
  {
    hide ParseOp;
    n := 0;
    var pc, lastOpcode: byte := 0, OP_INVALIDOPCODE;
    while pc < |script|
      invariant 0 <= pc <= |script|
      invariant n + CountFrom(script, pc, lastOpcode, fAccurate) == SigOpCount(script, fAccurate)
    {
      var ok, pc2, opcode, vch := GetOp2(script, pc);
      if !ok { return; }
      if opcode == OP_CHECKSIG || opcode == OP_CHECKSIGVERIFY {
        n := n + 1;
      } else if opcode == OP_CHECKMULTISIG || opcode == OP_CHECKMULTISIGVERIFY {
        if fAccurate && lastOpcode >= OP_1 && lastOpcode <= OP_16 {
          n := n + DecodeOP_N(lastOpcode);
        } else {
          n := n + 20;
        }
      }
      lastOpcode := opcode;
      pc := pc2;
    }
    NothingToParse();
  }

  lemma NothingToParse()
    ensures ParseOp([]) == None
  {
  }

  /** After a small number was pushed, it is on the top of the stack; it was pushed unless the branch is not taken. */
  predicate LastPushed(st: State, last: byte) {
    IsOpN(last) && Running(st) ==> st.stack != [] && Top(st.stack, 1) == Signed(DecodeOP_N(last))
  }

  lemma StepPushes(env: Crypto, script: seq<byte>, st: State, op: Op, pc: nat)
    requires st.codehash <= |script| && pc <= |script| && Step(env, script, st, op, pc).Some?
    ensures LastPushed(Step(env, script, st, op, pc).value, op.opcode)
  {
    hide Signed, Control;
  }

  lemma StepWithinWeight(env: Crypto, script: seq<byte>, st: State, op: Op, last: byte, fAccurate: bool)
    requires st.codehash <= |script| && LastPushed(st, last)
    ensures StepCalls(env, script, st, op) <= Weight(op.opcode, last, fAccurate)
  {
    hide Signed, Num, Args, GreedyCalls, Stripped;
    if IsOpN(last) { NumOfSigned(DecodeOP_N(last)); }
  }

  lemma {:induction false} RunWithinCount(env: Crypto, script: seq<byte>, pc: nat, st: State, last: byte,
        fAccurate: bool)
    requires st.codehash <= |script| && pc <= |script| && LastPushed(st, last)
    ensures RunCalls(env, script, pc, st) <= CountFrom(script, pc, last, fAccurate)
    decreases |script| - pc
  {
    hide ParseOp, Step, StepCalls, Weight, LastPushed;
    if pc < |script| && ParseOp(script[pc..]).Some? {
      var op := ParseOp(script[pc..]).value;
      StepWithinWeight(env, script, st, op, last, fAccurate);
      var next := Step(env, script, st, op, pc + op.len);
      if next.Some? {
        StepPushes(env, script, st, op, pc + op.len);
        RunWithinCount(env, script, pc + op.len, next.value, op.opcode, fAccurate);
      }
    }
  }

  /** Every script, from every starting stack, calls CheckSig at most as often as each of the two counts says. */
  lemma CallsWithinSigOps(env: Crypto, stack: Stack, script: seq<byte>, fAccurate: bool)
    ensures EvalCalls(env, stack, script) <= SigOpCount(script, fAccurate)
  {
    RunWithinCount(env, script, 0, Start(stack), OP_INVALIDOPCODE, fAccurate);
  }

  // ----- pay to script hash (BIP 16) -----

  /** IsPayToScriptHash. */
  predicate IsPayToScriptHash(script: seq<byte>) {
    |script| == 23 && script[0] == OP_HASH160 && script[1] == 0x14 && script[22] == OP_EQUAL
  }

  /** The script, from pc on, is whole instructions that push literals. */
  predicate PushOnlyFrom(script: seq<byte>, pc: nat)
    requires pc <= |script|
    decreases |script| - pc
  {
    pc == |script| ||
    match ParseOp(script[pc..])
    case None => false
    case Some(op) => op.opcode <= OP_16 && PushOnlyFrom(script, pc + op.len)
  }

  /** IsPushOnly. */
  method IsPushOnly(script: seq<byte>) returns (b: bool)
    ensures b == PushOnlyFrom(script, 0)
  {
    hide ParseOp;
    var pc := 0;
    while pc < |script|
      invariant 0 <= pc <= |script|
      invariant PushOnlyFrom(script, 0) == PushOnlyFrom(script, pc)
    {
      var ok, pc2, opcode, vch := GetOp2(script, pc);
      if !ok { return false; }
      if opcode > OP_16 { return false; }
      pc := pc2;
    }
    return true;
  }

  /** The operand of the last instruction of a script of literals: nothing for OP_1NEGATE to OP_16. */
  function LastOperand(script: seq<byte>, pc: nat, data: valtype): Option<valtype>
    requires pc <= |script|
    decreases |script| - pc
  {
    if pc == |script| then Some(data)
    else
      match ParseOp(script[pc..])
      case None => None
      case Some(op) => if op.opcode > OP_16 then None else LastOperand(script, pc + op.len, op.data)
  }

  function SigOpCountP2sh(scriptPubKey: seq<byte>, scriptSig: seq<byte>): nat {
    if !IsPayToScriptHash(scriptPubKey) then SigOpCount(scriptPubKey, true)
    else
      match LastOperand(scriptSig, 0, [])
      case None => 0
      case Some(data) => SigOpCount(data, true)
  }

  /** GetSigOpCount(scriptSig), of a scriptPubKey. */
  method GetSigOpCountP2sh(scriptPubKey: seq<byte>, scriptSig: seq<byte>) returns (n: nat)
    ensures n == SigOpCountP2sh(scriptPubKey, scriptSig)
  {
    hide ParseOp, SigOpCount;
    if !IsPayToScriptHash(scriptPubKey) {
      n := GetSigOpCount(scriptPubKey, true);
      return;
    }
    var pc, data := 0, [];
    while pc < |scriptSig|
      invariant 0 <= pc <= |scriptSig|
      invariant LastOperand(scriptSig, 0, []) == LastOperand(scriptSig, pc, data)
    {
      var ok, pc2, opcode, vch := GetOp2(scriptSig, pc);
      if !ok { return 0; }
      if opcode > OP_16 { return 0; }
      pc, data := pc2, vch;
    }
    n := GetSigOpCount(data, true);
  }

  predicate Accepts(r: Option<Stack>) {
    r.Some? && r.value != [] && CastToBool(Top(r.value, 1))
  }

  /** The script that a pay-to-script-hash spend hands over, and the stack under it. */
  predicate Accepted(env: Crypto, scriptSig: seq<byte>, scriptPubKey: seq<byte>, fP2sh: bool) {
    var first := Eval(env, [], scriptSig);
    && first.Some? && Accepts(Eval(env, first.value, scriptPubKey))
    && (fP2sh && IsPayToScriptHash(scriptPubKey) ==>
          && PushOnlyFrom(scriptSig, 0) && first.value != []
          && Accepts(Eval(env, first.value[..|first.value| - 1], Top(first.value, 1))))
  }

  lemma P2shNeedsStack(env: Crypto, stack: Stack, script: seq<byte>)
    requires IsPayToScriptHash(script) && Eval(env, stack, script).Some?
    ensures stack != []
  {
    assert script[0..] == script;
    assert ParseOp(script) == Some(Op(OP_HASH160, [], 1));
    var op := Op(OP_HASH160, [], 1);
    assert Step(env, script, Start(stack), op, 1).Some?;
    assert Exec(env, script, Counted(Start(stack), op), op, 1) == Simple(env, Counted(Start(stack), op), OP_HASH160, 1);
  }

  /** VerifyScript. `redeem` counts the CheckSig calls of the third run, that of the script handed over. */
  method VerifyScript(env: Crypto, scriptSig: seq<byte>, scriptPubKey: seq<byte>, fValidatePayToScriptHash: bool)
    returns (ok: bool, ghost calls: nat, ghost redeem: nat)
    ensures ok == Accepted(env, scriptSig, scriptPubKey, fValidatePayToScriptHash)
    ensures calls <= SigOpCount(scriptSig, false) + SigOpCount(scriptPubKey, false)
    ensures calls <= SigOpCount(scriptSig, true) + SigOpCount(scriptPubKey, true)
    ensures redeem > 0 ==> fValidatePayToScriptHash && IsPayToScriptHash(scriptPubKey)
    ensures redeem <= SigOpCountP2sh(scriptPubKey, scriptSig)
  {
    hide Eval, EvalCalls, SigOpCount, CastToBool, IsPayToScriptHash, PushOnlyFrom, SigOpCountP2sh;
    calls, redeem := 0, 0;
    forall acc { CallsWithinSigOps(env, [], scriptSig, acc); }
    var stack, stackCopy;
    ghost var more;
    ok, stack, calls := EvalScript(env, [], scriptSig);
    if !ok { return; }
    stackCopy := stack;
    forall acc { CallsWithinSigOps(env, stackCopy, scriptPubKey, acc); }
    ok, stack, more := EvalScript(env, stack, scriptPubKey);
    calls := calls + more;
    if !ok { return; }
    if stack == [] { return false, calls, redeem; }
    ok := CastsToBool(Top(stack, 1));
    if !ok { return; }
    if fValidatePayToScriptHash && IsPayToScriptHash(scriptPubKey) {
      ok := IsPushOnly(scriptSig);
      if !ok { return; }
      P2shNeedsStack(env, stackCopy, scriptPubKey);
      var pubKey2 := Top(stackCopy, 1);
      RedeemWithinSigOps(env, scriptSig, scriptPubKey, stackCopy);
      stackCopy := Popped(stackCopy);
      ok, stackCopy, redeem := EvalScript(env, stackCopy, pubKey2);
      if !ok { return; }
      if stackCopy == [] { return false, calls, redeem; }
      ok := CastsToBool(Top(stackCopy, 1));
    }
  }

  /** A literal in a running script is pushed. */
  lemma LiteralIsPushed(env: Crypto, script: seq<byte>, st: State, op: Op, pc: nat)
    requires st.codehash <= |script| && pc <= |script| && st.vfExec == [] && op.opcode <= OP_16
    requires Step(env, script, st, op, pc).Some?
    ensures var st' := Step(env, script, st, op, pc).value;
      st'.vfExec == [] && st'.stack == st.stack + [Pushed(op)] && op.opcode != OP_RESERVED
  {
    hide Signed;
  }

  /** A script of literals leaves its last literal on top. */
  lemma {:induction false} LastLiteralOnTop(env: Crypto, script: seq<byte>, pc: nat, st: State, data: valtype)
    requires st.codehash <= |script| && pc <= |script| && PushOnlyFrom(script, pc) && st.vfExec == []
    requires Run(env, script, pc, st).Some?
    requires st.stack != [] ==>
        (Top(st.stack, 1) == data
            || (data == [] && exists k :: (k == -1 || 1 <= k <= 16) && Top(st.stack, 1) == Signed(k)))
    ensures LastOperand(script, pc, data).Some?
    ensures var s, last := Run(env, script, pc, st).value.stack, LastOperand(script, pc, data).value;
      s != [] ==> (Top(s, 1) == last || (last == [] && exists k :: (k == -1 || 1 <= k <= 16) && Top(s, 1) == Signed(k)))
    decreases |script| - pc
  {
    hide ParseOp, Step, Signed;
    if pc < |script| {
      var op := ParseOp(script[pc..]).value;
      var st' := Step(env, script, st, op, pc + op.len).value;
      LiteralIsPushed(env, script, st, op, pc + op.len);
      if Pushed(op) != op.data {
        var k := op.opcode - (OP_1 - 1);
        assert (k == -1 || 1 <= k <= 16) && Top(st'.stack, 1) == Signed(k);
        NoOperand(script, pc);
      }
      LastLiteralOnTop(env, script, pc + op.len, st', op.data);
    }
  }

  lemma NoOperand(script: seq<byte>, pc: nat)
    requires pc <= |script| && ParseOp(script[pc..]).Some?
    ensures ParseOp(script[pc..]).value.opcode > OP_PUSHDATA4 ==> ParseOp(script[pc..]).value.data == []
  {
  }

  /** A small number, run as a script, fails before any signature check. */
  lemma NumberCallsNothing(env: Crypto, stack: Stack, k: int)
    requires k == -1 || 1 <= k <= 16
    ensures EvalCalls(env, stack, Signed(k)) == 0
  {
    var s := Signed(k);
    assert s == [if k == -1 then 0x81 else k] by {
      assert LE(1) == [1];
      if k != -1 { assert LE(k) == [k]; }
    }
    assert s[0..] == s;
    if k == -1 {
      assert ParseOp(s) == Some(Op(0x81, [], 1));
    } else {
      assert ParseOp(s) == None;
    }
  }

  /** The script that a pay-to-script-hash spend hands over calls CheckSig at most as often as the count that looks into
      scriptSig says. */
  lemma RedeemWithinSigOps(env: Crypto, scriptSig: seq<byte>, scriptPubKey: seq<byte>, stack: Stack)
    requires Eval(env, [], scriptSig) == Some(stack) && stack != [] && PushOnlyFrom(scriptSig, 0)
        && IsPayToScriptHash(scriptPubKey)
    ensures EvalCalls(env, stack[..|stack| - 1], Top(stack, 1)) <= SigOpCountP2sh(scriptPubKey, scriptSig)
  {
    LastLiteralOnTop(env, scriptSig, 0, Start([]), []);
    hide Run, LastOperand, IsPayToScriptHash, PushOnlyFrom, SigOpCount, EvalCalls, Signed;
    var data, top, below := LastOperand(scriptSig, 0, []).value, Top(stack, 1), stack[..|stack| - 1];
    if top == data {
      CallsWithinSigOps(env, below, data, true);
    } else {
      var k :| (k == -1 || 1 <= k <= 16) && top == Signed(k);
      NumberCallsNothing(env, below, k);
    }
  }
}
