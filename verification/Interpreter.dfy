/** EvalScript (a3/a2/script.cpp) as the program it is, with the stacks changed step by step, proved against the
    pictures of module Machine. A thrown exception ends the script like a returned false. */
module Interpreter {
  import opened Wrappers
  import opened Bytes
  import opened BigNum
  import opened Script
  import opened FindDelete
  import opened Multisig
  import opened Machine

  /** CastToBool. */
  method CastsToBool(vch: valtype) returns (b: bool)
    ensures b == CastToBool(vch)
  {
    for i := 0 to |vch|
      invariant forall j :: 0 <= j < i ==> vch[j] == 0
    {
      if vch[i] != 0 {
        if i == |vch| - 1 && vch[i] == 0x80 { return false; }
        return true;
      }
    }
    return false;
  }

  function Popped(s: Stack): Stack
    requires s != []
  {
    s[..|s| - 1]
  }

  /** swap(stacktop(-i), stacktop(-j)). */
  function Swapped(s: Stack, i: nat, j: nat): Stack
    requires 1 <= i <= |s| && 1 <= j <= |s|
  {
    s[|s| - i := Top(s, j)][|s| - j := Top(s, i)]
  }

  /** stack.erase of the elements from the i-th to the j-th below the top, the j-th excluded. */
  function Without(s: Stack, i: nat, j: nat): Stack
    requires j <= i <= |s|
  {
    s[..|s| - i] + s[|s| - j..]
  }

  /** OP_2DROP to OP_2SWAP. */
  method ExecDouble(opcode: byte, stack0: Stack) returns (ok: bool, stack: Stack)
    requires OP_2DROP <= opcode <= OP_2SWAP
    ensures ok <==> StackPicture(opcode, stack0).Some?
    ensures ok ==> stack == StackPicture(opcode, stack0).value
  {
    hide PickPicture, CastToBool, Signed;
    ok, stack := true, stack0;
    if opcode == OP_2DROP {
      if |stack| < 2 { return false, stack; }
      stack := Popped(stack);
      stack := Popped(stack);
    } else if opcode == OP_2DUP {
      if |stack| < 2 { return false, stack; }
      var vch1, vch2 := Top(stack, 2), Top(stack, 1);
      stack := stack + [vch1];
      stack := stack + [vch2];
    } else if opcode == OP_3DUP {
      if |stack| < 3 { return false, stack; }
      var vch1, vch2, vch3 := Top(stack, 3), Top(stack, 2), Top(stack, 1);
      stack := stack + [vch1];
      stack := stack + [vch2];
      stack := stack + [vch3];
    } else if opcode == OP_2OVER {
      if |stack| < 4 { return false, stack; }
      var vch1, vch2 := Top(stack, 4), Top(stack, 3);
      stack := stack + [vch1];
      stack := stack + [vch2];
    } else if opcode == OP_2ROT {
      if |stack| < 6 { return false, stack; }
      var vch1, vch2 := Top(stack, 6), Top(stack, 5);
      stack := Without(stack, 6, 4);
      stack := stack + [vch1];
      stack := stack + [vch2];
    } else {
      if |stack| < 4 { return false, stack; }
      stack := Swapped(stack, 4, 2);
      stack := Swapped(stack, 3, 1);
    }
  }

  /** OP_IFDUP to OP_OVER. */
  method ExecSingle(opcode: byte, stack0: Stack) returns (ok: bool, stack: Stack)
    requires OP_IFDUP <= opcode <= OP_OVER
    ensures ok <==> StackPicture(opcode, stack0).Some?
    ensures ok ==> stack == StackPicture(opcode, stack0).value
  {
    hide PickPicture, CastToBool, Signed;
    ok, stack := true, stack0;
    if opcode == OP_IFDUP {
      if |stack| < 1 { return false, stack; }
      var vch := Top(stack, 1);
      var fValue := CastsToBool(vch);
      if fValue { stack := stack + [vch]; }
    } else if opcode == OP_DEPTH {
      var bn := new CBigNum(|stack|);
      var v := bn.GetVch();
      stack := stack + [v];
    } else if opcode == OP_DROP {
      if |stack| < 1 { return false, stack; }
      stack := Popped(stack);
    } else if opcode == OP_DUP {
      if |stack| < 1 { return false, stack; }
      var vch := Top(stack, 1);
      stack := stack + [vch];
    } else if opcode == OP_NIP {
      if |stack| < 2 { return false, stack; }
      stack := Without(stack, 2, 1);
    } else {
      if |stack| < 2 { return false, stack; }
      var vch := Top(stack, 2);
      stack := stack + [vch];
    }
  }

  /** OP_PICK to OP_TUCK, and OP_SIZE. */
  method ExecMove(opcode: byte, stack0: Stack) returns (ok: bool, stack: Stack)
    requires OP_PICK <= opcode <= OP_TUCK || opcode == OP_SIZE
    ensures ok <==> StackPicture(opcode, stack0).Some?
    ensures ok ==> stack == StackPicture(opcode, stack0).value
  {
    hide CastToBool, Signed, Num;
    ok, stack := true, stack0;
    if opcode == OP_PICK || opcode == OP_ROLL {
      if |stack| < 2 { return false, stack; }
      if !IsNum(Top(stack, 1)) { return false, stack; }
      var n := Num(Top(stack, 1));
      stack := Popped(stack);
      if n < 0 || n >= |stack| { return false, stack; }
      var vch := Top(stack, n + 1);
      if opcode == OP_ROLL { stack := Without(stack, n + 1, n); }
      stack := stack + [vch];
    } else if opcode == OP_ROT {
      if |stack| < 3 { return false, stack; }
      stack := Swapped(stack, 3, 2);
      stack := Swapped(stack, 2, 1);
    } else if opcode == OP_SWAP {
      if |stack| < 2 { return false, stack; }
      stack := Swapped(stack, 2, 1);
    } else if opcode == OP_TUCK {
      if |stack| < 2 { return false, stack; }
      var vch := Top(stack, 1);
      stack := stack[..|stack| - 2] + [vch] + stack[|stack| - 2..];
    } else {
      if |stack| < 1 { return false, stack; }
      var bn := new CBigNum(|Top(stack, 1)|);
      var v := bn.GetVch();
      stack := stack + [v];
    }
  }

  method PushAnswer(s: Stack, result: valtype, verify: bool) returns (ok: bool, stack: Stack)
    ensures ok <==> Answer(s, result, verify).Some?
    ensures ok ==> stack == Answer(s, result, verify).value
  {
    hide CastToBool;
    ok, stack := true, s + [result];
    if verify {
      var fValue := CastsToBool(Top(stack, 1));
      if fValue { stack := Popped(stack); } else { return false, stack; }
    }
  }

  /** The inner switch of the numeric instructions with one operand. */
  method ChangeNumber(opcode: byte, bn: CBigNum)
    requires IsUnary(opcode)
    modifies bn
    ensures bn.bn == Unary(opcode, old(bn.bn))
  {
    if opcode == OP_1ADD {
      bn.bn := bn.bn + 1;
    } else if opcode == OP_1SUB {
      bn.bn := bn.bn - 1;
    } else if opcode == OP_NEGATE {
      bn.bn := -bn.bn;
    } else if opcode == OP_ABS {
      if bn.bn < 0 { bn.bn := -bn.bn; }
    } else if opcode == OP_NOT {
      bn.bn := if bn.bn == 0 then 1 else 0;
    } else {
      bn.bn := if bn.bn != 0 then 1 else 0;
    }
  }

  /** The inner switch of the numeric instructions with two operands. */
  method CombineNumbers(opcode: byte, bn1: int, bn2: int) returns (bn: CBigNum)
    requires IsBinary(opcode)
    ensures fresh(bn) && bn.bn == Binary(opcode, bn1, bn2)
  {
    bn := new CBigNum(0);
    if opcode == OP_ADD {
      bn.bn := bn1 + bn2;
    } else if opcode == OP_SUB {
      bn.bn := bn1 - bn2;
    } else if opcode == OP_MIN {
      bn.bn := if bn1 < bn2 then bn1 else bn2;
    } else if opcode == OP_MAX {
      bn.bn := if bn1 > bn2 then bn1 else bn2;
    } else {
      var fValue :=
        if opcode == OP_BOOLAND then bn1 != 0 && bn2 != 0
        else if opcode == OP_BOOLOR then bn1 != 0 || bn2 != 0
        else if opcode == OP_NUMEQUAL then bn1 == bn2
        else if opcode == OP_NUMEQUALVERIFY then bn1 == bn2
        else if opcode == OP_NUMNOTEQUAL then bn1 != bn2
        else if opcode == OP_LESSTHAN then bn1 < bn2
        else if opcode == OP_GREATERTHAN then bn1 > bn2
        else if opcode == OP_LESSTHANOREQUAL then bn1 <= bn2
        else bn1 >= bn2;
      bn.bn := if fValue then 1 else 0;
    }
  }

  /** OP_EQUAL and the numeric instructions. */
  method ExecNumeric(opcode: byte, stack0: Stack) returns (ok: bool, stack: Stack)
    requires opcode == OP_EQUAL || opcode == OP_EQUALVERIFY || IsUnary(opcode) || IsBinary(opcode)
        || opcode == OP_WITHIN
    ensures var r := if opcode == OP_EQUAL || opcode == OP_EQUALVERIFY then EqualPicture(opcode, stack0)
                     else if IsUnary(opcode) then UnaryPicture(opcode, stack0)
                     else if IsBinary(opcode) then BinaryPicture(opcode, stack0) else WithinPicture(stack0);
            (ok <==> r.Some?) && (ok ==> stack == r.value)
  {
    hide CastToBool, Signed, Num, Answer, Unary, Binary;
    ok, stack := true, stack0;
    if opcode == OP_EQUAL || opcode == OP_EQUALVERIFY {
      if |stack| < 2 { return false, stack; }
      var fEqual := Top(stack, 2) == Top(stack, 1);
      assert Popped(Popped(stack)) == stack[..|stack| - 2];
      stack := Popped(Popped(stack));
      ok, stack := PushAnswer(stack, Bool(fEqual), opcode == OP_EQUALVERIFY);
    } else if IsUnary(opcode) {
      if |stack| < 1 || !IsNum(Top(stack, 1)) { return false, stack; }
      var bn := new CBigNum(Num(Top(stack, 1)));
      ChangeNumber(opcode, bn);
      stack := Popped(stack);
      var v := bn.GetVch();
      stack := stack + [v];
    } else if IsBinary(opcode) {
      if |stack| < 2 || !IsNum(Top(stack, 2)) || !IsNum(Top(stack, 1)) { return false, stack; }
      var bn1, bn2 := Num(Top(stack, 2)), Num(Top(stack, 1));
      var bn := CombineNumbers(opcode, bn1, bn2);
      assert Popped(Popped(stack)) == stack[..|stack| - 2];
      stack := Popped(Popped(stack));
      var v := bn.GetVch();
      ok, stack := PushAnswer(stack, v, opcode == OP_NUMEQUALVERIFY);
    } else {
      if |stack| < 3 || !IsNum(Top(stack, 3)) || !IsNum(Top(stack, 2)) || !IsNum(Top(stack, 1)) { return false, stack; }
      var bn1, bn2, bn3 := Num(Top(stack, 3)), Num(Top(stack, 2)), Num(Top(stack, 1));
      var fValue := bn2 <= bn1 && bn1 < bn3;
      assert Popped(Popped(Popped(stack))) == stack[..|stack| - 3];
      stack := Popped(Popped(Popped(stack)));
      stack := stack + [Bool(fValue)];
    }
  }

  /** Deletes the signatures, from the given element on, from the code that they sign. */
  method StripSignatures(code: valtype, sigs: seq<valtype>) returns (scriptCode: valtype)
    ensures scriptCode == Stripped(code, sigs)
  {
    var sc := new CScript(code);
    for k := 0 to |sigs|
      invariant Stripped(sc.vch, sigs[k..]) == Stripped(code, sigs)
    {
      var one := new CScript([]);
      one.PushData(sigs[k]);
      PushNotEmpty(sigs[k]);
      assert one.vch == PushEnc(sigs[k]);
      assert sigs[k..][1..] == sigs[k + 1..];
      var n := FindAndDelete(sc, one.vch);
    }
    scriptCode := sc.vch;
  }

  /** OP_CHECKSIG. */
  method ExecChecksig(env: Crypto, opcode: byte, stack0: Stack, code: valtype)
    returns (ok: bool, stack: Stack, ghost calls: nat)
    requires IsChecksig(opcode)
    ensures ok <==> ChecksigPicture(env, opcode, stack0, code).Some?
    ensures ok ==> stack == ChecksigPicture(env, opcode, stack0, code).value
    ensures calls == if |stack0| < 2 then 0 else 1
  {
    hide CastToBool, Stripped, Answer;
    stack, calls := stack0, 0;
    if |stack| < 2 { return false, stack, calls; }
    var vchSig, vchPubKey := Top(stack, 2), Top(stack, 1);
    var scriptCode := StripSignatures(code, [vchSig]);
    var fSuccess := env.checkSig(vchSig, vchPubKey, scriptCode);
    calls := calls + 1;
    assert Popped(Popped(stack)) == stack[..|stack| - 2];
    stack := Popped(Popped(stack));
    ok, stack := PushAnswer(stack, Bool(fSuccess), opcode == OP_CHECKSIGVERIFY);
  }

  /** The matching loop of OP_CHECKMULTISIG. isig and ikey count down from the top of the stack. */
  method MatchSignatures(env: Crypto, stack: Stack, isig0: nat, ikey0: nat, nSigs: nat, nKeys: nat, scriptCode: valtype,
                         ghost sigs: seq<valtype>, ghost keys: seq<valtype>)
    returns (fSuccess: bool, ghost calls: nat)
    requires 1 <= isig0 && isig0 + nSigs <= |stack| + 1 && 1 <= ikey0 && ikey0 + nKeys <= |stack| + 1 && nSigs <= nKeys
    requires |sigs| == nSigs && forall k :: 0 <= k < nSigs ==> sigs[k] == Top(stack, isig0 + k)
    requires |keys| == nKeys && forall k :: 0 <= k < nKeys ==> keys[k] == Top(stack, ikey0 + k)
    ensures fSuccess == Greedy(env, scriptCode, sigs, keys)
    ensures calls == GreedyCalls(env, scriptCode, sigs, keys)
  {
    var isig, ikey, nSigsCount, nKeysCount := isig0, ikey0, nSigs, nKeys;
    fSuccess, calls := true, 0;
    ghost var i, j := 0, 0;
    while fSuccess && nSigsCount > 0
      invariant isig == isig0 + i && ikey == ikey0 + j && 0 <= i <= nSigs && 0 <= j <= nKeys
      invariant nSigsCount == nSigs - i && nKeysCount == nKeys - j && (fSuccess <==> nSigsCount <= nKeysCount)
      invariant Greedy(env, scriptCode, sigs, keys) == Greedy(env, scriptCode, sigs[i..], keys[j..])
      invariant GreedyCalls(env, scriptCode, sigs, keys) == calls + GreedyCalls(env, scriptCode, sigs[i..], keys[j..])
      decreases nKeysCount + (if fSuccess then 1 else 0)
    {
      var vchSig, vchPubKey := Top(stack, isig), Top(stack, ikey);
      assert vchSig == sigs[i..][0] && vchPubKey == keys[j..][0];
      assert sigs[i..][1..] == sigs[i + 1..] && keys[j..][1..] == keys[j + 1..];
      calls := calls + 1;
      if env.checkSig(vchSig, vchPubKey, scriptCode) {
        isig := isig + 1;
        nSigsCount := nSigsCount - 1;
        i := i + 1;
      }
      ikey := ikey + 1;
      nKeysCount := nKeysCount - 1;
      j := j + 1;
      if nSigsCount > nKeysCount { fSuccess := false; }
    }
  }

  lemma ArgsFound(s: Stack, nKeys: nat, nSigs: nat)
    requires |s| >= 3 + nKeys + nSigs && nSigs <= nKeys <= MAX_KEYS
    requires IsNum(Top(s, 1)) && Num(Top(s, 1)) == nKeys && IsNum(Top(s, 2 + nKeys)) && Num(Top(s, 2 + nKeys)) == nSigs
    ensures Args(s).Some? && Args(s).value.removed == 3 + nKeys + nSigs
    ensures var a := Args(s).value;
      && |a.sigs| == nSigs && (forall k :: 0 <= k < nSigs ==> a.sigs[k] == Top(s, 3 + nKeys + k))
      && |a.keys| == nKeys && (forall k :: 0 <= k < nKeys ==> a.keys[k] == Top(s, 2 + k))
  {
    hide Num;
  }

  /** OP_CHECKMULTISIG. */
  method ExecMultisig(env: Crypto, opcode: byte, stack0: Stack, nOpCount0: nat, code: valtype)
    returns (ok: bool, stack: Stack, nOpCount: nat, ghost calls: nat)
    requires IsMultisig(opcode)
    ensures ok <==> Args(stack0).Some? && nOpCount0 + |Args(stack0).value.keys| <= MAX_OPS
                    && MultisigPicture(env, opcode, stack0, code).Some?
    ensures ok ==> stack == MultisigPicture(env, opcode, stack0, code).value
    ensures ok ==> nOpCount == nOpCount0 + |Args(stack0).value.keys|
    ensures calls == if Args(stack0).Some? && nOpCount0 + |Args(stack0).value.keys| <= MAX_OPS
                     then var a := Args(stack0).value; GreedyCalls(env, Stripped(code, a.sigs), a.sigs, a.keys) else 0
  {
    hide CastToBool, Stripped, Answer, Num, Greedy, GreedyCalls;
    ok, stack, nOpCount, calls := false, stack0, nOpCount0, 0;
    var i := 1;
    if |stack| < i { return; }
    if !IsNum(Top(stack, i)) { return; }
    var nKeysCount := Num(Top(stack, i));
    if nKeysCount < 0 || nKeysCount > MAX_KEYS { return; }
    nOpCount := nOpCount + nKeysCount;
    if nOpCount > MAX_OPS { ArgsKeys(stack0); return; }
    i := i + 1;
    var ikey := i;
    i := i + nKeysCount;
    if |stack| < i { return; }
    if !IsNum(Top(stack, i)) { return; }
    var nSigsCount := Num(Top(stack, i));
    if nSigsCount < 0 || nSigsCount > nKeysCount { return; }
    i := i + 1;
    var isig := i;
    i := i + nSigsCount;
    if |stack| < i { return; }
    ArgsFound(stack0, nKeysCount, nSigsCount);
    hide Args;
    ghost var a := Args(stack0).value;
    var sigs := seq(nSigsCount, k requires 0 <= k < nSigsCount => Top(stack, isig + k));
    assert sigs == a.sigs;
    var scriptCode := StripSignatures(code, sigs);
    var fSuccess;
    fSuccess, calls := MatchSignatures(env, stack, isig, ikey, nSigsCount, nKeysCount, scriptCode, a.sigs, a.keys);
    while i > 0
      invariant 0 <= i <= |stack| <= |stack0| && stack == stack0[..|stack|] && |stack| - i == |stack0| - a.removed
    {
      stack := Popped(stack);
      i := i - 1;
    }
    ok, stack := PushAnswer(stack, Bool(fSuccess), opcode == OP_CHECKMULTISIGVERIFY);
  }

  lemma ArgsKeys(s: Stack)
    ensures Args(s).Some? ==> |Args(s).value.keys| == Num(Top(s, 1))
  {
  }

  /** OP_IF to OP_ENDIF. */
  method ExecControl(st0: State, opcode: byte) returns (ok: bool, st: State)
    requires OP_IF <= opcode <= OP_ENDIF
    ensures ok <==> Control(st0, opcode).Some?
    ensures ok ==> st == Control(st0, opcode).value
  {
    hide CastToBool;
    ok, st := true, st0;
    if opcode == OP_IF || opcode == OP_NOTIF {
      var fValue := false;
      if Running(st0) {
        if |st.stack| < 1 { return false, st; }
        fValue := CastsToBool(Top(st.stack, 1));
        if opcode == OP_NOTIF { fValue := !fValue; }
        st := st.(stack := Popped(st.stack));
      }
      st := st.(vfExec := st.vfExec + [fValue]);
    } else if opcode == OP_ELSE {
      if st.vfExec == [] { return false, st; }
      st := st.(vfExec := st.vfExec[|st.vfExec| - 1 := !st.vfExec[|st.vfExec| - 1]]);
    } else if opcode == OP_ENDIF {
      if st.vfExec == [] { return false, st; }
      st := st.(vfExec := st.vfExec[..|st.vfExec| - 1]);
    } else {
      ok := false;
    }
  }

  /** The other instructions but for signature checks. */
  method ExecSimple(env: Crypto, st0: State, opcode: byte, pc: nat) returns (ok: bool, st: State)
    ensures ok <==> Simple(env, st0, opcode, pc).Some?
    ensures ok ==> st == Simple(env, st0, opcode, pc).value
  {
    hide CastToBool, StackPicture, EqualPicture, UnaryPicture, BinaryPicture, WithinPicture, HashOf, Signed;
    ok, st := true, st0;
    if opcode == OP_1NEGATE || OP_1 <= opcode <= OP_16 {
      var bn := new CBigNum(opcode - (OP_1 - 1));
      var v := bn.GetVch();
      st := st.(stack := st.stack + [v]);
    } else if opcode == OP_NOP || OP_NOP1 <= opcode <= OP_NOP10 {
    } else if opcode == OP_VERIFY {
      if |st.stack| < 1 { return false, st; }
      var fValue := CastsToBool(Top(st.stack, 1));
      if fValue { st := st.(stack := Popped(st.stack)); } else { return false, st; }
    } else if opcode == OP_RETURN {
      ok := false;
    } else if opcode == OP_TOALTSTACK {
      if |st.stack| < 1 { return false, st; }
      st := st.(alt := st.alt + [Top(st.stack, 1)]);
      st := st.(stack := Popped(st.stack));
    } else if opcode == OP_FROMALTSTACK {
      if |st.alt| < 1 { return false, st; }
      st := st.(stack := st.stack + [Top(st.alt, 1)]);
      st := st.(alt := Popped(st.alt));
    } else if IsStackOp(opcode) {
      var s;
      if opcode <= OP_2SWAP { ok, s := ExecDouble(opcode, st.stack); }
      else if opcode <= OP_OVER { ok, s := ExecSingle(opcode, st.stack); }
      else { ok, s := ExecMove(opcode, st.stack); }
      st := st.(stack := s);
    } else if opcode == OP_EQUAL || opcode == OP_EQUALVERIFY || IsUnary(opcode) || IsBinary(opcode) ||
              opcode == OP_WITHIN {
      var s;
      ok, s := ExecNumeric(opcode, st.stack);
      st := st.(stack := s);
    } else if OP_RIPEMD160 <= opcode <= OP_HASH256 {
      if |st.stack| < 1 { return false, st; }
      var vchHash := HashOf(env, opcode, Top(st.stack, 1));
      st := st.(stack := Popped(st.stack));
      st := st.(stack := st.stack + [vchHash]);
    } else if opcode == OP_CODESEPARATOR {
      st := st.(codehash := pc);
    } else {
      ok := false;
    }
  }

  /** The big switch. pc is the position after the instruction. */
  method ExecInstruction(env: Crypto, script: seq<byte>, st0: State, op: Op, pc: nat)
    returns (ok: bool, st: State, ghost calls: nat)
    requires st0.codehash <= |script|
    ensures ok <==> Exec(env, script, st0, op, pc).Some?
    ensures ok ==> st == Exec(env, script, st0, op, pc).value
    ensures calls == ExecCalls(env, script, st0, op)
  {
    hide ChecksigPicture, MultisigPicture, Args, Stripped, GreedyCalls, Simple, Control;
    var fExec := Running(st0);
    ok, st, calls := true, st0, 0;
    if fExec && op.opcode <= OP_PUSHDATA4 {
      st := st.(stack := st.stack + [op.data]);
    } else if fExec || OP_IF <= op.opcode <= OP_ENDIF {
      if OP_IF <= op.opcode <= OP_ENDIF {
        ok, st := ExecControl(st, op.opcode);
      } else if IsChecksig(op.opcode) {
        var s;
        ok, s, calls := ExecChecksig(env, op.opcode, st.stack, script[st.codehash..]);
        st := st.(stack := s);
      } else if IsMultisig(op.opcode) {
        var s, n;
        ok, s, n, calls := ExecMultisig(env, op.opcode, st.stack, st.nOpCount, script[st.codehash..]);
        st := st.(stack := s, nOpCount := n);
      } else {
        ok, st := ExecSimple(env, st, op.opcode, pc);
      }
    }
  }

  /** The loop body of EvalScript after the instruction is read. */
  method ExecStep(env: Crypto, script: seq<byte>, st0: State, op: Op, pc: nat)
    returns (ok: bool, st: State, ghost calls: nat)
    requires st0.codehash <= |script| && pc <= |script|
    ensures ok <==> Step(env, script, st0, op, pc).Some?
    ensures ok ==> st == Step(env, script, st0, op, pc).value
    ensures calls == StepCalls(env, script, st0, op)
  {
    hide Exec, ExecCalls;
    ok, st, calls := false, st0, 0;
    if |op.data| > MAX_ELEMENT_SIZE { return; }
    if op.opcode > OP_16 {
      st := st.(nOpCount := st.nOpCount + 1);
      if st.nOpCount > MAX_OPS { return; }
    }
    if Disabled(op.opcode) { return; }
    assert st == Counted(st0, op) && Admitted(st0, op);
    ok, st, calls := ExecInstruction(env, script, st, op, pc);
    if ok && |st.stack| + |st.alt| > MAX_STACK { ok := false; }
  }

  /** EvalScript. `calls` counts the calls of CheckSig, also those of a script that fails. */
  method EvalScript(env: Crypto, stack0: Stack, script: seq<byte>) returns (ok: bool, stack: Stack, ghost calls: nat)
    ensures ok <==> Eval(env, stack0, script).Some?
    ensures ok ==> stack == Eval(env, stack0, script).value
    ensures calls == EvalCalls(env, stack0, script)
  {
    hide Step, StepCalls, ParseOp;
    stack, calls := stack0, 0;
    if |script| > MAX_SCRIPT_SIZE { return false, stack, calls; }
    var pc, st := 0, Start(stack0);
    while pc < |script|
      invariant 0 <= pc <= |script| && st.codehash <= |script|
      invariant Run(env, script, 0, Start(stack0)) == Run(env, script, pc, st)
      invariant RunCalls(env, script, 0, Start(stack0)) == calls + RunCalls(env, script, pc, st)
    {
      var read, pc2, opcode, vch := GetOp2(script, pc);
      if !read { return false, stack, calls; }
      var done, st2;
      ghost var more;
      done, st2, more := ExecStep(env, script, st, Op(opcode, vch, pc2 - pc), pc2);
      calls := calls + more;
      if !done { return false, stack, calls; }
      pc, st := pc2, st2;
    }
    stack := st.stack;
    ok := st.vfExec == [];
  }
}
