/** The script machine (EvalScript in a3/a2/script.cpp) as a state transition: what each instruction does to the stacks,
    stated as the picture before and after it. */
module Machine {
  import opened Wrappers
  import opened Bytes
  import opened BigNum
  import opened Script
  import opened FindDelete
  import opened Multisig

  const MAX_SCRIPT_SIZE := 10000
  const MAX_ELEMENT_SIZE := 520
  const MAX_OPS := 201
  const MAX_STACK := 1000
  const MAX_KEYS := 20

  const OP_NOP := 0x61
  const OP_IF := 0x63
  const OP_NOTIF := 0x64
  const OP_ELSE := 0x67
  const OP_ENDIF := 0x68
  const OP_VERIFY := 0x69
  const OP_RETURN := 0x6a
  const OP_TOALTSTACK := 0x6b
  const OP_FROMALTSTACK := 0x6c
  const OP_2DROP := 0x6d
  const OP_2DUP := 0x6e
  const OP_3DUP := 0x6f
  const OP_2OVER := 0x70
  const OP_2ROT := 0x71
  const OP_2SWAP := 0x72
  const OP_IFDUP := 0x73
  const OP_DEPTH := 0x74
  const OP_DROP := 0x75
  const OP_DUP := 0x76
  const OP_NIP := 0x77
  const OP_OVER := 0x78
  const OP_PICK := 0x79
  const OP_ROLL := 0x7a
  const OP_ROT := 0x7b
  const OP_SWAP := 0x7c
  const OP_TUCK := 0x7d
  const OP_SIZE := 0x82
  const OP_EQUAL := 0x87
  const OP_EQUALVERIFY := 0x88
  const OP_1ADD := 0x8b
  const OP_1SUB := 0x8c
  const OP_NEGATE := 0x8f
  const OP_ABS := 0x90
  const OP_NOT := 0x91
  const OP_0NOTEQUAL := 0x92
  const OP_ADD := 0x93
  const OP_SUB := 0x94
  const OP_BOOLAND := 0x9a
  const OP_BOOLOR := 0x9b
  const OP_NUMEQUAL := 0x9c
  const OP_NUMEQUALVERIFY := 0x9d
  const OP_NUMNOTEQUAL := 0x9e
  const OP_LESSTHAN := 0x9f
  const OP_GREATERTHAN := 0xa0
  const OP_LESSTHANOREQUAL := 0xa1
  const OP_GREATERTHANOREQUAL := 0xa2
  const OP_MIN := 0xa3
  const OP_MAX := 0xa4
  const OP_WITHIN := 0xa5
  const OP_RIPEMD160 := 0xa6
  const OP_SHA1 := 0xa7
  const OP_SHA256 := 0xa8
  const OP_HASH160 := 0xa9
  const OP_HASH256 := 0xaa
  const OP_CODESEPARATOR := 0xab
  const OP_CHECKSIG := 0xac
  const OP_CHECKSIGVERIFY := 0xad
  const OP_CHECKMULTISIG := 0xae
  const OP_CHECKMULTISIGVERIFY := 0xaf
  const OP_NOP1 := 0xb0
  const OP_NOP10 := 0xb9

  type Stack = seq<valtype>

  /** The local variables of EvalScript. codehash is pbegincodehash. */
  datatype State = State(stack: Stack, alt: Stack, vfExec: seq<bool>, nOpCount: nat, codehash: nat)

  /** CastToBool: any byte but zero, except for a sign at the very end. */
  predicate CastToBool(vch: valtype) {
    exists i :: 0 <= i < |vch| && vch[i] != 0 && !(i == |vch| - 1 && vch[i] == 0x80)
  }

  const vchTrue: valtype := [1]
  const vchFalse: valtype := []

  function Bool(b: bool): valtype { if b then vchTrue else vchFalse }

  function BoolNum(b: bool): int { if b then 1 else 0 }

  /** CastToBigNum does not throw. */
  predicate IsNum(vch: valtype) { |vch| <= 4 }

  // ----- the instructions that only rearrange the stack -----

  predicate IsStackOp(opcode: byte) { OP_2DROP <= opcode <= OP_TUCK || opcode == OP_SIZE }

  function StackPicture(opcode: byte, s: Stack): Option<Stack>
    requires IsStackOp(opcode)
  {
    var n := |s|;
    if opcode == OP_2DROP then (if n < 2 then None else Some(s[..n - 2]))
    else if opcode == OP_2DUP then (if n < 2 then None else Some(s + s[n - 2..]))
    else if opcode == OP_3DUP then (if n < 3 then None else Some(s + s[n - 3..]))
    else if opcode == OP_2OVER then (if n < 4 then None else Some(s + s[n - 4..n - 2]))
    else if opcode == OP_2ROT then (if n < 6 then None else Some(s[..n - 6] + s[n - 4..] + s[n - 6..n - 4]))
    else if opcode == OP_2SWAP then (if n < 4 then None else Some(s[..n - 4] + s[n - 2..] + s[n - 4..n - 2]))
    else if opcode == OP_IFDUP then (if n < 1 then None else Some(if CastToBool(s[n - 1]) then s + [s[n - 1]] else s))
    else if opcode == OP_DEPTH then Some(s + [Signed(n)])
    else if opcode == OP_DROP then (if n < 1 then None else Some(s[..n - 1]))
    else if opcode == OP_DUP then (if n < 1 then None else Some(s + [s[n - 1]]))
    else if opcode == OP_NIP then (if n < 2 then None else Some(s[..n - 2] + [s[n - 1]]))
    else if opcode == OP_OVER then (if n < 2 then None else Some(s + [s[n - 2]]))
    else if opcode == OP_PICK || opcode == OP_ROLL then PickPicture(opcode == OP_ROLL, s)
    else if opcode == OP_ROT then (if n < 3 then None else Some(s[..n - 3] + [s[n - 2], s[n - 1], s[n - 3]]))
    else if opcode == OP_SWAP then (if n < 2 then None else Some(s[..n - 2] + [s[n - 1], s[n - 2]]))
    else if opcode == OP_TUCK then (if n < 2 then None else Some(s[..n - 2] + [s[n - 1], s[n - 2], s[n - 1]]))
    else if n < 1 then None else Some(s + [Signed(|s[n - 1]|)])
  }

  /** (xn ... x1 x0 n -- xn ... x1 x0 xn), or without the first xn for OP_ROLL. */
  function PickPicture(roll: bool, s: Stack): Option<Stack> {
    if |s| < 2 || !IsNum(s[|s| - 1]) then None
    else
      var k, t := Num(s[|s| - 1]), s[..|s| - 1];
      if k < 0 || k >= |t| then None
      else
        var at := |t| - 1 - k;
        Some(if roll then t[..at] + t[at + 1..] + [t[at]] else t + [t[at]])
  }

  // ----- arithmetic -----

  predicate IsUnary(opcode: byte) { opcode == OP_1ADD || opcode == OP_1SUB || OP_NEGATE <= opcode <= OP_0NOTEQUAL }

  function Unary(opcode: byte, a: int): int
    requires IsUnary(opcode)
  {
    if opcode == OP_1ADD then a + 1
    else if opcode == OP_1SUB then a - 1
    else if opcode == OP_NEGATE then -a
    else if opcode == OP_ABS then (if a < 0 then -a else a)
    else if opcode == OP_NOT then BoolNum(a == 0)
    else BoolNum(a != 0)
  }

  predicate IsBinary(opcode: byte) { opcode == OP_ADD || opcode == OP_SUB || OP_BOOLAND <= opcode <= OP_MAX }

  function Binary(opcode: byte, a: int, b: int): int
    requires IsBinary(opcode)
  {
    if opcode == OP_ADD then a + b
    else if opcode == OP_SUB then a - b
    else if opcode == OP_BOOLAND then BoolNum(a != 0 && b != 0)
    else if opcode == OP_BOOLOR then BoolNum(a != 0 || b != 0)
    else if opcode == OP_NUMEQUAL || opcode == OP_NUMEQUALVERIFY then BoolNum(a == b)
    else if opcode == OP_NUMNOTEQUAL then BoolNum(a != b)
    else if opcode == OP_LESSTHAN then BoolNum(a < b)
    else if opcode == OP_GREATERTHAN then BoolNum(a > b)
    else if opcode == OP_LESSTHANOREQUAL then BoolNum(a <= b)
    else if opcode == OP_GREATERTHANOREQUAL then BoolNum(a >= b)
    else if opcode == OP_MIN then (if a < b then a else b)
    else if a > b then a else b
  }

  /** A result, or for the -VERIFY forms nothing if it is true and failure if it is not. */
  function Answer(s: Stack, result: valtype, verify: bool): Option<Stack> {
    if !verify then Some(s + [result]) else if CastToBool(result) then Some(s) else None
  }

  function UnaryPicture(opcode: byte, s: Stack): Option<Stack>
    requires IsUnary(opcode)
  {
    var n := |s|;
    if n < 1 || !IsNum(s[n - 1]) then None else Some(s[..n - 1] + [Signed(Unary(opcode, Num(s[n - 1])))])
  }

  function BinaryPicture(opcode: byte, s: Stack): Option<Stack>
    requires IsBinary(opcode)
  {
    var n := |s|;
    if n < 2 || !IsNum(s[n - 2]) || !IsNum(s[n - 1]) then None
    else Answer(s[..n - 2], Signed(Binary(opcode, Num(s[n - 2]), Num(s[n - 1]))), opcode == OP_NUMEQUALVERIFY)
  }

  function WithinPicture(s: Stack): Option<Stack> {
    var n := |s|;
    if n < 3 || !IsNum(s[n - 3]) || !IsNum(s[n - 2]) || !IsNum(s[n - 1]) then None
    else Some(s[..n - 3] + [Bool(Num(s[n - 2]) <= Num(s[n - 3]) < Num(s[n - 1]))])
  }

  function EqualPicture(opcode: byte, s: Stack): Option<Stack> {
    var n := |s|;
    if n < 2 then None else Answer(s[..n - 2], Bool(s[n - 2] == s[n - 1]), opcode == OP_EQUALVERIFY)
  }

  // ----- hashes and signatures -----

  function HashOf(env: Crypto, opcode: byte, v: valtype): valtype {
    if opcode == OP_RIPEMD160 then env.ripemd160(v)
    else if opcode == OP_SHA1 then env.sha1(v)
    else if opcode == OP_SHA256 then env.sha256(v)
    else if opcode == OP_HASH160 then env.hash160(v)
    else env.hash256(v)
  }

  /** The code that a signature signs: without the signatures themselves. */
  function Stripped(code: valtype, sigs: seq<valtype>): valtype
    decreases |sigs|
  {
    if sigs == [] then code
    else
      PushNotEmpty(sigs[0]);
      Stripped(Deleted(code, PushEnc(sigs[0])), sigs[1..])
  }

  lemma PushNotEmpty(b: valtype)
    ensures PushEnc(b) != []
  {
  }

  function ChecksigPicture(env: Crypto, opcode: byte, s: Stack, code: valtype): Option<Stack> {
    var n := |s|;
    if n < 2 then None
    else
      Answer(s[..n - 2], Bool(env.checkSig(s[n - 2], s[n - 1], Stripped(code, [s[n - 2]]))),
          opcode == OP_CHECKSIGVERIFY)
  }

  /** The operands of OP_CHECKMULTISIG, signatures and keys from the top down, and how many elements it removes:
      ([sig ...] num_of_signatures [pubkey ...] num_of_pubkeys), and one below. */
  datatype MultisigArgs = MultisigArgs(sigs: seq<valtype>, keys: seq<valtype>, removed: nat)

  /** The element i below the top; the topmost is element 1. */
  function Top(s: Stack, i: nat): valtype
    requires 1 <= i <= |s|
  {
    s[|s| - i]
  }

  function Args(s: Stack): (r: Option<MultisigArgs>)
    ensures r.Some? ==> r.value.removed <= |s| && |r.value.sigs| <= |r.value.keys| <= MAX_KEYS
    ensures r.Some? ==> s != [] && |r.value.keys| == Num(Top(s, 1))
  {
    if |s| < 1 || !IsNum(Top(s, 1)) then None
    else
      var nKeys := Num(Top(s, 1));
      if nKeys < 0 || nKeys > MAX_KEYS || |s| < 2 + nKeys || !IsNum(Top(s, 2 + nKeys)) then None
      else
        var nSigs := Num(Top(s, 2 + nKeys));
        if nSigs < 0 || nSigs > nKeys || |s| < 3 + nKeys + nSigs then None
        else
          Some(MultisigArgs(seq(nSigs, k requires 0 <= k < nSigs => Top(s, 3 + nKeys + k)),
                            seq(nKeys, k requires 0 <= k < nKeys => Top(s, 2 + k)), 3 + nKeys + nSigs))
  }

  function MultisigPicture(env: Crypto, opcode: byte, s: Stack, code: valtype): Option<Stack> {
    match Args(s)
    case None => None
    case Some(a) =>
      Answer(s[..|s| - a.removed], Bool(Greedy(env, Stripped(code, a.sigs), a.sigs, a.keys)),
          opcode == OP_CHECKMULTISIGVERIFY)
  }

  // ----- one instruction -----

  predicate Disabled(opcode: byte) {
    0x7e <= opcode <= 0x81 || 0x83 <= opcode <= 0x86 || opcode == 0x8d || opcode == 0x8e || 0x95 <= opcode <= 0x99
  }

  predicate Running(st: State) { false !in st.vfExec }

  function OnStack(st: State, r: Option<Stack>): Option<State> {
    match r case None => None case Some(s) => Some(st.(stack := s))
  }

  /** OP_IF to OP_ENDIF. OP_VERIF and OP_VERNOTIF lie between them and fail even in a branch that is not taken. */
  function Control(st: State, opcode: byte): Option<State>
    requires OP_IF <= opcode <= OP_ENDIF
  {
    var n, m := |st.stack|, |st.vfExec|;
    if opcode == OP_IF || opcode == OP_NOTIF then
      if !Running(st) then Some(st.(vfExec := st.vfExec + [false]))
      else if n < 1 then None
      else
        Some(st.(stack := st.stack[..n - 1], vfExec := st.vfExec + [CastToBool(st.stack[n - 1]) == (opcode == OP_IF)]))
    else if opcode == OP_ELSE then
      if m == 0 then None else Some(st.(vfExec := st.vfExec[m - 1 := !st.vfExec[m - 1]]))
    else if opcode == OP_ENDIF then
      if m == 0 then None else Some(st.(vfExec := st.vfExec[..m - 1]))
    else None
  }

  /** The instructions other than pushes of data, OP_IF to OP_ENDIF, and signature checks. */
  function Simple(env: Crypto, st: State, opcode: byte, pc: nat): Option<State> {
    var n, s := |st.stack|, st.stack;
    if opcode == OP_1NEGATE || OP_1 <= opcode <= OP_16 then Some(st.(stack := s + [Signed(opcode - (OP_1 - 1))]))
    else if opcode == OP_NOP || OP_NOP1 <= opcode <= OP_NOP10 then Some(st)
    else if opcode == OP_VERIFY then
      if n >= 1 && CastToBool(s[n - 1]) then Some(st.(stack := s[..n - 1])) else None
    else if opcode == OP_TOALTSTACK then
      if n < 1 then None else Some(st.(stack := s[..n - 1], alt := st.alt + [s[n - 1]]))
    else if opcode == OP_FROMALTSTACK then
      if |st.alt| < 1 then None else Some(st.(stack := s + [st.alt[|st.alt| - 1]], alt := st.alt[..|st.alt| - 1]))
    else if IsStackOp(opcode) then OnStack(st, StackPicture(opcode, s))
    else if opcode == OP_EQUAL || opcode == OP_EQUALVERIFY then OnStack(st, EqualPicture(opcode, s))
    else if IsUnary(opcode) then OnStack(st, UnaryPicture(opcode, s))
    else if IsBinary(opcode) then OnStack(st, BinaryPicture(opcode, s))
    else if opcode == OP_WITHIN then OnStack(st, WithinPicture(s))
    else if OP_RIPEMD160 <= opcode <= OP_HASH256 then
      if n < 1 then None else Some(st.(stack := s[..n - 1] + [HashOf(env, opcode, s[n - 1])]))
    else if opcode == OP_CODESEPARATOR then Some(st.(codehash := pc))
    else None
  }

  predicate IsChecksig(opcode: byte) { opcode == OP_CHECKSIG || opcode == OP_CHECKSIGVERIFY }

  predicate IsMultisig(opcode: byte) { opcode == OP_CHECKMULTISIG || opcode == OP_CHECKMULTISIGVERIFY }

  /** OP_CHECKMULTISIG counts its keys as operations. */
  function Multi(env: Crypto, script: seq<byte>, st: State, opcode: byte): Option<State>
    requires st.codehash <= |script|
  {
    match Args(st.stack)
    case None => None
    case Some(a) =>
      if st.nOpCount + |a.keys| > MAX_OPS then None
      else OnStack(st.(nOpCount := st.nOpCount + |a.keys|),
          MultisigPicture(env, opcode, st.stack, script[st.codehash..]))
  }

  function Exec(env: Crypto, script: seq<byte>, st: State, op: Op, pc: nat): Option<State>
    requires st.codehash <= |script|
  {
    if Running(st) && op.opcode <= OP_PUSHDATA4 then Some(st.(stack := st.stack + [op.data]))
    else if OP_IF <= op.opcode <= OP_ENDIF then Control(st, op.opcode)
    else if !Running(st) then Some(st)
    else if IsChecksig(op.opcode) then OnStack(st, ChecksigPicture(env, op.opcode, st.stack, script[st.codehash..]))
    else if IsMultisig(op.opcode) then Multi(env, script, st, op.opcode)
    else Simple(env, st, op.opcode, pc)
  }

  /** The state before the instruction is executed: the operation is counted. */
  function Counted(st: State, op: Op): State {
    st.(nOpCount := st.nOpCount + if op.opcode > OP_16 then 1 else 0)
  }

  predicate Admitted(st: State, op: Op) {
    |op.data| <= MAX_ELEMENT_SIZE && (op.opcode > OP_16 ==> Counted(st, op).nOpCount <= MAX_OPS) && !Disabled(op.opcode)
  }

  predicate Fits(st: State) { |st.stack| + |st.alt| <= MAX_STACK }

  /** One round of EvalScript's loop; pc is the position after the instruction. */
  function Step(env: Crypto, script: seq<byte>, st: State, op: Op, pc: nat): (r: Option<State>)
    requires st.codehash <= |script| && pc <= |script|
    ensures r.Some? ==> r.value.codehash <= |script|
  {
    if !Admitted(st, op) then None
    else
      match Exec(env, script, Counted(st, op), op, pc)
      case None => None
      case Some(st') => if Fits(st') then Some(st') else None
  }

  /** The loop from position pc on. */
  function Run(env: Crypto, script: seq<byte>, pc: nat, st: State): Option<State>
    requires st.codehash <= |script| && pc <= |script|
    decreases |script| - pc
  {
    if pc == |script| then Some(st)
    else
      match ParseOp(script[pc..])
      case None => None
      case Some(op) =>
        match Step(env, script, st, op, pc + op.len)
        case None => None
        case Some(st') => Run(env, script, pc + op.len, st')
  }

  function Start(stack: Stack): State { State(stack, [], [], 0, 0) }

  /** EvalScript: the stack that a successful script leaves. */
  function Eval(env: Crypto, stack: Stack, script: seq<byte>): Option<Stack> {
    if |script| > MAX_SCRIPT_SIZE then None
    else
      match Run(env, script, 0, Start(stack))
      case None => None
      case Some(st) => if st.vfExec == [] then Some(st.stack) else None
  }

  // ----- how often CheckSig is called, also by a script that fails -----

  function ExecCalls(env: Crypto, script: seq<byte>, st: State, op: Op): nat
    requires st.codehash <= |script|
  {
    if !Running(st) then 0
    else if IsChecksig(op.opcode) then (if |st.stack| < 2 then 0 else 1)
    else if IsMultisig(op.opcode) then
      match Args(st.stack)
      case None => 0
      case Some(a) =>
        if st.nOpCount + |a.keys| > MAX_OPS then 0
        else GreedyCalls(env, Stripped(script[st.codehash..], a.sigs), a.sigs, a.keys)
    else 0
  }

  function StepCalls(env: Crypto, script: seq<byte>, st: State, op: Op): nat
    requires st.codehash <= |script|
  {
    if Admitted(st, op) then ExecCalls(env, script, Counted(st, op), op) else 0
  }

  function RunCalls(env: Crypto, script: seq<byte>, pc: nat, st: State): nat
    requires st.codehash <= |script| && pc <= |script|
    decreases |script| - pc
  {
    if pc == |script| then 0
    else
      match ParseOp(script[pc..])
      case None => 0
      case Some(op) =>
        StepCalls(env, script, st, op) +
        match Step(env, script, st, op, pc + op.len)
        case None => 0
        case Some(st') => RunCalls(env, script, pc + op.len, st')
  }

  function EvalCalls(env: Crypto, stack: Stack, script: seq<byte>): nat {
    if |script| > MAX_SCRIPT_SIZE then 0 else RunCalls(env, script, 0, Start(stack))
  }
}
