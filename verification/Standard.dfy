/** Standard scripts (a3/a2/script.cpp): PushAll, Solver, and the scripts that SetDestination and SetMultisig write. */
module Standard {
  import opened Wrappers
  import opened Bytes
  import opened BigNum
  import opened Script
  import opened Multisig
  import opened Machine
  import opened SigOps

  // ----- scripts of pushes -----

  function PushAllEnc(values: seq<valtype>): seq<byte> {
    if values == [] then [] else PushEnc(values[0]) + PushAllEnc(values[1..])
  }

  lemma {:induction false} PushAllAppend(values: seq<valtype>, v: valtype)
    ensures PushAllEnc(values + [v]) == PushAllEnc(values) + PushEnc(v)
  {
    hide PushEnc;
    if values == [] {
      assert ([v])[1..] == [];
    } else {
      PushAllAppend(values[1..], v);
      assert (values + [v])[1..] == values[1..] + [v];
    }
  }

  /** PushAll. */
  method PushAll(values: seq<valtype>) returns (result: seq<byte>)
    ensures result == PushAllEnc(values)
  {
    var script := new CScript([]);
    for i := 0 to |values|
      invariant script.vch == PushAllEnc(values[..i])
    {
      PushAllAppend(values[..i], values[i]);
      assert values[..i + 1] == values[..i] + [values[i]];
      script.PushData(values[i]);
    }
    assert values[..|values|] == values;
    result := script.vch;
  }

  predicate Small(values: seq<valtype>) { forall i :: 0 <= i < |values| ==> |values[i]| <= MAX_ELEMENT_SIZE }

  lemma PushRuns(env: Crypto, script: seq<byte>, pc: nat, st: State, v: valtype, rest: seq<byte>)
    requires pc <= |script| && script[pc..] == PushEnc(v) + rest && |v| < 0x1_0000_0000
    requires st.codehash <= |script| && st.vfExec == []
    ensures PushEnc(v) != [] && pc + |PushEnc(v)| <= |script| && script[pc + |PushEnc(v)|..] == rest
    ensures Run(env, script, pc, st) ==
      if |v| <= MAX_ELEMENT_SIZE && |st.stack| + 1 + |st.alt| <= MAX_STACK
      then Run(env, script, pc + |PushEnc(v)|, st.(stack := st.stack + [v])) else None
  {
    hide *;
    PushIsRead(v, rest);
    var op := ParseOp(script[pc..]).value;
    BehindFront(script, pc, PushEnc(v), rest);
    RunNext(env, script, pc, st, op);
    StepOfPush(env, script, st, op, pc + op.len);
  }

  lemma BehindFront(s: seq<byte>, pc: nat, a: seq<byte>, b: seq<byte>)
    requires pc <= |s| && s[pc..] == a + b
    ensures pc + |a| <= |s| && s[pc + |a|..] == b
  {
    assert |s| == pc + |a| + |b|;
    assert s[pc + |a|..] == s[pc..][|a|..];
  }

  lemma RunNext(env: Crypto, script: seq<byte>, pc: nat, st: State, op: Op)
    requires st.codehash <= |script| && pc < |script| && ParseOp(script[pc..]) == Some(op)
    ensures pc + op.len <= |script|
    ensures Run(env, script, pc, st) ==
      match Step(env, script, st, op, pc + op.len)
      case None => None
      case Some(st') => Run(env, script, pc + op.len, st')
  {
    hide ParseOp, Step;
  }

  lemma StepOfPush(env: Crypto, script: seq<byte>, st: State, op: Op, pc: nat)
    requires st.codehash <= |script| && pc <= |script| && st.vfExec == [] && op.opcode <= OP_PUSHDATA4
    ensures Step(env, script, st, op, pc) ==
      if |op.data| <= MAX_ELEMENT_SIZE && |st.stack| + 1 + |st.alt| <= MAX_STACK
      then Some(st.(stack := st.stack + [op.data])) else None
  {
    assert Counted(st, op) == st;
  }

  lemma {:induction false} RunPushAll(env: Crypto, script: seq<byte>, pc: nat, st: State, values: seq<valtype>)
    requires pc <= |script| && script[pc..] == PushAllEnc(values) && |script| < 0x1_0000_0000
    requires st.codehash <= |script| && st.vfExec == [] && st.alt == [] && |st.stack| <= MAX_STACK
    ensures Run(env, script, pc, st) ==
      if Small(values) && |st.stack| + |values| <= MAX_STACK then Some(st.(stack := st.stack + values)) else None
    decreases |values|
  {
    hide ParseOp, PushEnc, Step;
    if values == [] {
      assert pc == |script| && st.stack + values == st.stack;
    } else {
      var v, rest := values[0], PushAllEnc(values[1..]);
      PushIsLonger(v);
      PushRuns(env, script, pc, st, v, rest);
      if |v| <= MAX_ELEMENT_SIZE && |st.stack| + 1 <= MAX_STACK {
        RunPushAll(env, script, pc + |PushEnc(v)|, st.(stack := st.stack + [v]), values[1..]);
        assert st.stack + [v] + values[1..] == st.stack + values;
        assert values == [v] + values[1..];
      }
    }
  }

  lemma PushIsLonger(v: valtype)
    ensures |PushEnc(v)| > |v|
  {
  }

  /** EvalScript of PushAll(values), from an empty stack, leaves exactly the values; and it fails exactly when a size
      limit is exceeded. */
  lemma EvalPushAll(env: Crypto, values: seq<valtype>)
    ensures Eval(env, [], PushAllEnc(values)) ==
      if |PushAllEnc(values)| <= MAX_SCRIPT_SIZE && Small(values) && |values| <= MAX_STACK then Some(values) else None
  {
    var script := PushAllEnc(values);
    if |script| <= MAX_SCRIPT_SIZE {
      assert script[0..] == script;
      RunPushAll(env, script, 0, Start([]), values);
      assert [] + values == values;
    }
  }

  // ----- Solver -----

  const OP_SMALLINTEGER := 0xfa
  const OP_PUBKEYS := 0xfb
  const OP_PUBKEYHASH := 0xfd
  const OP_PUBKEY := 0xfe

  datatype TxOutType = TX_NONSTANDARD | TX_PUBKEY | TX_PUBKEYHASH | TX_SCRIPTHASH | TX_MULTISIG

  /** What Solver returns. A multisig script with wrong numbers fails, but keeps its type and its parts. */
  datatype Solution = Solution(ok: bool, typ: TxOutType, parts: seq<valtype>)

  const PUBKEY_TEMPLATE: seq<byte> := [OP_PUBKEY, OP_CHECKSIG]
  const PUBKEYHASH_TEMPLATE: seq<byte> := [OP_DUP, OP_HASH160, OP_PUBKEYHASH, OP_EQUALVERIFY, OP_CHECKSIG]
  const MULTISIG_TEMPLATE: seq<byte> := [OP_SMALLINTEGER, OP_PUBKEYS, OP_SMALLINTEGER, OP_CHECKMULTISIG]

  predicate IsKey(v: valtype) { 33 <= |v| <= 120 }

  predicate IsSmallInt(opcode: byte) { opcode == OP_0 || OP_1 <= opcode <= OP_16 }

  /** The instructions of a script that is made of whole ones. */
  function Ops(t: seq<byte>): Option<seq<Op>>
    decreases |t|
  {
    if t == [] then Some([])
    else
      match ParseOp(t)
      case None => None
      case Some(op) =>
        match Ops(t[op.len..])
        case None => None
        case Some(rest) => Some([op] + rest)
  }

  predicate IsOp(op: Op, opcode: byte) { op.opcode == opcode && op.data == [] }

  predicate PubkeyShape(ops: seq<Op>) { |ops| == 2 && IsKey(ops[0].data) && IsOp(ops[1], OP_CHECKSIG) }

  predicate PubkeyHashShape(ops: seq<Op>) {
    && |ops| == 5 && IsOp(ops[0], OP_DUP) && IsOp(ops[1], OP_HASH160) && |ops[2].data| == 20
    && IsOp(ops[3], OP_EQUALVERIFY) && IsOp(ops[4], OP_CHECKSIG)
  }

  /** m [key ...] n OP_CHECKMULTISIG. */
  predicate MultisigShape(ops: seq<Op>) {
    var n := |ops|;
    && n >= 3 && IsSmallInt(ops[0].opcode) && IsSmallInt(ops[n - 2].opcode) && IsOp(ops[n - 1], OP_CHECKMULTISIG)
    && forall i :: 1 <= i < n - 2 ==> IsKey(ops[i].data)
  }

  function KeysOf(ops: seq<Op>): (keys: seq<valtype>)
    ensures |keys| == |ops| && forall i :: 0 <= i < |ops| ==> keys[i] == ops[i].data
  {
    seq(|ops|, i requires 0 <= i < |ops| => ops[i].data)
  }

  function MultisigParts(ops: seq<Op>): seq<valtype>
    requires MultisigShape(ops)
  {
    var n := |ops|;
    [[DecodeOP_N(ops[0].opcode)]] + KeysOf(ops[1..n - 2]) + [[DecodeOP_N(ops[n - 2].opcode)]]
  }

  /** What Solver finds, by the shape of the script. */
  function Solved(script: seq<byte>): Solution {
    if IsPayToScriptHash(script) then Solution(true, TX_SCRIPTHASH, [script[2..22]])
    else
      match Ops(script)
      case None => Solution(false, TX_NONSTANDARD, [])
      case Some(ops) =>
        if PubkeyShape(ops) then Solution(true, TX_PUBKEY, [ops[0].data])
        else if PubkeyHashShape(ops) then Solution(true, TX_PUBKEYHASH, [ops[2].data])
        else if MultisigShape(ops) then
          var m, n := DecodeOP_N(ops[0].opcode), DecodeOP_N(ops[|ops| - 2].opcode);
          Solution(1 <= m <= n && |ops| - 3 == n, TX_MULTISIG, MultisigParts(ops))
        else Solution(false, TX_NONSTANDARD, [])
  }

  // ----- the template matcher -----

  /** One template opcode against one instruction: the parts it adds, or no match. */
  function MatchOne(c: byte, opcode: byte, data: valtype): Option<seq<valtype>> {
    if c == OP_PUBKEY then (if IsKey(data) then Some([data]) else None)
    else if c == OP_PUBKEYHASH then (if |data| == 20 then Some([data]) else None)
    else if c == OP_SMALLINTEGER then (if IsSmallInt(opcode) then Some([[DecodeOP_N(opcode)]]) else None)
    else if opcode == c && data == [] then Some([]) else None
  }

  /** Where the inner loop for OP_PUBKEYS stops: the instruction it stopped at, the rest, and the keys it took. */
  datatype Taken = Taken(opcode: byte, data: valtype, rest: seq<byte>, keys: seq<valtype>)

  function TakeKeys(opcode: byte, data: valtype, rest: seq<byte>): (r: Taken)
    ensures |r.rest| <= |rest|
    decreases |rest|
  {
    if !IsKey(data) then Taken(opcode, data, rest, [])
    else
      match ParseOp(rest)
      case None => Taken(OP_INVALIDOPCODE, [], [], [data])
      case Some(op) =>
        var r := TakeKeys(op.opcode, op.data, rest[op.len..]);
        r.(keys := [data] + r.keys)
  }

  /** The comparison loop of Solver, from the rest t of the script and the rest of the template on. */
  function MatchFrom(t: seq<byte>, tpl: seq<byte>, parts: seq<valtype>): Option<seq<valtype>>
    decreases |tpl|, 0
  {
    if t == [] && tpl == [] then Some(parts)
    else
      match ParseOp(t)
      case None => None
      case Some(op) =>
        if tpl == [] then None
        else if tpl[0] == OP_PUBKEYS then
          if |tpl| < 2 then None
          else
            var r := TakeKeys(op.opcode, op.data, t[op.len..]);
            MatchThis(tpl[1], r.opcode, r.data, r.rest, tpl[2..], parts + r.keys)
        else MatchThis(tpl[0], op.opcode, op.data, t[op.len..], tpl[1..], parts)
  }

  function MatchThis(c: byte, opcode: byte, data: valtype, t: seq<byte>, tpl: seq<byte>,
      parts: seq<valtype>): Option<seq<valtype>>
    decreases |tpl|, 1
  {
    match MatchOne(c, opcode, data)
    case None => None
    case Some(more) => MatchFrom(t, tpl, parts + more)
  }

  method TakeKeysLoop(script1: seq<byte>, pc: nat, opcode: byte, vch: valtype)
    returns (pc1: nat, opcode1: byte, vch1: valtype, keys: seq<valtype>)
    requires pc <= |script1| && (opcode == OP_INVALIDOPCODE ==> vch == [])
    ensures var r := TakeKeys(opcode, vch, script1[pc..]);
      pc1 <= |script1| && opcode1 == r.opcode && vch1 == r.data && keys == r.keys
          && (opcode1 != OP_INVALIDOPCODE ==> script1[pc1..] == r.rest)
    ensures opcode1 == OP_INVALIDOPCODE ==> vch1 == []
  {
    hide ParseOp, TakeKeys, IsKey;
    pc1, opcode1, vch1, keys := pc, opcode, vch, [];
    NoKeysYet(TakeKeys(opcode, vch, script1[pc..]));
    while IsKey(vch1)
      invariant pc1 <= |script1| && (opcode1 == OP_INVALIDOPCODE ==> vch1 == [])
      invariant var r := TakeKeys(opcode1, vch1, script1[pc1..]);
        TakeKeys(opcode, vch, script1[pc..]) == r.(keys := keys + r.keys)
      decreases |script1| - pc1
    {
      ghost var opcode0, vch0, pc0, keys0 := opcode1, vch1, pc1, keys;
      keys := keys + [vch1];
      var ok;
      ok, pc1, opcode1, vch1 := GetOp2(script1, pc1);
      TakesOne(opcode0, vch0, script1[pc0..]);
      if !ok { return; }
      assert script1[pc0..][pc1 - pc0..] == script1[pc1..];
      ghost var r := TakeKeys(opcode1, vch1, script1[pc1..]);
      assert keys0 + ([vch0] + r.keys) == keys + r.keys;
    }
    TakesNone(opcode1, vch1, script1[pc1..]);
  }

  lemma NoKeysYet(r: Taken)
    ensures r == r.(keys := [] + r.keys)
  {
    assert [] + r.keys == r.keys;
  }

  lemma TakesNone(opcode: byte, data: valtype, rest: seq<byte>)
    requires !IsKey(data)
    ensures TakeKeys(opcode, data, rest) == Taken(opcode, data, rest, [])
  {
  }

  lemma TakesOne(opcode: byte, data: valtype, rest: seq<byte>)
    requires IsKey(data)
    ensures TakeKeys(opcode, data, rest) ==
      match ParseOp(rest)
      case None => Taken(OP_INVALIDOPCODE, [], [], [data])
      case Some(op) =>
        var r := TakeKeys(op.opcode, op.data, rest[op.len..]);
        r.(keys := [data] + r.keys)
  {
    hide ParseOp;
  }

  /** The comparison loop of Solver. No template holds OP_INVALIDOPCODE. */
  method MatchTemplate(script1: seq<byte>, tpl: seq<byte>) returns (found: bool, vSolutionsRet: seq<valtype>)
    requires OP_INVALIDOPCODE !in tpl
    ensures found <==> MatchFrom(script1, tpl, []).Some?
    ensures found ==> vSolutionsRet == MatchFrom(script1, tpl, []).value
  {
    hide ParseOp, TakeKeys;
    var pc1: nat, pc2: nat := 0, 0;
    vSolutionsRet := [];
    assert script1[0..] == script1 && tpl[0..] == tpl;
    while true
      invariant pc1 <= |script1| && pc2 <= |tpl|
      invariant MatchFrom(script1, tpl, []) == MatchFrom(script1[pc1..], tpl[pc2..], vSolutionsRet)
      decreases |tpl| - pc2
    {
      if pc1 == |script1| && pc2 == |tpl| { return true, vSolutionsRet; }
      ghost var t, u := script1[pc1..], tpl[pc2..];
      var ok, next, opcode1, vch1 := GetOp2(script1, pc1);
      if !ok { return false, []; }
      assert t[next - pc1..] == script1[next..];
      pc1 := next;
      if pc2 == |tpl| { return false, []; }
      var opcode2 := tpl[pc2];
      assert u[0] == opcode2;
      pc2 := pc2 + 1;
      if opcode2 == OP_PUBKEYS {
        var keys;
        pc1, opcode1, vch1, keys := TakeKeysLoop(script1, pc1, opcode1, vch1);
        vSolutionsRet := vSolutionsRet + keys;
        if pc2 == |tpl| { return false, []; }
        opcode2 := tpl[pc2];
        assert u[1] == opcode2;
        pc2 := pc2 + 1;
        assert u[2..] == tpl[pc2..];
      } else {
        assert u[1..] == tpl[pc2..];
      }
      assert opcode1 != OP_INVALIDOPCODE ==>
        MatchFrom(script1, tpl, []) == MatchThis(opcode2, opcode1, vch1, script1[pc1..], tpl[pc2..], vSolutionsRet);
      if opcode2 == OP_PUBKEY {
        if |vch1| < 33 || |vch1| > 120 { return false, []; }
        vSolutionsRet := vSolutionsRet + [vch1];
      } else if opcode2 == OP_PUBKEYHASH {
        if |vch1| != 20 { return false, []; }
        vSolutionsRet := vSolutionsRet + [vch1];
      } else if opcode2 == OP_SMALLINTEGER {
        if opcode1 == OP_0 || (opcode1 >= OP_1 && opcode1 <= OP_16) {
          vSolutionsRet := vSolutionsRet + [[DecodeOP_N(opcode1)]];
        } else {
          return false, [];
        }
      } else if opcode1 != opcode2 || vch1 != [] {
        return false, [];
      } else {
        assert vSolutionsRet + [] == vSolutionsRet;
      }
    }
  }

  // ----- what the templates match -----

  lemma OpsUnfold(t: seq<byte>)
    ensures t != [] && ParseOp(t).Some? ==>
        Ops(t) == match Ops(t[ParseOp(t).value.len..])
                  case None => None
                  case Some(rest) => Some([ParseOp(t).value] + rest)
    ensures t != [] && ParseOp(t).None? ==> Ops(t).None?
    ensures t == [] ==> Ops(t) == Some([])
  {
  }

  lemma OperandsOf(t: seq<byte>)
    requires ParseOp(t).Some?
    ensures var op := ParseOp(t).value; op.opcode == OP_0 || op.opcode > OP_PUSHDATA4 ==> op.data == []
  {
  }

  /** A template opcode that stands for itself, at the end of the template. */
  lemma LastOne(t: seq<byte>, c: byte, parts: seq<valtype>)
    requires c != OP_PUBKEY && c != OP_PUBKEYHASH && c != OP_SMALLINTEGER && c != OP_PUBKEYS
    ensures MatchFrom(t, [c], parts) == if Ops(t).Some? && |Ops(t).value| == 1
        && IsOp(Ops(t).value[0], c) then Some(parts) else None
  {
    hide ParseOp;
    if t != [] && ParseOp(t).Some? {
      var op := ParseOp(t).value;
      var rest := t[op.len..];
      OpsUnfold(rest);
      assert ([c])[1..] == [] && parts + [] == parts;
      if rest != [] && Ops(rest).Some? { OpsNonEmpty(rest); }
    }
    if t == [] { NothingToParse(); }
  }

  lemma OpsNonEmpty(t: seq<byte>)
    requires t != [] && Ops(t).Some?
    ensures Ops(t).value != [] && ParseOp(t).Some? && Ops(t).value[0] == ParseOp(t).value
    ensures Ops(t[ParseOp(t).value.len..]) == Some(Ops(t).value[1..])
  {
    hide ParseOp;
  }

  lemma PubkeyMeaning(t: seq<byte>)
    ensures MatchFrom(t, PUBKEY_TEMPLATE, []) ==
      if Ops(t).Some? && PubkeyShape(Ops(t).value) then Some([Ops(t).value[0].data]) else None
  {
    hide ParseOp;
    OpsUnfold(t);
    if t == [] {
      NothingToParse();
    } else if ParseOp(t).Some? {
      var op := ParseOp(t).value;
      assert PUBKEY_TEMPLATE[1..] == [OP_CHECKSIG];
      assert [] + [op.data] == [op.data];
      LastOne(t[op.len..], OP_CHECKSIG, [op.data]);
    }
  }

  /** A template opcode that stands for itself, before others. */
  lemma FirstOne(t: seq<byte>, c: byte, tpl: seq<byte>, parts: seq<valtype>)
    requires c != OP_PUBKEY && c != OP_PUBKEYHASH && c != OP_SMALLINTEGER && c != OP_PUBKEYS && tpl != []
    ensures MatchFrom(t, [c] + tpl, parts) ==
      if t != [] && ParseOp(t).Some?
          && IsOp(ParseOp(t).value, c) then MatchFrom(t[ParseOp(t).value.len..], tpl, parts) else None
  {
    hide ParseOp;
    assert ([c] + tpl)[1..] == tpl && parts + [] == parts;
    if t == [] { NothingToParse(); }
  }

  lemma PubkeyHashMeaning(t: seq<byte>)
    ensures MatchFrom(t, PUBKEYHASH_TEMPLATE, []) ==
      if Ops(t).Some? && PubkeyHashShape(Ops(t).value) then Some([Ops(t).value[2].data]) else None
  {
    hide ParseOp, MatchFrom;
    var tail4: seq<byte> := [OP_EQUALVERIFY] + [OP_CHECKSIG];
    var tail3: seq<byte> := [OP_PUBKEYHASH] + tail4;
    var tail2: seq<byte> := [OP_HASH160] + tail3;
    assert PUBKEYHASH_TEMPLATE == [OP_DUP] + tail2;
    FirstOne(t, OP_DUP, tail2, []);
    OpsUnfold(t);
    if t != [] && ParseOp(t).Some? {
      var t1 := t[ParseOp(t).value.len..];
      FirstOne(t1, OP_HASH160, tail3, []);
      OpsUnfold(t1);
      if t1 != [] && ParseOp(t1).Some? { HashAndRest(t1[ParseOp(t1).value.len..]); }
    }
  }

  /** The template from its hash on. */
  lemma HashAndRest(t: seq<byte>)
    ensures MatchFrom(t, [OP_PUBKEYHASH] + ([OP_EQUALVERIFY] + [OP_CHECKSIG]), []) ==
      if Ops(t).Some? && |Ops(t).value| == 3 && |Ops(t).value[0].data| == 20
         && IsOp(Ops(t).value[1], OP_EQUALVERIFY)
           && IsOp(Ops(t).value[2], OP_CHECKSIG) then Some([Ops(t).value[0].data]) else None
  {
    hide ParseOp;
    OpsUnfold(t);
    var tail: seq<byte> := [OP_EQUALVERIFY] + [OP_CHECKSIG];
    assert ([OP_PUBKEYHASH] + tail)[1..] == tail;
    if t == [] {
      NothingToParse();
    } else if ParseOp(t).Some? {
      var op := ParseOp(t).value;
      var t1 := t[op.len..];
      assert [] + [op.data] == [op.data];
      FirstOne(t1, OP_EQUALVERIFY, [OP_CHECKSIG], [op.data]);
      OpsUnfold(t1);
      if t1 != [] && ParseOp(t1).Some? { LastOne(t1[ParseOp(t1).value.len..], OP_CHECKSIG, [op.data]); }
    }
  }

  /** The first instruction that is not a key push; |ops| if there is none. */
  function KeyRun(ops: seq<Op>): (n: nat)
    ensures n <= |ops| && (forall i :: 0 <= i < n ==> IsKey(ops[i].data)) && (n < |ops| ==> !IsKey(ops[n].data))
  {
    if ops == [] || !IsKey(ops[0].data) then 0 else 1 + KeyRun(ops[1..])
  }

  lemma KeyRunCons(op: Op, ops: seq<Op>)
    requires IsKey(op.data)
    ensures KeyRun([op] + ops) == KeyRun(ops) + 1
  {
    assert ([op] + ops)[1..] == ops;
  }

  lemma KeysOfCons(op: Op, ops: seq<Op>, n: nat)
    requires n <= |ops|
    ensures KeysOf(([op] + ops)[..n + 1]) == [op.data] + KeysOf(ops[..n])
    ensures n < |ops| ==> ([op] + ops)[n + 2..] == ops[n + 1..] && ([op] + ops)[n + 1] == ops[n]
  {
  }

  lemma KeyRunStep(op: Op, ops: seq<Op>)
    requires IsKey(op.data)
    ensures KeyRun([op] + ops) == KeyRun(ops) + 1
    ensures KeysOf(([op] + ops)[..KeyRun(ops) + 1]) == [op.data] + KeysOf(ops[..KeyRun(ops)])
    ensures KeyRun(ops) < |ops| ==>
        ([op] + ops)[KeyRun(ops) + 2..] == ops[KeyRun(ops) + 1..] && ([op] + ops)[KeyRun(ops) + 1] == ops[KeyRun(ops)]
  {
    hide KeyRun, KeysOf, IsKey;
    KeyRunCons(op, ops);
    KeysOfCons(op, ops, KeyRun(ops));
  }

  /** The inner loop stops at the first instruction that is not a key push. */
  lemma {:induction false} TakeKeysMeaning(op: Op, rest: seq<byte>)
    ensures var r := TakeKeys(op.opcode, op.data, rest);
      if Ops(rest).Some? then
        var ops := [op] + Ops(rest).value;
        var n := KeyRun(ops);
        && r.keys == KeysOf(ops[..n])
        && if n == |ops| then r.opcode == OP_INVALIDOPCODE && r.rest == []
           else r.opcode == ops[n].opcode && r.data == ops[n].data && Ops(r.rest) == Some(ops[n + 1..])
      else r.opcode == OP_INVALIDOPCODE || Ops(r.rest).None?
    decreases |rest|
  {
    hide ParseOp, KeyRun, Ops;
    if IsKey(op.data) {
      OpsUnfold(rest);
      if rest == [] {
        NothingToParse();
        KeyRunStep(op, []);
        NoKeys([]);
        assert [op] + [] == [op];
      } else if ParseOp(rest).Some? {
        var next := ParseOp(rest).value;
        TakeKeysMeaning(next, rest[next.len..]);
        if Ops(rest).Some? {
          var ops, ops' := [op] + Ops(rest).value, [next] + Ops(rest[next.len..]).value;
          assert ops == [op] + ops';
          KeyRunStep(op, ops');
        }
      }
    } else if Ops(rest).Some? {
      var ops := [op] + Ops(rest).value;
      NoKeys(ops);
      assert KeysOf(ops[..0]) == [];
      assert ops[1..] == Ops(rest).value;
    }
  }

  lemma NoKeys(ops: seq<Op>)
    requires ops == [] || !IsKey(ops[0].data)
    ensures KeyRun(ops) == 0
  {
  }

  /** All operands of a script are the ones that its opcodes allow. */
  lemma {:induction false} OpsOperands(t: seq<byte>)
    requires Ops(t).Some?
    ensures forall i :: 0 <= i < |Ops(t).value| && IsSmallInt(Ops(t).value[i].opcode) ==> Ops(t).value[i].data == []
    ensures forall i :: 0 <= i < |Ops(t).value| && IsKey(Ops(t).value[i].data) ==>
        Ops(t).value[i].opcode <= OP_PUSHDATA4 && Ops(t).value[i].opcode != OP_0
    decreases |t|
  {
    if t != [] {
      OpsNonEmpty(t);
      OperandsOf(t);
      hide ParseOp, Ops;
      OpsOperands(t[ParseOp(t).value.len..]);
      var ops := Ops(t).value;
      assert ops == [ops[0]] + ops[1..];
    }
  }

  /** [key ...] n OP_CHECKMULTISIG. */
  predicate TailShape(ops: seq<Op>) {
    var n := |ops|;
    n >= 2 && IsSmallInt(ops[n - 2].opcode) && IsOp(ops[n - 1], OP_CHECKMULTISIG) && forall i :: 0 <= i < n - 2 ==>
        IsKey(ops[i].data)
  }

  lemma ShapeOfTail(first: Op, ops: seq<Op>)
    requires IsSmallInt(first.opcode)
    ensures MultisigShape([first] + ops) <==> TailShape(ops)
  {
    hide IsOp, IsKey, IsSmallInt;
    var all, k := [first] + ops, |ops|;
    assert forall i :: 0 <= i < k ==> all[i + 1] == ops[i];
    if MultisigShape(all) {
      assert all[k - 1] == ops[k - 2] && all[k] == ops[k - 1];
      forall i | 0 <= i < k - 2 ensures IsKey(ops[i].data) { assert all[i + 1] == ops[i]; }
    }
    if TailShape(ops) {
      assert all[k - 1] == ops[k - 2] && all[k] == ops[k - 1];
      forall i | 1 <= i < k - 1 ensures IsKey(all[i].data) { assert all[i] == ops[i - 1]; }
    }
  }

  /** The same, by the number of keys in front. */
  predicate RunShape(ops: seq<Op>) {
    var n := KeyRun(ops);
    n + 2 == |ops| && IsSmallInt(ops[n].opcode) && IsOp(ops[n + 1], OP_CHECKMULTISIG)
  }

  /** The keys end where the number after them stands. */
  lemma KeyRunOfShape(first: Op, ops: seq<Op>)
    requires IsSmallInt(first.opcode) && forall i :: 0 <= i < |ops| && IsSmallInt(ops[i].opcode) ==> ops[i].data == []
    ensures MultisigShape([first] + ops) <==> RunShape(ops)
  {
    hide *;
    ShapeOfTail(first, ops);
    if TailShape(ops) {
      RunOfTail(ops);
    } else if RunShape(ops) {
      TailOfRun(ops);
    }
  }

  lemma RunOfTail(ops: seq<Op>)
    requires forall i :: 0 <= i < |ops| && IsSmallInt(ops[i].opcode) ==> ops[i].data == []
    requires TailShape(ops)
    ensures RunShape(ops)
  {
    hide KeyRun, IsSmallInt, IsOp;
    assert ops[|ops| - 2].data == [];
    KeyRunIs(ops, |ops| - 2);
  }

  lemma TailOfRun(ops: seq<Op>)
    requires RunShape(ops)
    ensures TailShape(ops)
  {
    hide KeyRun, IsKey, IsSmallInt, IsOp;
  }

  lemma KeyRunIs(ops: seq<Op>, n: nat)
    requires n < |ops| && (forall i :: 0 <= i < n ==> IsKey(ops[i].data)) && !IsKey(ops[n].data)
    ensures KeyRun(ops) == n
  {
    hide KeyRun, IsKey;
  }

  /** The template from its keys on. */
  lemma KeysAndRest(t: seq<byte>, m: valtype)
    ensures MatchFrom(t, [OP_PUBKEYS, OP_SMALLINTEGER, OP_CHECKMULTISIG], [m]) ==
      if Ops(t).Some? && Ops(t).value != [] then
        var ops := Ops(t).value;
        var n := KeyRun(ops);
        if n + 2 == |ops| && IsSmallInt(ops[n].opcode) && IsOp(ops[n + 1], OP_CHECKMULTISIG)
        then Some([m] + KeysOf(ops[..n]) + [[DecodeOP_N(ops[n].opcode)]]) else None
      else None
  {
    hide ParseOp, KeyRun, Ops, TakeKeys;
    var tpl: seq<byte> := [OP_PUBKEYS, OP_SMALLINTEGER, OP_CHECKMULTISIG];
    assert tpl[2..] == [OP_CHECKMULTISIG];
    OpsUnfold(t);
    if t == [] {
      NothingToParse();
    } else if ParseOp(t).Some? {
      var op := ParseOp(t).value;
      TakeKeysMeaning(op, t[op.len..]);
      var r := TakeKeys(op.opcode, op.data, t[op.len..]);
      if IsSmallInt(r.opcode) { LastOne(r.rest, OP_CHECKMULTISIG, [m] + r.keys + [[DecodeOP_N(r.opcode)]]); }
    }
  }

  lemma MultisigMeaning(t: seq<byte>)
    ensures MatchFrom(t, MULTISIG_TEMPLATE, []) ==
      if Ops(t).Some? && MultisigShape(Ops(t).value) then Some(MultisigParts(Ops(t).value)) else None
  {
    hide ParseOp, KeyRun, Ops, MatchFrom;
    OpsUnfold(t);
    MultisigFirst(t);
    if t != [] && ParseOp(t).Some? && IsSmallInt(ParseOp(t).value.opcode) {
      var op := ParseOp(t).value;
      var rest := t[op.len..];
      KeysAndRest(rest, [DecodeOP_N(op.opcode)]);
      if Ops(rest).Some? && Ops(rest).value != [] {
        OpsOperands(rest);
        var ops := Ops(rest).value;
        KeyRunOfShape(op, ops);
        if MultisigShape([op] + ops) { assert ([op] + ops)[1..|ops| - 1] == ops[..|ops| - 2]; }
      }
    }
  }

  lemma MultisigFirst(t: seq<byte>)
    ensures MatchFrom(t, MULTISIG_TEMPLATE, []) ==
      if t != [] && ParseOp(t).Some? && IsSmallInt(ParseOp(t).value.opcode)
      then MatchFrom(t[ParseOp(t).value.len..], [OP_PUBKEYS, OP_SMALLINTEGER, OP_CHECKMULTISIG],
          [[DecodeOP_N(ParseOp(t).value.opcode)]])
      else None
  {
    hide ParseOp, TakeKeys;
    assert MULTISIG_TEMPLATE[1..] == [OP_PUBKEYS, OP_SMALLINTEGER, OP_CHECKMULTISIG];
    if t == [] { NothingToParse(); }
    if t != [] && ParseOp(t).Some? && IsSmallInt(ParseOp(t).value.opcode) {
      assert [] + [[DecodeOP_N(ParseOp(t).value.opcode)]] == [[DecodeOP_N(ParseOp(t).value.opcode)]];
    }
  }

  /** Solver. The templates are tried in the order of their types. */
  method Solver(scriptPubKey: seq<byte>) returns (ok: bool, typeRet: TxOutType, vSolutionsRet: seq<valtype>)
    ensures Solution(ok, typeRet, vSolutionsRet) == Solved(scriptPubKey)
  {
    hide Ops, MatchFrom, PubkeyShape, PubkeyHashShape, MultisigShape;
    if IsPayToScriptHash(scriptPubKey) {
      return true, TX_SCRIPTHASH, [scriptPubKey[2..22]];
    }
    PubkeyMeaning(scriptPubKey);
    PubkeyHashMeaning(scriptPubKey);
    MultisigMeaning(scriptPubKey);
    var found;
    found, vSolutionsRet := MatchTemplate(scriptPubKey, PUBKEY_TEMPLATE);
    if found { return true, TX_PUBKEY, vSolutionsRet; }
    found, vSolutionsRet := MatchTemplate(scriptPubKey, PUBKEYHASH_TEMPLATE);
    if found { return true, TX_PUBKEYHASH, vSolutionsRet; }
    found, vSolutionsRet := MatchTemplate(scriptPubKey, MULTISIG_TEMPLATE);
    if found {
      PartsOfShape(Ops(scriptPubKey).value);
      var m, n := vSolutionsRet[0][0], vSolutionsRet[|vSolutionsRet| - 1][0];
      if m < 1 || n < 1 || m > n || |vSolutionsRet| - 2 != n { return false, TX_MULTISIG, vSolutionsRet; }
      return true, TX_MULTISIG, vSolutionsRet;
    }
    return false, TX_NONSTANDARD, [];
  }

  lemma PartsOfShape(ops: seq<Op>)
    requires MultisigShape(ops)
    ensures |ops| >= 3 && IsSmallInt(ops[0].opcode) && IsSmallInt(ops[|ops| - 2].opcode)
    ensures |MultisigParts(ops)| == |ops| - 1
    ensures MultisigParts(ops)[0] == [DecodeOP_N(ops[0].opcode)]
    ensures MultisigParts(ops)[|ops| - 2] == [DecodeOP_N(ops[|ops| - 2].opcode)]
  {
  }
}
