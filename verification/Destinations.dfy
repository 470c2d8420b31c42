/** The scripts that SetDestination and SetMultisig write, and what ExtractDestination and Solver read out of them
    (a3/a2/script.cpp). */
module Destinations {
  import opened Wrappers
  import opened Bytes
  import opened BigNum
  import opened Script
  import opened Multisig
  import opened Machine
  import opened SigOps
  import opened Standard

  type uint160 = v: valtype | |v| == 20 witness [0, 0, 0, 0, 0, 0, 0, 0, 0, 0, 0, 0, 0, 0, 0, 0, 0, 0, 0, 0]

  /** CTxDestination. */
  datatype Destination = NoDestination | KeyID(hash: uint160) | ScriptID(hash: uint160)

  /** What SetDestination writes. */
  function DestScript(dest: Destination): seq<byte> {
    match dest
    case NoDestination => []
    case KeyID(h) => [OP_DUP, OP_HASH160, 20] + h + [OP_EQUALVERIFY, OP_CHECKSIG]
    case ScriptID(h) => [OP_HASH160, 20] + h + [OP_EQUAL]
  }

  /** SetDestination. */
  method SetDestination(script: CScript, dest: Destination)
    modifies script
    ensures script.vch == DestScript(dest)
  {
    script.vch := [];
    match dest {
      case NoDestination =>
      case KeyID(h) =>
        script.PushOpcode(OP_DUP);
        script.PushOpcode(OP_HASH160);
        script.Append([20]);
        script.Append(h);
        script.PushOpcode(OP_EQUALVERIFY);
        script.PushOpcode(OP_CHECKSIG);
      case ScriptID(h) =>
        script.PushOpcode(OP_HASH160);
        script.Append([20]);
        script.Append(h);
        script.PushOpcode(OP_EQUAL);
    }
  }

  /** The destination that a hash stands for; every hash that Solver finds has twenty bytes. */
  function Extracted(env: Crypto, script: seq<byte>): Option<Destination>
    requires forall v :: |env.hash160(v)| == 20
  {
    SolvedHash(script);
    var s := Solved(script);
    if !s.ok then None
    else match s.typ
      case TX_PUBKEY => Some(KeyID(env.hash160(s.parts[0])))
      case TX_PUBKEYHASH => Some(KeyID(s.parts[0]))
      case TX_SCRIPTHASH => Some(ScriptID(s.parts[0]))
      case _ => None
  }

  lemma SolvedHash(script: seq<byte>)
    ensures var s := Solved(script);
      && (s.typ == TX_PUBKEY ==> |s.parts| == 1)
      && (s.typ == TX_PUBKEYHASH || s.typ == TX_SCRIPTHASH ==> |s.parts| == 1 && |s.parts[0]| == 20)
  {
    hide Ops, MultisigShape, MultisigParts;
  }

  /** ExtractDestination. */
  method ExtractDestination(env: Crypto, scriptPubKey: seq<byte>) returns (ok: bool, addressRet: Destination)
    requires forall v :: |env.hash160(v)| == 20
    ensures ok <==> Extracted(env, scriptPubKey).Some?
    ensures ok ==> addressRet == Extracted(env, scriptPubKey).value
  {
    hide Solved;
    SolvedHash(scriptPubKey);
    addressRet := NoDestination;
    var whichType, vSolutions;
    ok, whichType, vSolutions := Solver(scriptPubKey);
    assert Solved(scriptPubKey) == Solution(ok, whichType, vSolutions);
    if !ok { return; }
    if whichType == TX_PUBKEY { return true, KeyID(env.hash160(vSolutions[0])); }
    else if whichType == TX_PUBKEYHASH { return true, KeyID(vSolutions[0]); }
    else if whichType == TX_SCRIPTHASH { return true, ScriptID(vSolutions[0]); }
    ok := false;
  }

  lemma OpsCons(t: seq<byte>, op: Op, rest: seq<byte>)
    requires t != [] && ParseOp(t) == Some(op) && t[op.len..] == rest
    ensures Ops(t) == match Ops(rest) case None => None case Some(ops) => Some([op] + ops)
  {
    hide ParseOp;
  }

  /** An opcode that pushes nothing. */
  lemma OpsOpcode(opcode: byte, rest: seq<byte>)
    requires opcode == OP_0 || opcode > OP_PUSHDATA4
    ensures Ops([opcode] + rest) == match Ops(rest) case None => None case Some(ops) => Some([Op(opcode, [], 1)] + ops)
  {
    var t := [opcode] + rest;
    assert t[1..] == rest && t[1..1] == [];
    assert ParseOp(t) == Some(Op(opcode, [], 1));
    OpsCons(t, Op(opcode, [], 1), rest);
  }

  lemma OpsHash(h: uint160, rest: seq<byte>)
    ensures Ops([20] + h + rest) == match Ops(rest) case None => None case Some(ops) => Some([Op(20, h, 21)] + ops)
  {
    var t := [20] + h + rest;
    assert t[1..21] == h && t[21..] == rest;
    assert ParseOp(t) == Some(Op(20, h, 21));
    OpsCons(t, Op(20, h, 21), rest);
  }

  /** ExtractDestination undoes SetDestination. */
  lemma DestinationRoundTrip(env: Crypto, dest: Destination)
    requires forall v :: |env.hash160(v)| == 20
    ensures Extracted(env, DestScript(dest)) == if dest.NoDestination? then None else Some(dest)
  {
    match dest {
      case NoDestination =>
      case KeyID(h) => KeyIDOps(h); assert |DestScript(dest)| == 25;
      case ScriptID(h) => assert DestScript(dest)[2..22] == h;
    }
    hide Ops, MultisigShape;
  }

  lemma KeyIDOps(h: uint160)
    ensures Ops(DestScript(KeyID(h))) ==
      Some([Op(OP_DUP, [], 1), Op(OP_HASH160, [], 1), Op(20, h, 21), Op(OP_EQUALVERIFY, [], 1), Op(OP_CHECKSIG, [], 1)])
  {
    hide Ops, ParseOp, DestScript;
    var tail: seq<byte> := [OP_EQUALVERIFY] + ([OP_CHECKSIG] + []);
    KeyIDScript(h);
    KeyIDTail();
    OpsHash(h, tail);
    OpsOpcode(OP_HASH160, [20] + h + tail);
    OpsOpcode(OP_DUP, [OP_HASH160] + ([20] + h + tail));
    var front: seq<Op> := [Op(OP_DUP, [], 1)] + ([Op(OP_HASH160, [], 1)] + ([Op(20, h, 21)] +
                            [Op(OP_EQUALVERIFY, [], 1), Op(OP_CHECKSIG, [], 1)]));
    assert front ==
      [Op(OP_DUP, [], 1), Op(OP_HASH160, [], 1), Op(20, h, 21), Op(OP_EQUALVERIFY, [], 1), Op(OP_CHECKSIG, [], 1)];
  }

  lemma KeyIDScript(h: uint160)
    ensures DestScript(KeyID(h)) ==
            [OP_DUP] + ([OP_HASH160] + ([20] + h + ([OP_EQUALVERIFY] + ([OP_CHECKSIG] + []))))
  {
  }

  lemma KeyIDTail()
    ensures Ops([OP_EQUALVERIFY] + ([OP_CHECKSIG] + [])) ==
            Some([Op(OP_EQUALVERIFY, [], 1), Op(OP_CHECKSIG, [], 1)])
  {
    assert Ops([]) == Some([]);
    hide *;
    OpsOpcode(OP_CHECKSIG, []);
    OpsOpcode(OP_EQUALVERIFY, [OP_CHECKSIG] + []);
    assert [Op(OP_CHECKSIG, [], 1)] + [] == [Op(OP_CHECKSIG, [], 1)];
    assert [Op(OP_EQUALVERIFY, [], 1)] + [Op(OP_CHECKSIG, [], 1)] ==
        [Op(OP_EQUALVERIFY, [], 1), Op(OP_CHECKSIG, [], 1)];
  }

  // ----- SetMultisig -----

  function MultisigScript(nRequired: int, keys: seq<valtype>): seq<byte>
    requires 0 <= nRequired <= 16 && |keys| <= 16
  {
    [EncodeOP_N(nRequired)] + PushAllEnc(keys) + [EncodeOP_N(|keys|), OP_CHECKMULTISIG]
  }

  /** SetMultisig. Both numbers must be encodable. */
  method SetMultisig(script: CScript, nRequired: int, keys: seq<valtype>)
    requires 0 <= nRequired <= 16 && |keys| <= 16
    modifies script
    ensures script.vch == MultisigScript(nRequired, keys)
  {
    script.vch := [];
    script.PushOpcode(EncodeOP_N(nRequired));
    for i := 0 to |keys|
      invariant script.vch == [EncodeOP_N(nRequired)] + PushAllEnc(keys[..i])
    {
      PushAllAppend(keys[..i], keys[i]);
      assert keys[..i + 1] == keys[..i] + [keys[i]];
      script.PushData(keys[i]);
    }
    assert keys[..|keys|] == keys;
    script.PushOpcode(EncodeOP_N(|keys|));
    script.PushOpcode(OP_CHECKMULTISIG);
  }

  /** The instructions of a script that starts with pushes. */
  lemma {:induction false} OpsOfPushes(keys: seq<valtype>, rest: seq<byte>) returns (pushes: seq<Op>)
    requires forall i :: 0 <= i < |keys| ==> |keys[i]| < 0x1_0000_0000
    requires Ops(rest).Some?
    ensures KeysOf(pushes) == keys && Ops(PushAllEnc(keys) + rest) == Some(pushes + Ops(rest).value)
  {
    hide ParseOp, PushEnc, Ops;
    if keys == [] {
      pushes := [];
      assert PushAllEnc(keys) + rest == rest && [] + Ops(rest).value == Ops(rest).value;
    } else {
      var tail := PushAllEnc(keys[1..]) + rest;
      var more := OpsOfPushes(keys[1..], rest);
      var t := PushAllEnc(keys) + rest;
      assert t == PushEnc(keys[0]) + tail;
      PushIsRead(keys[0], tail);
      var op := ParseOp(t).value;
      assert t[op.len..] == tail;
      OpsCons(t, op, tail);
      pushes := [op] + more;
      assert KeysOf(pushes) == [op.data] + KeysOf(more);
      assert pushes + Ops(rest).value == [op] + (more + Ops(rest).value);
    }
  }

  /** Solver reads back what SetMultisig wrote, as a good multisig script exactly when 1 <= m <= n, and as nothing
      standard when one of the keys has not the size of a key. */
  lemma MultisigRoundTrip(nRequired: int, keys: seq<valtype>)
    requires 0 <= nRequired <= 16 && |keys| <= 16 && forall i :: 0 <= i < |keys| ==> |keys[i]| < 0x1_0000_0000
    ensures Solved(MultisigScript(nRequired, keys)) ==
      if forall i :: 0 <= i < |keys| ==> IsKey(keys[i])
      then Solution(1 <= nRequired <= |keys|, TX_MULTISIG, [[nRequired]] + keys + [[|keys|]])
      else Solution(false, TX_NONSTANDARD, [])
  {
    var m, n := EncodeOP_N(nRequired), EncodeOP_N(|keys|);
    var pushes := OpsOfMultisig(nRequired, keys);
    ShapeOfMultisig(m, n, keys, pushes);
    hide Ops, MultisigShape, MultisigParts, MultisigScript, PubkeyShape, PubkeyHashShape, KeysOf;
  }

  lemma OpsOfMultisig(nRequired: int, keys: seq<valtype>) returns (pushes: seq<Op>)
    requires 0 <= nRequired <= 16 && |keys| <= 16 && forall i :: 0 <= i < |keys| ==> |keys[i]| < 0x1_0000_0000
    ensures KeysOf(pushes) == keys
    ensures Ops(MultisigScript(nRequired, keys)) ==
      Some([Op(EncodeOP_N(nRequired), [], 1)] + pushes +
           [Op(EncodeOP_N(|keys|), [], 1), Op(OP_CHECKMULTISIG, [], 1)])
  {
    var m, n := EncodeOP_N(nRequired), EncodeOP_N(|keys|);
    var end: seq<byte> := [n] + ([OP_CHECKMULTISIG] + []);
    assert MultisigScript(nRequired, keys) == [m] + (PushAllEnc(keys) + end);
    assert Ops([]) == Some([]);
    hide Ops, MultisigScript, PushAllEnc, KeysOf;
    OpsOpcode(OP_CHECKMULTISIG, []);
    OpsOpcode(n, [OP_CHECKMULTISIG] + []);
    var last := [Op(n, [], 1), Op(OP_CHECKMULTISIG, [], 1)];
    assert [Op(n, [], 1)] + ([Op(OP_CHECKMULTISIG, [], 1)] + []) == last;
    pushes := OpsOfPushes(keys, end);
    OpsOpcode(m, PushAllEnc(keys) + end);
    assert [Op(m, [], 1)] + (pushes + last) == [Op(m, [], 1)] + pushes + last;
  }

  lemma ShapeOfMultisig(m: byte, n: byte, keys: seq<valtype>, pushes: seq<Op>)
    requires IsSmallInt(m) && IsSmallInt(n) && KeysOf(pushes) == keys
    ensures var ops := [Op(m, [], 1)] + pushes + [Op(n, [], 1), Op(OP_CHECKMULTISIG, [], 1)];
      && (MultisigShape(ops) <==> forall i :: 0 <= i < |keys| ==> IsKey(keys[i]))
      && (MultisigShape(ops) ==> MultisigParts(ops) == [[DecodeOP_N(m)]] + keys + [[DecodeOP_N(n)]])
      && !PubkeyShape(ops) && !PubkeyHashShape(ops)
  {
    var ops := [Op(m, [], 1)] + pushes + [Op(n, [], 1), Op(OP_CHECKMULTISIG, [], 1)];
    var k := |ops|;
    assert ops[k - 2] == Op(n, [], 1) && ops[k - 1] == Op(OP_CHECKMULTISIG, [], 1) && ops[1..k - 2] == pushes;
    forall i | 0 <= i < |keys| ensures ops[i + 1].data == keys[i] { assert ops[i + 1] == pushes[i]; }
    if MultisigShape(ops) {
      forall i | 0 <= i < |keys| ensures IsKey(keys[i]) { assert IsKey(ops[i + 1].data); }
    }
    if forall i :: 0 <= i < |keys| ==> IsKey(keys[i]) {
      forall i | 1 <= i < k - 2 ensures IsKey(ops[i].data) { assert ops[i].data == keys[i - 1]; }
    }
  }
}
