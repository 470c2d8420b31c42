/** CScript (a3/a2/script.h): bytes of a script, the operators that append to it, and the reader GetOp2. */
module Script {
  import opened Wrappers
  import opened Bytes
  import opened BigNum

  const OP_0 := 0x00
  const OP_PUSHDATA1 := 0x4c
  const OP_PUSHDATA2 := 0x4d
  const OP_PUSHDATA4 := 0x4e
  const OP_1NEGATE := 0x4f
  const OP_RESERVED := 0x50
  const OP_1 := 0x51
  const OP_16 := 0x60
  const OP_INVALIDOPCODE := 0xff

  // ----- reading -----

  /** One instruction: its opcode, the bytes that it pushes, and its length in the script. */
  datatype Op = Op(opcode: byte, data: seq<byte>, len: nat)

  /** How many bytes after a push opcode hold the size. */
  function SizeBytes(opcode: byte): nat {
    if opcode == OP_PUSHDATA1 then 1 else if opcode == OP_PUSHDATA2 then 2 else if opcode == OP_PUSHDATA4 then 4 else 0
  }

  /** The instruction at the front of the bytes, if they hold a whole one. */
  function ParseOp(t: seq<byte>): (r: Option<Op>)
    ensures r.Some? ==> 1 <= r.value.len <= |t| && r.value.opcode == t[0]
  {
    if t == [] then None
    else if t[0] > OP_PUSHDATA4 then Some(Op(t[0], [], 1))
    else
      var k := 1 + SizeBytes(t[0]);
      if |t| < k then None
      else
        var nSize := if k == 1 then t[0] else Val(t[1..k]);
        if |t| - k < nSize then None else Some(Op(t[0], t[k..k + nSize], k + nSize))
  }

  /** Whether and what the reader reads depends only on the bytes it consumes. */
  lemma ParseLocal(t: seq<byte>, u: seq<byte>)
    requires ParseOp(t).Some? && t[..ParseOp(t).value.len] <= u
    ensures ParseOp(u) == ParseOp(t)
  {
    var len := ParseOp(t).value.len;
    assert t[..len] == u[..len];
    assert t[0] == t[..len][0] == u[0];
    if t[0] <= OP_PUSHDATA4 {
      var k := 1 + SizeBytes(t[0]);
      assert t[1..k] == t[..len][1..k] == u[..len][1..k] == u[1..k];
      assert t[k..len] == t[..len][k..len] == u[..len][k..len] == u[k..len];
    }
  }

  lemma SliceOfRest(s: seq<byte>, pc: nat, i: nat, j: nat)
    requires pc + j <= |s| && i <= j
    ensures s[pc..][i..j] == s[pc + i..pc + j]
  {
  }

  lemma ValOfOne(s: seq<byte>, pc: nat)
    requires pc + 2 <= |s|
    ensures Val(s[pc..][1..2]) == s[pc + 1]
  {
    assert s[pc..][1..2] == [s[pc + 1]];
    assert Val([s[pc + 1]]) == s[pc + 1];
  }

  /** GetOp2 at position pc. On failure pc2 may stand inside the broken instruction; OP_INVALIDOPCODE is returned
      then. */
  method GetOp2(script: seq<byte>, pc: nat) returns (ok: bool, pc2: nat, opcodeRet: byte, vchRet: seq<byte>)
    requires pc <= |script|
    ensures pc <= pc2 <= |script|
    ensures ok == ParseOp(script[pc..]).Some?
    ensures ok ==> ParseOp(script[pc..]).value == Op(opcodeRet, vchRet, pc2 - pc) && pc < pc2
    ensures !ok ==> opcodeRet == OP_INVALIDOPCODE
    ensures opcodeRet > OP_PUSHDATA4 ==> vchRet == []
  {
    hide Val;
    ghost var t := script[pc..];
    opcodeRet, vchRet, pc2 := OP_INVALIDOPCODE, [], pc;
    if pc2 >= |script| { return false, pc2, opcodeRet, vchRet; }
    var opcode := script[pc2];
    pc2 := pc2 + 1;
    if opcode <= OP_PUSHDATA4 {
      var nSize: nat := 0;
      if opcode < OP_PUSHDATA1 {
        nSize := opcode;
      } else if opcode == OP_PUSHDATA1 {
        if |script| - pc2 < 1 { return false, pc2, opcodeRet, vchRet; }
        nSize := script[pc2];
        pc2 := pc2 + 1;
        ValOfOne(script, pc);
      } else if opcode == OP_PUSHDATA2 {
        if |script| - pc2 < 2 { return false, pc2, opcodeRet, vchRet; }
        nSize := Val(script[pc2..pc2 + 2]);
        pc2 := pc2 + 2;
        SliceOfRest(script, pc, 1, 3);
      } else {
        if |script| - pc2 < 4 { return false, pc2, opcodeRet, vchRet; }
        nSize := Val(script[pc2..pc2 + 4]);
        pc2 := pc2 + 4;
        SliceOfRest(script, pc, 1, 5);
      }
      assert pc2 - pc == 1 + SizeBytes(opcode);
      assert nSize == if SizeBytes(opcode) == 0 then opcode else Val(t[1..pc2 - pc]);
      if |script| - pc2 < nSize { return false, pc2, opcodeRet, vchRet; }
      SliceOfRest(script, pc, pc2 - pc, pc2 - pc + nSize);
      vchRet := script[pc2..pc2 + nSize];
      pc2 := pc2 + nSize;
    }
    opcodeRet := opcode;
    return true, pc2, opcodeRet, vchRet;
  }

  // ----- writing -----

  /** What `<<` appends for a byte vector. A size is cut off to 32 bits. */
  function PushEnc(b: seq<byte>): seq<byte>
  {
    (if |b| < OP_PUSHDATA1 then [|b|]
     else if |b| <= 0xff then [OP_PUSHDATA1, |b|]
     else if |b| <= 0xffff then [OP_PUSHDATA2] + LEn(|b|, 2)
     else [OP_PUSHDATA4] + LEn(|b|, 4)) + b
  }

  /** The reader reads back every pushed vector, and stops at its end. */
  lemma PushIsRead(b: seq<byte>, rest: seq<byte>)
    requires |b| < 0x1_0000_0000
    ensures ParseOp(PushEnc(b) + rest).Some?
    ensures var op := ParseOp(PushEnc(b) + rest).value;
            op.data == b && op.len == |PushEnc(b)| && op.opcode <= OP_PUSHDATA4
    ensures PushEnc(b) != []
  {
    var t := PushEnc(b) + rest;
    if |b| < OP_PUSHDATA1 {
      assert t[1..1 + |b|] == b;
    } else if |b| <= 0xff {
      assert t[1..2] == [|b|] && Val([|b|]) == |b|;
      assert t[2..2 + |b|] == b;
    } else if |b| <= 0xffff {
      ValOfLEn(|b|, 2);
      assert Pow256(2) == 0x1_0000;
      assert t[1..3] == LEn(|b|, 2);
      assert t[3..3 + |b|] == b;
    } else {
      ValOfLEn(|b|, 4);
      assert Pow256(4) == 0x1_0000_0000 by { assert Pow256(2) == 0x1_0000; assert Pow256(3) == 0x100_0000; }
      assert t[1..5] == LEn(|b|, 4);
      assert t[5..5 + |b|] == b;
    }
  }

  /** The bytes that push_int64 appends: an opcode for -1 and 1 to 16, and otherwise the number as a vector. */
  function PushIntEnc(n: int): seq<byte>
    requires -0x8000_0000_0000_0000 <= n < 0x1_0000_0000_0000_0000
  {
    if n == -1 || 1 <= n <= 16 then [n + (OP_1 - 1)]
    else
      SignedSize(n);
      PushEnc(Signed(n))
  }

  lemma SignedSize(n: int)
    requires -0x8000_0000_0000_0000 <= n < 0x1_0000_0000_0000_0000
    ensures |Signed(n)| <= 9
  {
    var m := if n < 0 then -n else n;
    assert Pow256(8) == 0x1_0000_0000_0000_0000 by {
      assert Pow256(2) == 0x1_0000;
      assert Pow256(4) == 0x1_0000_0000;
      assert Pow256(6) == 0x1_0000_0000_0000;
    }
    LESize(m, 8);
  }

  /** The number that an instruction pushes: OP_1NEGATE and OP_1 to OP_16 stand for -1 and 1 to 16. */
  function Pushed(op: Op): seq<byte> {
    if op.opcode == OP_1NEGATE || OP_1 <= op.opcode <= OP_16 then Signed(op.opcode - (OP_1 - 1)) else op.data
  }

  /** Both ways of push_int64 push the same bytes. */
  lemma PushedInt(n: int, rest: seq<byte>)
    requires -0x8000_0000_0000_0000 <= n < 0x1_0000_0000_0000_0000
    ensures ParseOp(PushIntEnc(n) + rest).Some?
    ensures var op := ParseOp(PushIntEnc(n) + rest).value; Pushed(op) == Signed(n) && op.len == |PushIntEnc(n)|
  {
    SignedSize(n);
    if n != -1 && !(1 <= n <= 16) { PushIsRead(Signed(n), rest); }
  }

  /** EncodeOP_N and DecodeOP_N. */
  function EncodeOP_N(n: int): (opcode: byte)
    requires 0 <= n <= 16
    ensures opcode == OP_0 || OP_1 <= opcode <= OP_16
    ensures DecodeOP_N(opcode) == n
  {
    if n == 0 then OP_0 else OP_1 + n - 1
  }

  function DecodeOP_N(opcode: byte): (n: int)
    requires opcode == OP_0 || OP_1 <= opcode <= OP_16
    ensures 0 <= n <= 16
  {
    if opcode == OP_0 then 0 else opcode - (OP_1 - 1)
  }

  /** The script as a buffer that the operators append to. */
  class CScript {
    var vch: seq<byte>

    constructor (b: seq<byte>)
      ensures vch == b
    {
      vch := b;
    }

    /** operator+=. */
    method Append(b: seq<byte>)
      modifies this
      ensures vch == old(vch) + b
    {
      vch := vch + b;
    }

    /** `<<` of an opcode. */
    method PushOpcode(opcode: byte)
      modifies this
      ensures vch == old(vch) + [opcode]
    {
      vch := vch + [opcode];
    }

    /** `<<` of a byte vector. */
    method PushData(b: seq<byte>)
      modifies this
      ensures vch == old(vch) + PushEnc(b)
    {
      if |b| < OP_PUSHDATA1 {
        vch := vch + [|b|];
      } else if |b| <= 0xff {
        vch := vch + [OP_PUSHDATA1];
        vch := vch + [|b|];
      } else if |b| <= 0xffff {
        vch := vch + [OP_PUSHDATA2];
        vch := vch + LEn(|b|, 2);
      } else {
        vch := vch + [OP_PUSHDATA4];
        vch := vch + LEn(|b|, 4);
      }
      vch := vch + b;
    }

    /** push_int64 and push_uint64. */
    method PushInt(n: int)
      requires -0x8000_0000_0000_0000 <= n < 0x1_0000_0000_0000_0000
      modifies this
      ensures vch == old(vch) + PushIntEnc(n)
    {
      if n == -1 || 1 <= n <= 16 {
        vch := vch + [n + (OP_1 - 1)];
      } else {
        SignedSize(n);
        var bn := new CBigNum(n);
        var v := bn.GetVch();
        PushData(v);
      }
    }
  }
}
