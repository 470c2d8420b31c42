/** CBigNum's byte formats (a3/a2/bignum.h) over an integer. OpenSSL's MPI format is a four-byte big-endian length and
    then the magnitude, big-endian, with the sign in the highest bit. */
module BigNum {
  import opened Bytes

  /** The magnitude with room for the sign, and the sign in its highest bit: the MPI body, turned around. */
  function Signed(n: int): seq<byte> {
    if n == 0 then []
    else
      ValOfLE(if n < 0 then -n else n);
      var m := LE(if n < 0 then -n else n);
      var last := |m| - 1;
      if m[last] >= 0x80 then m + [if n < 0 then 0x80 else 0]
      else if n < 0 then m[last := m[last] + 0x80]
      else m
  }

  function WithSign(negative: bool, m: int): int { if negative then -m else m }

  /** The number in a byte string of that form. Any string of zeros, with or without a sign, is zero. */
  function Num(v: seq<byte>): int {
    if v == [] then 0
    else
      var last := |v| - 1;
      WithSign(v[last] >= 0x80, Val(v[last := v[last] % 0x80]))
  }

  lemma NumOfSigned(n: int)
    ensures Num(Signed(n)) == n
  {
    if n != 0 {
      ValOfLE(if n < 0 then -n else n);
      hide LE, Val;
      var m := LE(if n < 0 then -n else n);
      if m[|m| - 1] >= 0x80 {
        SignAppended(m, if n < 0 then 0x80 else 0);
      } else {
        SignAdded(m, |m| - 1);
      }
    }
  }

  lemma SignAppended(m: seq<byte>, sign: byte)
    requires sign == 0 || sign == 0x80
    ensures Val((m + [sign])[|m| := sign % 0x80]) == Val(m)
  {
    ValAppend(m, [0]);
    assert Val([0]) == 0;
    assert (m + [sign])[|m| := 0] == m + [0];
  }

  lemma SignAdded(m: seq<byte>, last: nat)
    requires |m| == last + 1 && m[last] < 0x80
    ensures Val(m[last := m[last] % 0x80]) == Val(m)
    ensures var v := m[last := m[last] + 0x80]; Val(v[last := v[last] % 0x80]) == Val(m)
  {
    var x := m[last];
    assert (x + 0x80) % 0x80 == x;
    assert m[last := x] == m;
    assert m[last := x + 0x80][last := x] == m;
  }

  // ----- MPI -----

  function BE4(n: nat): (v: seq<byte>)
    ensures |v| == 4
  {
    Reverse(LEn(n, 4))
  }

  /** BN_bn2mpi. */
  function Bn2Mpi(n: int): seq<byte> { BE4(|Signed(n)|) + Reverse(Signed(n)) }

  /** BN_mpi2bn, for a stream whose length is the stated one. */
  function Mpi2Bn(mpi: seq<byte>): int
    requires |mpi| >= 4
  {
    Num(Reverse(mpi[4..]))
  }

  // ----- compact targets -----

  /** The body that SetCompact hands to OpenSSL: the low three bytes of nCompact and zeros, cut to nCompact >> 24
      bytes. */
  function CompactBody(nCompact: nat): (body: seq<byte>)
    requires nCompact < 0x1_0000_0000
    ensures |body| == nCompact / 0x100_0000
  {
    seq(nCompact / 0x100_0000, i requires 0 <= i =>
      if i == 0 then nCompact / 0x1_0000 % 256 else if i == 1 then nCompact / 0x100 % 256
          else if i == 2 then nCompact % 256 else 0)
  }

  /** What SetCompact makes of nCompact. */
  function Decoded(nCompact: nat): int
    requires nCompact < 0x1_0000_0000
  {
    Num(Reverse(CompactBody(nCompact)))
  }

  /** Byte i of the MPI body, or nothing. */
  function BodyByte(body: seq<byte>, i: nat): byte { if i < |body| then body[i] else 0 }

  /** What GetCompact makes of a number: its MPI length, shifted out of 32 bits where it has no room, and three
      bytes. */
  function Encoded(n: int): (c: nat)
    ensures c < 0x1_0000_0000
  {
    var body := Reverse(Signed(n));
    |body| % 256 * 0x100_0000 + BodyByte(body, 0) * 0x1_0000 + BodyByte(body, 1) * 0x100 + BodyByte(body, 2)
  }

  /** CBigNum: the integer and its conversions. */
  class CBigNum {
    var bn: int

    constructor (n: int)
      ensures bn == n
    {
      bn := n;
    }

    method SetVch(vch: seq<byte>)
      modifies this
      ensures bn == Num(vch)
    {
      var vch2 := BE4(|vch|) + Reverse(vch);
      assert vch2[4..] == Reverse(vch);
      ReverseTwice(vch);
      bn := Mpi2Bn(vch2);
    }

    method GetVch() returns (vch: seq<byte>)
      ensures vch == Signed(bn)
    {
      var mpi := Bn2Mpi(bn);
      if |mpi| <= 4 { return []; }
      vch := mpi[4..];
      assert vch == Reverse(Signed(bn));
      ReverseTwice(Signed(bn));
      vch := Reverse(vch);
    }

    method SetCompact(nCompact: nat)
      requires nCompact < 0x1_0000_0000
      modifies this
      ensures bn == Decoded(nCompact)
    {
      var nSize := nCompact / 0x100_0000;
      var vch := Zeros(4 + nSize);
      vch := vch[3 := nSize];
      if nSize >= 1 { vch := vch[4 := nCompact / 0x1_0000 % 256]; }
      if nSize >= 2 { vch := vch[5 := nCompact / 0x100 % 256]; }
      if nSize >= 3 { vch := vch[6 := nCompact % 256]; }
      assert vch[4..] == CompactBody(nCompact);
      bn := Mpi2Bn(vch);
    }

    /** The fields of the result do not overlap, so that their bitwise or is their sum. */
    method GetCompact() returns (nCompact: nat)
      ensures nCompact == Encoded(bn)
    {
      hide Signed;
      var vch := Bn2Mpi(bn);
      var nSize := |vch| - 4;
      assert vch[4..] == Reverse(Signed(bn));
      ShiftedSize(nSize);
      nCompact := nSize * 0x100_0000 % 0x1_0000_0000;
      var hi: int, mid: int, low: int := BodyByte(vch, 4), BodyByte(vch, 5), BodyByte(vch, 6);
      if nSize >= 1 { nCompact := nCompact + hi * 0x1_0000; }
      if nSize >= 2 { nCompact := nCompact + mid * 0x100; }
      if nSize >= 3 { nCompact := nCompact + low; }
    }
  }

  lemma ShiftedSize(n: nat)
    ensures n * 0x100_0000 % 0x1_0000_0000 == n % 256 * 0x100_0000
  {
    assert n * 0x100_0000 == n / 256 * 0x1_0000_0000 + n % 256 * 0x100_0000;
  }

  /** GetVch after SetVch: the shortest form of the same number; and GetVch is undone by SetVch. */
  lemma SignedIsShortest(v: seq<byte>)
    ensures Num(Signed(Num(v))) == Num(v)
    ensures Signed(Num(v)) == v <==>
      v == [] || (var last := |v| - 1; v[last] % 0x80 != 0 || (|v| >= 2 && v[last - 1] >= 0x80))
  {
    NumOfSigned(Num(v));
    if v != [] { ShortestIff(v); }
  }

  lemma ShortestIff(v: seq<byte>)
    requires v != []
    ensures Signed(Num(v)) == v <==> (var last := |v| - 1; v[last] % 0x80 != 0 || (|v| >= 2 && v[last - 1] >= 0x80))
  {
    var last := |v| - 1;
    if v[last] % 0x80 != 0 {
      ShortWithSign(v);
      hide Signed, Num;
    } else if |v| >= 2 && v[last - 1] >= 0x80 {
      ShortWithByte(v);
      hide Signed, Num;
    } else {
      NotShortest(v);
      hide Signed, Num;
    }
  }

  /** The form never ends in a byte that holds nothing but a sign that would have fitted below. */
  lemma SignedEnd(n: int)
    requires n != 0
    ensures var s := Signed(n); var last := |s| - 1;
      s != [] && (s[last] % 0x80 != 0 || (|s| >= 2 && s[last - 1] >= 0x80))
  {
    ValOfLE(if n < 0 then -n else n);
  }

  /** The sign stands in the highest byte of the magnitude. */
  lemma ShortWithSign(v: seq<byte>)
    requires v != [] && v[|v| - 1] % 0x80 != 0
    ensures Signed(Num(v)) == v
  {
    var last := |v| - 1;
    var top: byte := v[last] % 0x80;
    var w := v[last := top];
    LEOfVal(w);
    ValPositive(w);
    assert Num(v) == WithSign(v[last] >= 0x80, Val(w));
    assert v == if v[last] >= 0x80 then w[last := w[last] + 0x80] else w;
    hide Val, LE;
  }

  /** The sign has a byte of its own. */
  lemma ShortWithByte(v: seq<byte>)
    requires |v| >= 2 && v[|v| - 1] % 0x80 == 0 && v[|v| - 2] >= 0x80
    ensures Signed(Num(v)) == v
  {
    var last := |v| - 1;
    var m := v[..last];
    assert v[last := 0] == m + [0] && Val([0]) == 0;
    ValAppend(m, [0]);
    LEOfVal(m);
    ValPositive(m);
    assert Num(v) == WithSign(v[last] >= 0x80, Val(m));
    assert v == m + [if v[last] >= 0x80 then 0x80 else 0];
    hide Val, LE;
  }

  lemma NotShortest(v: seq<byte>)
    requires v != [] && v[|v| - 1] % 0x80 == 0 && (|v| >= 2 ==> v[|v| - 2] < 0x80)
    ensures Signed(Num(v)) != v
  {
    if Num(v) != 0 { SignedEnd(Num(v)); }
  }
}
