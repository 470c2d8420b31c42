/** base_uint of a3/a2/uint256.h: fixed-width unsigned integers over an array of 32-bit words, of any
    number. */
module BaseUint {
  import opened Bytes
  import opened Words
  import opened Hex
  import opened Text

  /** a & 0xffffffff. */
  function Low32(x: int): word { x % BASE }

  function Next(a: word): word {
    var n: int := a;
    Low32(n + 1)
  }

  function Previous(a: word): word {
    var n: int := a;
    Low32(n - 1)
  }

  class BaseUint {
    const pn: array<word>

    constructor (width: nat)
      ensures pn.Length == width && fresh(pn)
    {
      pn := new word[width](_ => 0);
    }

    ghost function Value(): nat
      reads pn
    {
      ValW(pn[..])
    }

    /** 2 to the power BITS. */
    ghost function Modulus(): nat { PowW(pn.Length) }

    /** += */
    method Add(b: BaseUint)
      requires b.pn.Length == pn.Length
      modifies pn
      ensures Value() == Mod(old(Value()) + old(b.Value()), Modulus())
    {
      hide ValW, PowW, Mod;
      ghost var x, y := pn[..], b.pn[..];
      var carry := 0;
      SumStarts(x, y);
      for i := 0 to pn.Length
        invariant pn[i..] == x[i..] && (b.pn == pn || b.pn[..] == y) && (b.pn == pn ==> x == y)
        invariant 0 <= carry <= 1
        invariant ValW(pn[..i]) + carry * PowW(i) == ValW(x[..i]) + ValW(y[..i])
      {
        assert pn[i] == x[i] && b.pn[i] == y[i] by { assert pn[i..][0] == x[i..][0]; }
        var n := carry + pn[i] + b.pn[i];
        ghost var before := pn[..i];
        pn[i] := Low32(n);
        assert pn[..i] == before && pn[..i + 1] == before + [Low32(n)];
        SumNext(x, y, pn[..i + 1], i, carry);
        carry := n / BASE;
      }
      assert pn[..pn.Length] == pn[..] && x[..pn.Length] == x && y[..pn.Length] == y;
      ValWBound(pn[..]);
      WholeSum(ValW(x), ValW(y), ValW(pn[..]), carry, PowW(pn.Length));
    }

    /** operator-: the complement of every word, and one more. */
    method Negate() returns (ret: BaseUint)
      requires pn.Length > 0
      ensures fresh(ret) && fresh(ret.pn) && ret.pn.Length == pn.Length
      ensures ret.Value() == Mod(0 - Value(), Modulus())
    {
      hide ValW, PowW, Mod;
      ret := new BaseUint(pn.Length);
      for i := 0 to pn.Length
        invariant forall j :: 0 <= j < i ==> ret.pn[j] == BASE - 1 - pn[j]
      {
        ret.pn[i] := BASE - 1 - pn[i];
      }
      ComplementValue(pn[..], ret.pn[..]);
      ValWBound(pn[..]);
      ComplementPlusOne(Value(), Modulus());
      ret.Increment();
    }

    /** -= */
    method Subtract(b: BaseUint)
      requires b.pn.Length == pn.Length > 0
      modifies pn
      ensures Value() == Mod(old(Value()) - old(b.Value()), Modulus())
    {
      hide ValW, PowW, Mod;
      var minus := b.Negate();
      ghost var x, y := pn[..], b.pn[..];
      ValWBound(y);
      MinusIsPlus(ValW(x), ValW(y), PowW(pn.Length));
      Add(minus);
    }

    /** Prefix ++. */
    method Increment()
      requires pn.Length > 0
      modifies pn
      ensures Value() == Mod(old(Value()) + 1, Modulus())
    {
      hide ValW, PowW, Mod;
      ghost var x := pn[..];
      var i := 0;
      pn[0] := Next(pn[0]);
      while pn[i] == 0 && i < pn.Length - 1
        invariant 0 <= i < pn.Length && pn[i + 1..] == x[i + 1..] && pn[i] == Next(x[i])
        invariant forall j :: 0 <= j < i ==> pn[j] == 0 && x[j] == BASE - 1
      {
        i := i + 1;
        assert pn[i..] == x[i..] by { assert pn[i - 1 + 1..] == x[i - 1 + 1..]; }
        assert pn[i] == x[i] by { assert pn[i..][0] == x[i..][0]; }
        pn[i] := Next(pn[i]);
        assert pn[i + 1..] == x[i..][1..];
      }
      IncrementedValue(x, pn[..], i);
    }

    /** Prefix --. */
    method Decrement()
      requires pn.Length > 0
      modifies pn
      ensures Value() == Mod(old(Value()) - 1, Modulus())
    {
      hide ValW, PowW, Mod;
      ghost var x := pn[..];
      var i := 0;
      pn[0] := Previous(pn[0]);
      while pn[i] == BASE - 1 && i < pn.Length - 1
        invariant 0 <= i < pn.Length && pn[i + 1..] == x[i + 1..] && pn[i] == Previous(x[i])
        invariant forall j :: 0 <= j < i ==> pn[j] == BASE - 1 && x[j] == 0
      {
        i := i + 1;
        assert pn[i..] == x[i..] by { assert pn[i - 1 + 1..] == x[i - 1 + 1..]; }
        assert pn[i] == x[i] by { assert pn[i..][0] == x[i..][0]; }
        pn[i] := Previous(pn[i]);
        assert pn[i + 1..] == x[i..][1..];
      }
      IncrementedValue(pn[..], x, i);
      DecrementOf(x, pn[..]);
    }

    /** <<=. Words are moved by the whole part of the shift, and joined bit by bit by the rest of it. */
    method ShiftLeft(shift: nat)
      modifies pn
      ensures Value() == Mod(old(Value()) * Pow2(shift), Modulus())
    {
      hide ValW, PowW, Mod, Shl, Shr, Pow2, Or32;
      ghost var x := pn[..];
      var a := pn[..];
      for i := 0 to pn.Length
        invariant forall m :: 0 <= m < i ==> pn[m] == 0
      {
        pn[i] := 0;
      }
      var k, s := shift / 32, shift % 32;
      for i := 0 to pn.Length
        invariant forall m :: 0 <= m < pn.Length ==> pn[m] == LeftSoFar(a, k, s, i, m)
      {
        LeftRound(a, k, s, i);
        if i + k + 1 < pn.Length && s != 0 { pn[i + k + 1] := Or32(pn[i + k + 1], Shr(a[i], 32 - s)); }
        if i + k < pn.Length { pn[i + k] := Or32(pn[i + k], Shl(a[i], s)); }
      }
      LeftValue(a, pn[..], k, s);
    }

    /** >>=. */
    method ShiftRight(shift: nat)
      modifies pn
      ensures Value() == old(Value()) / Pow2(shift)
    {
      hide ValW, PowW, Shl, Shr, Pow2, Or32;
      var a := pn[..];
      for i := 0 to pn.Length
        invariant forall m :: 0 <= m < i ==> pn[m] == 0
      {
        pn[i] := 0;
      }
      var k, s := shift / 32, shift % 32;
      for i := 0 to pn.Length
        invariant forall m :: 0 <= m < pn.Length ==> pn[m] == RightSoFar(a, k, s, i, m)
      {
        RightRound(a, k, s, i);
        if i - k - 1 >= 0 && s != 0 { pn[i - k - 1] := Or32(pn[i - k - 1], Shl(a[i], 32 - s)); }
        if i - k >= 0 { pn[i - k] := Or32(pn[i - k], Shr(a[i], s)); }
      }
      RightValue(a, pn[..], k, s);
    }

    /** Byte j of the memory that pn lies in. */
    method GetByte(j: nat) returns (b: byte)
      requires j < 4 * pn.Length
      ensures b == BytesOf(pn[..])[j]
    {
      ByteOfWord(pn[..], j);
      b := LEn(pn[j / 4], 4)[j % 4];
    }

    method SetByte(j: nat, b: byte)
      requires j < 4 * pn.Length
      modifies pn
      ensures BytesOf(pn[..]) == BytesOf(old(pn[..]))[j := b]
    {
      hide BytesOf, WithByte;
      StoreByte(pn[..], j, b);
      ghost var x := pn[..];
      pn[j / 4] := WithByte(pn[j / 4], j % 4, b);
      assert pn[..] == x[j / 4 := pn[j / 4]];
    }

    /** GetHex. */
    method GetHex() returns (psz: string)
      ensures psz == HexOf(BytesOf(pn[..])) && |psz| == 8 * pn.Length
      ensures AllHex(psz) && HexValue(psz) == Value()
    {
      hide ValW, HexValue, AllHex, BytesOf, HexOf, HexPair;
      ghost var v := BytesOf(pn[..]);
      psz := "";
      assert v[..4 * pn.Length] == v && "" + HexOf(v) == HexOf(v);
      for i := 0 to 4 * pn.Length
        invariant psz + HexOf(v[..4 * pn.Length - i]) == HexOf(v)
      {
        var b := GetByte(4 * pn.Length - i - 1);
        NextPair(v, 4 * pn.Length - i - 1, psz);
        psz := psz + HexPair(b);
      }
      NoMoreBytes(v);
      assert psz + "" == psz;
      ValueOfHex(v);
      ValueOfBytes(pn[..]);
    }

    /** SetHex: skips white space and a 0x, and reads the digits. */
    method SetHex(text: string)
      modifies pn
      ensures Value() == Mod(HexValue(Digits(text)), Modulus())
    {
      hide ValW, PowW, Mod, HexValue, BytesOf, Digits;
      var t := ScanDigits(text);
      for i := 0 to pn.Length
        invariant forall m :: 0 <= m < i ==> pn[m] == 0
      {
        pn[i] := 0;
      }
      assert forall i :: 0 <= i < |pn[..]| ==> pn[..][i] == 0;
      ZeroBytes(pn[..]);
      StoreDigits(t);
    }

    /** The part of SetHex that looks for the digits. */
    static method ScanDigits(text: string) returns (t: string)
      ensures t == Digits(text)
    {
      hide IsHex;
      var psz := text;
      while psz != "" && IsSpace(psz[0])
        invariant SkipSpaces(psz) == SkipSpaces(text)
        decreases |psz|
      {
        psz := psz[1..];
      }
      if |psz| >= 2 && psz[0] == '0' && (psz[1] == 'x' || psz[1] == 'X') { psz := psz[2..]; }
      var q := 0;
      while q < |psz| && IsHex(psz[q])
        invariant 0 <= q <= HexRun(psz)
      {
        RunGoesOn(psz, q);
        q := q + 1;
      }
      RunGoesOn(psz, q);
      t := psz[..q];
    }

    /** The loop of SetHex over the digits: from the last one on, two for each byte, until the memory is full. */
    method StoreDigits(t: string)
      requires forall i :: 0 <= i < 4 * pn.Length ==> BytesOf(pn[..])[i] == 0
      modifies pn
      ensures Value() == Mod(HexValue(t), Modulus())
    {
      hide ValW, PowW, Mod, HexValue, BytesOf, Val, Stored;
      var q, j := |t|, 0;
      ghost var zeros := BytesOf(pn[..]);
      assert forall i :: 0 <= i < |zeros| ==> zeros[i] == 0;
      NoDigits(t, zeros);
      while q > 0 && j < 4 * pn.Length
        invariant 0 <= q <= |t| && 0 <= j <= 4 * pn.Length && Stored(t, q, BytesOf(pn[..]), j)
      {
        ghost var v := BytesOf(pn[..]);
        StoreRound(t, q, v, j);
        var low := HexDigit(t[q - 1]);
        SetByte(j, low);
        q := q - 1;
        if q > 0 {
          var high := HexDigit(t[q - 1]);
          NibblesJoin(low, high);
          SetByte(j, Or(low, high * 16));
          assert BytesOf(pn[..]) == v[j := high * 16 + low];
          q := q - 1;
          j := j + 1;
        }
      }
      ValueOfBytes(pn[..]);
      SetHexEnds(t, q, BytesOf(pn[..]), j, pn.Length, pn[..]);
    }

    /** operator<, and by exchanging its operands operator>. */
    method Less(b: BaseUint) returns (less: bool)
      requires b.pn.Length == pn.Length
      ensures less <==> Value() < b.Value()
    {
      hide ValW, PowW, Mod;
      var i := pn.Length;
      while i > 0
        invariant 0 <= i <= pn.Length && pn[i..] == b.pn[i..]
      {
        i := i - 1;
        assert pn[..][i + 1..] == b.pn[..][i + 1..];
        if pn[i] < b.pn[i] { HigherWordDecides(pn[..], b.pn[..], i); return true; }
        else if pn[i] > b.pn[i] { HigherWordDecides(b.pn[..], pn[..], i); return false; }
      }
      assert pn[..] == b.pn[..];
      return false;
    }

    /** operator<=, and by exchanging its operands operator>=. */
    method LessOrEqual(b: BaseUint) returns (lessOrEqual: bool)
      requires b.pn.Length == pn.Length
      ensures lessOrEqual <==> Value() <= b.Value()
    {
      hide ValW, PowW, Mod;
      var i := pn.Length;
      while i > 0
        invariant 0 <= i <= pn.Length && pn[i..] == b.pn[i..]
      {
        i := i - 1;
        assert pn[..][i + 1..] == b.pn[..][i + 1..];
        if pn[i] < b.pn[i] { HigherWordDecides(pn[..], b.pn[..], i); return true; }
        else if pn[i] > b.pn[i] { HigherWordDecides(b.pn[..], pn[..], i); return false; }
      }
      assert pn[..] == b.pn[..];
      return true;
    }

    /** operator==. */
    method Equals(b: BaseUint) returns (equal: bool)
      requires b.pn.Length == pn.Length
      ensures equal <==> Value() == b.Value()
    {
      for i := 0 to pn.Length
        invariant forall j :: 0 <= j < i ==> pn[j] == b.pn[j]
      {
        if pn[i] != b.pn[i] {
          if Value() == b.Value() { ValWInjective(pn[..], b.pn[..]); }
          return false;
        }
      }
      assert pn[..] == b.pn[..];
      return true;
    }
  }

  lemma SumStarts(x: seq<word>, y: seq<word>)
    ensures ValW(x[..0]) == 0 && ValW(y[..0]) == 0 && PowW(0) == 1
  {
  }

  lemma SumNext(x: seq<word>, y: seq<word>, r: seq<word>, i: nat, carry: nat)
    requires |r| == i + 1 && i < |x| == |y| && carry <= 1
    requires ValW(r[..i]) + carry * PowW(i) == ValW(x[..i]) + ValW(y[..i])
    requires r[i] == Low32(carry + x[i] + y[i])
    ensures (carry + x[i] + y[i]) / BASE <= 1
    ensures ValW(r) + (carry + x[i] + y[i]) / BASE * PowW(i + 1) == ValW(x[..i + 1]) + ValW(y[..i + 1])
  {
    hide ValW;
    ValWNext(x, i);
    ValWNext(y, i);
    ValWNext(r, i);
    assert r[..i + 1] == r;
    var n, p := carry + x[i] + y[i], PowW(i);
    assert n == r[i] + n / BASE * BASE;
    assert PowW(i + 1) == BASE * p;
    hide PowW;
    Regroup(p, r[i], n / BASE, carry, x[i], y[i]);
  }

  lemma Regroup(p: nat, r: nat, c: nat, carry: nat, a: nat, b: nat)
    requires carry + a + b == r + c * BASE
    ensures p * r + c * (BASE * p) == carry * p + p * a + p * b
  {
    MulDist(p, carry, a + b);
    MulDist(p, a, b);
    MulDist(p, r, c * BASE);
  }

  lemma WholeSum(x: nat, y: nat, r: nat, carry: nat, p: nat)
    requires r < p && r + carry * p == x + y
    ensures r == Mod(x + y, p)
  {
    ModIs(carry, r, p, x + y);
  }

  lemma {:induction false} ComplementValue(x: seq<word>, r: seq<word>)
    requires |r| == |x| && forall i :: 0 <= i < |x| ==> r[i] == BASE - 1 - x[i]
    ensures ValW(r) == PowW(|x|) - 1 - ValW(x)
  {
    if x != [] { ComplementValue(x[1..], r[1..]); }
  }

  lemma MinusIsPlus(x: int, y: nat, m: nat)
    requires y < m
    ensures Mod(x + Mod(0 - y, m), m) == Mod(x - y, m)
  {
    var q, r := (x - y) / m, (x - y) % m;
    if y == 0 {
      DivModUnique(0, 0, m, 0);
    } else {
      ModIs(-1, m - y, m, 0 - y);
      MulDist(m, q, 1);
      ModIs(q + 1, r, m, x - y + m);
    }
  }

  /** Complement and one more: the negative. */
  lemma ComplementPlusOne(y: nat, m: nat)
    requires y < m
    ensures Mod(m - 1 - y + 1, m) == Mod(0 - y, m)
  {
    if y == 0 {
      ModIs(1, 0, m, m);
      ModIs(0, 0, m, 0);
    } else {
      ModIs(0, m - y, m, m - y);
      ModIs(-1, m - y, m, 0 - y);
    }
  }

  /** r is x and one more, where the i lowest words of x are full. */
  lemma IncrementedValue(x: seq<word>, r: seq<word>, i: nat)
    requires |r| == |x| && i < |x| && r[i + 1..] == x[i + 1..] && r[i] == Next(x[i])
    requires r[i] != 0 || i == |x| - 1
    requires forall j :: 0 <= j < i ==> r[j] == 0 && x[j] == BASE - 1
    ensures ValW(r) == Mod(ValW(x) + 1, PowW(|x|))
  {
    hide ValW, PowW, Mod;
    ValWAppend(x[..i + 1], x[i + 1..]);
    ValWAppend(r[..i + 1], r[i + 1..]);
    assert x == x[..i + 1] + x[i + 1..] && r == r[..i + 1] + r[i + 1..];
    ValWNext(x, i);
    ValWNext(r, i);
    ValWZeros(r[..i]);
    FullWords(x[..i]);
    WordSteps(PowW(i), x[i], r[i]);
    ValWBound(r);
    PowWNext(i);
    if r[i] == 0 {
      assert x[i + 1..] == [] && r[i + 1..] == [];
      EmptyValue();
      ModIs(1, 0, PowW(|x|), ValW(x) + 1);
    } else {
      ModIs(0, ValW(r), PowW(|x|), ValW(x) + 1);
    }
  }

  lemma EmptyValue()
    ensures ValW([]) == 0
  {
  }

  lemma PowWNext(i: nat)
    ensures PowW(i + 1) == BASE * PowW(i)
  {
  }

  lemma WordSteps(p: nat, a: word, b: word)
    requires b == Next(a)
    ensures b != 0 ==> p - 1 + p * a + 1 == p * b
    ensures b == 0 ==> p - 1 + p * a + 1 == BASE * p
  {
    MulDist(p, a, 1);
  }

  lemma {:induction false} FullWords(x: seq<word>)
    requires forall j :: 0 <= j < |x| ==> x[j] == BASE - 1
    ensures ValW(x) == PowW(|x|) - 1
  {
    if x != [] { FullWords(x[1..]); }
  }

  /** One less undoes one more. */
  lemma DecrementOf(x: seq<word>, r: seq<word>)
    requires |r| == |x| && ValW(x) == Mod(ValW(r) + 1, PowW(|x|))
    ensures ValW(r) == Mod(ValW(x) - 1, PowW(|x|))
  {
    hide ValW, PowW, Mod;
    var m, v, w := PowW(|x|), ValW(r), ValW(x);
    ValWBound(r);
    if v + 1 < m {
      ModIs(0, v + 1, m, v + 1);
      ModIs(0, v, m, v);
    } else {
      ModIs(1, 0, m, m);
      ModIs(-1, m - 1, m, -1);
    }
  }

  // ----- shifts -----

  /** Word m of the result after i rounds of <<=. */
  function LeftSoFar(a: seq<word>, k: nat, s: nat, i: nat, m: nat): int
    requires i <= |a| && m < |a| && s < 32
  {
    if m < k then 0
    else
      var j := m - k;
      var high: int := if 1 <= j <= i then Shr(a[j - 1], 32 - s) else 0;
      high + if j < i then Shl(a[j], s) else 0
  }

  lemma ShiftByNothing(x: word)
    ensures Shr(x, 32) == 0 && Shl(x, 32) == 0
  {
    Pow2Of32();
    ShlOfBase(x);
    hide Pow2;
    assert x < BASE;
  }

  lemma ShlOfBase(x: word)
    ensures x * BASE % BASE == 0
  {
    DivModUnique(x, 0, BASE, x * BASE);
  }

  /** What one round of <<= changes. */
  lemma LeftRound(a: seq<word>, k: nat, s: nat, i: nat)
    requires i < |a| && s < 32
    ensures forall m :: 0 <= m < |a| && m != i + k && m != i + k + 1 ==>
        LeftSoFar(a, k, s, i + 1, m) == LeftSoFar(a, k, s, i, m)
    ensures i + k + 1 < |a| ==>
        LeftSoFar(a, k, s, i, i + k + 1) == 0 && LeftSoFar(a, k, s, i + 1, i + k + 1) == Shr(a[i], 32 - s)
    ensures Or32(0, Shr(a[i], 32 - s)) == Shr(a[i], 32 - s) && (s == 0 ==> Shr(a[i], 32 - s) == 0)
    ensures i + k < |a| ==>
      var before := LeftSoFar(a, k, s, i, i + k);
      0 <= before < BASE && Or32(before, Shl(a[i], s)) == LeftSoFar(a, k, s, i + 1, i + k)
  {
    hide Shl, Shr, Or32;
    OrWithZero(Shr(a[i], 32 - s));
    OrWithZero(Shl(a[i], s));
    if s == 0 { ShiftByNothing(a[i]); }
    if i > 0 { OrOfParts(a[i - 1], a[i], s); }
  }

  lemma LeftValue(a: seq<word>, r: seq<word>, k: nat, s: nat)
    requires |r| == |a| && s < 32 && forall m :: 0 <= m < |a| ==> r[m] == LeftSoFar(a, k, s, |a|, m)
    ensures ValW(r) == Mod(ValW(a) * Pow2(32 * k + s), PowW(|a|))
  {
    hide ValW, PowW, Mod, Shl, Shr, Pow2;
    Pow2Add(32 * k, s);
    Pow2OfWords(k);
    ValWBound(r);
    if k >= |a| {
      ValWZeros(r);
      PowWAdd(|a|, k - |a|);
      AllOut(ValW(a), PowW(|a|), PowW(k - |a|), Pow2(s));
    } else {
      var n := |a| - k;
      var t := r[k..];
      forall i | 0 <= i < n ensures t[i] == LeftWord(a[..n], s, 0, i) {
        assert r[k + i] == LeftSoFar(a, k, s, |a|, k + i);
      }
      var out := LeftSeq(a[..n], t, s, 0);
      ValWAppend(r[..k], t);
      ValWAppend(a[..n], a[n..]);
      assert r == r[..k] + t && a == a[..n] + a[n..];
      ValWZeros(r[..k]);
      PowWAdd(k, n);
      SomeOut(ValW(a[..n]), ValW(a[n..]), ValW(t), out, PowW(n), PowW(k), Pow2(s));
    }
  }

  lemma AllOut(v: nat, p: nat, q: nat, b: nat)
    requires p >= 1
    ensures Mod(v * (p * q * b), p) == 0
  {
    MulAssoc(p, q, b);
    MulAssoc(v, p, q * b);
    MulAssoc(v, q * b, p);
    ModIs(v * (q * b), 0, p, v * (p * q * b));
  }

  lemma SomeOut(lo: nat, hi: nat, t: nat, out: nat, n: nat, k: nat, b: nat)
    requires t + n * out == lo * b && k * t < k * n
    ensures Mod((lo + n * hi) * (k * b), k * n) == k * t
  {
    var x := (lo + n * hi) * (k * b);
    var q := out + hi * b;
    calc {
      x;
    == { MulDist(k * b, lo, n * hi); }
      lo * (k * b) + n * hi * (k * b);
    == { MulAssoc(lo, b, k); MulAssoc(lo, k, b); MulAssoc(n * hi, k, b); }
      k * (lo * b) + n * hi * k * b;
    == { MulDist(k, t, n * out); }
      k * t + k * (n * out) + n * hi * k * b;
    == { MulAssoc(k, n, out); Rearrange(n, hi, k, b); }
      k * t + k * n * out + k * n * (hi * b);
    == { MulDist(k * n, out, hi * b); }
      k * t + k * n * q;
    }
    ModIs(q, k * t, k * n, x);
  }

  lemma Rearrange(n: nat, hi: nat, k: nat, b: nat)
    ensures n * hi * k * b == k * n * (hi * b)
  {
    MulAssoc(n, hi, k);
    MulAssoc(n, k, hi);
    MulAssoc(k * n, hi, b);
  }

  /** Word m of the result after i rounds of >>=. */
  function RightSoFar(a: seq<word>, k: nat, s: nat, i: nat, m: nat): int
    requires i <= |a| && s < 32
  {
    var j := m + k;
    var low: int := if j < i then Shr(a[j], s) else 0;
    low + if j + 1 < i then Shl(a[j + 1], 32 - s) else 0
  }

  /** What one round of >>= changes. */
  lemma RightRound(a: seq<word>, k: nat, s: nat, i: nat)
    requires i < |a| && s < 32
    ensures forall m: nat :: m != i - k && m != i - k - 1 ==> RightSoFar(a, k, s, i + 1, m) == RightSoFar(a, k, s, i, m)
    ensures i >= k ==> RightSoFar(a, k, s, i, i - k) == 0
    ensures i >= k ==> RightSoFar(a, k, s, i + 1, i - k) == Shr(a[i], s) == Or32(0, Shr(a[i], s))
    ensures i - k - 1 >= 0 ==>
      var before := RightSoFar(a, k, s, i, i - k - 1);
      0 <= before < BASE && Or32(before, Shl(a[i], 32 - s)) == RightSoFar(a, k, s, i + 1, i - k - 1)
      && (s == 0 ==> before == RightSoFar(a, k, s, i + 1, i - k - 1))
  {
    hide Shl, Shr, Or32;
    OrWithZero(Shr(a[i], s));
    if s == 0 { ShiftByNothing(a[i]); }
    if i > 0 { OrOfParts(a[i - 1], a[i], 32 - s); }
  }

  lemma RightValue(a: seq<word>, r: seq<word>, k: nat, s: nat)
    requires |r| == |a| && s < 32 && forall m :: 0 <= m < |a| ==> r[m] == RightSoFar(a, k, s, |a|, m)
    ensures ValW(r) == ValW(a) / Pow2(32 * k + s)
  {
    hide ValW, PowW, Shl, Shr, Pow2, LowBits;
    Pow2Add(32 * k, s);
    Pow2OfWords(k);
    ValWBound(a);
    if k >= |a| {
      ValWZeros(r);
      PowWAdd(|a|, k - |a|);
      NothingLeft(ValW(a), PowW(|a|), PowW(k - |a|), Pow2(s));
    } else {
      var n := |a| - k;
      var t, u := a[k..], r[..n];
      forall i | 0 <= i < n ensures u[i] == RightWord(t, s, i) {
        assert r[i] == RightSoFar(a, k, s, |a|, i);
      }
      RightSeq(t, u, s);
      ValWAppend(a[..k], t);
      ValWAppend(u, r[n..]);
      assert a == a[..k] + t && r == u + r[n..];
      ValWZeros(r[n..]);
      ValWBound(a[..k]);
      LowBitsBound(t[0], s);
      SomeLeft(ValW(a[..k]), ValW(t), ValW(u), LowBits(t[0], s), PowW(k), Pow2(s));
    }
  }

  lemma LowBitsBound(x: word, s: nat)
    ensures LowBits(x, s) < Pow2(s)
  {
  }

  lemma NothingLeft(v: nat, p: nat, q: nat, b: nat)
    requires v < p && q >= 1 && b >= 1
    ensures v / (p * q * b) == 0
  {
    MulMono(p, 1, q);
    MulMono(p * q, 1, b);
    DivModUnique(0, v, p * q * b, v);
  }

  lemma SomeLeft(lo: nat, t: nat, u: nat, l: nat, p: nat, b: nat)
    requires b * u + l == t && l < b && lo < p
    ensures (lo + p * t) / (p * b) == u
  {
    MulDist(p, b * u, l);
    MulAssoc(p, b, u);
    MulMono(p, l + 1, b);
    MulDist(p, l, 1);
    DivModUnique(u, p * l + lo, p * b, lo + p * t);
  }

  // ----- hexadecimal text -----

  lemma {:induction false} ByteOfWord(s: seq<word>, j: nat)
    requires j < 4 * |s|
    ensures BytesOf(s)[j] == LEn(s[j / 4], 4)[j % 4]
  {
    hide LEn;
    if j >= 4 { ByteOfWord(s[1..], j - 4); }
  }

  lemma NextPair(v: seq<byte>, k: nat, psz: string)
    requires k < |v|
    ensures psz + HexOf(v[..k + 1]) == psz + HexPair(v[k]) + HexOf(v[..k])
  {
    assert v[..k + 1][..k] == v[..k];
  }

  lemma NoMoreBytes(v: seq<byte>)
    ensures HexOf(v[..0]) == ""
  {
  }

  lemma {:induction false} ZeroBytes(s: seq<word>)
    requires forall i :: 0 <= i < |s| ==> s[i] == 0
    ensures forall j :: 0 <= j < 4 * |s| ==> BytesOf(s)[j] == 0
  {
    if s != [] {
      ZeroBytes(s[1..]);
      ZeroWord();
    }
  }

  lemma ZeroWord()
    ensures LEn(0, 4) == [0, 0, 0, 0]
  {
    assert LEn(0, 1) == [0];
    assert LEn(0, 2) == [0, 0];
  }

  lemma RunGoesOn(s: string, q: nat)
    requires q <= HexRun(s)
    ensures q < |s| ==> (IsHex(s[q]) <==> q < HexRun(s))
  {
    hide IsHex;
    if q > 0 { RunGoesOn(s[1..], q - 1); }
  }

  /** What one round of the loop over the digits does. */
  /** The digits from q on are stored in the first j bytes; when none are left, all bytes count. */
  predicate Stored(t: string, q: nat, v: seq<byte>, j: nat) {
    && q <= |t| && j <= |v|
    && (if q > 0 then |t| - q == 2 * j && Val(v[..j]) == HexValue(t[q..]) else Val(v) == HexValue(t))
    && (q > 0 ==> forall i :: j <= i < |v| ==> v[i] == 0)
  }

  lemma StoreRound(t: string, q: nat, v: seq<byte>, j: nat)
    requires q > 0 && j < |v| && Stored(t, q, v, j)
    ensures q <= |t|
    ensures q == 1 ==> Stored(t, 0, v[j := HexDigit(t[0])], j)
    ensures q >= 2 ==> Stored(t, q - 2, v[j := HexDigit(t[q - 2]) * 16 + HexDigit(t[q - 1])], j + 1)
  {
    hide Val, HexValue, HexDigit;
    if q == 1 {
      OneInFront(t, v, j, HexDigit(t[0]));
      ZerosAtEnd(v[j := HexDigit(t[0])], j + 1);
    } else {
      var b := HexDigit(t[q - 2]) * 16 + HexDigit(t[q - 1]);
      PairInFront(t, q, v, j, b);
      ZerosAtEnd(v[j := b], j + 1);
      if q == 2 { assert t[0..] == t; }
    }
  }

  lemma NoDigits(t: string, v: seq<byte>)
    requires forall i :: 0 <= i < |v| ==> v[i] == 0
    ensures Stored(t, |t|, v, 0)
  {
    ZerosAtEnd(v, 0);
  }

  lemma NibblesJoin(low: nat, high: nat)
    requires low < 16 && high < 16
    ensures Or(low, high * 16) == high * 16 + low < 256
  {
    assert Pow2(4) == 16;
    OrDisjoint(low, high, 4);
  }

  lemma SetHexEnds(t: string, q: nat, v: seq<byte>, j: nat, width: nat, s: seq<word>)
    requires |v| == 4 * width && |s| == width && Val(v) == ValW(s) && Stored(t, q, v, j) && (q > 0 ==> j == |v|)
    ensures ValW(s) == Mod(HexValue(t), PowW(width))
  {
    hide ValW, PowW, Mod, HexValue, Val;
    ValWBound(s);
    if q > 0 {
      assert v[..j] == v;
      HexValueAppend(t[..q], t[q..]);
      assert t == t[..q] + t[q..];
      Pow16OfBytes(|v|);
      Pow256OfWords(width);
      ModIs(HexValue(t[..q]), ValW(s), PowW(width), HexValue(t));
    } else {
      ModIs(0, ValW(s), PowW(width), HexValue(t));
    }
  }

  /** Reading back the text of a number gives the number. */
  lemma HexRoundTrip(s: seq<word>)
    ensures Mod(HexValue(Digits(HexOf(BytesOf(s)))), PowW(|s|)) == ValW(s)
  {
    hide ValW, PowW, Mod, HexValue;
    DigitsOfHexOf(BytesOf(s));
    ValueOfHex(BytesOf(s));
    ValueOfBytes(s);
    ValWBound(s);
    ModIs(0, ValW(s), PowW(|s|), ValW(s));
  }
}
