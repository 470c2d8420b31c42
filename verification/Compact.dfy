/** The compact form of targets (SetCompact and GetCompact in a3/a2/bignum.h): a floating point format with two to three
    bytes of precision. */
module Compact {
  import opened Bytes
  import opened BigNum

  /** The form of a number with all but its three highest bytes cleared. */
  function Rounded(v: seq<byte>): seq<byte> {
    if |v| <= 3 then v else Zeros(|v| - 3) + v[|v| - 3..]
  }

  /** The number that comes back from the compact form. */
  function Back(x: int): int { Decoded(Encoded(x)) }

  /** The highest bytes of a form in a form of j bytes: three of them over zeros, or fewer if there is no room. */
  function Cut(v: seq<byte>, j: nat): seq<byte>
    requires j <= |v|
  {
    if j <= 3 then v[|v| - j..] else Zeros(j - 3) + v[|v| - 3..]
  }

  /** The length of the body wraps around at 256. */
  lemma BodyOfEncoded(x: int)
    ensures CompactBody(Encoded(x)) == Reverse(Cut(Signed(x), |Signed(x)| % 256))
    ensures Encoded(x) / 0x100_0000 == |Signed(x)| % 256
  {
    hide Signed;
    var v, k := Signed(x), |Signed(x)| % 256;
    var body := Reverse(v);
    var b0, b1, b2 := BodyByte(body, 0), BodyByte(body, 1), BodyByte(body, 2);
    var c := Encoded(x);
    assert c == k * 0x100_0000 + b0 * 0x1_0000 + b1 * 0x100 + b2;
    Fields(k, b0, b1, b2);
    hide Encoded;
    forall i | 0 <= i < k ensures CompactBody(c)[i] == Reverse(Cut(v, k))[i] {
      CutAt(v, k, i);
    }
  }

  lemma CutAt(v: seq<byte>, j: nat, i: nat)
    requires i < j <= |v|
    ensures |Cut(v, j)| == j && Reverse(Cut(v, j))[i] == if i < 3 then BodyByte(Reverse(v), i) else 0
  {
    hide Reverse, Zeros;
    assert |Cut(v, j)| == j;
    assert Reverse(Cut(v, j))[i] == Cut(v, j)[j - 1 - i];
    if i < 3 {
      assert Cut(v, j)[j - 1 - i] == v[|v| - 1 - i];
    }
  }

  lemma DivMod(q: nat, r: nat, d: nat)
    requires r < d
    ensures (q * d + r) / d == q && (q * d + r) % d == r
  {
    var c := q * d + r;
    var e := c / d - q;
    assert e * d == r - c % d;
    assert e >= 1 ==> e * d >= d;
    assert e <= -1 ==> e * d + d <= 0;
  }

  lemma Fields(k: nat, b0: byte, b1: byte, b2: byte)
    ensures var c := k * 0x100_0000 + b0 * 0x1_0000 + b1 * 0x100 + b2;
      c / 0x100_0000 == k && c / 0x1_0000 % 256 == b0 && c / 0x100 % 256 == b1 && c % 256 == b2
  {
    var c := k * 0x100_0000 + b0 * 0x1_0000 + b1 * 0x100 + b2;
    DivMod(k, b0 * 0x1_0000 + b1 * 0x100 + b2, 0x100_0000);
    DivMod(k * 0x100 + b0, b1 * 0x100 + b2, 0x1_0000);
    DivMod(k * 0x1_0000 + b0 * 0x100 + b1, b2, 0x100);
    DivMod(k, b0, 0x100);
    DivMod(k * 0x100 + b0, b1, 0x100);
  }

  lemma BackIsCut(x: int)
    ensures Back(x) == Num(Cut(Signed(x), |Signed(x)| % 256))
  {
    BodyOfEncoded(x);
    ReverseTwice(Cut(Signed(x), |Signed(x)| % 256));
    hide Signed, Cut, CompactBody, Encoded;
  }

  lemma BackIsRounded(x: int)
    requires |Signed(x)| <= 255
    ensures Back(x) == Num(Rounded(Signed(x)))
  {
    BackIsCut(x);
    hide Signed, Back;
    assert Cut(Signed(x), |Signed(x)|) == Rounded(Signed(x));
  }

  /** A positive number and its bytes: the highest one leaves the sign bit free, and the two highest are not both
      small. */
  lemma SignedOfPositive(x: int)
    requires x >= 0
    ensures var v := Signed(x);
      && Val(v) == x
      && (x > 0 ==> v != [] && v[|v| - 1] < 0x80 && (v[|v| - 1] > 0 || (|v| >= 2 && v[|v| - 2] >= 0x80)))
      && (x == 0 ==> v == [])
  {
    NumOfSigned(x);
    if x > 0 {
      SignedEnd(x);
      ValOfLE(x);
      var v := Signed(x);
      assert v[|v| - 1 := v[|v| - 1] % 0x80] == v;
    }
  }

  /** The high part of the value of a byte string. */
  lemma ValSplit(v: seq<byte>, n: nat)
    requires n <= |v|
    ensures Val(v) == Val(v[..n]) + Pow256(n) * Val(v[n..]) && Val(v[..n]) < Pow256(n)
  {
    ValAppend(v[..n], v[n..]);
    assert v == v[..n] + v[n..];
    ValBound(v[..n]);
  }

  lemma ValThree(a: byte, b: byte, c: byte)
    ensures Val([a, b, c]) == a + 256 * b + 0x1_0000 * c
  {
    assert [a, b, c][1..] == [b, c] && [b, c][1..] == [c];
    assert Val([c]) == c;
  }

  /** The three highest bytes of a positive number hold at least fifteen bits. */
  lemma TopBits(x: int)
    requires x > 0 && |Signed(x)| >= 3
    ensures var v := Signed(x); Val(v[|v| - 3..]) >= 0x8000 && Val(v[|v| - 3..]) < 0x80_0000
  {
    SignedOfPositive(x);
    var v, k := Signed(x), |Signed(x)|;
    hide Signed;
    assert v[k - 3..] == [v[k - 3], v[k - 2], v[k - 1]];
    ValThree(v[k - 3], v[k - 2], v[k - 1]);
  }

  /** The weight of the three highest bytes, their value, and the value of the others. */
  function Unit(x: int): nat
    requires |Signed(x)| >= 3
  {
    Pow256(|Signed(x)| - 3)
  }

  function Top(x: int): nat
    requires |Signed(x)| >= 3
  {
    Val(Signed(x)[|Signed(x)| - 3..])
  }

  function Low(x: int): nat
    requires |Signed(x)| >= 3
  {
    Val(Signed(x)[..|Signed(x)| - 3])
  }

  /** What comes back: the number with its low bytes cleared. */
  lemma BackOfLarge(x: int)
    requires x > 0 && 3 < |Signed(x)| <= 255
    ensures x == Low(x) + Unit(x) * Top(x) && Low(x) < Unit(x) && Back(x) == Unit(x) * Top(x)
    ensures 0x8000 <= Top(x) < 0x80_0000
  {
    BackIsRounded(x);
    SignedOfPositive(x);
    TopBits(x);
    ValSplit(Signed(x), |Signed(x)| - 3);
    hide Signed, Val;
    RoundedValue(Signed(x));
  }

  lemma RoundedValue(v: seq<byte>)
    requires |v| > 3 && v[|v| - 1] < 0x80
    ensures Num(Rounded(v)) == Pow256(|v| - 3) * Val(v[|v| - 3..])
  {
    hide Val, Pow256;
    var n := |v| - 3;
    var r := Rounded(v);
    assert r == Zeros(n) + v[n..];
    ValOfZeros(n);
    ValAppend(Zeros(n), v[n..]);
    assert r[|v| - 1] == v[|v| - 1] && r[|v| - 1 := r[|v| - 1] % 0x80] == r;
    hide Rounded;
    assert Num(r) == Val(r);
  }

  lemma BackOfSmall(x: int)
    requires |Signed(x)| <= 3
    ensures Back(x) == x
  {
    BackIsRounded(x);
    NumOfSigned(x);
  }

  // ----- sizes -----

  lemma {:induction false} PowGrows(a: nat, b: nat)
    requires a <= b
    ensures Pow256(a) <= Pow256(b)
  {
    if a < b { PowGrows(a, b - 1); }
  }

  lemma LastByte(v: seq<byte>, n: nat)
    requires |v| == n + 1
    ensures Val(v) == Val(v[..n]) + Pow256(n) * v[n] && Val(v[..n]) < Pow256(n)
  {
    ValSplit(v, n);
    assert v[n..] == [v[n]] && Val([v[n]]) == v[n];
  }

  lemma AtLeast(p: nat, b: nat, c: nat)
    requires c <= b
    ensures p * c <= p * b
  {
  }

  /** The form of a positive number has k bytes between these two bounds. */
  lemma SizeBounds(x: int)
    requires x > 0
    ensures |Signed(x)| >= 1 && x < 0x80 * Pow256(|Signed(x)| - 1)
    ensures |Signed(x)| >= 2 ==> 0x80 * Pow256(|Signed(x)| - 2) <= x
  {
    SignedOfPositive(x);
    var v, k := Signed(x), |Signed(x)|;
    assert k >= 2 ==> Pow256(k - 1) == 0x100 * Pow256(k - 2);
    hide *;
    LastByte(v, k - 1);
    AtLeast(Pow256(k - 1), 0x7f, v[k - 1]);
    if k >= 2 {
      if v[k - 1] > 0 {
        AtLeast(Pow256(k - 1), v[k - 1], 1);
      } else {
        LastByte(v[..k - 1], k - 2);
        AtLeast(Pow256(k - 2), v[k - 2], 0x80);
      }
    }
  }

  lemma SizeIff(x: int, k: nat)
    requires x > 0 && k >= 1
    ensures |Signed(x)| <= k <==> x < 0x80 * Pow256(k - 1)
  {
    SizeBounds(x);
    hide Signed;
    var n := |Signed(x)|;
    if n <= k { PowGrows(n - 1, k - 1); } else { PowGrows(k - 1, n - 2); }
  }

  // ----- what the compact form keeps -----

  /** y is x rounded down, with a relative error below 2^-15. */
  predicate Close(x: int, y: int) { 0 <= y <= x && (x > 0 ==> 0x8000 * (x - y) < x) }

  lemma SmallError(x: int)
    requires x > 0 && 3 < |Signed(x)| <= 255
    ensures Close(x, Back(x)) && Back(x) > 0
  {
    BackOfLarge(x);
    hide Signed, Unit, Top, Low, Back;
    AtLeast(Unit(x), Top(x), 0x8000);
  }

  lemma {:induction false} DecodedBound(c: nat)
    requires c < 0x1_0000_0000
    ensures Decoded(c) < Pow256(c / 0x100_0000)
  {
    var v := Reverse(CompactBody(c));
    hide CompactBody;
    ValBound(v);
    if v != [] { ValBound(v[|v| - 1 := v[|v| - 1] % 0x80]); }
  }

  /** Too long for its length byte: the length wraps around, and far too little comes back. */
  lemma WrappedBack(x: int)
    requires x > 0 && |Signed(x)| > 255
    ensures Back(x) < Pow256(|Signed(x)| - 256)
  {
    var k, c := |Signed(x)|, Encoded(x);
    BodyOfEncoded(x);
    hide Signed, CompactBody, Encoded, Cut;
    assert c < 0x1_0000_0000;
    DecodedBound(c);
    assert k % 256 <= k - 256;
    PowGrows(k % 256, k - 256);
  }

  /** SetCompact of GetCompact rounds a number down, with a relative error below 2^-15, exactly when the number has no
      more than 2039 bits. */
  lemma CompactIsClose(x: int)
    requires x >= 0
    ensures Close(x, Back(x)) <==> x < 0x80 * Pow256(254)
  {
    ZeroIsEmpty();
    hide Signed, Back, Pow256;
    if x == 0 {
      BackOfSmall(0);
      PowGrows(0, 254);
    } else {
      SizeIff(x, 255);
      if |Signed(x)| <= 3 {
        BackOfSmall(x);
      } else if |Signed(x)| <= 255 {
        SmallError(x);
      } else {
        SizeBounds(x);
        WrappedBack(x);
        PowGrows(|Signed(x)| - 256, |Signed(x)| - 2);
      }
    }
  }

  lemma ZeroIsEmpty()
    ensures Signed(0) == []
  {
  }

  /** The number that comes back is kept by a second pass, whether its length wrapped around or not. Both have the same
      compact form too, if at least three bytes come back or nothing was lost of fewer. */
  lemma CompactIsFixed(x: int)
    requires x >= 0
    ensures Back(Back(x)) == Back(x)
    ensures |Signed(x)| <= 255 || |Signed(x)| % 256 >= 3 ==> Encoded(Back(x)) == Encoded(x)
  {
    hide *;
    ZeroIsEmpty();
    if |Signed(x)| <= 3 {
      BackOfSmall(x);
    } else if |Signed(x)| % 256 >= 3 {
      FormOfBack(x);
      SameForm(x, Back(x));
    } else {
      FewBytesBack(x);
      BackOfSmall(Back(x));
    }
  }

  lemma FormOfBack(x: int)
    requires x > 0 && 3 <= |Signed(x)| && |Signed(x)| % 256 >= 3
    ensures Signed(Back(x)) == Cut(Signed(x), |Signed(x)| % 256)
  {
    hide *;
    SignedOfPositive(x);
    BackIsCut(x);
    var v, j := Signed(x), |Signed(x)| % 256;
    assert j <= |v|;
    CutTop(v, j);
    KeptForm(Cut(v, j));
  }

  lemma KeptForm(w: seq<byte>)
    requires |w| >= 2 && w[|w| - 1] < 0x80 && (w[|w| - 1] > 0 || w[|w| - 2] >= 0x80)
    ensures Signed(Num(w)) == w
  {
    hide *;
    SignedIsShortest(w);
  }

  lemma CutTop(v: seq<byte>, j: nat)
    requires 3 <= j <= |v|
    ensures var w := Cut(v, j); |w| == j && w[j - 1] == v[|v| - 1] && w[j - 2] == v[|v| - 2]
  {
  }

  lemma SameForm(x: int, y: int)
    requires 3 <= |Signed(x)| && |Signed(x)| % 256 >= 3 && Signed(y) == Cut(Signed(x), |Signed(x)| % 256)
    ensures Encoded(y) == Encoded(x) && Back(y) == Back(x)
  {
    hide Signed;
    var v, r := Signed(x), Cut(Signed(x), |Signed(x)| % 256);
    assert |r| == |v| % 256 && Reverse(r)[0] == Reverse(v)[0] && Reverse(r)[1] == Reverse(v)[1]
        && Reverse(r)[2] == Reverse(v)[2];
  }

  lemma FewBytes(v: seq<byte>, j: nat)
    requires j < 3 < |v| && v[|v| - 1] < 0x80
    ensures 0 <= Num(Cut(v, j)) < 0x1_0000 && (j == 0 ==> Num(Cut(v, j)) == 0)
  {
    var w := Cut(v, j);
    if j > 0 {
      assert w[j - 1] == v[|v| - 1] && w[j - 1 := w[j - 1] % 0x80] == w;
      ValBound(w);
      PowGrows(j, 2);
    }
    assert Pow256(2) == 0x1_0000;
    hide Val, Pow256;
  }

  /** When the length wraps around to less than three, a small number comes back. */
  lemma FewBytesBack(x: int)
    requires x > 0 && |Signed(x)| > 3 && |Signed(x)| % 256 < 3
    ensures 0 <= Back(x) < 0x1_0000 && |Signed(Back(x))| <= 3
    ensures |Signed(x)| % 256 == 0 ==> Back(x) == 0
  {
    assert Pow256(2) == 0x1_0000;
    hide *;
    SignedOfPositive(x);
    BackIsCut(x);
    FewBytes(Signed(x), |Signed(x)| % 256);
    ZeroIsEmpty();
    if Back(x) > 0 { SizeIff(Back(x), 3); }
  }

  /** No negative number comes back positive, however long it is. */
  lemma NegativeStays(x: int)
    requires x <= 0
    ensures Back(x) <= 0
  {
    BackIsCut(x);
    var v, j := Signed(x), |Signed(x)| % 256;
    if x < 0 { SignOfNegative(x); }
    hide Signed, Back, Val;
    var w := Cut(v, j);
    if j > 0 { assert w[j - 1] == v[|v| - 1]; }
  }

  lemma SignOfNegative(x: int)
    requires x < 0
    ensures Signed(x) != [] && Signed(x)[|Signed(x)| - 1] >= 0x80
  {
  }

  lemma BackInOrder(x: int, y: int)
    requires 0 <= x <= y < 0x80 * Pow256(254)
    ensures Back(x) <= Back(y)
  {
    ZeroIsEmpty();
    hide Signed, Back, Pow256;
    CompactIsClose(x);
    if x == 0 { BackOfSmall(0); CompactIsClose(y); }
    else {
      SizeIff(x, 255);
      SizeIff(y, 255);
      var k, m := |Signed(x)|, |Signed(y)|;
      SizeBounds(y);
      SizeIff(x, m);
      if m <= 3 {
        BackOfSmall(y);
      } else if k == m {
        SameUnit(x, y);
      } else {
        LongerIsMore(x, y);
      }
    }
  }

  /** The first number whose length wraps around comes back as 0, and 1 comes back as 1. */
  lemma FirstWrapped(e: nat)
    requires e == 254
    ensures Back(0x80 * Pow256(e)) == 0 && Back(1) == 1 && 1 <= 0x80 * Pow256(e)
  {
    var x := 0x80 * Pow256(e);
    PowGrows(0, e);
    assert Pow256(e + 1) == 0x100 * Pow256(e);
    assert Pow256(0) == 1 && Pow256(2) == 0x1_0000;
    hide Pow256, Signed, Back;
    SizeIff(x, e + 1);
    SizeIff(x, e + 2);
    FewBytesBack(x);
    SizeIff(1, 3);
    BackOfSmall(1);
  }

  /** The pair keeps the order of the numbers below b exactly when b leaves out the numbers of more than 2039 bits. */
  lemma CompactIsMonotone(b: nat)
    ensures (forall x, y :: 0 <= x <= y < b ==> Back(x) <= Back(y)) <==> b <= 0x80 * Pow256(254)
  {
    hide Back, Pow256;
    if b <= 0x80 * Pow256(254) {
      forall x, y | 0 <= x <= y < b ensures Back(x) <= Back(y) {
        BackInOrder(x, y);
      }
    } else {
      FirstWrapped(254);
      assert Back(1) > Back(0x80 * Pow256(254));
    }
  }

  lemma SameUnit(x: int, y: int)
    requires 0 < x <= y && 3 < |Signed(x)| == |Signed(y)| <= 255
    ensures Back(x) <= Back(y)
  {
    BackOfLarge(x);
    BackOfLarge(y);
    assert Unit(x) == Unit(y);
    hide Signed, Unit, Top, Low, Back;
    FloorOrder(Unit(x), Top(x), Low(x), Top(y), Low(y));
  }

  lemma FloorOrder(u: nat, tx: nat, lx: nat, ty: nat, ly: nat)
    requires lx + u * tx <= ly + u * ty && ly < u
    ensures u * tx <= u * ty
  {
    assert tx >= ty + 1 ==> u * tx >= u * (ty + 1);
    assert tx <= ty ==> u * tx <= u * ty;
  }

  lemma LongerIsMore(x: int, y: int)
    requires 0 < x <= y && |Signed(x)| < |Signed(y)| <= 255 && |Signed(y)| > 3 && Back(x) <= x
    ensures Back(x) <= Back(y)
  {
    var m := |Signed(y)|;
    SizeBounds(x);
    BackOfLarge(y);
    assert Unit(y) == Pow256(m - 3) && Pow256(m - 2) == 0x100 * Pow256(m - 3);
    hide Signed, Unit, Top, Low, Back;
    AtLeast(Unit(y), Top(y), 0x8000);
    PowGrows(|Signed(x)| - 1, m - 2);
  }
}
