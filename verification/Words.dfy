/** Numbers as lists of 32-bit words, the lowest first, and the shifts and the bitwise or of single words. */
module Words {
  const BASE: nat := 0x1_0000_0000

  type word = x: int | 0 <= x < 0x1_0000_0000

  function PowW(n: nat): (p: nat)
    ensures p >= 1
  {
    if n == 0 then 1 else BASE * PowW(n - 1)
  }

  function Pow2(n: nat): (p: nat)
    ensures p >= 1
  {
    if n == 0 then 1 else 2 * Pow2(n - 1)
  }

  function ValW(s: seq<word>): nat {
    if s == [] then 0 else s[0] + BASE * ValW(s[1..])
  }

  // ----- arithmetic facts -----

  lemma MulAssoc(a: nat, b: nat, c: nat)
    ensures a * (b * c) == (a * b) * c
  {
  }

  lemma MulDist(a: int, b: int, c: int)
    ensures a * (b + c) == a * b + a * c
  {
  }

  lemma MulMono(p: nat, a: nat, b: nat)
    requires a <= b
    ensures p * a <= p * b
  {
  }

  /** Quotient and remainder are determined by their equation. */
  lemma DivModUnique(q: int, r: int, d: nat, x: int)
    requires 0 <= r < d && x == q * d + r
    ensures x / d == q && x % d == r
  {
    var e := x / d - q;
    MulDist(d, x / d, -q);
    assert e * d == r - x % d;
    assert e >= 1 ==> e * d >= d;
    assert e <= -1 ==> e * d + d <= 0;
  }

  /** x modulo m. */
  function Mod(x: int, m: nat): (r: nat)
    requires m > 0
    ensures r < m
  {
    x % m
  }

  lemma ModIs(q: int, r: nat, m: nat, x: int)
    requires r < m && x == q * m + r
    ensures Mod(x, m) == r
  {
    DivModUnique(q, r, m, x);
  }

  lemma {:induction false} PowWAdd(a: nat, b: nat)
    ensures PowW(a + b) == PowW(a) * PowW(b)
  {
    if a > 0 {
      PowWAdd(a - 1, b);
      MulAssoc(BASE, PowW(a - 1), PowW(b));
    }
  }

  lemma {:induction false} Pow2Add(a: nat, b: nat)
    ensures Pow2(a + b) == Pow2(a) * Pow2(b)
  {
    if a > 0 {
      Pow2Add(a - 1, b);
      MulAssoc(2, Pow2(a - 1), Pow2(b));
    }
  }

  lemma Pow2Of32()
    ensures Pow2(32) == BASE
  {
    assert Pow2(8) == 256;
    Pow2Add(8, 8);
    Pow2Add(16, 16);
  }

  lemma {:induction false} Pow2OfWords(k: nat)
    ensures Pow2(32 * k) == PowW(k)
  {
    if k > 0 {
      Pow2OfWords(k - 1);
      Pow2Of32();
      Pow2Add(32, 32 * (k - 1));
    }
  }

  // ----- values -----

  lemma {:induction false} ValWBound(s: seq<word>)
    ensures ValW(s) < PowW(|s|)
  {
    if s != [] { ValWBound(s[1..]); }
  }

  lemma {:induction false} ValWAppend(a: seq<word>, b: seq<word>)
    ensures ValW(a + b) == ValW(a) + PowW(|a|) * ValW(b)
  {
    if a == [] {
      assert a + b == b;
    } else {
      ValWAppend(a[1..], b);
      assert (a + b)[1..] == a[1..] + b;
      MulAssoc(BASE, PowW(|a| - 1), ValW(b));
    }
  }

  lemma ValWNext(s: seq<word>, i: nat)
    requires i < |s|
    ensures ValW(s[..i + 1]) == ValW(s[..i]) + PowW(i) * s[i]
  {
    ValWAppend(s[..i], [s[i]]);
    assert s[..i + 1] == s[..i] + [s[i]];
    assert ValW([s[i]]) == s[i];
  }

  /** Different words, different numbers. */
  lemma {:induction false} ValWInjective(a: seq<word>, b: seq<word>)
    requires |a| == |b| && ValW(a) == ValW(b)
    ensures a == b
  {
    if a != [] {
      DivModUnique(ValW(a[1..]), a[0], BASE, ValW(a));
      DivModUnique(ValW(b[1..]), b[0], BASE, ValW(b));
      ValWInjective(a[1..], b[1..]);
      assert a == [a[0]] + a[1..] && b == [b[0]] + b[1..];
    }
  }

  lemma Greater(p: nat, a: nat, b: nat)
    requires a < b
    ensures p * a + p <= p * b
  {
    MulMono(p, a + 1, b);
    MulDist(p, a, 1);
  }

  /** The highest word that differs decides. */
  lemma HigherWordDecides(a: seq<word>, b: seq<word>, i: nat)
    requires |a| == |b| && i < |a| && a[i + 1..] == b[i + 1..] && a[i] < b[i]
    ensures ValW(a) < ValW(b)
  {
    hide ValW, PowW;
    ValWAppend(a[..i + 1], a[i + 1..]);
    ValWAppend(b[..i + 1], b[i + 1..]);
    assert a == a[..i + 1] + a[i + 1..] && b == b[..i + 1] + b[i + 1..];
    ValWNext(a, i);
    ValWNext(b, i);
    ValWBound(a[..i]);
    Greater(PowW(i), a[i], b[i]);
  }

  lemma {:induction false} ValWZeros(s: seq<word>)
    requires forall i :: 0 <= i < |s| ==> s[i] == 0
    ensures ValW(s) == 0
  {
    if s != [] { ValWZeros(s[1..]); }
  }

  // ----- bitwise or -----

  /** x | y, bit by bit. */
  function Or(x: nat, y: nat): nat
    decreases x + y
  {
    if x == 0 && y == 0 then 0
    else (if x % 2 == 1 || y % 2 == 1 then 1 else 0) + 2 * Or(x / 2, y / 2)
  }

  /** Where one number has its bits below, and the other above, position s, their or is their sum. */
  lemma {:induction false} OrDisjoint(x: nat, q: nat, s: nat)
    requires x < Pow2(s)
    ensures Or(x, q * Pow2(s)) == x + q * Pow2(s)
  {
    var y := q * Pow2(s);
    if x == 0 && y == 0 {
    } else if s == 0 {
      OrZero(y);
    } else {
      MulAssoc(q, 2, Pow2(s - 1));
      assert y == 2 * (q * Pow2(s - 1));
      assert y / 2 == q * Pow2(s - 1) && y % 2 == 0;
      OrDisjoint(x / 2, q, s - 1);
    }
  }

  lemma {:induction false} OrZero(y: nat)
    ensures Or(0, y) == y
  {
    if y > 0 { OrZero(y / 2); }
  }

  lemma {:induction false} OrSymmetric(x: nat, y: nat)
    ensures Or(x, y) == Or(y, x)
    decreases x + y
  {
    if x > 0 || y > 0 { OrSymmetric(x / 2, y / 2); }
  }

  lemma {:induction false} OrBound(x: nat, y: nat, n: nat)
    requires x < Pow2(n) && y < Pow2(n)
    ensures Or(x, y) < Pow2(n)
  {
    if x > 0 || y > 0 { OrBound(x / 2, y / 2, n - 1); }
  }

  /** x | y of words. */
  function Or32(x: word, y: word): word {
    Pow2Of32();
    OrBound(x, y, 32);
    Or(x, y)
  }

  /** x << s, cut off to 32 bits, and x >> s. */
  function Shl(x: word, s: nat): word { x * Pow2(s) % BASE }

  function Shr(x: word, s: nat): word {
    ShrIsWord(x, s);
    x / Pow2(s)
  }

  lemma ShrIsWord(x: word, s: nat)
    ensures 0 <= x / Pow2(s) <= x
  {
    hide Pow2;
    var p := Pow2(s);
    var h, l := x / p, x % p;
    assert x == h * p + l;
    MulMono(h, 1, p);
  }

  /** The bits of a word below position n. */
  function LowBits(x: word, n: nat): nat { x % Pow2(n) }

  /** A shifted word comes apart into what stays in 32 bits and what leaves them; both have their own bits. */
  lemma ShiftParts(x: word, s: nat)
    requires s <= 32
    ensures Shl(x, s) + BASE * Shr(x, 32 - s) == x * Pow2(s)
    ensures Shl(x, s) == LowBits(x, 32 - s) * Pow2(s)
    ensures Shr(x, 32 - s) < Pow2(s)
  {
    Pow2Of32();
    Pow2Add(s, 32 - s);
    hide Pow2;
    var p, q := Pow2(s), Pow2(32 - s);
    PartsOf(x, p, q);
  }

  lemma PartsOf(x: word, p: nat, q: nat)
    requires p >= 1 && q >= 1 && p * q == BASE
    ensures x * p % BASE + BASE * (x / q) == x * p
    ensures x * p % BASE == x % q * p
    ensures x / q < p
  {
    var h, l := x / q, x % q;
    assert x == h * q + l;
    ProductOfParts(h, q, l, p);
    assert l * p < BASE by { MulMono(p, l + 1, q); MulDist(p, l, 1); }
    DivModUnique(h, l * p, BASE, x * p);
    QuotientBound(x, p, q);
  }

  lemma ProductOfParts(h: nat, q: nat, l: nat, p: nat)
    ensures (h * q + l) * p == h * (p * q) + l * p
  {
    MulDist(p, h * q, l);
    MulAssoc(h, q, p);
  }

  lemma QuotientBound(x: nat, p: nat, q: nat)
    requires q >= 1 && x < p * q
    ensures x / q < p
  {
    var h := x / q;
    assert h >= p ==> h * q >= p * q by { if h >= p { MulMono(q, p, h); } }
    assert x == h * q + x % q;
  }

  function Joined(y: word, x: word, s: nat): int
    requires s <= 32
  {
    var high: int := Shr(y, 32 - s);
    high + Shl(x, s)
  }

  /** The bits that move into a word and those that move within it do not overlap. */
  lemma OrOfParts(y: word, x: word, s: nat)
    requires s <= 32
    ensures Or32(Shr(y, 32 - s), Shl(x, s)) == Joined(y, x, s)
    ensures Or32(Shl(x, s), Shr(y, 32 - s)) == Joined(y, x, s)
  {
    hide Shl, Shr, Pow2, Or, LowBits;
    ShiftParts(y, s);
    ShiftParts(x, s);
    OrDisjoint(Shr(y, 32 - s), LowBits(x, 32 - s), s);
    OrSymmetric(Shr(y, 32 - s), Shl(x, s));
  }

  lemma OrWithZero(y: word)
    ensures Or32(0, y) == y
  {
    OrZero(y);
  }

  // ----- shifting lists of words -----

  /** Word i of the list shifted left by s bits: it takes the high bits of the word below it, the lowest one c. */
  function LeftWord(a: seq<word>, s: nat, c: int, i: nat): int
    requires i < |a| && s <= 32
  {
    var low: int := Shl(a[i], s);
    low + if i == 0 then c else Shr(a[i - 1], 32 - s)
  }

  lemma {:induction false} LeftSeq(a: seq<word>, t: seq<word>, s: nat, c: nat) returns (out: nat)
    requires |t| == |a| && s <= 32
    requires forall i :: 0 <= i < |a| ==> t[i] == LeftWord(a, s, c, i)
    ensures ValW(t) + PowW(|t|) * out == ValW(a) * Pow2(s) + c
  {
    hide Shl, Shr, Pow2;
    if a == [] {
      out := c;
    } else {
      var c' := Shr(a[0], 32 - s);
      forall i | 0 <= i < |a| - 1 ensures t[1..][i] == LeftWord(a[1..], s, c', i) {
        assert t[i + 1] == LeftWord(a, s, c, i + 1);
      }
      out := LeftSeq(a[1..], t[1..], s, c');
      ShiftParts(a[0], s);
      assert t[0] == LeftWord(a, s, c, 0);
      LeftStep(a[0], Shl(a[0], s), c', c, ValW(a[1..]), ValW(t[1..]), PowW(|t| - 1), out, Pow2(s));
    }
  }

  lemma LeftStep(a0: nat, low: nat, c': nat, c: nat, va: nat, vt: nat, p: nat, out: nat, q: nat)
    requires low + BASE * c' == a0 * q && vt + p * out == va * q + c'
    ensures (low + c) + BASE * vt + BASE * p * out == (a0 + BASE * va) * q + c
  {
    MulDist(BASE, vt, p * out);
    MulDist(BASE, va * q, c');
    MulAssoc(BASE, p, out);
    MulAssoc(BASE, va, q);
    MulDist(q, a0, BASE * va);
  }

  /** Word i of the list shifted right by s bits: it takes the low bits of the word above it. */
  function RightWord(t: seq<word>, s: nat, i: nat): int
    requires i < |t| && s <= 32
  {
    var low: int := Shr(t[i], s);
    low + if i + 1 < |t| then Shl(t[i + 1], 32 - s) else 0
  }

  lemma {:induction false} RightSeq(t: seq<word>, u: seq<word>, s: nat)
    requires |u| == |t| && s <= 32
    requires forall i :: 0 <= i < |t| ==> u[i] == RightWord(t, s, i)
    ensures Pow2(s) * ValW(u) + (if t == [] then 0 else LowBits(t[0], s)) == ValW(t)
  {
    hide Shl, Shr, Pow2, LowBits;
    if t != [] {
      forall i | 0 <= i < |t| - 1 ensures u[1..][i] == RightWord(t[1..], s, i) {
        assert u[i + 1] == RightWord(t, s, i + 1);
      }
      RightSeq(t[1..], u[1..], s);
      ShrParts(t[0], s);
      assert u[0] == RightWord(t, s, 0);
      if |t| > 1 {
        ShiftParts(t[1], 32 - s);
        RightStep(Shr(t[0], s), LowBits(t[0], s), LowBits(t[1], s), Pow2(32 - s), ValW(t[1..]), ValW(u[1..]), Pow2(s));
      }
    }
  }

  lemma ShrParts(x: word, s: nat)
    requires s <= 32
    ensures Pow2(s) * Shr(x, s) + LowBits(x, s) == x
    ensures Pow2(s) * Pow2(32 - s) == BASE
  {
    Pow2Of32();
    Pow2Add(s, 32 - s);
    hide Pow2;
    DivisionParts(x, Pow2(s));
  }

  lemma DivisionParts(x: nat, p: nat)
    requires p >= 1
    ensures p * (x / p) + x % p == x
  {
  }

  lemma RightStep(h: nat, l: nat, l': nat, q: nat, vt: nat, vu: nat, p: nat)
    requires p * q == BASE && p * vu + l' == vt
    ensures p * (h + l' * q + BASE * vu) + l == p * h + l + BASE * vt
  {
    MulDist(p, h + l' * q, BASE * vu);
    MulDist(p, h, l' * q);
    MulAssoc(p, BASE, vu);
    MulAssoc(BASE, p, vu);
    MulAssoc(l', p, q);
    MulAssoc(p, l', q);
    MulDist(BASE, p * vu, l');
  }
}
