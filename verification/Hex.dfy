/** Hexadecimal text of little-endian byte strings and of the words they make up (GetHex and SetHex in
    a3/a2/uint256.h). */
module Hex {
  import opened Bytes
  import opened Text
  import opened Words

  // ----- words in memory -----

  /** The bytes of the words as they lie in memory: of each word the lowest first. */
  function BytesOf(s: seq<word>): (v: seq<byte>)
    ensures |v| == 4 * |s|
  {
    if s == [] then [] else LEn(s[0], 4) + BytesOf(s[1..])
  }

  lemma Pow256Of4()
    ensures Pow256(4) == BASE
  {
    assert Pow256(2) == 0x1_0000;
    assert Pow256(3) == 0x100_0000;
  }

  lemma {:induction false} ValueOfBytes(s: seq<word>)
    ensures Val(BytesOf(s)) == ValW(s)
  {
    if s != [] {
      ValueOfBytes(s[1..]);
      Pow256Of4();
      ValOfLEn(s[0], 4);
      ValAppend(LEn(s[0], 4), BytesOf(s[1..]));
    }
  }

  lemma DivByte(a: byte, q: nat)
    ensures (a + 256 * q) % 256 == a && (a + 256 * q) / 256 == q
  {
  }

  lemma {:induction false} LEnOfVal(v: seq<byte>)
    ensures LEn(Val(v), |v|) == v
  {
    if v != [] {
      LEnOfVal(v[1..]);
      DivByte(v[0], Val(v[1..]));
      assert Val(v) == v[0] + 256 * Val(v[1..]);
      assert LEn(Val(v), |v|) == [v[0]] + LEn(Val(v[1..]), |v| - 1);
      hide Val, LEn;
      assert v == [v[0]] + v[1..];
    }
  }

  /** The word with its byte k replaced. */
  function WithByte(w: word, k: nat, b: byte): word
    requires k < 4
  {
    Pow256Of4();
    ValBound(LEn(w, 4)[k := b]);
    Val(LEn(w, 4)[k := b])
  }

  lemma StoreInWord(w: word, k: nat, b: byte)
    requires k < 4
    ensures LEn(WithByte(w, k, b), 4) == LEn(w, 4)[k := b]
  {
    LEnOfVal(LEn(w, 4)[k := b]);
    hide LEn, Val;
  }

  lemma BytesCons(w: word, s: seq<word>)
    ensures BytesOf([w] + s) == LEn(w, 4) + BytesOf(s)
  {
    assert ([w] + s)[1..] == s;
  }

  lemma {:induction false} StoreByte(s: seq<word>, j: nat, b: byte)
    requires j < 4 * |s|
    ensures BytesOf(s[j / 4 := WithByte(s[j / 4], j % 4, b)]) == BytesOf(s)[j := b]
  {
    hide *;
    var i, k := j / 4, j % 4;
    var w := WithByte(s[i], k, b);
    var front: seq<byte>, rest: seq<byte> := LEn(s[0], 4), BytesOf(s[1..]);
    BytesCons(s[0], s[1..]);
    assert s == [s[0]] + s[1..];
    if i == 0 {
      StoreInWord(s[0], k, b);
      BytesCons(w, s[1..]);
      assert s[i := w] == [w] + s[1..];
      assert (front + rest)[k := b] == front[k := b] + rest;
    } else {
      StoreByte(s[1..], j - 4, b);
      BytesCons(s[0], s[1..][i - 1 := w]);
      assert s[i := w] == [s[0]] + s[1..][i - 1 := w];
      assert (front + rest)[j := b] == front + rest[j - 4 := b];
    }
  }

  // ----- digits -----

  const DIGITS: string := "0123456789abcdef"

  /** phexdigit: 0 for every other character. */
  function HexDigit(c: char): (d: nat)
    ensures d < 16
  {
    if '0' <= c <= '9' then c as int - '0' as int
    else if 'a' <= c <= 'f' then c as int - 'a' as int + 10
    else if 'A' <= c <= 'F' then c as int - 'A' as int + 10
    else 0
  }

  predicate IsHex(c: char) { HexDigit(c) != 0 || c == '0' }

  predicate AllHex(s: string) { forall i :: 0 <= i < |s| ==> IsHex(s[i]) }

  lemma DigitChar(d: nat)
    requires d < 16
    ensures HexDigit(DIGITS[d]) == d && IsHex(DIGITS[d]) && DIGITS[d] != 'x' && DIGITS[d] != 'X' && DIGITS[d] != ' '
    ensures '0' <= DIGITS[d] <= 'f'
  {
  }

  function HexPair(b: byte): (s: string)
    ensures |s| == 2
  {
    [DIGITS[b / 16], DIGITS[b % 16]]
  }

  /** The text of a byte string, its highest byte first. */
  function HexOf(v: seq<byte>): (s: string)
    ensures |s| == 2 * |v|
  {
    if v == [] then "" else HexPair(v[|v| - 1]) + HexOf(v[..|v| - 1])
  }

  function Pow16(n: nat): (p: nat)
    ensures p >= 1
  {
    if n == 0 then 1 else 16 * Pow16(n - 1)
  }

  /** The number that digits stand for, the highest first. */
  function HexValue(s: string): nat {
    if s == "" then 0 else HexValue(s[..|s| - 1]) * 16 + HexDigit(s[|s| - 1])
  }

  lemma {:induction false} HexValueAppend(a: string, b: string)
    ensures HexValue(a + b) == HexValue(a) * Pow16(|b|) + HexValue(b)
  {
    if b == "" {
      assert a + b == a;
    } else {
      var n := |b| - 1;
      hide HexDigit;
      HexValueAppend(a, b[..n]);
      LastDigit(a + b, a + b[..n], b[n]);
      LastDigit(b, b[..n], b[n]);
      assert Pow16(|b|) == 16 * Pow16(n);
      hide HexValue, Pow16;
      Shifted(HexValue(a), Pow16(n), HexValue(b[..n]), HexDigit(b[n]));
    }
  }

  lemma LastDigit(s: string, front: string, c: char)
    requires s == front + [c]
    ensures HexValue(s) == HexValue(front) * 16 + HexDigit(c)
  {
    assert s[..|s| - 1] == front;
  }

  lemma Shifted(a: nat, p: nat, b: nat, d: nat)
    ensures (a * p + b) * 16 + d == a * (16 * p) + (b * 16 + d)
  {
    MulAssoc(a, 16, p);
    MulAssoc(a, p, 16);
  }

  lemma {:induction false} Pow16OfBytes(n: nat)
    ensures Pow16(2 * n) == Pow256(n)
  {
    if n > 0 {
      Pow16OfBytes(n - 1);
      assert Pow16(2 * n) == 16 * (16 * Pow16(2 * n - 2));
    }
  }

  lemma {:induction false} Pow256OfWords(n: nat)
    ensures Pow256(4 * n) == PowW(n)
  {
    if n > 0 {
      Pow256OfWords(n - 1);
      var m := 4 * n;
      assert Pow256(m) == 256 * Pow256(m - 1) && Pow256(m - 1) == 256 * Pow256(m - 2);
      assert Pow256(m - 2) == 256 * Pow256(m - 3) && Pow256(m - 3) == 256 * Pow256(m - 4);
    }
  }

  lemma PairValue(b: byte)
    ensures HexValue(HexPair(b)) == b && AllHex(HexPair(b))
  {
    DigitChar(b / 16);
    DigitChar(b % 16);
    var s := HexPair(b);
    assert s[..1] == [s[0]] && s[..1][..0] == "";
    hide HexDigit;
    assert HexValue(s[..1]) == HexDigit(s[0]);
  }

  /** The text stands for the number. */
  lemma {:induction false} ValueOfHex(v: seq<byte>)
    ensures HexValue(HexOf(v)) == Val(v) && AllHex(HexOf(v))
  {
    hide HexValue, HexPair, IsHex;
    if v == [] {
      EmptyHex();
    } else {
      var n := |v| - 1;
      ValueOfHex(v[..n]);
      PairValue(v[n]);
      HexValueAppend(HexPair(v[n]), HexOf(v[..n]));
      Pow16OfBytes(n);
      ValAppend(v[..n], [v[n]]);
      assert v == v[..n] + [v[n]] && Val([v[n]]) == v[n];
    }
  }

  lemma EmptyHex()
    ensures HexValue("") == 0
  {
  }

  // ----- what SetHex reads -----

  function SkipPrefix(s: string): string {
    if |s| >= 2 && s[0] == '0' && (s[1] == 'x' || s[1] == 'X') then s[2..] else s
  }

  function HexRun(s: string): (n: nat)
    ensures n <= |s|
  {
    if s == "" || !IsHex(s[0]) then 0 else 1 + HexRun(s[1..])
  }

  /** The digits that SetHex takes from the text. */
  function Digits(text: string): string {
    var s := SkipPrefix(SkipSpaces(text));
    s[..HexRun(s)]
  }

  lemma {:induction false} RunOfHex(s: string)
    requires AllHex(s)
    ensures HexRun(s) == |s|
  {
    hide IsHex;
    if s != "" { RunOfHex(s[1..]); }
  }

  lemma DigitsOfHexOf(v: seq<byte>)
    ensures Digits(HexOf(v)) == HexOf(v)
  {
    var s := HexOf(v);
    ValueOfHex(v);
    RunOfHex(s);
    if v != [] {
      var b := v[|v| - 1];
      assert s[0] == DIGITS[b / 16] && s[1] == DIGITS[b % 16];
      DigitChar(b / 16);
      DigitChar(b % 16);
    }
    assert s[..|s|] == s;
    hide IsHex, HexRun;
  }

  lemma ValOfOneByte(b: byte)
    ensures Val([b]) == b
  {
  }

  /** One more byte, from two digits. */
  lemma PairInFront(t: string, q: nat, bytes: seq<byte>, j: nat, b: byte)
    requires 2 <= q <= |t| && |t| - q == 2 * j && j < |bytes| && b == HexDigit(t[q - 2]) * 16 + HexDigit(t[q - 1])
    requires Val(bytes[..j]) == HexValue(t[q..])
    ensures Val(bytes[j := b][..j + 1]) == HexValue(t[q - 2..])
  {
    hide HexValue, HexDigit, Val, Pow256, Pow16;
    var two := t[q - 2..q];
    LastDigit([t[q - 2]], "", t[q - 2]);
    LastDigit(two, [t[q - 2]], t[q - 1]);
    EmptyHex();
    HexValueAppend(two, t[q..]);
    assert two + t[q..] == t[q - 2..];
    Pow16OfBytes(j);
    ValAppend(bytes[..j], [b]);
    assert bytes[j := b][..j + 1] == bytes[..j] + [b];
    ValOfOneByte(b);
  }

  /** The last digit, if their number is odd. */
  lemma OneInFront(t: string, bytes: seq<byte>, j: nat, b: byte)
    requires |t| == 2 * j + 1 && j < |bytes| && b == HexDigit(t[0]) && Val(bytes[..j]) == HexValue(t[1..])
    ensures Val(bytes[j := b][..j + 1]) == HexValue(t)
  {
    hide HexValue, HexDigit, Val, Pow256, Pow16;
    var one := t[..1];
    LastDigit(one, "", t[0]);
    EmptyHex();
    HexValueAppend(one, t[1..]);
    assert one + t[1..] == t;
    Pow16OfBytes(j);
    ValAppend(bytes[..j], [b]);
    assert bytes[j := b][..j + 1] == bytes[..j] + [b];
    ValOfOneByte(b);
  }
}
