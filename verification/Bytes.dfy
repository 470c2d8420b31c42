/** Bytes, and numbers as little-endian byte strings. */
module Bytes {
  type byte = x: int | 0 <= x < 256

  function Pow256(n: nat): (p: nat)
    ensures p >= 1
  {
    if n == 0 then 1 else 256 * Pow256(n - 1)
  }

  /** The value of a little-endian byte string. */
  function Val(v: seq<byte>): nat {
    if v == [] then 0 else v[0] + 256 * Val(v[1..])
  }

  /** The shortest little-endian byte string of a number. */
  function LE(n: nat): seq<byte> {
    if n == 0 then [] else [n % 256] + LE(n / 256)
  }

  /** A number in n little-endian bytes, higher ones cut off. */
  function LEn(x: nat, n: nat): (v: seq<byte>)
    ensures |v| == n
  {
    if n == 0 then [] else [x % 256] + LEn(x / 256, n - 1)
  }

  function Reverse<T>(s: seq<T>): (r: seq<T>)
    ensures |r| == |s|
    ensures forall i :: 0 <= i < |s| ==> r[i] == s[|s| - 1 - i]
  {
    seq(|s|, i requires 0 <= i < |s| => s[|s| - 1 - i])
  }

  function Zeros(n: nat): (z: seq<byte>)
    ensures |z| == n && forall i :: 0 <= i < n ==> z[i] == 0
  {
    seq(n, _ => 0)
  }

  lemma ReverseTwice<T>(s: seq<T>)
    ensures Reverse(Reverse(s)) == s
  {
  }

  lemma {:induction false} ValOfLE(n: nat)
    ensures Val(LE(n)) == n
    ensures n > 0 ==> LE(n) != [] && LE(n)[|LE(n)| - 1] != 0
  {
    if n > 0 {
      ValOfLE(n / 256);
      assert LE(n)[1..] == LE(n / 256);
    }
  }

  /** A byte string without a zero at its end is the shortest one for its value. */
  lemma {:induction false} LEOfVal(v: seq<byte>)
    requires v == [] || v[|v| - 1] != 0
    ensures LE(Val(v)) == v
  {
    if v != [] {
      LEOfVal(v[1..]);
      assert v == [v[0]] + v[1..];
      ValPositive(v);
    }
  }

  lemma {:induction false} ValPositive(v: seq<byte>)
    requires v != [] && v[|v| - 1] != 0
    ensures Val(v) > 0
  {
    if |v| > 1 { ValPositive(v[1..]); }
  }

  lemma {:induction false} ValOfLEn(x: nat, n: nat)
    ensures x < Pow256(n) ==> Val(LEn(x, n)) == x
  {
    if n > 0 {
      ValOfLEn(x / 256, n - 1);
      assert LEn(x, n)[1..] == LEn(x / 256, n - 1);
    }
  }

  lemma {:induction false} ValBound(v: seq<byte>)
    ensures Val(v) < Pow256(|v|)
  {
    if v != [] { ValBound(v[1..]); }
  }

  lemma {:induction false} ValAppend(a: seq<byte>, b: seq<byte>)
    ensures Val(a + b) == Val(a) + Pow256(|a|) * Val(b)
  {
    if a == [] {
      assert a + b == b;
    } else {
      ValAppend(a[1..], b);
      assert (a + b)[1..] == a[1..] + b;
      assert 256 * (Pow256(|a| - 1) * Val(b)) == Pow256(|a|) * Val(b);
    }
  }

  lemma {:induction false} ZerosAtEnd(v: seq<byte>, n: nat)
    requires n <= |v| && forall i :: n <= i < |v| ==> v[i] == 0
    ensures Val(v) == Val(v[..n])
    decreases |v|
  {
    if n < |v| {
      var m := |v| - 1;
      ValAppend(v[..m], [v[m]]);
      assert v == v[..m] + [v[m]] && Val([v[m]]) == 0;
      ZerosAtEnd(v[..m], n);
      assert v[..m][..n] == v[..n];
    } else {
      assert v[..n] == v;
    }
  }

  lemma {:induction false} ValOfZeros(n: nat)
    ensures Val(Zeros(n)) == 0
  {
    if n > 0 {
      ValOfZeros(n - 1);
      assert Zeros(n)[1..] == Zeros(n - 1);
    }
  }

  lemma {:induction false} LESize(n: nat, k: nat)
    requires n < Pow256(k)
    ensures |LE(n)| <= k
  {
    if n > 0 { LESize(n / 256, k - 1); }
  }
}
