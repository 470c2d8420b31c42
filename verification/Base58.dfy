/** Base58 (a3/a2/base58.h): byte strings as text, with and without a checksum. */
module Base58 {
  import opened Wrappers
  import opened Bytes
  import opened BigNum
  import opened Text

  const pszBase58: string := "123456789" + "ABCDEFGH" + "JKLMN" + "PQRSTUVWXYZ" + "abcdefghijk" + "mnopqrstuvwxyz"

  /** strchr: the first place of the character, or the length of the string. */
  function IndexIn(s: string, c: char, i: nat): (r: nat)
    requires i <= |s|
    ensures i <= r <= |s|
    ensures forall j :: i <= j < r ==> s[j] != c
    ensures r < |s| ==> s[r] == c
    decreases |s| - i
  {
    if i == |s| then i else if s[i] == c then i else IndexIn(s, c, i + 1)
  }

  function IndexOf(c: char): nat { IndexIn(pszBase58, c, 0) }

  predicate IsDigit(c: char) { IndexOf(c) < 58 }

  lemma AlphabetSize()
    ensures |pszBase58| == 58
  {
  }

  /** The character of a digit. */
  function Letter(d: nat): char
    requires d < 58
  {
    AlphabetSize();
    pszBase58[d]
  }

  /** A digit and its value: the characters of the alphabet are different, and none is a space. */
  lemma DigitValue(d: nat)
    requires d < 58
    ensures IndexOf(Letter(d)) == d && IsDigit(Letter(d)) && !IsSpace(Letter(d))
  {
    AlphabetSize();
    var r := IndexOf(Letter(d));
    AlphabetDiffers(r, d);
    AlphabetHasNoSpace(d);
  }

  lemma AlphabetSorted(i: nat)
    requires i < 57
    ensures |pszBase58| == 58 && pszBase58[i] < pszBase58[i + 1]
  {
  }

  lemma AlphabetOrdered(i: nat, j: nat)
    requires i < j < 58
    ensures |pszBase58| == 58 && pszBase58[i] < pszBase58[j]
  {
    AlphabetSorted(0);
    forall k | 0 <= k < 57 ensures pszBase58[k] < pszBase58[k + 1] { AlphabetSorted(k); }
    Ordered(pszBase58, i, j);
  }

  lemma {:induction false} Ordered(s: string, i: nat, j: nat)
    requires i < j < |s| && forall k :: 0 <= k < |s| - 1 ==> s[k] < s[k + 1]
    ensures s[i] < s[j]
  {
    if i < j - 1 { Ordered(s, i, j - 1); }
  }

  lemma AlphabetDiffers(i: nat, j: nat)
    requires i < 58 && j < 58
    ensures |pszBase58| == 58 && (pszBase58[i] == pszBase58[j] ==> i == j)
  {
    if i < j { AlphabetOrdered(i, j); }
    if j < i { AlphabetOrdered(j, i); }
  }

  lemma AlphabetHasNoSpace(d: nat)
    requires d < 58
    ensures |pszBase58| == 58 && !IsSpace(pszBase58[d])
  {
    if d > 0 { AlphabetOrdered(0, d); }
  }

  // ----- numbers as digits -----

  /** The digits of a number, the lowest first. */
  function Digits(n: nat): string {
    if n == 0 then "" else [Letter(n % 58)] + Digits(n / 58)
  }

  /** The value of digits, the lowest first. */
  function Value(s: string): nat {
    if s == "" then 0 else IndexOf(s[0]) + 58 * Value(s[1..])
  }

  predicate AllDigits(s: string) { forall i :: 0 <= i < |s| ==> IsDigit(s[i]) }

  lemma {:induction false} ValueOfDigits(n: nat)
    ensures Value(Digits(n)) == n && AllDigits(Digits(n))
    ensures n > 0 ==> Digits(n) != "" && Digits(n)[|Digits(n)| - 1] != Letter(0)
  {
    if n > 0 {
      hide IndexOf, IsSpace, Letter;
      ValueOfDigits(n / 58);
      DigitValue(n % 58);
      DigitValue(0);
      assert Digits(n)[1..] == Digits(n / 58);
    }
  }

  lemma DigitAt(c: char)
    requires IsDigit(c)
    ensures IndexOf(c) < 58 && Letter(IndexOf(c)) == c
  {
    assert |pszBase58| == 58;
  }

  lemma {:induction false} DigitsOfValue(s: string)
    requires AllDigits(s) && (s != "" ==> s[|s| - 1] != Letter(0))
    ensures Digits(Value(s)) == s
  {
    hide IndexOf, Letter;
    if s != "" {
      DigitsOfValue(s[1..]);
      ValuePositive(s);
      DigitAt(s[0]);
      var d := IndexOf(s[0]);
      assert Value(s) % 58 == d && Value(s) / 58 == Value(s[1..]);
      assert Letter(d) == s[0];
      assert s == [s[0]] + s[1..];
    }
  }

  lemma {:induction false} ValuePositive(s: string)
    requires AllDigits(s) && s != "" && s[|s| - 1] != Letter(0)
    ensures Value(s) > 0
  {
    hide Letter;
    if |s| > 1 { ValuePositive(s[1..]); } else { DigitAt(s[0]); assert s[1..] == ""; }
  }

  lemma {:induction false} ValueAppendZero(s: string)
    ensures Value(s + [Letter(0)]) == Value(s)
  {
    DigitValue(0);
    hide IndexOf, Letter;
    if s == "" {
      assert (s + [Letter(0)])[1..] == "";
    } else {
      ValueAppendZero(s[1..]);
      assert (s + [Letter(0)])[1..] == s[1..] + [Letter(0)];
    }
  }

  // ----- the two directions -----

  function LeadingZeros(v: seq<byte>): (n: nat)
    ensures n <= |v| && (forall i :: 0 <= i < n ==> v[i] == 0) && (n < |v| ==> v[n] != 0)
  {
    if v == [] || v[0] != 0 then 0 else 1 + LeadingZeros(v[1..])
  }

  function Ones(n: nat): (s: string)
    ensures |s| == n && forall i :: 0 <= i < n ==> s[i] == Letter(0)
  {
    seq(n, _ => Letter(0))
  }

  function LeadingOnes(s: string): (n: nat)
    ensures n <= |s| && (forall i :: 0 <= i < n ==> s[i] == Letter(0)) && (n < |s| ==> s[n] != Letter(0))
  {
    if s == "" || s[0] != Letter(0) then 0 else 1 + LeadingOnes(s[1..])
  }

  /** The value of a big-endian byte string. */
  function Big(v: seq<byte>): nat { Val(Reverse(v)) }

  function Encoded(v: seq<byte>): string { Ones(LeadingZeros(v)) + Reverse(Digits(Big(v))) }

  function Decoded(digits: string): seq<byte> { Zeros(LeadingOnes(digits)) + Reverse(LE(Value(Reverse(digits)))) }

  lemma {:induction false} OnesAtEnd(s: string, n: nat)
    requires n <= |s| && forall i :: n <= i < |s| ==> s[i] == Letter(0)
    ensures Value(s) == Value(s[..n])
    decreases |s|
  {
    hide Letter;
    if n < |s| {
      var m := |s| - 1;
      assert s == s[..m] + [Letter(0)];
      ValueAppendZero(s[..m]);
      OnesAtEnd(s[..m], n);
      assert s[..m][..n] == s[..n];
    } else {
      assert s[..n] == s;
    }
  }

  lemma {:induction false} CountOnes(n: nat, s: string)
    requires s == "" || s[0] != Letter(0)
    ensures LeadingOnes(Ones(n) + s) == n
  {
    hide Letter;
    var t := Ones(n) + s;
    assert forall i :: 0 <= i < n ==> t[i] == Letter(0);
    assert s != "" ==> t[n] == s[0];
  }

  lemma CountZeros(n: nat, v: seq<byte>)
    requires v == [] || v[0] != 0
    ensures LeadingZeros(Zeros(n) + v) == n
  {
    var t := Zeros(n) + v;
    assert forall i :: 0 <= i < n ==> t[i] == 0;
    assert v != [] ==> t[n] == v[0];
  }

  /** A byte string is its zeros in front and then the shortest form of its value. */
  lemma BytesParts(v: seq<byte>)
    ensures v == Zeros(LeadingZeros(v)) + Reverse(LE(Big(v)))
  {
    var z, r := LeadingZeros(v), Reverse(v);
    var n := |v| - z;
    ZerosAtEnd(r, n);
    LEOfVal(r[..n]);
    ReversedPart(v, z);
    hide Reverse;
    assert v[..z] == Zeros(z);
  }

  lemma ReversedPart<T>(s: seq<T>, k: nat)
    requires k <= |s|
    ensures Reverse(Reverse(s)[..|s| - k]) == s[k..] && s == s[..k] + s[k..]
  {
    hide Reverse;
    var t := Reverse(Reverse(s)[..|s| - k]);
    forall i | 0 <= i < |s| - k ensures t[i] == s[k..][i] {
      assert t[i] == Reverse(s)[..|s| - k][|s| - k - 1 - i];
    }
  }

  lemma DigitsReversed(s: string, n: nat)
    requires AllDigits(s) && n <= |s|
    ensures AllDigits(Reverse(s)[..n])
  {
    hide IsDigit, Reverse;
    var u := Reverse(s)[..n];
    forall i | 0 <= i < |u| ensures IsDigit(u[i]) { assert u[i] == s[|s| - 1 - i]; }
  }

  /** Turned around, the ones in front of the digits come last. */
  lemma OnesReversed(s: string)
    ensures var r, n := Reverse(s), |s| - LeadingOnes(s);
      && (forall i :: n <= i < |s| ==> r[i] == Letter(0))
      && (n > 0 ==> r[..n][n - 1] != Letter(0))
  {
    hide Letter, Reverse;
    var r, z := Reverse(s), LeadingOnes(s);
    hide LeadingOnes;
    forall i | |s| - z <= i < |s| ensures r[i] == Letter(0) { assert r[i] == s[|s| - 1 - i]; }
  }

  lemma OnesFirst(s: string)
    ensures s[..LeadingOnes(s)] == Ones(LeadingOnes(s))
  {
    hide Letter;
    var z := LeadingOnes(s);
    hide LeadingOnes;
    assert forall i :: 0 <= i < z ==> s[..z][i] == Ones(z)[i];
  }

  lemma DigitsParts(s: string)
    requires AllDigits(s)
    ensures s == Ones(LeadingOnes(s)) + Reverse(Digits(Value(Reverse(s))))
  {
    hide *;
    var n := |s| - LeadingOnes(s);
    OnesFirst(s);
    OnesReversed(s);
    DigitsReversed(s, n);
    OnesAtEnd(Reverse(s), n);
    DigitsOfValue(Reverse(s)[..n]);
    ReversedPart(s, LeadingOnes(s));
  }

  lemma EncodedIsDigits(v: seq<byte>)
    ensures AllDigits(Encoded(v))
  {
    hide Letter;
    ValueOfDigits(Big(v));
    DigitValue(0);
  }

  /** Decoding undoes encoding, for every byte string. */
  lemma DecodeUndoesEncode(v: seq<byte>)
    ensures Decoded(Encoded(v)) == v
  {
    hide IndexOf, Letter;
    var n, z := Big(v), LeadingZeros(v);
    var d := Reverse(Digits(n));
    ValueOfDigits(n);
    CountOnes(z, d);
    var r := Reverse(Encoded(v));
    assert r[..|d|] == Digits(n);
    OnesAtEnd(r, |d|);
    BytesParts(v);
  }

  /** Encoding undoes decoding, for every string of digits. */
  lemma EncodeUndoesDecode(s: string)
    requires AllDigits(s)
    ensures Encoded(Decoded(s)) == s
  {
    hide IndexOf, IsDigit, Letter;
    var n, z := Value(Reverse(s)), LeadingOnes(s);
    var b := Reverse(LE(n));
    ValOfLE(n);
    CountZeros(z, b);
    var r := Reverse(Decoded(s));
    assert r[..|b|] == LE(n);
    ZerosAtEnd(r, |b|);
    DigitsParts(s);
  }

  // ----- the programs -----

  lemma NumOfReversed(v: seq<byte>)
    ensures Num(Reverse(v) + [0]) == Big(v)
  {
    var w := Reverse(v) + [0];
    ZerosAtEnd(w, |v|);
    assert w[..|v|] == Reverse(v) && w[|v| := 0] == w;
  }

  /** EncodeBase58. The zero at the end of vchTmp keeps the number positive. */
  method EncodeBase58(v: seq<byte>) returns (str: string)
    ensures str == Encoded(v)
  {
    hide LeadingZeros, Val, Num, Letter;
    var vchTmp := Zeros(|v| + 1);
    vchTmp := Reverse(v) + vchTmp[|v|..];
    assert vchTmp == Reverse(v) + [0];
    NumOfReversed(v);
    var bn := new CBigNum(0);
    bn.SetVch(vchTmp);
    str := "";
    while bn.bn > 0
      invariant bn.bn >= 0 && str + Digits(bn.bn) == Digits(Big(v))
    {
      var dv, rem := bn.bn / 58, bn.bn % 58;
      assert Digits(bn.bn) == [Letter(rem)] + Digits(dv);
      str := str + [Letter(rem)];
      bn.bn := dv;
    }
    ghost var digits := str;
    assert digits == Digits(Big(v)) by { assert digits + "" == digits; }
    var p := 0;
    while p < |v| && v[p] == 0
      invariant 0 <= p <= LeadingZeros(v) && str == digits + Ones(p)
    {
      str := str + [Letter(0)];
      p := p + 1;
    }
    assert p == LeadingZeros(v);
    str := Reverse(str);
    assert Reverse(digits + Ones(p)) == Ones(p) + Reverse(digits);
  }

  /** How many digits the text starts with. */
  function DigitRun(s: string): (n: nat)
    ensures n <= |s| && AllDigits(s[..n]) && (n < |s| ==> !IsDigit(s[n]))
  {
    if s == "" || !IsDigit(s[0]) then 0
    else
      assert s[..1 + DigitRun(s[1..])] == [s[0]] + s[1..][..DigitRun(s[1..])];
      1 + DigitRun(s[1..])
  }

  /** What a text stands for: digits, with nothing but white space around them. */
  function DecodedText(s: string): Option<seq<byte>> {
    var t := SkipSpaces(s);
    var n := DigitRun(t);
    if SkipSpaces(t[n..]) == "" then Some(Decoded(t[..n])) else None
  }

  /** Without the sign byte, the byte form of a positive number is its shortest one. */
  lemma TrimmedIsShortest(n: nat)
    ensures var v := Signed(n); var last := |v| - 1;
      LE(n) == if |v| >= 2 && v[last] == 0 && v[last - 1] >= 0x80 then v[..last] else v
  {
    ValOfLE(n);
  }

  lemma OnesBeforeEnd(t: string, n: nat)
    requires n <= |t| && (n < |t| ==> !IsDigit(t[n]))
    ensures LeadingOnes(t) == LeadingOnes(t[..n])
  {
    DigitValue(0);
    hide IndexOf, Letter, IsDigit, IsSpace, LeadingOnes;
    var m := LeadingOnes(t[..n]);
    OnesInFront(t, n, m);
    OnesAreFirst(t, m);
  }

  lemma OnesInFront(t: string, n: nat, m: nat)
    requires n <= |t| && (n < |t| ==> t[n] != Letter(0)) && m == LeadingOnes(t[..n])
    ensures m <= |t| && (forall i :: 0 <= i < m ==> t[i] == Letter(0)) && (m < |t| ==> t[m] != Letter(0))
  {
    hide Letter, LeadingOnes;
    var front := t[..n];
    forall i | 0 <= i < m ensures t[i] == Letter(0) { assert front[i] == t[i]; }
    if m < n { assert front[m] == t[m]; }
  }

  lemma {:induction false} OnesAreFirst(t: string, m: nat)
    requires m <= |t| && (forall i :: 0 <= i < m ==> t[i] == Letter(0)) && (m < |t| ==> t[m] != Letter(0))
    ensures LeadingOnes(t) == m
  {
    hide Letter;
  }

  /** DecodeBase58, of a text that ends where the string ends. */
  method DecodeBase58(text: string) returns (ok: bool, vchRet: seq<byte>)
    requires '\0' !in text
    ensures ok <==> DecodedText(text).Some?
    ensures vchRet == if ok then DecodedText(text).value else []
  {
    hide IndexOf, IsDigit, LeadingOnes, Val, LE, Num, Signed, Letter, SkipSpaces, DigitRun, Reverse, Value;
    vchRet := [];
    var psz := text;
    while psz != "" && IsSpace(psz[0])
      invariant SkipSpaces(psz) == SkipSpaces(text)
      decreases |psz|
    {
      SkipsOne(psz);
      psz := psz[1..];
    }
    SkipsNone(psz);
    ghost var n := DigitRun(psz);
    var bn := new CBigNum(0);
    var p := 0;
    NoValue(psz);
    while p < |psz|
      invariant 0 <= p <= n && bn.bn == Value(Reverse(psz[..p]))
      invariant psz == SkipSpaces(text)
    {
      RunIsDigits(psz, p);
      if !IsDigit(psz[p]) {
        var q := psz[p..];
        while q != "" && IsSpace(q[0])
          invariant SkipSpaces(q) == SkipSpaces(psz[p..]) && bn.bn == Value(Reverse(psz[..p]))
          decreases |q|
        {
          SkipsOne(q);
          q := q[1..];
        }
        SkipsNone(q);
        if q != "" { return false, []; }
        break;
      }
      ValueMore(psz, p);
      bn.bn := bn.bn * 58;
      bn.bn := bn.bn + IndexOf(psz[p]);
      p := p + 1;
    }
    assert p == n;
    SkipsNone(psz[|psz|..]);
    TrimmedIsShortest(bn.bn);
    var vchTmp := bn.GetVch();
    if |vchTmp| >= 2 && vchTmp[|vchTmp| - 1] == 0 && vchTmp[|vchTmp| - 2] >= 0x80 { vchTmp := vchTmp[..|vchTmp| - 1]; }
    OnesBeforeEnd(psz, n);
    var nLeadingZeros := 0;
    while nLeadingZeros < |psz| && psz[nLeadingZeros] == Letter(0)
      invariant 0 <= nLeadingZeros <= LeadingOnes(psz)
    {
      nLeadingZeros := nLeadingZeros + 1;
    }
    vchRet := Zeros(nLeadingZeros + |vchTmp|);
    vchRet := vchRet[..nLeadingZeros] + Reverse(vchTmp);
    assert Zeros(nLeadingZeros + |vchTmp|)[..nLeadingZeros] == Zeros(nLeadingZeros);
    ok := true;
  }

  lemma SkipsOne(s: string)
    requires s != "" && IsSpace(s[0])
    ensures SkipSpaces(s[1..]) == SkipSpaces(s)
  {
  }

  lemma SkipsNone(s: string)
    requires s == "" || !IsSpace(s[0])
    ensures SkipSpaces(s) == s
  {
  }

  lemma NoValue(s: string)
    ensures Value(Reverse(s[..0])) == 0
  {
    assert s[..0] == "";
  }

  /** One more digit behind the others. */
  lemma ValueMore(s: string, p: nat)
    requires p < |s|
    ensures Value(Reverse(s[..p + 1])) == Value(Reverse(s[..p])) * 58 + IndexOf(s[p])
  {
    hide IndexOf;
    assert Reverse(s[..p + 1]) == [s[p]] + Reverse(s[..p]);
  }

  lemma RunIsDigits(s: string, p: nat)
    requires p <= DigitRun(s) && p < |s|
    ensures IsDigit(s[p]) <==> p < DigitRun(s)
  {
    hide IsDigit;
    var n := DigitRun(s);
    if p < n { assert s[..n][p] == s[p]; }
  }

  // ----- what is accepted -----

  predicate AllSpaces(s: string) { forall i :: 0 <= i < |s| ==> IsSpace(s[i]) }

  lemma {:induction false} SkipsAll(a: string, t: string)
    requires AllSpaces(a) && (t != "" ==> !IsSpace(t[0]))
    ensures SkipSpaces(a + t) == t
  {
    if a != "" {
      SkipsAll(a[1..], t);
      assert (a + t)[1..] == a[1..] + t;
    } else {
      assert a + t == t;
    }
  }

  lemma {:induction false} SkippedSpaces(s: string) returns (a: string)
    ensures AllSpaces(a) && s == a + SkipSpaces(s)
  {
    if s != "" && IsSpace(s[0]) {
      var b := SkippedSpaces(s[1..]);
      a := [s[0]] + b;
    } else {
      a := "";
    }
  }

  lemma {:induction false} RunOfDigits(d: string, b: string)
    requires AllDigits(d) && (b != "" ==> !IsDigit(b[0]))
    ensures DigitRun(d + b) == |d|
  {
    hide IsDigit;
    if d != "" {
      RunOfDigits(d[1..], b);
      assert (d + b)[1..] == d[1..] + b;
    } else {
      assert d + b == b;
    }
  }

  lemma SpaceIsNoDigit(c: char)
    ensures IsSpace(c) ==> !IsDigit(c)
  {
    if IsDigit(c) {
      DigitAt(c);
      AlphabetHasNoSpace(IndexOf(c));
    }
  }

  /** Digits with white space before and after them decode as the digits. */
  lemma TextDecodes(a: string, d: string, b: string)
    requires AllSpaces(a) && AllDigits(d) && AllSpaces(b)
    ensures DecodedText(a + d + b) == Some(Decoded(d))
  {
    hide IndexOf, IsDigit, IsSpace, Decoded, Letter;
    if b != "" { SpaceIsNoDigit(b[0]); }
    if d != "" { SpaceIsNoDigit(d[0]); }
    SkipsAll(b, "");
    assert b + "" == b;
    if d == "" {
      assert a + d + b == (a + b) + "";
      SkipsAll(a + b, "");
      assert SkipSpaces(a + d + b) == "" && ("")[..0] == "";
    } else {
      assert a + d + b == a + (d + b);
      SkipsAll(a, d + b);
      RunOfDigits(d, b);
      assert (d + b)[|d|..] == b && (d + b)[..|d|] == d;
    }
  }

  /** And nothing else decodes. */
  lemma DecodedTextParts(s: string) returns (a: string, d: string, b: string)
    requires DecodedText(s).Some?
    ensures AllSpaces(a) && AllDigits(d) && AllSpaces(b) && s == a + d + b && DecodedText(s) == Some(Decoded(d))
  {
    hide IndexOf, IsDigit, IsSpace, Decoded, Letter;
    a := SkippedSpaces(s);
    var t := SkipSpaces(s);
    d := t[..DigitRun(t)];
    b := SkippedSpaces(t[DigitRun(t)..]);
    assert b + "" == b && t == d + t[DigitRun(t)..];
  }

  // ----- with a checksum -----

  function EncodedCheck(hash: seq<byte> -> seq<byte>, v: seq<byte>): string
    requires |hash(v)| >= 4
  {
    Encoded(v + hash(v)[..4])
  }

  /** EncodeBase58Check. */
  method EncodeBase58Check(hash: seq<byte> -> seq<byte>, vchIn: seq<byte>) returns (str: string)
    requires |hash(vchIn)| >= 4
    ensures str == EncodedCheck(hash, vchIn)
  {
    var vch := vchIn;
    vch := vch + hash(vch)[..4];
    str := EncodeBase58(vch);
  }

  /** The bytes in front of a right checksum. */
  function DecodedCheck(hash: seq<byte> -> seq<byte>, text: string): Option<seq<byte>>
    requires forall v :: |hash(v)| >= 4
  {
    match DecodedText(text)
    case None => None
    case Some(w) =>
      if |w| < 4 || hash(w[..|w| - 4])[..4] != w[|w| - 4..] then None else Some(w[..|w| - 4])
  }

  /** DecodeBase58Check. */
  method DecodeBase58Check(hash: seq<byte> -> seq<byte>, text: string) returns (ok: bool, vchRet: seq<byte>)
    requires '\0' !in text && forall v :: |hash(v)| >= 4
    ensures ok <==> DecodedCheck(hash, text).Some?
    ensures vchRet == if ok then DecodedCheck(hash, text).value else []
  {
    ok, vchRet := DecodeBase58(text);
    if !ok { return; }
    if |vchRet| < 4 { return false, []; }
    var h := hash(vchRet[..|vchRet| - 4]);
    if h[..4] != vchRet[|vchRet| - 4..] { return false, []; }
    vchRet := vchRet[..|vchRet| - 4];
  }

  /** The checked forms undo each other, for any hash. */
  lemma CheckRoundTrip(hash: seq<byte> -> seq<byte>, v: seq<byte>)
    requires forall w :: |hash(w)| >= 4
    ensures DecodedCheck(hash, EncodedCheck(hash, v)) == Some(v)
  {
    hide Encoded, Decoded, DecodedText, AllDigits;
    var w := v + hash(v)[..4];
    EncodedIsDigits(w);
    TextDecodes("", Encoded(w), "");
    assert "" + Encoded(w) + "" == Encoded(w);
    DecodeUndoesEncode(w);
    assert w[..|w| - 4] == v && w[|w| - 4..] == hash(v)[..4];
  }

  /** A text passes the check with the bytes v only if its digits are the checked form of v. */
  lemma CheckAcceptsOnlyEncoded(hash: seq<byte> -> seq<byte>, text: string) returns (a: string, b: string)
    requires (forall w :: |hash(w)| >= 4) && DecodedCheck(hash, text).Some?
    ensures AllSpaces(a) && AllSpaces(b) && text == a + EncodedCheck(hash, DecodedCheck(hash, text).value) + b
  {
    hide Encoded, Decoded, DecodedText, IsDigit, AllSpaces;
    var d;
    a, d, b := DecodedTextParts(text);
    EncodeUndoesDecode(d);
    var w := Decoded(d);
    assert w == w[..|w| - 4] + w[|w| - 4..];
  }
}
