/** FindAndDelete (a3/a2/script.h): what it leaves, when that is free of the pattern, and when it is not. */
module FindDelete {
  import opened Wrappers
  import opened Bytes
  import opened Script

  /** What FindAndDelete leaves of the bytes t from its position on. */
  function Deleted(t: seq<byte>, b: seq<byte>): seq<byte>
    requires b != []
    decreases |t|
  {
    if b <= t then Deleted(t[|b|..], b)
    else match ParseOp(t)
      case None => t
      case Some(op) => t[..op.len] + Deleted(t[op.len..], b)
  }

  /** How many matches it deletes. */
  function Matches(t: seq<byte>, b: seq<byte>): nat
    requires b != []
    decreases |t|
  {
    if b <= t then 1 + Matches(t[|b|..], b)
    else match ParseOp(t)
      case None => 0
      case Some(op) => Matches(t[op.len..], b)
  }

  /** In the middle of the work: before pc all is done, and n matches were deleted. */
  predicate Progress(orig: seq<byte>, s: seq<byte>, pc: nat, b: seq<byte>, n: nat)
    requires b != []
  {
    pc <= |s| && s[..pc] + Deleted(s[pc..], b) == Deleted(orig, b) && n + Matches(s[pc..], b) == Matches(orig, b)
  }

  /** FindAndDelete. Its position does not move while matches are erased. */
  method FindAndDelete(script: CScript, b: seq<byte>) returns (nFound: nat)
    modifies script
    ensures b == [] ==> script.vch == old(script.vch) && nFound == 0
    ensures b != [] ==> script.vch == Deleted(old(script.vch), b) && nFound == Matches(old(script.vch), b)
  {
    hide ParseOp, Deleted, Matches, Progress;
    nFound := 0;
    if b == [] { return; }
    var pc: nat := 0;
    var more := true;
    ghost var orig := script.vch;
    ProgressStarts(orig, b);
    while more
      invariant pc <= |script.vch|
      invariant more ==> Progress(orig, script.vch, pc, b, nFound)
      invariant !more ==> script.vch == Deleted(orig, b) && nFound == Matches(orig, b)
      decreases more, |script.vch| - pc
    {
      ghost var before := |script.vch|;
      while b <= script.vch[pc..]
        invariant pc <= |script.vch| <= before
        invariant Progress(orig, script.vch, pc, b, nFound)
        decreases |script.vch|
      {
        ProgressErases(orig, script.vch, pc, b, nFound);
        script.vch := script.vch[..pc] + script.vch[pc + |b|..];
        nFound := nFound + 1;
      }
      var ok, pc2, opcode, vch := GetOp2(script.vch, pc);
      ProgressAdvances(orig, script.vch, pc, b, nFound);
      if ok { pc := pc2; } else { more := false; }
    }
  }

  lemma ProgressStarts(orig: seq<byte>, b: seq<byte>)
    requires b != []
    ensures Progress(orig, orig, 0, b, 0)
  {
    assert orig[0..] == orig && orig[..0] == [];
    hide Deleted, Matches;
    assert [] + Deleted(orig, b) == Deleted(orig, b);
  }

  lemma ProgressErases(orig: seq<byte>, s: seq<byte>, pc: nat, b: seq<byte>, n: nat)
    requires b != [] && Progress(orig, s, pc, b, n) && b <= s[pc..]
    ensures Progress(orig, s[..pc] + s[pc + |b|..], pc, b, n + 1)
  {
    var s' := s[..pc] + s[pc + |b|..];
    assert s'[..pc] == s[..pc] && s'[pc..] == s[pc..][|b|..];
  }

  lemma ProgressAdvances(orig: seq<byte>, s: seq<byte>, pc: nat, b: seq<byte>, n: nat)
    requires b != [] && Progress(orig, s, pc, b, n) && !(b <= s[pc..])
    ensures var r := ParseOp(s[pc..]);
      if r.Some? then Progress(orig, s, pc + r.value.len, b, n) else s == Deleted(orig, b) && n == Matches(orig, b)
  {
    hide ParseOp;
    var r := ParseOp(s[pc..]);
    if r.Some? {
      var k := r.value.len;
      assert s[pc..][k..] == s[pc + k..] && s[..pc] + s[pc..][..k] == s[..pc + k];
      var d := Deleted(s[pc + k..], b);
      assert s[..pc] + (s[pc..][..k] + d) == s[..pc] + s[pc..][..k] + d;
    } else {
      assert s == s[..pc] + s[pc..];
    }
  }

  lemma Distribute(m: nat, n: nat)
    ensures (1 + m) * n == n + m * n
  {
  }

  /** The script shrinks by exactly the deleted matches. */
  lemma {:induction false} DeletedLength(t: seq<byte>, b: seq<byte>)
    requires b != []
    ensures |Deleted(t, b)| + Matches(t, b) * |b| == |t|
    decreases |t|
  {
    hide ParseOp;
    if b <= t {
      DeletedLength(t[|b|..], b);
      Distribute(Matches(t[|b|..], b), |b|);
    } else if ParseOp(t).Some? {
      DeletedLength(t[ParseOp(t).value.len..], b);
    }
  }

  /** The pattern matches at no position that the reader reaches from the start. */
  predicate Clean(t: seq<byte>, b: seq<byte>)
    decreases |t|
  {
    !(b <= t) && (ParseOp(t).Some? ==> Clean(t[ParseOp(t).value.len..], b))
  }

  /** A script is clean exactly when nothing would be deleted from it, and then it is left as it is. */
  lemma {:induction false} CleanIsFixed(t: seq<byte>, b: seq<byte>)
    requires b != []
    ensures Clean(t, b) <==> Matches(t, b) == 0
    ensures Clean(t, b) ==> Deleted(t, b) == t
    decreases |t|
  {
    hide ParseOp;
    if !(b <= t) && ParseOp(t).Some? {
      var n := ParseOp(t).value.len;
      CleanIsFixed(t[n..], b);
      assert t == t[..n] + t[n..];
    }
  }

  /** The condition on the pattern: what follows its first instruction is again its beginning. It holds of every
      pattern that is one instruction or none. */
  predicate Overlaps(b: seq<byte>) {
    ParseOp(b).Some? ==> b[ParseOp(b).value.len..] <= b
  }

  /** Deleting creates no new occurrence of a beginning of such a pattern. */
  lemma {:induction false} NoNewPrefix(u: seq<byte>, b: seq<byte>, q: seq<byte>)
    requires b != [] && Overlaps(b) && q <= b && q <= Deleted(u, b) && ParseOp(b).Some?
    ensures q <= u
    decreases |u|
  {
    hide ParseOp;
    var k := ParseOp(b).value.len;
    if b <= u {
    } else if ParseOp(u).Some? {
      var n := ParseOp(u).value.len;
      var d := Deleted(u[n..], b);
      if |q| > n {
        var q' := q[n..];
        PrefixOfTwo(q, u[..n], d);
        PrefixTwice(u[..n], q, b);
        ParseLocal(u, b);
        assert n == k;
        assert q' <= b[k..];
        PrefixTwice(q', b[k..], b);
        NoNewPrefix(u[n..], b, q');
        assert u == u[..n] + u[n..];
        hide Deleted;
      } else {
        assert q == u[..n][..|q|];
      }
    }
  }

  /** A beginning of a + b that is longer than a. */
  lemma PrefixOfTwo(q: seq<byte>, a: seq<byte>, b: seq<byte>)
    requires q <= a + b && |q| > |a|
    ensures a <= q && q[|a|..] <= b && q == a + q[|a|..]
  {
    assert q[..|a|] == (a + b)[..|a|] == a;
    assert q[|a|..] == b[..|q| - |a|];
  }

  lemma PrefixTwice(a: seq<byte>, b: seq<byte>, c: seq<byte>)
    requires a <= b <= c
    ensures a <= c
  {
    assert a == b[..|a|] == c[..|a|];
  }

  lemma {:induction false} DeletedIsClean(t: seq<byte>, b: seq<byte>)
    requires b != [] && Overlaps(b)
    ensures Clean(Deleted(t, b), b)
    decreases |t|
  {
    hide ParseOp;
    if b <= t {
      DeletedIsClean(t[|b|..], b);
    } else if ParseOp(t).Some? {
      var n := ParseOp(t).value.len;
      var d := Deleted(t[n..], b);
      var res := t[..n] + d;
      DeletedIsClean(t[n..], b);
      ParseLocal(t, res);
      assert res[n..] == d;
      if b <= res { NoMatchInFront(t, b, n); }
    }
  }

  /** The induction step of DeletedIsClean at its first position. */
  lemma NoMatchInFront(t: seq<byte>, b: seq<byte>, n: nat)
    requires b != [] && Overlaps(b) && ParseOp(t).Some? && n == ParseOp(t).value.len
    requires b <= t[..n] + Deleted(t[n..], b)
    ensures b <= t
  {
    hide ParseOp;
    var d := Deleted(t[n..], b);
    if |b| < n {
      assert b == t[..n][..|b|];
    } else {
      assert t[..n] <= b by { assert t[..n] == (t[..n] + d)[..n] == b[..n]; }
      ParseLocal(t, b);
      var r := b[n..];
      assert r <= d by { assert (t[..n] + d)[n..] == d; }
      NoNewPrefix(t[n..], b, r);
      assert b == t[..n] + r && t == t[..n] + t[n..];
    }
  }

  /** A script that shows that a pattern without the condition survives: first instruction, pattern, rest. */
  function Survivor(b: seq<byte>): seq<byte>
    requires ParseOp(b).Some?
  {
    b[..ParseOp(b).value.len] + b + b[ParseOp(b).value.len..]
  }

  lemma {:induction false} TooShort(t: seq<byte>, b: seq<byte>)
    requires |t| < |b|
    ensures Deleted(t, b) == t
    decreases |t|
  {
    hide ParseOp;
    if ParseOp(t).Some? {
      var n := ParseOp(t).value.len;
      TooShort(t[n..], b);
      assert t == t[..n] + t[n..];
    }
  }

  lemma SurvivorSurvives(b: seq<byte>)
    requires b != [] && !Overlaps(b)
    ensures Deleted(Survivor(b), b) == b && !Clean(Deleted(Survivor(b), b), b)
  {
    hide ParseOp;
    var k := ParseOp(b).value.len;
    var o, r, t := b[..k], b[k..], Survivor(b);
    assert b == o + r && t == o + (b + r);
    assert t[..|b|] == o + b[..|r|];
    assert (o + b[..|r|])[k..] == b[..|r|] && b[k..] == r;
    assert o <= t;
    ParseLocal(b, t);
    assert t[k..] == b + r && t[..k] == o;
    assert (b + r)[|b|..] == r;
    TooShort(r, b);
    assert Deleted(b + r, b) == r;
  }

  /** FindAndDelete leaves every script clean exactly for the patterns that overlap themselves by one instruction; for
      the others there is a script in which the pattern is still there afterwards, so that a second call deletes
      more. */
  lemma CleanForAllScriptsIff(b: seq<byte>)
    requires b != []
    ensures (forall t :: Clean(Deleted(t, b), b)) <==> Overlaps(b)
    ensures (forall t :: Matches(Deleted(t, b), b) == 0) <==> Overlaps(b)
  {
    if Overlaps(b) {
      forall t ensures Clean(Deleted(t, b), b) && Matches(Deleted(t, b), b) == 0 {
        DeletedIsClean(t, b);
        CleanIsFixed(Deleted(t, b), b);
      }
    } else {
      SurvivorSurvives(b);
      CleanIsFixed(Deleted(Survivor(b), b), b);
    }
  }

  /** The patterns that the interpreter deletes, pushes of a signature, are of the good kind. */
  lemma PushOverlaps(sig: seq<byte>)
    requires |sig| < 0x1_0000_0000
    ensures Overlaps(PushEnc(sig)) && PushEnc(sig) != []
  {
    PushIsRead(sig, []);
    assert PushEnc(sig) + [] == PushEnc(sig);
  }
}
