/** The signature matching loop of OP_CHECKMULTISIG (EvalScript in a3/a2/script.cpp). */
module Multisig {
  import opened Bytes

  type valtype = seq<byte>

  /** Signature checking and hashing. The transaction, the input and the hash type are fixed. */
  datatype Crypto = Crypto(
    checkSig: (valtype, valtype, valtype) -> bool,
    ripemd160: valtype -> valtype, sha1: valtype -> valtype, sha256: valtype -> valtype,
    hash160: valtype -> valtype, hash256: valtype -> valtype)

  /** The greedy loop: the first key that fits the first signature is taken for it, and a key that does not fit it is
      never tried again. */
  predicate Greedy(env: Crypto, code: valtype, sigs: seq<valtype>, keys: seq<valtype>)
    decreases |keys|
  {
    if sigs == [] then true
    else if |sigs| > |keys| then false
    else if env.checkSig(sigs[0], keys[0], code) then Greedy(env, code, sigs[1..], keys[1..])
    else Greedy(env, code, sigs, keys[1..])
  }

  /** How often the loop calls CheckSig. */
  function GreedyCalls(env: Crypto, code: valtype, sigs: seq<valtype>, keys: seq<valtype>): (n: nat)
    ensures n <= |keys|
    decreases |keys|
  {
    if sigs == [] || |sigs| > |keys| then 0
    else 1 + GreedyCalls(env, code, if env.checkSig(sigs[0], keys[0], code) then sigs[1..] else sigs, keys[1..])
  }

  /** f gives each signature a key that it is valid for, in strictly increasing order. */
  predicate Assigns(env: Crypto, code: valtype, sigs: seq<valtype>, keys: seq<valtype>, f: seq<nat>) {
    && |f| == |sigs|
    && (forall i :: 0 <= i < |f| ==> f[i] < |keys| && env.checkSig(sigs[i], keys[f[i]], code))
    && (forall i, j :: 0 <= i < j < |f| ==> f[i] < f[j])
  }

  function Up(f: seq<nat>): (g: seq<nat>)
    ensures |g| == |f| && forall i :: 0 <= i < |f| ==> g[i] == f[i] + 1
  {
    seq(|f|, i requires 0 <= i < |f| => f[i] + 1)
  }

  lemma AssignsSkip(env: Crypto, code: valtype, sigs: seq<valtype>, keys: seq<valtype>, f: seq<nat>)
    requires keys != [] && Assigns(env, code, sigs, keys[1..], f)
    ensures Assigns(env, code, sigs, keys, Up(f))
  {
    forall i | 0 <= i < |f| ensures Up(f)[i] < |keys| && env.checkSig(sigs[i], keys[Up(f)[i]], code) {
      assert keys[f[i] + 1] == keys[1..][f[i]];
    }
  }

  lemma AssignsTake(env: Crypto, code: valtype, sigs: seq<valtype>, keys: seq<valtype>, f: seq<nat>)
    requires sigs != [] && keys != [] && Assigns(env, code, sigs[1..], keys[1..], f)
    requires env.checkSig(sigs[0], keys[0], code)
    ensures Assigns(env, code, sigs, keys, [0] + Up(f))
  {
    var g := [0] + Up(f);
    forall i | 0 <= i < |g| ensures g[i] < |keys| && env.checkSig(sigs[i], keys[g[i]], code) {
      if i > 0 { assert keys[g[i]] == keys[1..][f[i - 1]] && sigs[i] == sigs[1..][i - 1]; }
    }
  }

  lemma {:induction false} GreedyFinds(env: Crypto, code: valtype, sigs: seq<valtype>, keys: seq<valtype>)
    returns (f: seq<nat>)
    requires Greedy(env, code, sigs, keys)
    ensures Assigns(env, code, sigs, keys, f)
    decreases |keys|
  {
    if sigs == [] {
      f := [];
    } else {
      hide Assigns;
      if env.checkSig(sigs[0], keys[0], code) {
        var g := GreedyFinds(env, code, sigs[1..], keys[1..]);
        AssignsTake(env, code, sigs, keys, g);
        f := [0] + Up(g);
      } else {
        var g := GreedyFinds(env, code, sigs, keys[1..]);
        AssignsSkip(env, code, sigs, keys, g);
        f := Up(g);
      }
    }
  }

  /** Strictly increasing indexes leave room for all of them. */
  lemma {:induction false} RoomForRest(f: seq<nat>, n: nat)
    requires forall i :: 0 <= i < |f| ==> f[i] < n
    requires forall i, j :: 0 <= i < j < |f| ==> f[i] < f[j]
    ensures |f| <= n
  {
    if f != [] { RoomForRest(f[..|f| - 1], f[|f| - 1]); }
  }

  lemma {:induction false} GreedyIsComplete(env: Crypto, code: valtype, sigs: seq<valtype>, keys: seq<valtype>,
        f: seq<nat>)
    requires Assigns(env, code, sigs, keys, f)
    ensures Greedy(env, code, sigs, keys)
    decreases |keys|
  {
    RoomForRest(f, |keys|);
    if sigs != [] {
      if env.checkSig(sigs[0], keys[0], code) {
        var g := seq(|f| - 1, i requires 0 <= i < |f| - 1 => f[i + 1] - 1);
        GreedyIsComplete(env, code, sigs[1..], keys[1..], g);
      } else {
        assert f[0] != 0;
        var g := seq(|f|, i requires 0 <= i < |f| => f[i] - 1);
        GreedyIsComplete(env, code, sigs, keys[1..], g);
      }
    }
  }

  /** The greedy loop succeeds exactly when some strictly increasing assignment of valid pairs exists. */
  lemma GreedyIffAssigned(env: Crypto, code: valtype, sigs: seq<valtype>, keys: seq<valtype>)
    ensures Greedy(env, code, sigs, keys) <==> exists f :: Assigns(env, code, sigs, keys, f)
  {
    if Greedy(env, code, sigs, keys) {
      var f := GreedyFinds(env, code, sigs, keys);
      assert Assigns(env, code, sigs, keys, f);
    }
    if f :| Assigns(env, code, sigs, keys, f) { GreedyIsComplete(env, code, sigs, keys, f); }
  }
}
