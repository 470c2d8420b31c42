/** The Merkle tree of a block (CBlock in a3/a2/main.h): a flat array of levels, branches out of it, and what a branch
    proves. The hash of a pair is any function. */
module Merkle {
  /** The hashes of the level above: each pair hashed, the last one with itself if it stands alone. */
  function Up<H>(hash: (H, H) -> H, level: seq<H>): (up: seq<H>)
    ensures |up| == (|level| + 1) / 2
  {
    seq((|level| + 1) / 2, i requires 0 <= i < (|level| + 1) / 2 =>
        hash(level[2 * i], level[Min(2 * i + 1, |level| - 1)]))
  }

  function Min(a: int, b: int): int { if a < b then a else b }

  /** The root of the tree over the leaves; zero over none. */
  function Root<H>(hash: (H, H) -> H, zero: H, level: seq<H>): H
    decreases |level|
  {
    if |level| == 0 then zero else if |level| == 1 then level[0] else Root(hash, zero, Up(hash, level))
  }

  /** All levels, one after the other. */
  function Flat<H>(hash: (H, H) -> H, level: seq<H>): seq<H>
    decreases |level|
  {
    if |level| <= 1 then level else level + Flat(hash, Up(hash, level))
  }

  /** n ^ 1: the other one of a pair. */
  function Other(n: nat): nat { if n % 2 == 0 then n + 1 else n - 1 }

  /** The hashes beside the path from leaf n to the root. */
  function Branch<H>(hash: (H, H) -> H, level: seq<H>, n: nat): seq<H>
    requires n < |level|
    decreases |level|
  {
    if |level| == 1 then []
    else [level[Min(Other(n), |level| - 1)]] + Branch(hash, Up(hash, level), n / 2)
  }

  /** What a branch makes of a hash at place n. Negative places are shifted as two's complement numbers are. */
  function Folded<H>(hash: (H, H) -> H, h: H, branch: seq<H>, n: int): H
    decreases |branch|
  {
    if branch == [] then h
    else Folded(hash, if n % 2 == 1 then hash(branch[0], h) else hash(h, branch[0]), branch[1..], n / 2)
  }

  /** The part of a block that the tree is about. vMerkleTree is a cache. */
  class CBlock<H(==)> {
    const hash: (H, H) -> H
    const zero: H
    var vtx: seq<H>
    var vMerkleTree: seq<H>

    constructor (hash: (H, H) -> H, zero: H, vtx: seq<H>)
      ensures this.hash == hash && this.zero == zero && this.vtx == vtx && vMerkleTree == []
    {
      this.hash, this.zero, this.vtx, this.vMerkleTree := hash, zero, vtx, [];
    }

    /** BuildMerkleTree. */
    method BuildMerkleTree() returns (root: H)
      modifies this`vMerkleTree
      ensures vMerkleTree == Flat(hash, vtx)
      ensures root == Root(hash, zero, vtx)
    {
      hide Flat, Root, Up, Building;
      vMerkleTree := [];
      for k := 0 to |vtx|
        invariant vMerkleTree == vtx[..k]
      {
        vMerkleTree := vMerkleTree + [vtx[k]];
      }
      var j, nSize := 0, |vtx|;
      assert vMerkleTree == vtx;
      BuildingStarts(hash, zero, vtx);
      while nSize > 1
        invariant 0 <= nSize && 0 <= j && j + nSize == |vMerkleTree|
        invariant Building(hash, zero, vtx, vMerkleTree, j)
        decreases nSize
      {
        BuildingGoesOn(hash, zero, vtx, vMerkleTree, j);
        PushLevel(j, nSize);
        j := j + nSize;
        nSize := (nSize + 1) / 2;
      }
      BuildingEnds(hash, zero, vtx, vMerkleTree, j);
      root := if vMerkleTree == [] then zero else vMerkleTree[|vMerkleTree| - 1];
    }

    /** The inner loop of BuildMerkleTree. */
    method PushLevel(j: nat, nSize: nat)
      requires j + nSize == |vMerkleTree|
      modifies this`vMerkleTree
      ensures vMerkleTree == old(vMerkleTree) + Up(hash, old(vMerkleTree)[j..])
    {
      hide Up;
      ghost var tree, level := vMerkleTree, vMerkleTree[j..];
      var i := 0;
      assert tree + Up(hash, level)[..0] == tree;
      while i < nSize
        invariant 0 <= i <= nSize + 1 && i % 2 == 0
        invariant i / 2 <= |Up(hash, level)| && vMerkleTree == tree + Up(hash, level)[..i / 2]
      {
        var i2 := Min(i + 1, nSize - 1);
        UpNext(hash, level, i, tree);
        vMerkleTree := vMerkleTree + [hash(vMerkleTree[j + i], vMerkleTree[j + i2])];
        i := i + 2;
      }
      assert Up(hash, level)[..i / 2] == Up(hash, level);
    }

    /** GetMerkleBranch, with a cache that is empty or belongs to these transactions. */
    method GetMerkleBranch(nIndex: nat) returns (vMerkleBranch: seq<H>)
      requires nIndex < |vtx| && (vMerkleTree == [] || vMerkleTree == Flat(hash, vtx))
      modifies this`vMerkleTree
      ensures vMerkleTree == Flat(hash, vtx)
      ensures vMerkleBranch == Branch(hash, vtx, nIndex)
    {
      hide Flat, Branch, Up, Climbing;
      if vMerkleTree == [] { var root := BuildMerkleTree(); }
      vMerkleBranch := [];
      var n: nat, j: nat, nSize: nat := nIndex, 0, |vtx|;
      ghost var level := vtx;
      ClimbingStarts(hash, vtx, nIndex, vMerkleTree);
      while nSize > 1
        invariant vMerkleTree == Flat(hash, vtx)
        invariant nSize == |level| && n < nSize && j <= |vMerkleTree|
        invariant Climbing(hash, vtx, nIndex, vMerkleTree, j, level, n, vMerkleBranch)
        decreases nSize
      {
        var i := Min(Other(n), nSize - 1);
        ClimbingGoesOn(hash, vtx, nIndex, vMerkleTree, j, level, n, vMerkleBranch);
        vMerkleBranch := vMerkleBranch + [vMerkleTree[j + i]];
        n := n / 2;
        j := j + nSize;
        nSize := (nSize + 1) / 2;
        level := Up(hash, level);
      }
      ClimbingEnds(hash, vtx, nIndex, vMerkleTree, j, level, n, vMerkleBranch);
    }
  }

  /** The levels before j are finished, and the rest of the tree is still to grow out of the level at j. */
  predicate Building<H(==)>(hash: (H, H) -> H, zero: H, vtx: seq<H>, tree: seq<H>, j: nat) {
    && j <= |tree| && (j == |tree| ==> vtx == [])
    && tree[..j] + Flat(hash, tree[j..]) == Flat(hash, vtx) && Root(hash, zero, tree[j..]) == Root(hash, zero, vtx)
  }

  lemma BuildingStarts<H>(hash: (H, H) -> H, zero: H, vtx: seq<H>)
    ensures Building(hash, zero, vtx, vtx, 0)
  {
    hide Flat, Root;
    assert vtx[0..] == vtx && vtx[..0] + Flat(hash, vtx) == Flat(hash, vtx);
  }

  lemma BuildingGoesOn<H>(hash: (H, H) -> H, zero: H, vtx: seq<H>, tree: seq<H>, j: nat)
    requires Building(hash, zero, vtx, tree, j) && j + 1 < |tree|
    ensures Building(hash, zero, vtx, tree + Up(hash, tree[j..]), |tree|)
  {
    hide Flat, Root, Up;
    RootUp(hash, zero, tree[j..]);
    LevelDone(hash, tree, j, Up(hash, tree[j..]));
  }

  lemma BuildingEnds<H>(hash: (H, H) -> H, zero: H, vtx: seq<H>, tree: seq<H>, j: nat)
    requires Building(hash, zero, vtx, tree, j) && |tree| <= j + 1
    ensures tree == Flat(hash, vtx) && Root(hash, zero, vtx) == if tree == [] then zero else tree[|tree| - 1]
  {
    TopLevel(hash, zero, tree[j..]);
    if vtx == [] { TopLevel(hash, zero, vtx); }
    hide Flat, Root;
    assert tree == tree[..j] + tree[j..];
  }

  /** Half way up from leaf nIndex: the branch so far, and the level at j with the place n in it. */
  predicate Climbing<H(==)>(hash: (H, H) -> H, vtx: seq<H>, nIndex: nat, tree: seq<H>, j: nat, level: seq<H>, n: nat,
      branch: seq<H>) {
    && nIndex < |vtx| && n < |level| && j <= |tree| && tree[j..] == Flat(hash, level)
    && branch + Branch(hash, level, n) == Branch(hash, vtx, nIndex)
  }

  lemma ClimbingStarts<H>(hash: (H, H) -> H, vtx: seq<H>, nIndex: nat, tree: seq<H>)
    requires nIndex < |vtx| && tree == Flat(hash, vtx)
    ensures Climbing(hash, vtx, nIndex, tree, 0, vtx, nIndex, [])
  {
    hide Flat, Branch;
    assert tree[0..] == tree && [] + Branch(hash, vtx, nIndex) == Branch(hash, vtx, nIndex);
  }

  lemma ClimbingGoesOn<H>(hash: (H, H) -> H, vtx: seq<H>, nIndex: nat, tree: seq<H>, j: nat, level: seq<H>, n: nat,
      branch: seq<H>)
    requires Climbing(hash, vtx, nIndex, tree, j, level, n, branch) && |level| > 1
    ensures var i := Min(Other(n), |level| - 1);
      && j + i < |tree| && j + |level| <= |tree| && tree[j + i] == level[i]
      && Climbing(hash, vtx, nIndex, tree, j + |level|, Up(hash, level), n / 2, branch + [tree[j + i]])
  {
    hide Flat, Branch, Up;
    var i, up := Min(Other(n), |level| - 1), Up(hash, level);
    FlatUp(hash, level);
    BranchUp(hash, level, n);
    assert tree[j + i] == tree[j..][i] == level[i];
    assert tree[j + |level|..] == tree[j..][|level|..];
    assert branch + ([level[i]] + Branch(hash, up, n / 2)) == branch + [level[i]] + Branch(hash, up, n / 2);
  }

  lemma ClimbingEnds<H>(hash: (H, H) -> H, vtx: seq<H>, nIndex: nat, tree: seq<H>, j: nat, level: seq<H>, n: nat,
      branch: seq<H>)
    requires Climbing(hash, vtx, nIndex, tree, j, level, n, branch) && |level| == 1
    ensures branch == Branch(hash, vtx, nIndex)
  {
    NoBranch(hash, level, n);
  }

  lemma FlatUp<H>(hash: (H, H) -> H, level: seq<H>)
    requires |level| > 1
    ensures Flat(hash, level) == level + Flat(hash, Up(hash, level))
  {
  }

  lemma RootUp<H>(hash: (H, H) -> H, zero: H, level: seq<H>)
    requires |level| > 1
    ensures Root(hash, zero, level) == Root(hash, zero, Up(hash, level))
  {
  }

  lemma TopLevel<H>(hash: (H, H) -> H, zero: H, level: seq<H>)
    requires |level| <= 1
    ensures Flat(hash, level) == level && Root(hash, zero, level) == if level == [] then zero else level[0]
  {
  }

  lemma BranchUp<H>(hash: (H, H) -> H, level: seq<H>, n: nat)
    requires 1 < |level| && n < |level|
    ensures Branch(hash, level, n) == [level[Min(Other(n), |level| - 1)]] + Branch(hash, Up(hash, level), n / 2)
  {
  }

  lemma NoBranch<H>(hash: (H, H) -> H, level: seq<H>, n: nat)
    requires |level| == 1 && n == 0
    ensures Branch(hash, level, n) == []
  {
  }

  lemma UpNext<H>(hash: (H, H) -> H, level: seq<H>, i: nat, tree: seq<H>)
    requires i < |level| && i % 2 == 0
    ensures var up := Up(hash, level);
      tree + up[..i / 2] + [hash(level[i], level[Min(i + 1, |level| - 1)])] == tree + up[..(i + 2) / 2]
  {
    var up := Up(hash, level);
    assert up[..i / 2 + 1] == up[..i / 2] + [up[i / 2]];
  }

  /** The hash above a pair, seen from either of the two. */
  lemma UpAt<H>(hash: (H, H) -> H, level: seq<H>, n: nat)
    requires 1 < |level| && n < |level|
    ensures var other := level[Min(Other(n), |level| - 1)];
      Up(hash, level)[n / 2] == if n % 2 == 1 then hash(other, level[n]) else hash(level[n], other)
  {
  }

  lemma LevelDone<H>(hash: (H, H) -> H, tree: seq<H>, j: nat, up: seq<H>)
    requires j + 1 < |tree| && up == Up(hash, tree[j..])
    ensures (tree + up)[..|tree|] + Flat(hash, (tree + up)[|tree|..]) == tree[..j] + Flat(hash, tree[j..])
    ensures (tree + up)[|tree|..] == up
  {
    hide Flat, Up;
    FlatUp(hash, tree[j..]);
    Halves(tree, up);
    Regrouped(tree, j, Flat(hash, up));
  }

  lemma Regrouped<H>(tree: seq<H>, j: nat, rest: seq<H>)
    requires j <= |tree|
    ensures tree + rest == tree[..j] + (tree[j..] + rest)
  {
  }

  lemma Halves<H>(a: seq<H>, b: seq<H>)
    ensures (a + b)[..|a|] == a && (a + b)[|a|..] == b
  {
  }

  /** CheckMerkleBranch. */
  method CheckMerkleBranch<H>(hash: (H, H) -> H, zero: H, h0: H, vMerkleBranch: seq<H>, nIndex0: int) returns (h: H)
    ensures h == if nIndex0 == -1 then zero else Folded(hash, h0, vMerkleBranch, nIndex0)
  {
    if nIndex0 == -1 { return zero; }
    h := h0;
    var nIndex := nIndex0;
    for k := 0 to |vMerkleBranch|
      invariant Folded(hash, h, vMerkleBranch[k..], nIndex) == Folded(hash, h0, vMerkleBranch, nIndex0)
    {
      var otherside := vMerkleBranch[k];
      assert vMerkleBranch[k..][0] == otherside && vMerkleBranch[k..][1..] == vMerkleBranch[k + 1..];
      if nIndex % 2 == 1 { h := hash(otherside, h); } else { h := hash(h, otherside); }
      nIndex := nIndex / 2;
    }
  }

  /** The branch of every leaf leads to the root. */
  lemma {:induction false} BranchLeadsToRoot<H>(hash: (H, H) -> H, zero: H, level: seq<H>, n: nat)
    requires n < |level|
    ensures Folded(hash, level[n], Branch(hash, level, n), n) == Root(hash, zero, level)
    decreases |level|
  {
    if |level| > 1 {
      BranchUp(hash, level, n);
      RootUp(hash, zero, level);
      UpAt(hash, level, n);
      var b := Branch(hash, level, n);
      assert b[1..] == Branch(hash, Up(hash, level), n / 2);
      hide Branch, Root, Up;
      BranchLeadsToRoot(hash, zero, Up(hash, level), n / 2);
    }
  }

  ghost predicate Injective<H(!new)>(hash: (H, H) -> H) {
    forall a, b, c, d :: hash(a, b) == hash(c, d) ==> a == c && b == d
  }

  lemma SamePair<H(!new)>(hash: (H, H) -> H, a: H, b: H, c: H, d: H)
    requires Injective(hash)
    ensures hash(a, b) == hash(c, d) <==> a == c && b == d
  {
  }

  /** With a hash without collisions, a branch of the right length proves that its hash is the leaf at its place, and
      only the tree's own branch does. */
  lemma {:induction false} BranchProves<H(!new)>(hash: (H, H) -> H, zero: H, level: seq<H>, n: nat, h: H,
        branch: seq<H>)
    requires Injective(hash) && n < |level| && |branch| == |Branch(hash, level, n)|
    ensures Folded(hash, h, branch, n) == Root(hash, zero, level) <==> h == level[n] && branch == Branch(hash, level, n)
    decreases |level|
  {
    hide Injective;
    if |level| > 1 {
      BranchUp(hash, level, n);
      RootUp(hash, zero, level);
      UpAt(hash, level, n);
      var up, b := Up(hash, level), Branch(hash, level, n);
      var parent := if n % 2 == 1 then hash(branch[0], h) else hash(h, branch[0]);
      assert b[1..] == Branch(hash, up, n / 2);
      assert Folded(hash, h, branch, n) == Folded(hash, parent, branch[1..], n / 2);
      hide Branch, Root, Up, Folded;
      BranchProves(hash, zero, up, n / 2, parent, branch[1..]);
      if n % 2 == 1 {
        SamePair(hash, branch[0], h, b[0], level[n]);
      } else {
        SamePair(hash, h, branch[0], level[n], b[0]);
      }
      assert branch == [branch[0]] + branch[1..] && b == [b[0]] + b[1..];
    } else {
      assert branch == [];
    }
  }

  /** With a hash without collisions, lists of the same length with the same root are the same. */
  lemma {:induction false} RootDeterminesLeaves<H(!new)>(hash: (H, H) -> H, zero: H, a: seq<H>, b: seq<H>)
    requires Injective(hash) && |a| == |b|
    ensures Root(hash, zero, a) == Root(hash, zero, b) <==> a == b
    decreases |a|
  {
    hide Injective;
    if |a| > 1 {
      RootUp(hash, zero, a);
      RootUp(hash, zero, b);
      hide Root, Up;
      RootDeterminesLeaves(hash, zero, Up(hash, a), Up(hash, b));
      if Up(hash, a) == Up(hash, b) {
        forall i | 0 <= i < |a| ensures a[i] == b[i] {
          UpAt(hash, a, i);
          UpAt(hash, b, i);
          var m := Min(Other(i), |a| - 1);
          if i % 2 == 1 { SamePair(hash, a[m], a[i], b[m], b[i]); } else { SamePair(hash, a[i], a[m], b[i], b[m]); }
        }
      }
    }
  }

  // ----- lists of different lengths -----

  /** Of lists of different lengths this is false: repeating the last one of an odd number of transactions changes
      nothing. */
  lemma RepeatedLastSameRoot<H>(hash: (H, H) -> H, zero: H, s: seq<H>)
    requires |s| > 1 && |s| % 2 == 1
    ensures Root(hash, zero, s + [s[|s| - 1]]) == Root(hash, zero, s)
  {
    UpOfPadded(hash, s);
    RootUp(hash, zero, s);
    RootUp(hash, zero, s + [s[|s| - 1]]);
  }

  /** How many levels there are above the leaves. */
  function Levels(n: nat): nat { if n <= 1 then 0 else 1 + Levels((n + 1) / 2) }

  function Tail<H>(s: seq<H>, w: nat): seq<H> { if w <= |s| then s[|s| - w..] else s }

  /** The leaves in g groups of w, padded to a full tree: the last group is repeated while the number of groups is odd,
      and the groups double at every level. */
  function PaddedGroups<H>(s: seq<H>, w: nat, g: nat): seq<H>
    decreases g
  {
    if g <= 1 then s
    else if g % 2 == 1 then PaddedGroups(s + Tail(s, w), 2 * w, (g + 1) / 2)
    else PaddedGroups(s, 2 * w, g / 2)
  }

  /** The list padded at every level. */
  function Padded<H>(s: seq<H>): seq<H> { PaddedGroups(s, 1, |s|) }

  lemma UpOfPadded<H>(hash: (H, H) -> H, s: seq<H>)
    requires |s| > 1 && |s| % 2 == 1
    ensures Up(hash, s + [s[|s| - 1]]) == Up(hash, s)
  {
  }

  lemma UpOfPair<H>(hash: (H, H) -> H, s: seq<H>, h: nat, j: nat)
    requires |s| == 2 * h && j < h
    ensures |Up(hash, s)| == h && Up(hash, s)[j] == hash(s[2 * j], s[2 * j + 1])
  {
  }

  /** Up works on the pairs of an even number of leaves one by one. */
  lemma UpOfAppended<H>(hash: (H, H) -> H, s: seq<H>, t: seq<H>)
    requires |s| % 2 == 0 && |t| % 2 == 0
    ensures Up(hash, s + t) == Up(hash, s) + Up(hash, t)
  {
    hide Up;
    var m, n, u := |s| / 2, |t| / 2, s + t;
    assert |Up(hash, u)| == m + n && |Up(hash, s)| == m && |Up(hash, t)| == n && t == u[2 * m..];
    forall j | 0 <= j < m ensures Up(hash, u)[j] == Up(hash, s)[j] { UpOfFront(hash, s, u, j); }
    forall j | 0 <= j < n ensures Up(hash, u)[m + j] == Up(hash, t)[j] { UpOfBack(hash, t, u, m, j); }
    Pieces(Up(hash, u), Up(hash, s), Up(hash, t));
  }

  lemma Pieces<H>(u: seq<H>, a: seq<H>, b: seq<H>)
    requires |u| == |a| + |b| && (forall j :: 0 <= j < |a| ==> u[j] == a[j])
    requires forall j :: 0 <= j < |b| ==> u[|a| + j] == b[j]
    ensures u == a + b
  {
    forall j | |a| <= j < |u| ensures u[j] == b[j - |a|] { assert u[|a| + (j - |a|)] == b[j - |a|]; }
  }

  lemma UpOfFront<H>(hash: (H, H) -> H, s: seq<H>, u: seq<H>, j: nat)
    requires |s| % 2 == 0 && |u| % 2 == 0 && s <= u && 2 * j < |s|
    ensures Up(hash, u)[j] == Up(hash, s)[j]
  {
    hide Up;
    UpOfPair(hash, u, |u| / 2, j);
    UpOfPair(hash, s, |s| / 2, j);
  }

  lemma UpOfBack<H>(hash: (H, H) -> H, t: seq<H>, u: seq<H>, m: nat, j: nat)
    requires |t| % 2 == 0 && 2 * m <= |u| && t == u[2 * m..] && 2 * j < |t|
    ensures Up(hash, u)[m + j] == Up(hash, t)[j]
  {
    hide Up;
    UpOfPair(hash, u, |u| / 2, m + j);
    UpOfPair(hash, t, |t| / 2, j);
    assert u[2 * (m + j)] == t[2 * j] && u[2 * (m + j) + 1] == t[2 * j + 1];
  }

  lemma UpOfTail<H>(hash: (H, H) -> H, s: seq<H>, w: nat)
    requires |s| % 2 == 0
    ensures |Tail(s, 2 * w)| % 2 == 0 && Up(hash, Tail(s, 2 * w)) == Tail(Up(hash, s), w)
  {
    var h := |s| / 2;
    if w <= h {
      var front, tail := s[..2 * (h - w)], s[2 * (h - w)..];
      assert s == front + tail;
      hide Up;
      UpOfAppended(hash, front, tail);
    }
  }

  /** Padding groups of 2w leaves is padding groups of w pairs. */
  lemma {:induction false} UpOfGroups<H>(hash: (H, H) -> H, s: seq<H>, w: nat, g: nat)
    requires |s| % 2 == 0
    ensures |PaddedGroups(s, 2 * w, g)| % 2 == 0
    ensures Up(hash, PaddedGroups(s, 2 * w, g)) == PaddedGroups(Up(hash, s), w, g)
    decreases g
  {
    hide Up, Tail;
    if g > 1 {
      if g % 2 == 1 {
        UpOfTail(hash, s, w);
        UpOfAppended(hash, s, Tail(s, 2 * w));
        UpOfGroups(hash, s + Tail(s, 2 * w), 2 * w, (g + 1) / 2);
      } else {
        UpOfGroups(hash, s, 2 * w, g / 2);
      }
    }
  }

  lemma PaddedStep<H>(s: seq<H>)
    requires |s| > 1
    ensures Padded(s) ==
      PaddedGroups(if |s| % 2 == 1 then s + [s[|s| - 1]] else s, 2, (|s| + 1) / 2)
  {
    assert Tail(s, 1) == [s[|s| - 1]];
  }

  /** The padded leaves, one level up. */
  lemma PaddedUp<H>(hash: (H, H) -> H, s: seq<H>)
    requires |s| > 1
    ensures |Padded(s)| % 2 == 0 && Up(hash, Padded(s)) == Padded(Up(hash, s))
  {
    PaddedStep(s);
    if |s| % 2 == 1 {
      UpOfPadded(hash, s);
      hide Up, PaddedGroups;
      UpOfGroups(hash, s + [s[|s| - 1]], 1, (|s| + 1) / 2);
    } else {
      hide Up, PaddedGroups;
      UpOfGroups(hash, s, 1, |s| / 2);
    }
  }

  /** With a hash without collisions, the level above determines an even number of hashes. */
  lemma UpDetermines<H(!new)>(hash: (H, H) -> H, a: seq<H>, b: seq<H>)
    requires Injective(hash) && |a| % 2 == 0 && |b| % 2 == 0
    ensures Up(hash, a) == Up(hash, b) <==> a == b
  {
    hide Injective;
    if Up(hash, a) == Up(hash, b) {
      assert |a| == 2 * |Up(hash, a)| && |b| == 2 * |Up(hash, b)|;
      forall i | 0 <= i < |a| ensures a[i] == b[i] {
        var j := i / 2;
        assert Up(hash, a)[j] == hash(a[2 * j], a[2 * j + 1]) && Up(hash, b)[j] == hash(b[2 * j], b[2 * j + 1]);
        SamePair(hash, a[2 * j], a[2 * j + 1], b[2 * j], b[2 * j + 1]);
      }
    }
  }

  /** With a hash without collisions, two lists whose trees have equally many levels have the same root if and only if
      padding at every level makes them the same list. */
  lemma {:induction false} SameHeightIff<H(!new)>(hash: (H, H) -> H, zero: H, a: seq<H>, b: seq<H>)
    requires Injective(hash) && a != [] && b != [] && Levels(|a|) == Levels(|b|)
    ensures Root(hash, zero, a) == Root(hash, zero, b) <==> Padded(a) == Padded(b)
    decreases |a|
  {
    if |a| > 1 {
      RootUp(hash, zero, a);
      RootUp(hash, zero, b);
      PaddedUp(hash, a);
      PaddedUp(hash, b);
      hide Root, Up, Padded, Injective;
      SameHeightIff(hash, zero, Up(hash, a), Up(hash, b));
      UpDetermines(hash, Padded(a), Padded(b));
    }
  }

  /** The level of the tree that has n levels above it. */
  function LevelAt<H>(hash: (H, H) -> H, s: seq<H>, n: nat): seq<H>
    decreases |s|
  {
    if Levels(|s|) <= n then s else LevelAt(hash, Up(hash, s), n)
  }

  lemma {:induction false} LevelAtSameRoot<H>(hash: (H, H) -> H, zero: H, s: seq<H>, n: nat)
    requires s != [] && n <= Levels(|s|)
    ensures var t := LevelAt(hash, s, n);
      t != [] && Levels(|t|) == n && Root(hash, zero, t) == Root(hash, zero, s)
    decreases |s|
  {
    if n < Levels(|s|) {
      RootUp(hash, zero, s);
      LevelAtSameRoot(hash, zero, Up(hash, s), n);
    }
  }

  /** With a hash without collisions, any two lists have the same root if and only if their trees, from the level on
      that both have, come from the same padded list. */
  lemma SameRootIff<H(!new)>(hash: (H, H) -> H, zero: H, a: seq<H>, b: seq<H>)
    requires Injective(hash) && a != [] && b != []
    ensures var n := Min(Levels(|a|), Levels(|b|));
      Root(hash, zero, a) == Root(hash, zero, b) <==>
      Padded(LevelAt(hash, a, n)) == Padded(LevelAt(hash, b, n))
  {
    var n := Min(Levels(|a|), Levels(|b|));
    LevelAtSameRoot(hash, zero, a, n);
    LevelAtSameRoot(hash, zero, b, n);
    hide Injective, LevelAt, Padded, Root;
    SameHeightIff(hash, zero, LevelAt(hash, a, n), LevelAt(hash, b, n));
  }

  /** Somewhere in the tree the two hashes of a pair are equal. */
  predicate HasTwins<H(==)>(hash: (H, H) -> H, level: seq<H>)
    decreases |level|
  {
    |level| > 1 && ((exists j :: 0 <= j < |level| / 2 && level[2 * j] == level[2 * j + 1])
        || HasTwins(hash, Up(hash, level)))
  }

  /** A list that has the root of a shorter one, in a tree of equally many levels, gives itself away. */
  lemma {:induction false} LongerHasTwins<H(!new)>(hash: (H, H) -> H, zero: H, a: seq<H>, b: seq<H>)
    requires Injective(hash) && 0 < |a| < |b| && Levels(|a|) == Levels(|b|)
    requires Root(hash, zero, a) == Root(hash, zero, b)
    ensures HasTwins(hash, b)
    decreases |a|
  {
    RootUp(hash, zero, a);
    RootUp(hash, zero, b);
    if |Up(hash, a)| < |Up(hash, b)| {
      hide Root, Up, Injective;
      LongerHasTwins(hash, zero, Up(hash, a), Up(hash, b));
    } else {
      RootDeterminesLeaves(hash, zero, Up(hash, a), Up(hash, b));
      var j := |a| / 2;
      assert |b| == 2 * j + 2 && |a| == 2 * j + 1;
      assert Up(hash, a)[j] == hash(a[2 * j], a[2 * j]) && Up(hash, b)[j] == hash(b[2 * j], b[2 * j + 1]);
      hide Root, Up, Injective;
      SamePair(hash, a[2 * j], a[2 * j], b[2 * j], b[2 * j + 1]);
    }
  }

  /** Trees with different numbers of levels can have the same root as well: a list and the level above it do. */
  lemma LevelAboveSameRoot<H>(hash: (H, H) -> H, zero: H, s: seq<H>)
    requires |s| > 1
    ensures Root(hash, zero, Up(hash, s)) == Root(hash, zero, s) && Levels(|Up(hash, s)|) == Levels(|s|) - 1
  {
    RootUp(hash, zero, s);
  }
}
