/** The Bitcoin merkle root over an ordered hash list. */
module Merkle {
  import opened Bytes
  import opened Transaction

  function Join(hash: Hasher, a: Hash, b: Hash): Hash {
    var both: seq<byte> := a + b;
    hash(both)
  }

  /** One level up: hash adjacent pairs, an odd last hash with itself. */
  function Pairs(hash: Hasher, hs: seq<Hash>): (up: seq<Hash>)
    ensures |up| == (|hs| + 1) / 2
  {
    if hs == [] then []
    else if |hs| == 1 then [Join(hash, hs[0], hs[0])]
    else [Join(hash, hs[0], hs[1])] + Pairs(hash, hs[2..])
  }

  function Root(hash: Hasher, hs: seq<Hash>): Hash
    decreases |hs|
  {
    if hs == [] then ZERO_HASH
    else if |hs| == 1 then hs[0]
    else Root(hash, Pairs(hash, hs))
  }

  /** Doubling an odd last hash first gives the same level. */
  lemma {:induction false} PairsPadded(hash: Hasher, hs: seq<Hash>)
    requires |hs| % 2 == 1
    ensures Pairs(hash, hs + [hs[|hs| - 1]]) == Pairs(hash, hs)
  {
    var padded := hs + [hs[|hs| - 1]];
    if |hs| == 1 {
      assert padded[2..] == [];
    } else {
      assert padded[2..] == hs[2..] + [hs[2..][|hs| - 3]];
      PairsPadded(hash, hs[2..]);
    }
  }

  lemma LevelStep(hash: Hasher, done: seq<Hash>, level: seq<Hash>, i: nat)
    requires 2 * i + 1 < |level|
    ensures done + Pairs(hash, level[2 * i..])
      == done + [Join(hash, level[2 * i], level[2 * i + 1])] + Pairs(hash, level[2 * (i + 1)..])
  {
    assert level[2 * i..][2..] == level[2 * (i + 1)..];
  }

  /** The inner loop: pad to an even length, then hash two by two. */
  method NextLevel(hash: Hasher, hashes: seq<Hash>) returns (next: seq<Hash>)
    requires hashes != []
    ensures next == Pairs(hash, hashes)
  {
    hide Pairs, Join;
    var level := hashes;
    if |level| % 2 != 0 {
      PairsPadded(hash, level);
      level := level + [level[|level| - 1]];
    }
    next := [];
    assert level[0..] == level;
    for i := 0 to |level| / 2
      invariant |next| == i
      invariant Pairs(hash, hashes) == next + Pairs(hash, level[2 * i..])
    {
      LevelStep(hash, next, level, i);
      next := next + [Join(hash, level[2 * i], level[2 * i + 1])];
    }
  }

  /** `merkle_root` and `compute_merkle_root`: levels computed until one hash remains. */
  method ComputeRoot(hash: Hasher, leaves: seq<Hash>) returns (root: Hash)
    ensures root == Root(hash, leaves)
  {
    if leaves == [] { return ZERO_HASH; }
    var hashes := leaves;
    while |hashes| > 1
      invariant hashes != [] && Root(hash, hashes) == Root(hash, leaves)
      decreases |hashes|
    {
      hashes := NextLevel(hash, hashes);
    }
    return hashes[0];
  }

  // -------------------------------------------------------- the tree the levels build

  /**
   * The tree of depth `k` over the leaves, from the top: the first 2^(k-1) leaves to the left, the others to the right,
   * and a missing right half is the left half again.
   */
  function Tree(hash: Hasher, leaves: seq<Hash>, k: nat): Hash
    requires 0 < |leaves| <= Pow(2, k)
    decreases k
  {
    if k == 0 then leaves[0]
    else
      var half := Pow(2, k - 1);
      if |leaves| > half then
        var left: seq<byte>, right: seq<byte> := Tree(hash, leaves[..half], k - 1), Tree(hash, leaves[half..], k - 1);
        hash(left + right)
      else
        var left: seq<byte> := Tree(hash, leaves, k - 1);
        hash(left + left)
  }

  lemma {:induction false} PairsAppend(hash: Hasher, l: seq<Hash>, r: seq<Hash>)
    requires |l| % 2 == 0
    ensures Pairs(hash, l + r) == Pairs(hash, l) + Pairs(hash, r)
  {
    if l == [] {
      assert l + r == r;
    } else {
      assert (l + r)[2..] == l[2..] + r;
      PairsAppend(hash, l[2..], r);
    }
  }

  lemma HalfOf(n: nat, k: nat)
    requires k > 0
    ensures Pow(2, k) == 2 * Pow(2, k - 1)
    ensures (n + 1) / 2 <= Pow(2, k - 1) <==> n <= Pow(2, k)
  {
  }

  function Parent(hash: Hasher, left: Hash, right: Hash): Hash {
    var l: seq<byte>, r: seq<byte> := left, right;
    hash(l + r)
  }

  lemma TreeOfTwo(hash: Hasher, l: seq<Hash>, r: seq<Hash>, k: nat)
    requires k > 0 && |l| == Pow(2, k - 1) && 0 < |r| <= |l|
    ensures |l + r| <= Pow(2, k) && Tree(hash, l + r, k) == Parent(hash, Tree(hash, l, k - 1), Tree(hash, r, k - 1))
  {
    assert (l + r)[..|l|] == l && (l + r)[|l|..] == r;
  }

  lemma TreeOfCopies(hash: Hasher, leaves: seq<Hash>, k: nat)
    requires k > 0 && 0 < |leaves| <= Pow(2, k - 1)
    ensures |leaves| <= Pow(2, k)
    ensures Tree(hash, leaves, k) == Parent(hash, Tree(hash, leaves, k - 1), Tree(hash, leaves, k - 1))
  {
  }

  lemma TreeOfOnePair(hash: Hasher, leaves: seq<Hash>)
    requires 1 <= |leaves| <= 2
    ensures Pow(2, 0) == 1 && Pow(2, 1) == 2
    ensures Tree(hash, Pairs(hash, leaves), 0) == Tree(hash, leaves, 1)
  {
    assert Pow(2, 0) == 1 && Pow(2, 1) == 2 * Pow(2, 0);
    if |leaves| == 2 { assert leaves[2..] == []; }
  }

  /** A tree over one level is the tree, one shallower, over the next. */
  lemma {:induction false} TreeOfPairs(hash: Hasher, leaves: seq<Hash>, k: nat)
    requires k > 0 && 0 < |leaves| <= Pow(2, k)
    ensures |Pairs(hash, leaves)| <= Pow(2, k - 1)
    ensures Tree(hash, Pairs(hash, leaves), k - 1) == Tree(hash, leaves, k)
    decreases k
  {
    hide *;
    HalfOf(|leaves|, k);
    if k == 1 {
      PowersOfTwo();
      TreeOfOnePair(hash, leaves);
    } else {
      HalfOf(|leaves|, k - 1);
      var half := Pow(2, k - 1);
      if |leaves| > half {
        var l, r := leaves[..half], leaves[half..];
        assert leaves == l + r;
        PairsAppend(hash, l, r);
        TreeOfPairs(hash, l, k - 1);
        TreeOfPairs(hash, r, k - 1);
        TreeOfTwo(hash, l, r, k);
        TreeOfTwo(hash, Pairs(hash, l), Pairs(hash, r), k - 1);
      } else {
        TreeOfPairs(hash, leaves, k - 1);
        TreeOfCopies(hash, leaves, k);
        TreeOfCopies(hash, Pairs(hash, leaves), k - 1);
      }
    }
  }

  /** The root is that tree, of the least depth that holds the leaves. */
  lemma {:induction false} RootIsTree(hash: Hasher, leaves: seq<Hash>, k: nat)
    requires 0 < |leaves| <= Pow(2, k) && (k > 0 ==> |leaves| > Pow(2, k - 1))
    ensures Root(hash, leaves) == Tree(hash, leaves, k)
    decreases k
  {
    if k == 0 {
      assert Pow(2, 0) == 1;
    } else {
      HalfOf(|leaves|, k);
      assert Pow(2, 0) == 1;
      if k > 1 { HalfOf(|leaves|, k - 1); }
      TreeOfPairs(hash, leaves, k);
      hide Pairs, Join, Tree, Pow;
      RootIsTree(hash, Pairs(hash, leaves), k - 1);
    }
  }

  /** So a root splits at a power of two into the roots of both sides, the left one first. */
  lemma RootSplits(hash: Hasher, l: seq<Hash>, r: seq<Hash>, k: nat)
    requires |l| == Pow(2, k) && 0 < |r| <= |l|
    ensures var left: seq<byte>, right: seq<byte> := Root(hash, l), Tree(hash, r, k);
      Root(hash, l + r) == hash(left + right)
    ensures |r| == |l| ==> Tree(hash, r, k) == Root(hash, r)
  {
    hide Root, Pairs;
    HalfOf(|l|, k + 1);
    assert (l + r)[..|l|] == l && (l + r)[|l|..] == r;
    RootIsTree(hash, l + r, k + 1);
    if k > 0 { HalfOf(|l|, k); }
    RootIsTree(hash, l, k);
    if |r| == |l| { RootIsTree(hash, r, k); }
  }

  /** One leaf is its own root, and two are hashed in order. */
  lemma SmallRoots(hash: Hasher, a: Hash, b: Hash)
    ensures Root(hash, [a]) == a
    ensures var left: seq<byte>, right: seq<byte> := a, b; Root(hash, [a, b]) == hash(left + right)
  {
    assert Pow(2, 0) == 1;
    RootSplits(hash, [a], [b], 0);
    assert [a] + [b] == [a, b];
  }
}
