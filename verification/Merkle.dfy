/** The Merkle root that the leader submits and the contract recomputes. */
module Merkle {
  import opened Words

  /** The 64 bytes hashed for two adjacent words. */
  function Join(a: Bytes, b: Bytes): Bytes {
    a + b
  }

  function Pair(keccak: Hash, a: Word, b: Word): Word {
    keccak(Join(a, b))
  }

  // ---------------------------------------------------------------------
  // Reference definition: a queue that loses two words and gains their hash

  function Reduce(keccak: Hash, queue: seq<Word>): Word
    requires |queue| >= 1
    decreases |queue|
  {
    if |queue| == 1 then queue[0]
    else Reduce(keccak, queue[2..] + [Pair(keccak, queue[0], queue[1])])
  }

  /** The root of a list of leaves; a list of fewer than two leaves has none. */
  function Root(keccak: Hash, leaves: seq<Word>): Option<Word> {
    if |leaves| < 2 then None else Some(Reduce(keccak, leaves))
  }

  // ---------------------------------------------------------------------
  // Closed form: leaves followed by hashes is a binary heap laid out backwards

  function Grow(keccak: Hash, nodes: seq<Word>, n: nat): seq<Word>
    requires n >= 2 && n <= |nodes| <= 2 * n - 1
    decreases 2 * n - |nodes|
  {
    if |nodes| == 2 * n - 1 then nodes
    else
      var i := |nodes| - n;
      Grow(keccak, nodes + [Pair(keccak, nodes[2 * i], nodes[2 * i + 1])], n)
  }

  /** All leaves, then all hashes, in the order in which they are produced. */
  function Nodes(keccak: Hash, leaves: seq<Word>): seq<Word>
    requires |leaves| >= 2
  {
    Grow(keccak, leaves, |leaves|)
  }

  /** Hash number i, at position n + i, is the pair hash of positions 2i and 2i + 1. */
  ghost predicate HeapFrom(keccak: Hash, nodes: seq<Word>, n: nat, from: nat) {
    && 2 <= n <= |nodes| <= 2 * n - 1
    && forall i :: from <= i < |nodes| - n ==> nodes[n + i] == Pair(keccak, nodes[2 * i], nodes[2 * i + 1])
  }

  lemma {:induction false} GrowFacts(keccak: Hash, nodes: seq<Word>, n: nat)
    requires n >= 2 && n <= |nodes| <= 2 * n - 1
    requires HeapFrom(keccak, nodes, n, 0)
    ensures var all := Grow(keccak, nodes, n);
            |all| == 2 * n - 1 && nodes <= all && HeapFrom(keccak, all, n, 0)
    decreases 2 * n - |nodes|
  {
    if |nodes| < 2 * n - 1 {
      var i := |nodes| - n;
      GrowFacts(keccak, nodes + [Pair(keccak, nodes[2 * i], nodes[2 * i + 1])], n);
    }
  }

  lemma ClosedForm(keccak: Hash, leaves: seq<Word>)
    requires |leaves| >= 2
    ensures var n, nodes := |leaves|, Nodes(keccak, leaves);
            && |nodes| == 2 * n - 1
            && nodes[..n] == leaves
            && (forall i :: 0 <= i < n - 1 ==> nodes[n + i] == keccak(nodes[2 * i][..] + nodes[2 * i + 1]))
            && Root(keccak, leaves) == Some(nodes[2 * n - 2])
  {
    GrowFacts(keccak, leaves, |leaves|);
    assert leaves[2 * 0..] == leaves;
    GrowEndsInReduce(keccak, leaves, |leaves|);
  }

  /** For two leaves the hashed string is the first leaf and then the second. */
  lemma TwoLeaves(keccak: Hash, a: Word, b: Word)
    ensures Root(keccak, [a, b]) == Some(keccak(a[..] + b))
  {
    ClosedForm(keccak, [a, b]);
  }

  /**
   * Any list that begins with the leaves and goes on with the hashes of adjacent entries, first
   * the one at 2i and then the one at 2i + 1, ends in the root.
   */
  lemma RootDetermined(keccak: Hash, leaves: seq<Word>, nodes: seq<Word>)
    requires |leaves| >= 2 && |nodes| == 2 * |leaves| - 1 && nodes[..|leaves|] == leaves
    requires forall i :: 0 <= i < |leaves| - 1 ==> nodes[|leaves| + i] == keccak(nodes[2 * i][..] + nodes[2 * i + 1])
    ensures Root(keccak, leaves) == Some(nodes[2 * |leaves| - 2])
  {
    ClosedForm(keccak, leaves);
    SameNodes(keccak, leaves, nodes, 2 * |leaves| - 2);
  }

  lemma {:induction false} SameNodes(keccak: Hash, leaves: seq<Word>, nodes: seq<Word>, p: nat)
    requires |leaves| >= 2 && |nodes| == 2 * |leaves| - 1 && nodes[..|leaves|] == leaves
    requires forall i :: 0 <= i < |leaves| - 1 ==> nodes[|leaves| + i] == keccak(nodes[2 * i][..] + nodes[2 * i + 1])
    requires p < 2 * |leaves| - 1
    ensures |Nodes(keccak, leaves)| == 2 * |leaves| - 1 && Nodes(keccak, leaves)[p] == nodes[p]
  {
    ClosedForm(keccak, leaves);
    var n, all := |leaves|, Nodes(keccak, leaves);
    if p < n {
      assert all[p] == all[..n][p] && nodes[p] == nodes[..n][p];
    } else {
      var i := p - n;
      SameNodes(keccak, leaves, nodes, 2 * i);
      SameNodes(keccak, leaves, nodes, 2 * i + 1);
      assert nodes[n + i] == keccak(nodes[2 * i][..] + nodes[2 * i + 1]);
      assert all[n + i] == keccak(all[2 * i][..] + all[2 * i + 1]);
    }
  }

  /** After i hashes the queue holds the positions from 2i on. */
  lemma {:induction false} GrowEndsInReduce(keccak: Hash, nodes: seq<Word>, n: nat)
    requires n >= 2 && n <= |nodes| <= 2 * n - 1
    ensures var all := Grow(keccak, nodes, n);
            |all| == 2 * n - 1 && all[2 * n - 2] == Reduce(keccak, nodes[2 * (|nodes| - n)..])
    decreases 2 * n - |nodes|
  {
    if |nodes| < 2 * n - 1 {
      hide Reduce, Pair;
      var i := |nodes| - n;
      GrowEndsInReduce(keccak, nodes + [Pair(keccak, nodes[2 * i], nodes[2 * i + 1])], n);
      PopTwo(keccak, nodes, i);
    }
  }

  // ---------------------------------------------------------------------
  // The two implementations

  /** Right-pads with zeros, or cuts, to 32 bytes. */
  function Pad(leaf: Bytes): (w: Word)
    ensures |leaf| == 32 ==> w == leaf
    ensures w[..if |leaf| < 32 then |leaf| else 32] == leaf[..if |leaf| < 32 then |leaf| else 32]
    ensures forall k :: |leaf| <= k < 32 ==> w[k] == 0
  {
    var s := leaf + seq(32, i => 0);
    s[..32]
  }

  function PadAll(leaves: seq<Bytes>): (ws: seq<Word>)
    ensures |ws| == |leaves|
    ensures forall i :: 0 <= i < |ws| ==> ws[i] == Pad(leaves[i])
  {
    seq(|leaves|, i requires 0 <= i < |leaves| => Pad(leaves[i]))
  }

  /** The queue at position 2i loses its two first words and gains their hash. */
  lemma PopTwo(keccak: Hash, nodes: seq<Word>, i: nat)
    requires 2 * i + 2 <= |nodes|
    ensures Reduce(keccak, nodes[2 * i..])
         == Reduce(keccak, (nodes + [Pair(keccak, nodes[2 * i], nodes[2 * i + 1])])[2 * i + 2..])
  {
    var hash := Pair(keccak, nodes[2 * i], nodes[2 * i + 1]);
    assert (nodes + [hash])[2 * i + 2..] == nodes[2 * i..][2..] + [hash];
  }

  lemma PopLast(keccak: Hash, nodes: seq<Word>, from: nat)
    requires from + 1 == |nodes|
    ensures Reduce(keccak, nodes[from..]) == nodes[from]
  {}

  /** The cursors and arrays of the loop agree with the node list built so far. */
  ghost predicate InStep(nodes: seq<Word>, n: nat, i: nat, leafPos: nat, hashPos: nat) {
    && |nodes| == n + i
    && leafPos + hashPos == 2 * i && leafPos <= n && (hashPos > 0 ==> leafPos == n)
  }

  /**
   * The leader's version; None is its "not enough leaves" error. It pads the slice in place.
   */
  method CreateMerkleTree(keccak: Hash, leaves: array<Bytes>) returns (root: Option<Word>)
    modifies leaves
    ensures root == Root(keccak, PadAll(old(leaves[..])))
    ensures root.None? <==> leaves.Length < 2
    ensures leaves[..] == if leaves.Length < 2 then old(leaves[..]) else PadAll(old(leaves[..]))
  {
    if leaves.Length < 2 {
      return None;
    }
    PadInPlace(leaves);
    var hash, _ := HashPairs(keccak, leaves[..]);
    root := Some(hash);
  }

  /**
   * Its two-cursor loop. `taken` lists the positions in leaves ++ hashes that the
   * loop reads, each noted at its read: each of the 2n - 2 positions below the root exactly once,
   * and hash i read only positions below n + i, which were already written.
   */
  method HashPairs(keccak: Hash, words: seq<Word>) returns (root: Word, ghost taken: seq<nat>)
    requires |words| >= 2
    ensures Root(keccak, words) == Some(root)
    ensures |taken| == 2 * |words| - 2 && forall k :: 0 <= k < |taken| ==> taken[k] == k < |words| + k / 2
  {
    hide Reduce, Pair;
    var leavesLen := |words|;
    var hashCount := leavesLen - 1;
    var hashes := new Word[hashCount](i => ZERO);
    var leafPos, hashPos := 0, 0;
    ghost var nodes := words;
    taken := [];
    assert nodes[2 * 0..] == words;
    for i := 0 to hashCount
      invariant InStep(nodes, leavesLen, i, leafPos, hashPos)
      invariant words <= nodes
      invariant forall k :: 0 <= k < i ==> hashes[k] == nodes[leavesLen + k]
      invariant Reduce(keccak, words) == Reduce(keccak, nodes[2 * i..])
      invariant |taken| == 2 * i && forall k :: 0 <= k < |taken| ==> taken[k] == k
    {
      var a, b: Word;
      if leafPos < leavesLen {
        taken := taken + [leafPos];
        a, leafPos := words[leafPos], leafPos + 1;
      } else {
        taken := taken + [leavesLen + hashPos];
        a, hashPos := hashes[hashPos], hashPos + 1;
      }
      assert a == nodes[2 * i];
      if leafPos < leavesLen {
        taken := taken + [leafPos];
        b, leafPos := words[leafPos], leafPos + 1;
      } else {
        taken := taken + [leavesLen + hashPos];
        b, hashPos := hashes[hashPos], hashPos + 1;
      }
      assert b == nodes[2 * i + 1];
      hashes[i] := Pair(keccak, a, b);
      PopTwo(keccak, nodes, i);
      nodes := nodes + [hashes[i]];
    }
    PopLast(keccak, nodes, 2 * hashCount);
    root := hashes[hashCount - 1];
  }

  method PadInPlace(leaves: array<Bytes>)
    modifies leaves
    ensures leaves[..] == PadAll(old(leaves[..]))
  {
    for i := 0 to leaves.Length
      invariant forall k :: 0 <= k < i ==> leaves[k] == Pad(old(leaves[k]))
      invariant forall k :: i <= k < leaves.Length ==> leaves[k] == old(leaves[k])
    {
      if |leaves[i]| != 32 {
        leaves[i] := Pad(leaves[i]);
      }
    }
  }

  /** The contract's version; None is a revert. */
  method CreateMerkleRoot(keccak: Hash, leaves: seq<Word>) returns (root: Option<Word>)
    ensures root == Root(keccak, leaves)
    ensures root.None? <==> |leaves| < 2
  {
    hide Reduce, Pair;
    var leavesLen := |leaves|;
    if leavesLen == 0 {
      return None; // leavesLen - 1 underflows
    }
    var hashCount := leavesLen - 1;
    var hashes := new Word[hashCount](i => ZERO);
    var leafPos, hashPos := 0, 0;
    ghost var nodes := leaves;
    assert nodes[2 * 0..] == leaves;
    for i := 0 to hashCount
      invariant InStep(nodes, leavesLen, i, leafPos, hashPos)
      invariant leaves <= nodes
      invariant forall k :: 0 <= k < i ==> hashes[k] == nodes[leavesLen + k]
      invariant Reduce(keccak, leaves) == Reduce(keccak, nodes[2 * i..])
    {
      var a, b: Word;
      if leafPos < leavesLen {
        a, leafPos := leaves[leafPos], leafPos + 1;
      } else {
        a, hashPos := hashes[hashPos], hashPos + 1;
      }
      assert a == nodes[2 * i];
      if leafPos < leavesLen {
        b, leafPos := leaves[leafPos], leafPos + 1;
      } else {
        b, hashPos := hashes[hashPos], hashPos + 1;
      }
      assert b == nodes[2 * i + 1];
      hashes[i] := Pair(keccak, a, b);
      PopTwo(keccak, nodes, i);
      nodes := nodes + [hashes[i]];
    }
    if hashCount == 0 {
      return None; // hashCount - 1 underflows
    }
    PopLast(keccak, nodes, 2 * hashCount);
    root := Some(hashes[hashCount - 1]);
  }

  /** On 32-byte leaves the two versions agree: padding changes nothing. */
  lemma VersionsAgree(keccak: Hash, leaves: seq<Bytes>, words: seq<Word>)
    requires leaves == words
    ensures Root(keccak, PadAll(leaves)) == Root(keccak, words)
  {
    assert PadAll(leaves) == words;
  }

  // ---------------------------------------------------------------------
  // Balance

  function Pow2(k: nat): nat {
    if k == 0 then 1 else 2 * Pow2(k - 1)
  }

  /** Hash steps from position p to the root: p goes into hash p / 2, which sits at n + p / 2. */
  function Depth(n: nat, p: nat): nat
    requires n >= 1 && p <= 2 * n - 2
    decreases 2 * n - 2 - p
  {
    if p == 2 * n - 2 then 0 else 1 + Depth(n, n + p / 2)
  }

  lemma {:induction false} DepthIsLog(n: nat, p: nat)
    requires n >= 1 && p <= 2 * n - 2
    ensures Pow2(Depth(n, p)) <= 2 * n - 1 - p < Pow2(Depth(n, p) + 1)
    decreases 2 * n - 2 - p
  {
    if p < 2 * n - 2 {
      DepthIsLog(n, n + p / 2);
    }
  }

  lemma {:induction false} Pow2Monotone(a: nat, b: nat)
    requires a <= b
    ensures Pow2(a) <= Pow2(b)
  {
    if a < b { Pow2Monotone(a, b - 1); }
  }

  /** With floor = floor(log2 n) and ceil = ceil(log2 n), every leaf depth lies between them, and leaf 0 is at ceil. */
  lemma Balanced(n: nat, floor: nat, ceil: nat, p: nat)
    requires n >= 2 && p < n
    requires Pow2(floor) <= n < Pow2(floor + 1)
    requires n <= Pow2(ceil) && (ceil == 0 || Pow2(ceil - 1) < n)
    ensures floor <= Depth(n, p) <= ceil
    ensures Depth(n, 0) == ceil
  {
    DepthIsLog(n, p);
    DepthIsLog(n, 0);
    if Depth(n, p) < floor { Pow2Monotone(Depth(n, p) + 1, floor); }
    if Depth(n, p) > ceil { Pow2Monotone(ceil + 1, Depth(n, p)); }
    if Depth(n, 0) < ceil { Pow2Monotone(Depth(n, 0) + 1, ceil); }
    if Depth(n, 0) > ceil { Pow2Monotone(ceil + 1, Depth(n, 0)); }
  }

  // ---------------------------------------------------------------------
  // Binding

  /** Every 64-byte string hashed on the way to the root. */
  function PairInputs(keccak: Hash, leaves: seq<Word>): set<Bytes>
    requires |leaves| >= 2
  {
    ClosedForm(keccak, leaves);
    var nodes := Nodes(keccak, leaves);
    set i | 0 <= i < |leaves| - 1 :: Join(nodes[2 * i], nodes[2 * i + 1])
  }

  /** Position r counted from the root: its operands are 2r + 2 and 2r + 1, whatever the number of leaves. */
  ghost function FromRoot(keccak: Hash, leaves: seq<Word>, r: nat): Word
    requires |leaves| >= 2 && r <= 2 * |leaves| - 2
  {
    ClosedForm(keccak, leaves);
    Nodes(keccak, leaves)[2 * |leaves| - 2 - r]
  }

  lemma InnerNode(keccak: Hash, leaves: seq<Word>, r: nat)
    requires |leaves| >= 2 && r <= |leaves| - 2
    ensures var input := FromRoot(keccak, leaves, 2 * r + 2)[..] + FromRoot(keccak, leaves, 2 * r + 1);
            input in PairInputs(keccak, leaves) && FromRoot(keccak, leaves, r) == keccak(input)
  {
    ClosedForm(keccak, leaves);
    var n, nodes := |leaves|, Nodes(keccak, leaves);
    var i := n - 2 - r;
    assert Join(nodes[2 * i], nodes[2 * i + 1]) in PairInputs(keccak, leaves);
    assert nodes[n + i] == Pair(keccak, nodes[2 * i], nodes[2 * i + 1]);
  }

  lemma JoinInjective(a1: Word, b1: Word, a2: Word, b2: Word)
    requires Join(a1, b1) == Join(a2, b2)
    ensures a1 == a2 && b1 == b2
  {
    assert Join(a1, b1)[..32] == a1 && Join(a1, b1)[32..] == b1;
    assert Join(a2, b2)[..32] == a2 && Join(a2, b2)[32..] == b2;
  }

  lemma {:induction false} EqualRootsAgree(keccak: Hash, short: seq<Word>, long: seq<Word>, r: nat)
    requires 2 <= |short| <= |long|
    requires CollisionFree(keccak, PairInputs(keccak, short) + PairInputs(keccak, long))
    requires Root(keccak, short) == Root(keccak, long)
    requires r <= 2 * |short| - 2
    ensures FromRoot(keccak, short, r) == FromRoot(keccak, long, r)
  {
    if r == 0 {
      ClosedForm(keccak, short);
      ClosedForm(keccak, long);
    } else {
      var p := (r - 1) / 2;
      EqualRootsAgree(keccak, short, long, p);
      InnerNode(keccak, short, p);
      InnerNode(keccak, long, p);
      var a1, b1 := FromRoot(keccak, short, 2 * p + 2), FromRoot(keccak, short, 2 * p + 1);
      var a2, b2 := FromRoot(keccak, long, 2 * p + 2), FromRoot(keccak, long, 2 * p + 1);
      JoinInjective(a1, b1, a2, b2);
    }
  }

  lemma EqualRootsEqualLeaves(keccak: Hash, xs: seq<Word>, ys: seq<Word>)
    requires |xs| == |ys| >= 2
    requires CollisionFree(keccak, PairInputs(keccak, xs) + PairInputs(keccak, ys))
    requires Root(keccak, xs) == Root(keccak, ys)
    ensures xs == ys
  {
    ClosedForm(keccak, xs);
    ClosedForm(keccak, ys);
    forall i | 0 <= i < |xs| ensures xs[i] == ys[i] {
      EqualRootsAgree(keccak, xs, ys, 2 * |xs| - 2 - i);
      assert xs[i] == Nodes(keccak, xs)[..|xs|][i];
      assert ys[i] == Nodes(keccak, ys)[..|ys|][i];
    }
  }

  /** Without equal lengths the root alone does not bind, for any hash: an inner hash can stand for a leaf. */
  lemma RootForgetsLength(keccak: Hash, a: Word, b: Word, c: Word)
    ensures Root(keccak, [a, b, c]) == Root(keccak, [c, Pair(keccak, a, b)])
  {
    var h := Pair(keccak, a, b);
    assert [a, b, c][2..] + [h] == [c, h];
  }

  function Hashed(keccak: Hash, words: seq<Word>): (hs: seq<Word>)
    ensures |hs| == |words|
    ensures forall i :: 0 <= i < |hs| ==> hs[i] == keccak(words[i])
  {
    seq(|words|, i requires 0 <= i < |words| => keccak(words[i]))
  }

  /** The strings hashed for a tree whose leaves are themselves hashes of the given words. */
  function OpenedInputs(keccak: Hash, words: seq<Word>): set<Bytes>
    requires |words| >= 2
  {
    (set w: Bytes | w in words) + PairInputs(keccak, Hashed(keccak, words))
  }

  /**
   * With leaves that are hashes of words, lengths need not be assumed equal:
   * a leaf hashes 32 bytes and an inner node 64, so one cannot stand for the other.
   */
  lemma EqualRootsEqualOpenings(keccak: Hash, xs: seq<Word>, ys: seq<Word>)
    requires |xs| >= 2 && |ys| >= 2
    requires CollisionFree(keccak, OpenedInputs(keccak, xs) + OpenedInputs(keccak, ys))
    requires Root(keccak, Hashed(keccak, xs)) == Root(keccak, Hashed(keccak, ys))
    ensures xs == ys
  {
    if |xs| < |ys| {
      LeafIsNotInner(keccak, xs, Hashed(keccak, ys));
    } else if |ys| < |xs| {
      LeafIsNotInner(keccak, ys, Hashed(keccak, xs));
    } else {
      EqualRootsEqualLeaves(keccak, Hashed(keccak, xs), Hashed(keccak, ys));
      forall i | 0 <= i < |xs| ensures xs[i] == ys[i] {
        assert Hashed(keccak, xs)[i] == Hashed(keccak, ys)[i];
        assert xs[i] in OpenedInputs(keccak, xs) && ys[i] in OpenedInputs(keccak, ys);
      }
    }
  }

  /** The longer tree may have any leaves: the last leaf of the shorter one meets an inner node of it. */
  lemma LeafIsNotInner(keccak: Hash, xs: seq<Word>, leaves: seq<Word>)
    requires 2 <= |xs| < |leaves|
    requires CollisionFree(keccak, OpenedInputs(keccak, xs) + PairInputs(keccak, leaves))
    ensures Root(keccak, Hashed(keccak, xs)) != Root(keccak, leaves)
  {
    hide PairInputs, FromRoot, Join;
    var short, n := Hashed(keccak, xs), |xs|;
    InnerNode(keccak, leaves, n - 1);
    LastLeaf(keccak, short);
    var leaf: Bytes := xs[n - 1];
    var inner := FromRoot(keccak, leaves, 2 * n)[..] + FromRoot(keccak, leaves, 2 * n - 1);
    assert leaf in OpenedInputs(keccak, xs) && inner in PairInputs(keccak, leaves);
    assert |leaf| != |inner|;
    if Root(keccak, short) == Root(keccak, leaves) {
      EqualRootsAgree(keccak, short, leaves, n - 1);
    }
  }

  lemma LastLeaf(keccak: Hash, leaves: seq<Word>)
    requires |leaves| >= 2
    ensures FromRoot(keccak, leaves, |leaves| - 1) == leaves[|leaves| - 1]
  {
    ClosedForm(keccak, leaves);
    assert Nodes(keccak, leaves)[|leaves| - 1] == Nodes(keccak, leaves)[..|leaves|][|leaves| - 1];
  }
}
