/** The Merkle builder and path checker of crates/truth/src/cryptography.rs. Hashes are values of an
    arbitrary type and combine_hashes an arbitrary function; injectivity is a named hypothesis. */
module Merkle {
  import opened Prelude

  type Combiner<!H> = (H, H) -> H

  ghost predicate Separates<H>(c: Combiner<H>, a: H, b: H, x: H, y: H) {
    c(a, b) == c(x, y) ==> a == x && b == y
  }

  ghost predicate Injective<H(!new)>(c: Combiner<H>) {
    forall a, b, x, y :: Separates(c, a, b, x, y)
  }

  // ---------- The reference: a root defined by splitting ----------

  /** The root of a subtree with room for 2^d leaves: a missing right half mirrors the left. */
  function SubRoot<H>(c: Combiner<H>, s: seq<H>, d: nat): (r: H)
    requires 0 < |s| <= Pow2(d)
    decreases d
  {
    if d == 0 then s[0]
    else
      var half := Pow2(d - 1);
      if |s| <= half then
        var left := SubRoot(c, s, d - 1);
        c(left, left)
      else
        c(SubRoot(c, s[..half], d - 1), SubRoot(c, s[half..], d - 1))
  }

  /** The height above the leaves: the least d with n <= 2^d. */
  function Depth(n: nat): (d: nat)
    ensures n <= Pow2(d)
    ensures d > 0 ==> Pow2(d - 1) < n
  {
    if n <= 1 then 0 else 1 + Depth((n + 1) / 2)
  }

  function Root<H>(c: Combiner<H>, leaves: seq<H>): (r: H)
    requires leaves != []
  {
    SubRoot(c, leaves, Depth(|leaves|))
  }

  // ---------- One level up ----------

  /** The right child of node k of the next level; an odd last node is paired with itself. */
  function RightChild<H>(level: seq<H>, k: nat): (r: H)
    requires 2 * k < |level|
  {
    if 2 * k + 1 < |level| then level[2 * k + 1] else level[2 * k]
  }

  function NextLevel<H>(c: Combiner<H>, level: seq<H>): (r: seq<H>)
    ensures |r| == (|level| + 1) / 2
    ensures forall k :: 0 <= k < |r| ==> r[k] == c(level[2 * k], RightChild(level, k))
  {
    seq((|level| + 1) / 2, k requires 0 <= k < (|level| + 1) / 2 => c(level[2 * k], RightChild(level, k)))
  }

  lemma NextLevelSplit<H>(c: Combiner<H>, s: seq<H>, half: nat)
    requires 2 * half < |s|
    ensures NextLevel(c, s)[..half] == NextLevel(c, s[..2 * half])
    ensures NextLevel(c, s)[half..] == NextLevel(c, s[2 * half..])
  {
    var l, r := s[..2 * half], s[2 * half..];
    forall k | 0 <= k < half ensures NextLevel(c, s)[k] == NextLevel(c, l)[k] {
      assert RightChild(l, k) == RightChild(s, k);
    }
    forall k | 0 <= k < |NextLevel(c, r)| ensures NextLevel(c, r)[k] == NextLevel(c, s)[half + k] {
      assert r[2 * k] == s[2 * (half + k)];
      assert RightChild(r, k) == RightChild(s, half + k);
    }
  }

  /** Building one level leaves the root unchanged. */
  lemma {:induction false} LevelKeepsRoot<H>(c: Combiner<H>, s: seq<H>, d: nat)
    requires 0 < |s| <= Pow2(d + 1)
    ensures SubRoot(c, s, d + 1) == SubRoot(c, NextLevel(c, s), d)
    decreases d
  {
    if d == 0 {
      assert Pow2(0) == 1 && Pow2(1) == 2;
      assert SubRoot(c, NextLevel(c, s), 0) == c(s[0], RightChild(s, 0));
    } else {
      var half := Pow2(d);
      if |s| <= half {
        LevelKeepsRoot(c, s, d - 1);
      } else {
        LevelKeepsRoot(c, s[..half], d - 1);
        LevelKeepsRoot(c, s[half..], d - 1);
        NextLevelSplit(c, s, Pow2(d - 1));
      }
    }
  }

  lemma RootStep<H>(c: Combiner<H>, s: seq<H>)
    requires |s| > 1
    ensures Root(c, s) == Root(c, NextLevel(c, s))
  {
    LevelKeepsRoot(c, s, Depth(|s|) - 1);
  }

  // ---------- The builder ----------

  method PairUp<H>(c: Combiner<H>, level: seq<H>) returns (next: seq<H>)
    ensures next == NextLevel(c, level)
  {
    next := [];
    var i := 0;
    while i < |level|
      invariant i % 2 == 0 && i <= |level| + 1 && |next| == i / 2 <= (|level| + 1) / 2
      invariant forall k :: 0 <= k < |next| ==> next[k] == NextLevel(c, level)[k]
    {
      var left := level[i];
      var right := if i + 1 < |level| then level[i + 1] else level[i];
      assert 2 * (i / 2) == i;
      assert NextLevel(c, level)[i / 2] == c(level[2 * (i / 2)], RightChild(level, i / 2));
      next := next + [c(left, right)];
      i := i + 2;
    }
  }

  datatype Tree<H> = Tree(leaves: seq<H>, nodes: seq<H>)

  /** The levels, leaves first, flattened; the last node is the root. */
  method Build<H>(c: Combiner<H>, leaves: seq<H>) returns (t: Tree<H>)
    ensures t.leaves == leaves
    ensures leaves == [] ==> t.nodes == []
    ensures leaves != [] ==> leaves <= t.nodes && t.nodes[|t.nodes| - 1] == Root(c, leaves)
  {
    if leaves == [] {
      return Tree([], []);
    }
    var nodes, current := leaves, leaves;
    while |current| > 1
      invariant |current| > 0 && leaves <= nodes && |nodes| >= |current|
      invariant nodes[|nodes| - |current|..] == current
      invariant Root(c, current) == Root(c, leaves)
      decreases |current|
    {
      RootStep(c, current);
      current := PairUp(c, current);
      nodes := nodes + current;
    }
    assert nodes[|nodes| - 1] == nodes[|nodes| - 1..][0] == current[0];
    t := Tree(leaves, nodes);
  }

  // ---------- Paths ----------

  /** The other child of position i's parent. */
  function Partner<H>(level: seq<H>, i: nat): (r: H)
    requires i < |level|
  {
    if i % 2 == 1 then level[i - 1]
    else if i + 1 < |level| then level[i + 1] else level[i]
  }

  datatype PathNode<H> = PathNode(hash: H, isLeft: bool)
  datatype Proof<H> = Proof(leafHash: H, path: seq<PathNode<H>>, rootHash: H)

  function Up<H>(c: Combiner<H>, x: H, n: PathNode<H>): (y: H) {
    if n.isLeft then c(n.hash, x) else c(x, n.hash)
  }

  function Fold<H>(c: Combiner<H>, x: H, path: seq<PathNode<H>>): (r: H)
    decreases |path|
  {
    if path == [] then x else Fold(c, Up(c, x, path[0]), path[1..])
  }

  method VerifyProof<H(==)>(c: Combiner<H>, proof: Proof<H>) returns (ok: bool)
    ensures ok <==> Fold(c, proof.leafHash, proof.path) == proof.rootHash
  {
    var current := proof.leafHash;
    for i := 0 to |proof.path|
      invariant Fold(c, current, proof.path[i..]) == Fold(c, proof.leafHash, proof.path)
    {
      assert proof.path[i..][1..] == proof.path[i + 1..];
      current := Up(c, current, proof.path[i]);
    }
    ok := current == proof.rootHash;
  }

  /** The leaf position the side flags spell, least significant bit first. */
  function Spelled<H>(path: seq<PathNode<H>>): (i: nat) {
    if path == [] then 0 else (if path[0].isLeft then 1 else 0) + 2 * Spelled(path[1..])
  }

  /** The leaf a position stands for when positions past the end mirror existing subtrees. */
  function Carried(n: nat, d: nat, i: nat): (k: nat)
    requires 0 < n <= Pow2(d)
    ensures k < n
    ensures i < n ==> k == i
    decreases d
  {
    if d == 0 then 0
    else
      var k := Carried((n + 1) / 2, d - 1, i / 2);
      if i % 2 == 1 && 2 * k + 1 < n then 2 * k + 1 else 2 * k
  }

  lemma SpelledBits<H>(path: seq<PathNode<H>>)
    requires path != []
    ensures Spelled(path) / 2 == Spelled(path[1..]) && (Spelled(path) % 2 == 1 <==> path[0].isLeft)
  {
  }

  lemma ChildCarries<H(!new)>(c: Combiner<H>, s: seq<H>, x: H, n: PathNode<H>, k: nat)
    requires Injective(c) && k < |NextLevel(c, s)| && Up(c, x, n) == NextLevel(c, s)[k]
    ensures x == if n.isLeft && 2 * k + 1 < |s| then s[2 * k + 1] else s[2 * k]
  {
    var l, r := s[2 * k], RightChild(s, k);
    assert Up(c, x, n) == c(l, r);
    assert Separates(c, n.hash, x, l, r) && Separates(c, x, n.hash, l, r);
  }

  lemma {:induction false} FoldCarries<H(!new)>(c: Combiner<H>, s: seq<H>, d: nat, x: H, path: seq<PathNode<H>>)
    requires Injective(c) && 0 < |s| <= Pow2(d) && |path| == d
    requires Fold(c, x, path) == SubRoot(c, s, d)
    ensures x == s[Carried(|s|, d, Spelled(path))]
    decreases d
  {
    if d > 0 {
      LevelKeepsRoot(c, s, d - 1);
      FoldCarries(c, NextLevel(c, s), d - 1, Up(c, x, path[0]), path[1..]);
      SpelledBits(path);
      ChildCarries(c, s, x, path[0], Carried((|s| + 1) / 2, d - 1, Spelled(path) / 2));
    }
  }

  /** Soundness: a path of the tree's depth that checks out against the root carries a leaf of the
      tree, and exactly leaf i when its side flags spell a position i of the tree. */
  lemma AcceptedPathIsSound<H(!new)>(c: Combiner<H>, leaves: seq<H>, proof: Proof<H>)
    requires Injective(c) && leaves != [] && |proof.path| == Depth(|leaves|)
    requires proof.rootHash == Root(c, leaves)
    requires Fold(c, proof.leafHash, proof.path) == proof.rootHash
    ensures proof.leafHash in leaves
    ensures Spelled(proof.path) < |leaves| ==> proof.leafHash == leaves[Spelled(proof.path)]
  {
    FoldCarries(c, leaves, Depth(|leaves|), proof.leafHash, proof.path);
  }

  /** The path with the true partner at every level. */
  function TruePath<H>(c: Combiner<H>, s: seq<H>, i: nat): (path: seq<PathNode<H>>)
    requires i < |s|
    ensures |path| == Depth(|s|)
    decreases |s|
  {
    if |s| <= 1 then []
    else [PathNode(Partner(s, i), i % 2 == 1)] + TruePath(c, NextLevel(c, s), i / 2)
  }

  lemma PartnerUp<H>(c: Combiner<H>, s: seq<H>, i: nat)
    requires i < |s|
    ensures Up(c, s[i], PathNode(Partner(s, i), i % 2 == 1)) == NextLevel(c, s)[i / 2]
  {
    assert NextLevel(c, s)[i / 2] == c(s[2 * (i / 2)], RightChild(s, i / 2));
  }

  lemma FoldStep<H>(c: Combiner<H>, x: H, n: PathNode<H>, rest: seq<PathNode<H>>)
    ensures Fold(c, x, [n] + rest) == Fold(c, Up(c, x, n), rest)
  {
    assert ([n] + rest)[1..] == rest;
  }

  /** Completeness: every leaf has a path of the tree's depth that checks out. */
  lemma {:induction false} TruePathAccepted<H>(c: Combiner<H>, s: seq<H>, i: nat)
    requires i < |s|
    ensures Fold(c, s[i], TruePath(c, s, i)) == Root(c, s)
    decreases |s|
  {
    if |s| > 1 {
      RootStep(c, s);
      TruePathAccepted(c, NextLevel(c, s), i / 2);
      PartnerUp(c, s, i);
      FoldStep(c, s[i], PathNode(Partner(s, i), i % 2 == 1), TruePath(c, NextLevel(c, s), i / 2));
    }
  }

  /** The true path of leaf i spells i. */
  lemma {:induction false} TruePathSpells<H>(c: Combiner<H>, s: seq<H>, i: nat)
    requires i < |s|
    ensures Spelled(TruePath(c, s, i)) == i
    decreases |s|
  {
    if |s| > 1 {
      TruePathSpells(c, NextLevel(c, s), i / 2);
      assert TruePath(c, s, i)[1..] == TruePath(c, NextLevel(c, s), i / 2);
    }
  }

  // ---------- The path generator and why its proofs fail ----------

  /** The neighbour the generator picks: to the right of odd positions and to the left of even ones. */
  function Picked<H>(level: seq<H>, i: nat): (r: H)
    requires i < |level|
  {
    if i % 2 == 1 then (if i + 1 < |level| then level[i + 1] else level[i])
    else if i > 0 then level[i - 1] else level[i]
  }

  function PickedPath<H>(c: Combiner<H>, s: seq<H>, i: nat): (path: seq<PathNode<H>>)
    requires i < |s|
    ensures |path| == Depth(|s|)
    decreases |s|
  {
    if |s| <= 1 then []
    else [PathNode(Picked(s, i), i % 2 == 1)] + PickedPath(c, NextLevel(c, s), i / 2)
  }

  lemma PickedStep<H>(c: Combiner<H>, level: seq<H>, idx: nat, sibling: H)
    requires 1 < |level| && idx < |level|
    requires var at := if idx % 2 == 1 then idx + 1 else if idx > 0 then idx - 1 else idx;
             sibling == if at < |level| && at != idx then level[at] else level[idx]
    ensures PickedPath(c, level, idx) == [PathNode(sibling, idx % 2 == 1)] + PickedPath(c, NextLevel(c, level), idx / 2)
  {
  }

  method MakeProof<H>(c: Combiner<H>, t: Tree<H>, index: nat) returns (r: Option<Proof<H>>)
    requires t.leaves != [] ==> t.nodes != [] && t.nodes[|t.nodes| - 1] == Root(c, t.leaves)
    ensures index >= |t.leaves| ==> r == None
    ensures index < |t.leaves|
            ==> r == Some(Proof(t.leaves[index], PickedPath(c, t.leaves, index), Root(c, t.leaves)))
  {
    if index >= |t.leaves| {
      return None;
    }
    var path: seq<PathNode<H>> := [];
    var level, idx: nat := t.leaves, index;
    while |level| > 1
      invariant idx < |level|
      invariant path + PickedPath(c, level, idx) == PickedPath(c, t.leaves, index)
      decreases |level|
    {
      var isLeft := idx % 2 == 1;
      var siblingIdx := if isLeft then idx + 1 else if idx > 0 then idx - 1 else idx;
      var sibling := if siblingIdx < |level| && siblingIdx != idx then level[siblingIdx] else level[idx];
      PickedStep(c, level, idx, sibling);
      ConcatAssociates(path, [PathNode(sibling, isLeft)], PickedPath(c, NextLevel(c, level), idx / 2));
      path := path + [PathNode(sibling, isLeft)];
      idx := idx / 2;
      level := PairUp(c, level);
    }
    assert path + PickedPath(c, level, idx) == path;
    r := Some(Proof(t.leaves[index], path, t.nodes[|t.nodes| - 1]));
  }

  ghost predicate SameSides<H>(p: seq<PathNode<H>>, q: seq<PathNode<H>>) {
    |p| == |q| && forall i :: 0 <= i < |p| ==> p[i].isLeft == q[i].isLeft
  }

  lemma {:induction false} FoldInjective<H(!new)>(c: Combiner<H>, x: H, p: seq<PathNode<H>>, y: H, q: seq<PathNode<H>>)
    requires Injective(c) && SameSides(p, q) && Fold(c, x, p) == Fold(c, y, q)
    ensures x == y && p == q
    decreases |p|
  {
    if p != [] {
      assert SameSides(p[1..], q[1..]);
      FoldInjective(c, Up(c, x, p[0]), p[1..], Up(c, y, q[0]), q[1..]);
      var m, n := p[0], q[0];
      assert m.isLeft == n.isLeft;
      assert Separates(c, m.hash, x, n.hash, y) && Separates(c, x, m.hash, y, n.hash);
      assert p == [p[0]] + p[1..] && q == [q[0]] + q[1..];
    }
  }

  lemma {:induction false} PickedSides<H>(c: Combiner<H>, s: seq<H>, i: nat)
    requires i < |s|
    ensures SameSides(PickedPath(c, s, i), TruePath(c, s, i))
    decreases |s|
  {
    if |s| > 1 {
      PickedSides(c, NextLevel(c, s), i / 2);
    }
  }

  // ---------- Exactly when a generated proof checks out ----------

  /** The leaves under each node of the next level; an odd last block is doubled. */
  function Joined<H>(blocks: seq<seq<H>>): (r: seq<seq<H>>)
    ensures |r| == (|blocks| + 1) / 2
    ensures forall k :: 0 <= k < |r| ==> r[k] == blocks[2 * k] + RightChild(blocks, k)
  {
    seq((|blocks| + 1) / 2, k requires 0 <= k < (|blocks| + 1) / 2 => blocks[2 * k] + RightChild(blocks, k))
  }

  function Singles<H>(leaves: seq<H>): (blocks: seq<seq<H>>)
    ensures |blocks| == |leaves| && forall k :: 0 <= k < |leaves| ==> blocks[k] == [leaves[k]]
  {
    seq(|leaves|, k requires 0 <= k < |leaves| => [leaves[k]])
  }

  /** At this level and every one above it, the leaves under the picked neighbour are those under the
      true partner. */
  predicate PicksRight<H(==)>(blocks: seq<seq<H>>, i: nat)
    requires i < |blocks|
    decreases |blocks|
  {
    |blocks| <= 1 || (Picked(blocks, i) == Partner(blocks, i) && PicksRight(Joined(blocks), i / 2))
  }

  ghost predicate SameBlocks<H>(blocks: seq<seq<H>>, size: nat) {
    forall k :: 0 <= k < |blocks| ==> |blocks[k]| == size
  }

  /** Nodes of a level are equal exactly when the leaves under them are. */
  ghost predicate StandFor<H>(level: seq<H>, blocks: seq<seq<H>>) {
    && |level| == |blocks|
    && forall a, b :: 0 <= a < |level| && 0 <= b < |level| ==> (level[a] == level[b] <==> blocks[a] == blocks[b])
  }

  lemma ConcatInjective<H>(a: seq<H>, b: seq<H>, x: seq<H>, y: seq<H>)
    requires |a| == |x|
    ensures a + b == x + y <==> a == x && b == y
  {
    if a + b == x + y {
      assert a == (a + b)[..|a|] == (x + y)[..|x|] == x;
      assert b == (a + b)[|a|..] == (x + y)[|x|..] == y;
    }
  }

  lemma EqualChildren<H(!new)>(c: Combiner<H>, level: seq<H>, blocks: seq<seq<H>>, size: nat, a: nat, b: nat)
    requires Injective(c) && StandFor(level, blocks) && SameBlocks(blocks, size)
    requires 2 * a < |level| && 2 * b < |level|
    ensures NextLevel(c, level)[a] == NextLevel(c, level)[b] <==> Joined(blocks)[a] == Joined(blocks)[b]
  {
    assert Separates(c, level[2 * a], RightChild(level, a), level[2 * b], RightChild(level, b));
    ConcatInjective(blocks[2 * a], RightChild(blocks, a), blocks[2 * b], RightChild(blocks, b));
  }

  /** One level up, equal nodes still mean equal leaves below. */
  lemma StandForUp<H(!new)>(c: Combiner<H>, level: seq<H>, blocks: seq<seq<H>>, size: nat)
    requires Injective(c) && StandFor(level, blocks) && SameBlocks(blocks, size)
    ensures StandFor(NextLevel(c, level), Joined(blocks)) && SameBlocks(Joined(blocks), 2 * size)
  {
    var n := |NextLevel(c, level)|;
    forall a, b | 0 <= a < n && 0 <= b < n
      ensures NextLevel(c, level)[a] == NextLevel(c, level)[b] <==> Joined(blocks)[a] == Joined(blocks)[b]
    {
      EqualChildren(c, level, blocks, size, a, b);
    }
  }

  lemma ConsEqual<T>(x: T, p: seq<T>, y: T, q: seq<T>)
    ensures [x] + p == [y] + q <==> x == y && p == q
  {
    if [x] + p == [y] + q {
      assert x == ([x] + p)[0] == ([y] + q)[0] == y;
      assert p == ([x] + p)[1..] == ([y] + q)[1..] == q;
    }
  }

  /** The generator picks right on a level exactly when it does on the leaves below. */
  lemma {:induction false} SamePathIffRight<H(!new)>(
    c: Combiner<H>, level: seq<H>, blocks: seq<seq<H>>, size: nat, i: nat)
    requires Injective(c) && StandFor(level, blocks) && SameBlocks(blocks, size) && i < |level|
    ensures PickedPath(c, level, i) == TruePath(c, level, i) <==> PicksRight(blocks, i)
    decreases |level|
  {
    if |level| > 1 {
      var up := NextLevel(c, level);
      StandForUp(c, level, blocks, size);
      SamePathIffRight(c, up, Joined(blocks), 2 * size, i / 2);
      assert Picked(level, i) == Partner(level, i) <==> Picked(blocks, i) == Partner(blocks, i);
      ConsEqual(PathNode(Picked(level, i), i % 2 == 1), PickedPath(c, up, i / 2),
                PathNode(Partner(level, i), i % 2 == 1), TruePath(c, up, i / 2));
    }
  }

  lemma AcceptedIffSamePath<H(!new)>(c: Combiner<H>, leaves: seq<H>, i: nat)
    requires Injective(c) && i < |leaves|
    ensures Fold(c, leaves[i], PickedPath(c, leaves, i)) == Root(c, leaves)
            <==> PickedPath(c, leaves, i) == TruePath(c, leaves, i)
  {
    TruePathAccepted(c, leaves, i);
    PickedSides(c, leaves, i);
    if Fold(c, leaves[i], PickedPath(c, leaves, i)) == Root(c, leaves) {
      FoldInjective(c, leaves[i], PickedPath(c, leaves, i), leaves[i], TruePath(c, leaves, i));
    }
  }

  /** A generated proof checks out exactly when, at every level, the leaves under the picked
      neighbour equal those under the true partner; with pairwise distinct leaves that is only in a
      one-leaf tree. */
  lemma GeneratedProofVerifies<H(!new)>(c: Combiner<H>, leaves: seq<H>, i: nat)
    requires Injective(c) && i < |leaves|
    ensures Fold(c, leaves[i], PickedPath(c, leaves, i)) == Root(c, leaves) <==> PicksRight(Singles(leaves), i)
    ensures Distinct(leaves) ==>
              (Fold(c, leaves[i], PickedPath(c, leaves, i)) == Root(c, leaves) <==> |leaves| == 1)
  {
    AcceptedIffSamePath(c, leaves, i);
    SinglesStand(leaves);
    SamePathIffRight(c, leaves, Singles(leaves), 1, i);
    if |leaves| > 1 && Distinct(leaves) {
      assert Picked(leaves, i) != Partner(leaves, i);
      assert Picked(Singles(leaves), i) == [Picked(leaves, i)] && Partner(Singles(leaves), i) == [Partner(leaves, i)];
    }
  }

  lemma SinglesStand<H>(leaves: seq<H>)
    ensures StandFor(leaves, Singles(leaves)) && SameBlocks(Singles(leaves), 1)
  {
    forall a, b | 0 <= a < |leaves| && 0 <= b < |leaves|
      ensures leaves[a] == leaves[b] <==> Singles(leaves)[a] == Singles(leaves)[b]
    {
      assert Singles(leaves)[a][0] == leaves[a] && Singles(leaves)[b][0] == leaves[b];
    }
  }

  /** Hashes as they would be if nothing ever collided. */
  datatype Digest = Leaf(content: nat) | Pair(left: Digest, right: Digest)

  /** A failing input: both proofs generated for a tree of two different leaves are refused. */
  lemma TwoLeavesRefused(i: nat)
    requires i < 2
    ensures var pair, leaves := (l, r) => Pair(l, r), [Leaf(0), Leaf(1)];
            Injective(pair) && Fold(pair, leaves[i], PickedPath(pair, leaves, i)) != Root(pair, leaves)
  {
    var pair, leaves := (l, r) => Pair(l, r), [Leaf(0), Leaf(1)];
    assert Injective(pair) by {
      forall a, b, x, y ensures Separates(pair, a, b, x, y) {
      }
    }
    GeneratedProofVerifies(pair, leaves, i);
  }
}
