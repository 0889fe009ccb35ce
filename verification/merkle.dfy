/** The checkpoint Merkle root (internal/ledger/integrity.go): leaves are combined pairwise, level
    by level, and the last node of an odd level is used twice. */
module Merkle {
  import opened Hashing

  /** What a leaf hashes: 0x00, the row hash, a bar, the capture hash. */
  function LeafInput(rowHash: string, extHash: string): string {
    ['\0'] + rowHash + "|" + extHash
  }

  /** What an inner node hashes: 0x01 and both children. */
  function NodeInput(left: Digest, right: Digest): string {
    [1 as char] + left + right
  }

  function LeafHash(sha: Hasher, rowHash: string, extHash: string): Digest {
    sha(LeafInput(rowHash, extHash))
  }

  // ------------------------------------------------- the tree a leaf list stands for

  datatype Tree = Leaf(digest: Digest) | Node(left: Tree, right: Tree)

  function Hash(sha: Hasher, t: Tree): Digest {
    match t
    case Leaf(d) => d
    case Node(l, r) => sha(NodeInput(Hash(sha, l), Hash(sha, r)))
  }

  /** The number of nodes `h` levels above `n` leaves. */
  function Width(n: nat, h: nat): nat {
    if h == 0 then n else (Width(n, h - 1) + 1) / 2
  }

  /** The number of levels above `n` leaves. */
  function Height(n: nat): nat {
    if n <= 1 then 0 else 1 + Height((n + 1) / 2)
  }

  /** The `i`th node at height `h`, top down: its right child is its left child again when the level
      below ends there. */
  function Subtree(leaves: seq<Digest>, h: nat, i: nat): Tree
    requires i < Width(|leaves|, h)
    decreases h
  {
    if h == 0 then Leaf(leaves[i])
    else Node(Subtree(leaves, h - 1, 2 * i),
              Subtree(leaves, h - 1, if 2 * i + 1 < Width(|leaves|, h - 1) then 2 * i + 1 else 2 * i))
  }

  lemma {:induction false} WidthAtTop(n: nat, h: nat)
    requires n > 0
    ensures Width(n, h + 1) == Width((n + 1) / 2, h)
  {
    if h > 0 {
      WidthAtTop(n, h - 1);
    }
  }

  lemma {:induction false} HeightIsTop(n: nat)
    requires n > 0
    ensures Width(n, Height(n)) == 1
  {
    if n > 1 {
      HeightIsTop((n + 1) / 2);
      WidthAtTop(n, Height((n + 1) / 2));
    }
  }

  function TreeOf(leaves: seq<Digest>): Tree
    requires leaves != []
  {
    HeightIsTop(|leaves|);
    Subtree(leaves, Height(|leaves|), 0)
  }

  /** The hex root of a leaf list, "" for none. */
  function Root(sha: Hasher, leaves: seq<Digest>): string {
    if leaves == [] then "" else Hex(Hash(sha, TreeOf(leaves)))
  }

  // ------------------------------------------------- the level loop

  /** A level is made of the subtrees of its height. */
  ghost predicate IsLevel(sha: Hasher, leaves: seq<Digest>, h: nat, level: seq<Digest>) {
    |level| == Width(|leaves|, h) &&
    forall i :: 0 <= i < |level| ==> level[i] == Hash(sha, Subtree(leaves, h, i))
  }

  lemma LevelStep(sha: Hasher, leaves: seq<Digest>, h: nat,
                  below: seq<Digest>, level: seq<Digest>, next: seq<Digest>)
    requires IsLevel(sha, leaves, h, below) && |below| > 1
    requires level == if |below| % 2 == 1 then below + [below[|below| - 1]] else below
    requires |next| == |level| / 2
    requires forall k :: 0 <= k < |next| ==> next[k] == sha(NodeInput(level[2 * k], level[2 * k + 1]))
    ensures IsLevel(sha, leaves, h + 1, next)
  {
    forall k | 0 <= k < |next|
      ensures next[k] == Hash(sha, Subtree(leaves, h + 1, k))
    {
      var j := if 2 * k + 1 < Width(|leaves|, h) then 2 * k + 1 else 2 * k;
      assert level[2 * k] == below[2 * k] && level[2 * k + 1] == below[j];
      assert Subtree(leaves, h + 1, k) == Node(Subtree(leaves, h, 2 * k), Subtree(leaves, h, j));
    }
  }

  lemma HeightStep(n: nat)
    requires n > 1
    ensures Height(n) == 1 + Height((n + 1) / 2)
  {
  }

  lemma LevelZero(sha: Hasher, leaves: seq<Digest>)
    ensures IsLevel(sha, leaves, 0, leaves)
  {
  }

  lemma TopLevelIsRoot(sha: Hasher, leaves: seq<Digest>, h: nat, level: seq<Digest>)
    requires leaves != [] && IsLevel(sha, leaves, h, level) && |level| == 1 && h == Height(|leaves|)
    ensures Hex(level[0]) == Root(sha, leaves)
  {
  }

  /** The level loop computes the root of that tree. */
  method MerkleRoot(sha: Hasher, leaves: seq<Digest>) returns (root: string)
    ensures root == Root(sha, leaves)
  {
    if |leaves| == 0 {
      return "";
    }
    var level := leaves;
    ghost var h := 0;
    LevelZero(sha, leaves);
    assert Height(1) == 0;
    hide IsLevel; hide Height; hide Root;
    while |level| > 1
      invariant |level| > 0 && IsLevel(sha, leaves, h, level)
      invariant h + Height(|level|) == Height(|leaves|)
      decreases |level|
    {
      ghost var below := level;
      if |level| % 2 == 1 {
        level := level + [level[|level| - 1]];
      }
      var next: seq<Digest> := [];
      var i := 0;
      while i < |level|
        invariant 0 <= i <= |level| && i % 2 == 0 && |next| == i / 2
        invariant forall k :: 0 <= k < |next| ==> next[k] == sha(NodeInput(level[2 * k], level[2 * k + 1]))
      {
        next := next + [sha(NodeInput(level[i], level[i + 1]))];
        i := i + 2;
      }
      LevelStep(sha, leaves, h, below, level, next);
      HeightStep(|below|);
      level := next;
      h := h + 1;
    }
    TopLevelIsRoot(sha, leaves, h, level);
    root := Hex(level[0]);
  }

  // ------------------------------------------------- expansion

  function Pow2(h: nat): (p: nat)
    ensures p > 0
  {
    if h == 0 then 1 else 2 * Pow2(h - 1)
  }

  /** A tree's leaves from left to right. */
  function Frontier(t: Tree): (f: seq<Digest>)
    ensures |f| > 0
  {
    match t
    case Leaf(d) => [d]
    case Node(l, r) => Frontier(l) + Frontier(r)
  }

  /** The leaf list with every duplication written out: a full tree's worth of leaves. */
  function Expand(leaves: seq<Digest>): seq<Digest>
    requires leaves != []
  {
    Frontier(TreeOf(leaves))
  }

  predicate Full(t: Tree, h: nat) {
    match t
    case Leaf(_) => h == 0
    case Node(l, r) => h > 0 && Full(l, h - 1) && Full(r, h - 1)
  }

  lemma {:induction false} SubtreeIsFull(leaves: seq<Digest>, h: nat, i: nat)
    requires i < Width(|leaves|, h)
    ensures Full(Subtree(leaves, h, i), h)
  {
    if h > 0 {
      SubtreeIsFull(leaves, h - 1, 2 * i);
      if 2 * i + 1 < Width(|leaves|, h - 1) {
        SubtreeIsFull(leaves, h - 1, 2 * i + 1);
      }
    }
  }

  lemma {:induction false} FullFrontier(t: Tree, h: nat)
    requires Full(t, h)
    ensures |Frontier(t)| == Pow2(h)
  {
    if t.Node? {
      FullFrontier(t.left, h - 1);
      FullFrontier(t.right, h - 1);
    }
  }

  lemma {:induction false} Pow2Monotone(g: nat, h: nat)
    requires g < h
    ensures Pow2(g) < Pow2(h)
    decreases h
  {
    if g < h - 1 {
      Pow2Monotone(g, h - 1);
    }
  }

  /** Full trees are determined by their leaves. */
  lemma {:induction false} FullTreesByFrontier(t: Tree, g: nat, u: Tree, h: nat)
    requires Full(t, g) && Full(u, h) && Frontier(t) == Frontier(u)
    ensures t == u
  {
    FullFrontier(t, g);
    FullFrontier(u, h);
    if g < h {
      Pow2Monotone(g, h);
    } else if h < g {
      Pow2Monotone(h, g);
    }
    if t.Node? {
      FullFrontier(t.left, g - 1);
      FullFrontier(u.left, h - 1);
      assert Frontier(t)[..Pow2(g - 1)] == Frontier(t.left) && Frontier(t)[Pow2(g - 1)..] == Frontier(t.right);
      assert Frontier(u)[..Pow2(h - 1)] == Frontier(u.left) && Frontier(u)[Pow2(h - 1)..] == Frontier(u.right);
      FullTreesByFrontier(t.left, g - 1, u.left, h - 1);
      FullTreesByFrontier(t.right, g - 1, u.right, h - 1);
    }
  }

  /** `i * 2^h`, by doubling. */
  function Offset(i: nat, h: nat): nat {
    if h == 0 then i else 2 * Offset(i, h - 1)
  }

  lemma {:induction false} OffsetHalves(i: nat, h: nat)
    ensures Offset(2 * i, h) == Offset(i, h + 1)
    ensures Offset(2 * i + 1, h) == Offset(i, h + 1) + Pow2(h)
    ensures Offset(i + 1, h) == Offset(i, h) + Pow2(h)
  {
    if h > 0 {
      OffsetHalves(i, h - 1);
    }
  }

  lemma {:induction false} OffsetOfOne(h: nat)
    ensures Offset(1, h) == Pow2(h) && Offset(0, h) == 0
  {
    if h > 0 {
      OffsetOfOne(h - 1);
    }
  }

  lemma {:induction false} OffsetMonotone(i: nat, j: nat, h: nat)
    requires i <= j
    ensures Offset(i, h) <= Offset(j, h)
  {
    if h > 0 {
      OffsetMonotone(i, j, h - 1);
    }
  }

  /** The nodes of any height stand for at least all leaves. */
  lemma {:induction false} WidthCovers(n: nat, h: nat)
    ensures Offset(Width(n, h), h) >= n
  {
    if h > 0 {
      WidthCovers(n, h - 1);
      OffsetHalves(Width(n, h), h - 1);
      OffsetMonotone(Width(n, h - 1), 2 * Width(n, h), h - 1);
    }
  }

  /** `f` lists the leaves from `offset` on, as far as there are any. */
  ghost predicate StartsAt(f: seq<Digest>, leaves: seq<Digest>, offset: nat) {
    forall k :: 0 <= k < |f| && offset + k < |leaves| ==> f[k] == leaves[offset + k]
  }

  lemma StartsAtConcat(f: seq<Digest>, g: seq<Digest>, leaves: seq<Digest>, offset: nat)
    requires StartsAt(f, leaves, offset) && StartsAt(g, leaves, offset + |f|)
    ensures StartsAt(f + g, leaves, offset)
  {
    forall k | |f| <= k < |f + g| && offset + k < |leaves|
      ensures (f + g)[k] == leaves[offset + k]
    {
      assert g[k - |f|] == leaves[offset + |f| + (k - |f|)];
    }
  }

  /** Written out, the node at position `i` starts with the leaves from `i * 2^h` on. */
  lemma {:induction false} SubtreeFrontier(leaves: seq<Digest>, h: nat, i: nat, offset: nat)
    requires i < Width(|leaves|, h) && offset == Offset(i, h)
    ensures StartsAt(Frontier(Subtree(leaves, h, i)), leaves, offset)
  {
    if h > 0 {
      var t := Subtree(leaves, h, i);
      OffsetHalves(i, h - 1);
      SubtreeFrontier(leaves, h - 1, 2 * i, offset);
      SubtreeIsFull(leaves, h - 1, 2 * i);
      FullFrontier(t.left, h - 1);
      if 2 * i + 1 < Width(|leaves|, h - 1) {
        SubtreeFrontier(leaves, h - 1, 2 * i + 1, offset + Pow2(h - 1));
      } else {
        WidthCovers(|leaves|, h - 1);
      }
      StartsAtConcat(Frontier(t.left), Frontier(t.right), leaves, offset);
    }
  }

  /** Expansion only appends: the leaf list is a prefix of its expansion. */
  lemma ExpandExtends(leaves: seq<Digest>)
    requires leaves != []
    ensures leaves <= Expand(leaves)
  {
    HeightIsTop(|leaves|);
    OffsetOfOne(Height(|leaves|));
    SubtreeFrontier(leaves, Height(|leaves|), 0, 0);
    SubtreeIsFull(leaves, Height(|leaves|), 0);
    FullFrontier(TreeOf(leaves), Height(|leaves|));
    WidthCovers(|leaves|, Height(|leaves|));
  }

  /** Equal trees are exactly equal expansions. */
  lemma TreesByExpansion(a: seq<Digest>, b: seq<Digest>)
    requires a != [] && b != []
    ensures TreeOf(a) == TreeOf(b) <==> Expand(a) == Expand(b)
  {
    HeightIsTop(|a|);
    HeightIsTop(|b|);
    SubtreeIsFull(a, Height(|a|), 0);
    SubtreeIsFull(b, Height(|b|), 0);
    if Expand(a) == Expand(b) {
      FullTreesByFrontier(TreeOf(a), Height(|a|), TreeOf(b), Height(|b|));
    }
  }

  // ------------------------------------------------- binding

  /** Everything hashed inside `t` is in `inputs`. */
  ghost predicate NodesIn(sha: Hasher, inputs: set<string>, t: Tree) {
    t.Node? ==>
      NodeInput(Hash(sha, t.left), Hash(sha, t.right)) in inputs &&
      NodesIn(sha, inputs, t.left) && NodesIn(sha, inputs, t.right)
  }

  /** A leaf digest is the hash of a string in `inputs` that starts with the leaf marker. */
  ghost predicate IsLeafDigest(sha: Hasher, inputs: set<string>, d: Digest) {
    exists x :: x in inputs && |x| > 0 && x[0] == '\0' && sha(x) == d
  }

  ghost predicate LeavesIn(sha: Hasher, inputs: set<string>, t: Tree) {
    match t
    case Leaf(d) => IsLeafDigest(sha, inputs, d)
    case Node(l, r) => LeavesIn(sha, inputs, l) && LeavesIn(sha, inputs, r)
  }

  /** The strings a root computation hashes above its leaves. */
  ghost function NodeInputs(sha: Hasher, t: Tree): set<string> {
    match t
    case Leaf(_) => {}
    case Node(l, r) => {NodeInput(Hash(sha, l), Hash(sha, r))} + NodeInputs(sha, l) + NodeInputs(sha, r)
  }

  lemma {:induction false} NodeInputsSuffice(sha: Hasher, inputs: set<string>, t: Tree)
    requires NodeInputs(sha, t) <= inputs
    ensures NodesIn(sha, inputs, t)
  {
    if t.Node? {
      NodeInputsSuffice(sha, inputs, t.left);
      NodeInputsSuffice(sha, inputs, t.right);
    }
  }

  lemma NodeInputInjective(a: Digest, b: Digest, c: Digest, d: Digest)
    requires NodeInput(a, b) == NodeInput(c, d)
    ensures a == c && b == d
  {
    assert NodeInput(a, b)[1..33] == a && NodeInput(a, b)[33..] == b;
    assert NodeInput(c, d)[1..33] == c && NodeInput(c, d)[33..] == d;
  }

  /** Between full trees of one height, equal hashes mean equal trees. No leaf marker is needed. */
  lemma {:induction false} FullTreeBinding(sha: Hasher, inputs: set<string>, t: Tree, u: Tree, h: nat)
    requires NoCollisions(sha, inputs) && NodesIn(sha, inputs, t) && NodesIn(sha, inputs, u)
    requires Full(t, h) && Full(u, h)
    requires Hash(sha, t) == Hash(sha, u)
    ensures t == u
  {
    if t.Node? {
      NodeInputInjective(Hash(sha, t.left), Hash(sha, t.right), Hash(sha, u.left), Hash(sha, u.right));
      FullTreeBinding(sha, inputs, t.left, u.left, h - 1);
      FullTreeBinding(sha, inputs, t.right, u.right, h - 1);
    }
  }

  /** Between trees of any shape it is the markers 0x00 and 0x01 that keep leaves and nodes apart. */
  lemma {:induction false} TreeBinding(sha: Hasher, inputs: set<string>, t: Tree, u: Tree)
    requires NoCollisions(sha, inputs)
    requires NodesIn(sha, inputs, t) && NodesIn(sha, inputs, u)
    requires LeavesIn(sha, inputs, t) && LeavesIn(sha, inputs, u)
    requires Hash(sha, t) == Hash(sha, u)
    ensures t == u
  {
    match (t, u) {
      case (Leaf(_), Leaf(_)) =>
      case (Node(a, b), Node(c, d)) =>
        NodeInputInjective(Hash(sha, a), Hash(sha, b), Hash(sha, c), Hash(sha, d));
        TreeBinding(sha, inputs, a, c);
        TreeBinding(sha, inputs, b, d);
      case (Leaf(x), Node(a, b)) =>
        LeafIsNoNode(sha, inputs, x, Hash(sha, a), Hash(sha, b));
      case (Node(a, b), Leaf(x)) =>
        LeafIsNoNode(sha, inputs, x, Hash(sha, a), Hash(sha, b));
    }
  }

  lemma LeafIsNoNode(sha: Hasher, inputs: set<string>, leaf: Digest, l: Digest, r: Digest)
    requires NoCollisions(sha, inputs) && IsLeafDigest(sha, inputs, leaf) && NodeInput(l, r) in inputs
    ensures leaf != sha(NodeInput(l, r))
  {
    var x :| x in inputs && |x| > 0 && x[0] == '\0' && sha(x) == leaf;
    assert NodeInput(l, r)[0] == 1 as char;
  }

  /** Leaf lists of one length with one root are the same list. */
  lemma RootBindsEqualLengths(sha: Hasher, a: seq<Digest>, b: seq<Digest>)
    requires |a| == |b| > 0
    requires NoCollisions(sha, NodeInputs(sha, TreeOf(a)) + NodeInputs(sha, TreeOf(b)))
    ensures Root(sha, a) == Root(sha, b) <==> a == b
  {
    if Root(sha, a) == Root(sha, b) {
      var inputs := NodeInputs(sha, TreeOf(a)) + NodeInputs(sha, TreeOf(b));
      HexInjective(Hash(sha, TreeOf(a)), Hash(sha, TreeOf(b)));
      HeightIsTop(|a|);
      SubtreeIsFull(a, Height(|a|), 0);
      SubtreeIsFull(b, Height(|b|), 0);
      NodeInputsSuffice(sha, inputs, TreeOf(a));
      NodeInputsSuffice(sha, inputs, TreeOf(b));
      FullTreeBinding(sha, inputs, TreeOf(a), TreeOf(b), Height(|a|));
      ExpandExtends(a);
      ExpandExtends(b);
      assert a == Expand(a)[..|a|] && b == Expand(b)[..|b|];
    }
  }

  lemma {:induction false} SubtreeLeavesIn(sha: Hasher, inputs: set<string>, leaves: seq<Digest>, h: nat, i: nat)
    requires i < Width(|leaves|, h)
    requires forall d :: d in leaves ==> IsLeafDigest(sha, inputs, d)
    ensures LeavesIn(sha, inputs, Subtree(leaves, h, i))
  {
    if h > 0 {
      SubtreeLeavesIn(sha, inputs, leaves, h - 1, 2 * i);
      if 2 * i + 1 < Width(|leaves|, h - 1) {
        SubtreeLeavesIn(sha, inputs, leaves, h - 1, 2 * i + 1);
      }
    }
  }

  /** Leaf lists of any two lengths have one root exactly when they expand to the same full tree. */
  lemma RootsEqualIffSameExpansion(sha: Hasher, inputs: set<string>, a: seq<Digest>, b: seq<Digest>)
    requires a != [] && b != []
    requires NoCollisions(sha, inputs)
    requires NodeInputs(sha, TreeOf(a)) <= inputs && NodeInputs(sha, TreeOf(b)) <= inputs
    requires forall d :: d in a + b ==> IsLeafDigest(sha, inputs, d)
    ensures Root(sha, a) == Root(sha, b) <==> Expand(a) == Expand(b)
  {
    TreesByExpansion(a, b);
    if Root(sha, a) == Root(sha, b) {
      HexInjective(Hash(sha, TreeOf(a)), Hash(sha, TreeOf(b)));
      NodeInputsSuffice(sha, inputs, TreeOf(a));
      NodeInputsSuffice(sha, inputs, TreeOf(b));
      HeightIsTop(|a|);
      HeightIsTop(|b|);
      SubtreeLeavesIn(sha, inputs, a, Height(|a|), 0);
      SubtreeLeavesIn(sha, inputs, b, Height(|b|), 0);
      TreeBinding(sha, inputs, TreeOf(a), TreeOf(b));
    }
  }

  // ------------------------------------------------- why the entry count is checked

  lemma {:induction false} RepeatedLastSubtree(a: seq<Digest>, h: nat, i: nat)
    requires |a| % 2 == 1 && h > 0 && i < Width(|a|, h)
    ensures Width(|a| + 1, h) == Width(|a|, h)
    ensures Subtree(a, h, i) == Subtree(a + [a[|a| - 1]], h, i)
  {
    var b := a + [a[|a| - 1]];
    if h == 1 {
      assert Subtree(b, 0, 2 * i) == Leaf(b[2 * i]);
    } else {
      RepeatedLastSubtree(a, h - 1, 2 * i);
      if 2 * i + 1 < Width(|a|, h - 1) {
        RepeatedLastSubtree(a, h - 1, 2 * i + 1);
      }
    }
  }

  /** Repeating the last leaf of an odd list of three or more keeps the root, whatever the hash: the
      root alone does not commit to the number of entries. */
  lemma RootIgnoresRepeatedLast(sha: Hasher, a: seq<Digest>)
    requires |a| % 2 == 1 && |a| > 1
    ensures Root(sha, a) == Root(sha, a + [a[|a| - 1]])
  {
    HeightIsTop(|a|);
    assert Height(|a|) == Height(|a| + 1) > 0;
    RepeatedLastSubtree(a, Height(|a|), 0);
  }
}
