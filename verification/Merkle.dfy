/**
 Merkle/merkle.go: the tree is built bottom-up, level by level, and the last node of an odd level
 is paired with itself.
 */
module Merkle {
  import opened Bytes
  import opened Crypto

  // ---------- the bottom-up construction ----------

  /** What is hashed to make node `i` of the next level. */
  function Pair(level: seq<bytes>, i: nat): bytes
    requires 2 * i < |level|
  {
    level[2 * i] + if 2 * i + 1 < |level| then level[2 * i + 1] else level[2 * i]
  }

  function NextLevel(c: Suite, level: seq<bytes>): (next: seq<bytes>)
    ensures |next| == (|level| + 1) / 2
    ensures forall i :: 0 <= i < |next| ==> next[i] == Hash(c, Pair(level, i))
  {
    seq((|level| + 1) / 2, i requires 0 <= i < (|level| + 1) / 2 => Hash(c, Pair(level, i)))
  }

  function Levels(c: Suite, leaves: seq<bytes>): (tree: seq<seq<bytes>>)
    ensures |tree| > 0 && tree[0] == leaves
    decreases |leaves|
  {
    if |leaves| <= 1 then [leaves] else [leaves] + Levels(c, NextLevel(c, leaves))
  }

  /** The root, and the empty string (Go's nil) for no leaves. */
  function Root(c: Suite, leaves: seq<bytes>): bytes
    decreases |leaves|
  {
    if |leaves| == 0 then [] else if |leaves| == 1 then leaves[0] else Root(c, NextLevel(c, leaves))
  }

  /** The inner loop: one level from the level below. */
  method BuildLevel(c: Suite, current: seq<bytes>) returns (next: seq<bytes>)
    ensures next == NextLevel(c, current) && |next| == (|current| + 1) / 2
    ensures forall i :: 0 <= i < |next| ==>
              next[i] == c.keccak(current[2 * i] + current[if 2 * i + 1 < |current| then 2 * i + 1 else 2 * i])
  {
    next := [];
    var i := 0;
    while i < |current|
      invariant i == 2 * |next| && |next| <= (|current| + 1) / 2
      invariant next == NextLevel(c, current)[..|next|]
    {
      var left := current[i];
      var right := if i + 1 < |current| then current[i + 1] else current[i];
      FlattenTwo(left, right);
      assert left + right == Pair(current, |next|);
      var parent := Keccak(c, [left, right]);
      next := next + [parent];
      i := i + 2;
    }
  }

  method BuildTree(c: Suite, leaves: seq<bytes>) returns (tree: seq<seq<bytes>>)
    ensures tree == if |leaves| == 0 then [] else Levels(c, leaves)
  {
    if |leaves| == 0 {
      return [];
    }
    var current := leaves;
    tree := [current];
    ghost var below: seq<seq<bytes>> := [];
    while |current| > 1
      invariant |current| > 0 && tree == below + [current]
      invariant Levels(c, leaves) == below + Levels(c, current)
      decreases |current|
    {
      var next := BuildLevel(c, current);
      below := below + [current];
      tree := tree + [next];
      current := next;
    }
  }

  method RootOfTree(c: Suite, tree: seq<seq<bytes>>, ghost leaves: seq<bytes>) returns (root: bytes)
    requires tree == if |leaves| == 0 then [] else Levels(c, leaves)
    ensures root == Root(c, leaves) && (tree == [] ==> root == [])
  {
    if |tree| == 0 {
      return [];
    }
    TopLevel(c, leaves);
    var lastLevel := tree[|tree| - 1];
    root := lastLevel[0];
  }

  lemma {:induction false} TopLevel(c: Suite, leaves: seq<bytes>)
    requires |leaves| > 0
    ensures var top := Levels(c, leaves)[|Levels(c, leaves)| - 1]; |top| == 1 && top[0] == Root(c, leaves)
    decreases |leaves|
  {
    if |leaves| > 1 {
      TopLevel(c, NextLevel(c, leaves));
    }
  }

  // ---------- shape ----------

  function Pow2(h: nat): (p: nat)
    ensures p > 0
  {
    if h == 0 then 1 else 2 * Pow2(h - 1)
  }

  /** The number of halvings, rounding up, that take `n` to 1. */
  function Height(n: nat): nat {
    if n <= 1 then 0 else 1 + Height((n + 1) / 2)
  }

  /** The height is the binary logarithm, rounded up. */
  lemma {:induction false} HeightIsCeilLog2(n: nat)
    requires n > 0
    ensures n <= Pow2(Height(n))
    ensures n > 1 ==> Height(n) > 0 && Pow2(Height(n) - 1) < n
  {
    if n > 1 {
      HeightIsCeilLog2((n + 1) / 2);
    }
  }

  /** m is n / d, rounded up. */
  ghost predicate IsCeilDiv(n: nat, d: nat, m: nat) {
    (m - 1) * d < n <= m * d
  }

  lemma CeilHalf(n: nat, d: nat, m: nat)
    requires IsCeilDiv((n + 1) / 2, d, m)
    ensures IsCeilDiv(n, 2 * d, m)
  {
    assert m * (2 * d) == 2 * (m * d) && (m - 1) * (2 * d) == 2 * ((m - 1) * d);
  }

  /** One step of the induction: a level above the leaves is the level below it of the next tree. */
  lemma LevelShape(c: Suite, leaves: seq<bytes>, k: nat)
    requires |leaves| > 1 && k < |Levels(c, NextLevel(c, leaves))|
    requires IsCeilDiv(|NextLevel(c, leaves)|, Pow2(k), |Levels(c, NextLevel(c, leaves))[k]|)
    ensures k + 1 < |Levels(c, leaves)| && IsCeilDiv(|leaves|, Pow2(k + 1), |Levels(c, leaves)[k + 1]|)
  {
    hide IsCeilDiv; hide NextLevel;
    CeilHalf(|leaves|, Pow2(k), |Levels(c, NextLevel(c, leaves))[k]|);
  }

  /** ceil(log2 n) + 1 levels, of which level k has ceil(n / 2^k) nodes and the last has one. */
  lemma {:induction false} TreeShape(c: Suite, leaves: seq<bytes>)
    requires |leaves| > 0
    ensures |Levels(c, leaves)| == Height(|leaves|) + 1
    ensures |Levels(c, leaves)[Height(|leaves|)]| == 1
    ensures forall k :: 0 <= k <= Height(|leaves|) ==> IsCeilDiv(|leaves|, Pow2(k), |Levels(c, leaves)[k]|)
    decreases |leaves|
  {
    hide IsCeilDiv; hide Pow2; hide NextLevel;
    FirstLevelShape(c, leaves);
    if |leaves| > 1 {
      TreeShape(c, NextLevel(c, leaves));
      forall k | 0 < k <= Height(|leaves|)
        ensures IsCeilDiv(|leaves|, Pow2(k), |Levels(c, leaves)[k]|)
      {
        LevelShape(c, leaves, k - 1);
      }
    }
  }

  lemma FirstLevelShape(c: Suite, leaves: seq<bytes>)
    requires |leaves| > 0
    ensures Levels(c, leaves)[0] == leaves && IsCeilDiv(|leaves|, Pow2(0), |leaves|)
  {
  }

  ghost predicate Digests(level: seq<bytes>) {
    forall i :: 0 <= i < |level| ==> |level[i]| == HASH_SIZE
  }

  /** The root over 32-byte leaves has 32 bytes, for every leaf count but zero. */
  lemma {:induction false} RootSize(c: Suite, leaves: seq<bytes>)
    requires |leaves| > 0 && Digests(leaves)
    ensures |Root(c, leaves)| == HASH_SIZE
    decreases |leaves|
  {
    if |leaves| > 1 {
      RootSize(c, NextLevel(c, leaves));
    }
  }

  // ---------- the top-down reading of the same tree ----------

  datatype Tree = Leaf(digest: bytes) | Node(left: Tree, right: Tree)

  function Digest(c: Suite, t: Tree): bytes {
    match t
    case Leaf(d) => d
    case Node(l, r) => Hash(c, Digest(c, l) + Digest(c, r))
  }

  /** Every string hashed to compute the digest. */
  function Inputs(c: Suite, t: Tree): set<bytes> {
    match t
    case Leaf(_) => {}
    case Node(l, r) => {Digest(c, l) + Digest(c, r)} + Inputs(c, l) + Inputs(c, r)
  }

  function Frontier(t: Tree): seq<bytes> {
    match t
    case Leaf(d) => [d]
    case Node(l, r) => Frontier(l) + Frontier(r)
  }

  /** All leaves at depth h, and digests of the proper size. */
  ghost predicate Perfect(t: Tree, h: nat) {
    match t
    case Leaf(d) => h == 0 && |d| == HASH_SIZE
    case Node(l, r) => h > 0 && Perfect(l, h - 1) && Perfect(r, h - 1)
  }

  /**
   A tree of height h has room for 2^h leaves. Its left child takes the first half of the room;
   when the leaves fit into that half, the right child is the left one again.
   */
  function Split(leaves: seq<bytes>, h: nat): Tree
    requires 0 < |leaves| <= Pow2(h)
    decreases h
  {
    if h == 0 then Leaf(leaves[0])
    else if |leaves| <= Pow2(h - 1) then
      Node(Split(leaves, h - 1), Split(leaves, h - 1))
    else
      Node(Split(leaves[..Pow2(h - 1)], h - 1), Split(leaves[Pow2(h - 1)..], h - 1))
  }

  /** Cutting a list at an even place and then pairing is pairing and then cutting. */
  lemma NextLevelPrefix(c: Suite, level: seq<bytes>, k: nat)
    requires 2 * k <= |level|
    ensures NextLevel(c, level[..2 * k]) == NextLevel(c, level)[..k]
    ensures PairInputs(level[..2 * k]) <= PairInputs(level)
  {
    forall i | 0 <= i < k
      ensures Pair(level[..2 * k], i) == Pair(level, i)
    {
    }
  }

  lemma NextLevelSuffix(c: Suite, level: seq<bytes>, k: nat)
    requires 2 * k <= |level|
    ensures NextLevel(c, level[2 * k..]) == NextLevel(c, level)[k..]
    ensures PairInputs(level[2 * k..]) <= PairInputs(level)
  {
    var rest := level[2 * k..];
    forall i | 0 <= i < (|rest| + 1) / 2
      ensures Pair(rest, i) == Pair(level, k + i)
    {
      assert rest[2 * i] == level[2 * (k + i)];
    }
  }

  function PairInputs(level: seq<bytes>): set<bytes> {
    set i | 0 <= i < (|level| + 1) / 2 :: Pair(level, i)
  }

  /** Every string that building the tree level by level hands to the hash. */
  function NodeInputs(c: Suite, leaves: seq<bytes>): set<bytes>
    decreases |leaves|
  {
    if |leaves| <= 1 then {} else PairInputs(leaves) + NodeInputs(c, NextLevel(c, leaves))
  }

  /** `t` is `u` with one more level below it, made from the strings in `pairs`. */
  ghost predicate Grown(c: Suite, t: Tree, u: Tree, pairs: set<bytes>) {
    Digest(c, t) == Digest(c, u) && Inputs(c, t) <= pairs + Inputs(c, u)
  }

  lemma GrownNode(c: Suite, t: Tree, u: Tree, left: set<bytes>, right: set<bytes>, pairs: set<bytes>)
    requires t.Node? && u.Node? && left <= pairs && right <= pairs
    requires Grown(c, t.left, u.left, left) && Grown(c, t.right, u.right, right)
    ensures Grown(c, t, u, pairs)
  {
  }

  lemma {:induction false} SplitLevel(c: Suite, leaves: seq<bytes>, h: nat)
    requires h > 0 && 0 < |leaves| <= Pow2(h)
    ensures 0 < |NextLevel(c, leaves)| <= Pow2(h - 1)
    ensures Grown(c, Split(leaves, h), Split(NextLevel(c, leaves), h - 1), PairInputs(leaves))
  {
    var t, pairs := Split(leaves, h), PairInputs(leaves);
    if h == 1 {
      assert Pow2(0) == 1 && Pow2(1) == 2;
      assert Digest(c, t.left) + Digest(c, t.right) == Pair(leaves, 0);
      assert Pair(leaves, 0) in pairs;
    } else if |leaves| <= Pow2(h - 1) {
      SplitLevel(c, leaves, h - 1);
      GrownNode(c, t, Split(NextLevel(c, leaves), h - 1), pairs, pairs, pairs);
    } else {
      var l, r := leaves[..Pow2(h - 1)], leaves[Pow2(h - 1)..];
      SplitLevel(c, l, h - 1);
      SplitLevel(c, r, h - 1);
      SplitNext(c, leaves, h);
      GrownNode(c, t, Split(NextLevel(c, leaves), h - 1), PairInputs(l), PairInputs(r), pairs);
    }
  }

  /** The case of two different halves. */
  lemma SplitNext(c: Suite, leaves: seq<bytes>, h: nat)
    requires h > 1 && Pow2(h - 1) < |leaves| <= Pow2(h)
    ensures var l, r, next := leaves[..Pow2(h - 1)], leaves[Pow2(h - 1)..], NextLevel(c, leaves);
            && |NextLevel(c, l)| <= Pow2(h - 2) && 0 < |NextLevel(c, r)| <= Pow2(h - 2) < |next| <= Pow2(h - 1)
            && Split(next, h - 1) == Node(Split(NextLevel(c, l), h - 2), Split(NextLevel(c, r), h - 2))
            && PairInputs(l) <= PairInputs(leaves) && PairInputs(r) <= PairInputs(leaves)
  {
    var quarter := Pow2(h - 2);
    assert Pow2(h - 1) == 2 * quarter;
    NextLevelPrefix(c, leaves, quarter);
    NextLevelSuffix(c, leaves, quarter);
  }

  /** The level-by-level loop computes the top-down recursion, for every leaf count. */
  lemma {:induction false} BottomUpIsTopDown(c: Suite, leaves: seq<bytes>)
    requires |leaves| > 0
    ensures |leaves| <= Pow2(Height(|leaves|))
    ensures Root(c, leaves) == Digest(c, Split(leaves, Height(|leaves|)))
    ensures Inputs(c, Split(leaves, Height(|leaves|))) <= NodeInputs(c, leaves)
    decreases |leaves|
  {
    HeightIsCeilLog2(|leaves|);
    if |leaves| > 1 {
      SplitLevel(c, leaves, Height(|leaves|));
      BottomUpIsTopDown(c, NextLevel(c, leaves));
    }
  }

  // ---------- binding ----------

  lemma {:induction false} SplitIsPerfect(leaves: seq<bytes>, h: nat)
    requires 0 < |leaves| <= Pow2(h) && Digests(leaves)
    ensures Perfect(Split(leaves, h), h)
    decreases h
  {
    if h > 0 {
      if |leaves| <= Pow2(h - 1) {
        SplitIsPerfect(leaves, h - 1);
      } else {
        SplitIsPerfect(leaves[..Pow2(h - 1)], h - 1);
        SplitIsPerfect(leaves[Pow2(h - 1)..], h - 1);
      }
    }
  }

  lemma {:induction false} FrontierSize(t: Tree, h: nat)
    requires Perfect(t, h)
    ensures |Frontier(t)| == Pow2(h)
    decreases h
  {
    if h > 0 {
      FrontierSize(t.left, h - 1);
      FrontierSize(t.right, h - 1);
    }
  }

  /** The leaves come first in the frontier, and the rest of the frontier repeats leaves. */
  lemma {:induction false} FrontierOfSplit(leaves: seq<bytes>, h: nat)
    requires 0 < |leaves| <= Pow2(h) && Digests(leaves)
    ensures leaves <= Frontier(Split(leaves, h))
    ensures forall d :: d in Frontier(Split(leaves, h)) ==> d in leaves
    decreases h
  {
    if h > 0 {
      if |leaves| <= Pow2(h - 1) {
        FrontierOfSplit(leaves, h - 1);
      } else {
        var l, r := leaves[..Pow2(h - 1)], leaves[Pow2(h - 1)..];
        FrontierOfSplit(l, h - 1);
        FrontierOfSplit(r, h - 1);
        SplitIsPerfect(l, h - 1);
        FrontierSize(Split(l, h - 1), h - 1);
        assert leaves == l + r && Frontier(Split(l, h - 1)) == l;
      }
    }
  }

  lemma {:induction false} DigestSize(c: Suite, t: Tree, h: nat)
    requires Perfect(t, h)
    ensures |Digest(c, t)| == HASH_SIZE
  {
  }

  lemma SplitConcat(a: bytes, b: bytes, x: bytes, y: bytes)
    requires |a| == |x| && a + b == x + y
    ensures a == x && b == y
  {
    assert a == (a + b)[..|a|] && x == (x + y)[..|x|];
    assert b == (a + b)[|a|..] && y == (x + y)[|x|..];
  }

  /** Two trees of one height with one digest are the same tree, or two of their inputs collide. */
  lemma {:induction false} DigestBindsTree(c: Suite, a: Tree, b: Tree, h: nat)
    requires Perfect(a, h) && Perfect(b, h) && Digest(c, a) == Digest(c, b)
    ensures a == b || Clash(c, Inputs(c, a), Inputs(c, b))
    decreases h
  {
    if h > 0 {
      var x, y := Digest(c, a.left) + Digest(c, a.right), Digest(c, b.left) + Digest(c, b.right);
      ClashFound(c, Inputs(c, a), Inputs(c, b), x, y);
      if x == y {
        DigestSize(c, a.left, h - 1);
        DigestSize(c, b.left, h - 1);
        SplitConcat(Digest(c, a.left), Digest(c, a.right), Digest(c, b.left), Digest(c, b.right));
        DigestBindsTree(c, a.left, b.left, h - 1);
        DigestBindsTree(c, a.right, b.right, h - 1);
        ClashGrows(c, Inputs(c, a.left), Inputs(c, b.left), Inputs(c, a), Inputs(c, b));
        ClashGrows(c, Inputs(c, a.right), Inputs(c, b.right), Inputs(c, a), Inputs(c, b));
      }
    }
  }

  /**
   The exact strength of a root over a given tree height: equal roots mean equal trees (or a
   collision among the strings hashed), and equal trees mean equal roots.
   */
  lemma {:induction false} RootBindsTree(c: Suite, a: seq<bytes>, b: seq<bytes>)
    requires |a| > 0 && |b| > 0 && Digests(a) && Digests(b) && Height(|a|) == Height(|b|)
    ensures |a| <= Pow2(Height(|a|)) && |b| <= Pow2(Height(|a|))
    ensures Split(a, Height(|a|)) == Split(b, Height(|a|)) ==> Root(c, a) == Root(c, b)
    ensures Root(c, a) == Root(c, b) ==>
              || Split(a, Height(|a|)) == Split(b, Height(|a|))
              || Clash(c, NodeInputs(c, a), NodeInputs(c, b))
  {
    var h := Height(|a|);
    BottomUpIsTopDown(c, a);
    BottomUpIsTopDown(c, b);
    if Root(c, a) == Root(c, b) {
      SplitIsPerfect(a, h);
      SplitIsPerfect(b, h);
      DigestBindsTree(c, Split(a, h), Split(b, h), h);
      ClashGrows(c, Inputs(c, Split(a, h)), Inputs(c, Split(b, h)), NodeInputs(c, a), NodeInputs(c, b));
    }
  }

  /** Equally many leaves under one root: the same leaves, or a collision. */
  lemma {:induction false} RootBindsLeaves(c: Suite, a: seq<bytes>, b: seq<bytes>)
    requires |a| == |b| > 0 && Digests(a) && Digests(b)
    requires Root(c, a) == Root(c, b)
    ensures a == b || Clash(c, NodeInputs(c, a), NodeInputs(c, b))
  {
    var h := Height(|a|);
    RootBindsTree(c, a, b);
    FrontierOfSplit(a, h);
    FrontierOfSplit(b, h);
    assert a == Frontier(Split(a, h))[..|a|] && b == Frontier(Split(b, h))[..|b|];
  }

  /** Without equal counts it fails, with no collision: repeat the last of an odd number of leaves. */
  lemma {:induction false} RepeatedLastLeaf(c: Suite, leaves: seq<bytes>)
    requires |leaves| > 1 && |leaves| % 2 == 1
    ensures Root(c, leaves + [leaves[|leaves| - 1]]) == Root(c, leaves)
  {
    var longer := leaves + [leaves[|leaves| - 1]];
    forall i | 0 <= i < (|leaves| + 1) / 2
      ensures Pair(longer, i) == Pair(leaves, i)
    {
    }
    assert NextLevel(c, longer) == NextLevel(c, leaves);
  }

  /** Every leaf digest is the hash of a string in `tags` that cannot be a pair of digests. */
  ghost predicate HasTag(c: Suite, d: bytes, tags: set<bytes>) {
    exists x :: x in tags && Hash(c, x) == d && |x| != 2 * HASH_SIZE
  }

  ghost predicate Tagged(c: Suite, t: Tree, tags: set<bytes>) {
    match t
    case Leaf(d) => HasTag(c, d, tags)
    case Node(l, r) => Tagged(c, l, tags) && Tagged(c, r, tags)
  }

  /**
   Trees of different heights under one digest collide when the leaves of the lower tree are
   tagged: a leaf is told from an inner node by the length of what was hashed.
   */
  lemma {:induction false} HeightsClash(c: Suite, a: Tree, ha: nat, b: Tree, hb: nat, tags: set<bytes>)
    requires Perfect(a, ha) && Perfect(b, hb) && ha < hb && Tagged(c, a, tags)
    requires Digest(c, a) == Digest(c, b)
    ensures Clash(c, tags + Inputs(c, a), Inputs(c, b))
    decreases ha
  {
    var sa, sb := tags + Inputs(c, a), Inputs(c, b);
    DigestSize(c, b.left, hb - 1);
    DigestSize(c, b.right, hb - 1);
    var y := Digest(c, b.left) + Digest(c, b.right);
    if ha == 0 {
      var x :| x in tags && Hash(c, x) == a.digest && |x| != 2 * HASH_SIZE;
      ClashFound(c, sa, sb, x, y);
    } else {
      var x := Digest(c, a.left) + Digest(c, a.right);
      ClashFound(c, sa, sb, x, y);
      if x == y {
        DigestSize(c, a.left, ha - 1);
        SplitConcat(Digest(c, a.left), Digest(c, a.right), Digest(c, b.left), Digest(c, b.right));
        HeightsClash(c, a.left, ha - 1, b.left, hb - 1, tags);
        ClashGrows(c, tags + Inputs(c, a.left), Inputs(c, b.left), sa, sb);
      }
    }
  }

  lemma {:induction false} TaggedFrontier(c: Suite, t: Tree, tags: set<bytes>)
    requires forall d :: d in Frontier(t) ==> HasTag(c, d, tags)
    ensures Tagged(c, t, tags)
  {
    match t
    case Leaf(d) => assert d in Frontier(t);
    case Node(l, r) =>
      TaggedFrontier(c, l, tags);
      TaggedFrontier(c, r, tags);
  }
}
