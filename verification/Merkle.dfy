/** Sparse Merkle trees: the recursive specification tree, authentication paths and folding. */
module Merkle {
  import opened Field
  import Modular

  // ------------------------------------------------------------------ positions

  /** The other child of the parent: position XOR 1. */
  function Sibling(pos: nat): nat {
    if pos % 2 == 0 then pos + 1 else pos - 1
  }

  /** Position reached by going up n levels: pos >> n. */
  function Ancestor(pos: nat, n: nat): nat {
    if n == 0 then pos else Ancestor(pos / 2, n - 1)
  }

  lemma {:induction false} AncestorStep(pos: nat, n: nat)
    ensures Ancestor(pos, n + 1) == Ancestor(pos, n) / 2
  {
    if n == 0 {
    } else {
      AncestorStep(pos / 2, n - 1);
    }
  }

  lemma {:induction false} AncestorIsShift(pos: nat, n: nat)
    ensures Ancestor(pos, n) == pos / Pow2(n)
  {
    if n == 0 {
    } else {
      AncestorIsShift(pos / 2, n - 1);
      HalveThenShift(pos, Pow2(n - 1));
    }
  }

  lemma HalveThenShift(pos: nat, d: nat)
    requires d > 0
    ensures pos / 2 / d == pos / (2 * d)
  {
    var q := pos / (2 * d);
    var r := pos % (2 * d);
    assert pos == q * (2 * d) + r;
    assert pos / 2 == q * d + r / 2 by {
      assert q * (2 * d) == 2 * (q * d);
    }
    assert 0 <= r / 2 < d;
    Modular.QuotientUnique(pos / 2, d, q, r / 2);
  }

  /** A position below 2^n has the root as its n-th ancestor. */
  lemma {:induction false} AncestorOfSmall(pos: nat, n: nat)
    ensures Ancestor(pos, n) == 0 <==> pos < Pow2(n)
  {
    if n == 0 {
    } else {
      AncestorOfSmall(pos / 2, n - 1);
    }
  }

  // ------------------------------------------------------------------ the recursive tree

  function LeafAt(leaves: map<nat, Fe>, pos: nat): Fe {
    if pos in leaves then leaves[pos] else 0
  }

  /** Node `pos` of level `level` (0 = leaves) over a leaf assignment; an unwritten leaf is 0. */
  function Node(h: Hash, leaves: map<nat, Fe>, level: nat, pos: nat): Fe {
    if level == 0 then LeafAt(leaves, pos)
    else h([Node(h, leaves, level - 1, 2 * pos), Node(h, leaves, level - 1, 2 * pos + 1)])
  }

  /** Hash of a subtree of height `level` with no written leaf. */
  function ZeroHash(h: Hash, level: nat): Fe {
    if level == 0 then 0 else h([ZeroHash(h, level - 1), ZeroHash(h, level - 1)])
  }

  ghost predicate Populated(leaves: map<nat, Fe>, level: nat, pos: nat) {
    exists i | i in leaves :: Ancestor(i, level) == pos
  }

  lemma ZeroHashLeaf(h: Hash)
    ensures ZeroHash(h, 0) == 0
  {
  }

  lemma ZeroHashUp(h: Hash, level: nat)
    ensures ZeroHash(h, level + 1) == h([ZeroHash(h, level), ZeroHash(h, level)])
  {
  }

  lemma {:induction false} EmptySubtree(h: Hash, leaves: map<nat, Fe>, level: nat, pos: nat)
    requires !Populated(leaves, level, pos)
    ensures Node(h, leaves, level, pos) == ZeroHash(h, level)
  {
    if level == 0 {
      assert Ancestor(pos, 0) == pos;
    } else {
      forall i | i in leaves
        ensures Ancestor(i, level - 1) != 2 * pos && Ancestor(i, level - 1) != 2 * pos + 1
      {
        AncestorStep(i, level - 1);
      }
      EmptySubtree(h, leaves, level - 1, 2 * pos);
      EmptySubtree(h, leaves, level - 1, 2 * pos + 1);
    }
  }

  /** Writing leaf i changes only the ancestors of i. */
  lemma {:induction false} NodeFrame(h: Hash, leaves: map<nat, Fe>, i: nat, v: Fe, level: nat, pos: nat)
    requires Ancestor(i, level) != pos
    ensures Node(h, leaves[i := v], level, pos) == Node(h, leaves, level, pos)
  {
    if level == 0 {
    } else {
      AncestorStep(i, level - 1);
      NodeFrame(h, leaves, i, v, level - 1, 2 * pos);
      NodeFrame(h, leaves, i, v, level - 1, 2 * pos + 1);
    }
  }

  // ------------------------------------------------------------------ paths and folding

  /** Siblings met on the way up n levels from node `pos` of level `level`. */
  function PathUp(h: Hash, leaves: map<nat, Fe>, level: nat, pos: nat, n: nat): (path: seq<Fe>)
    ensures |path| == n
    decreases n
  {
    if n == 0 then []
    else [Node(h, leaves, level, Sibling(pos))] + PathUp(h, leaves, level + 1, pos / 2, n - 1)
  }

  /** The n low binary digits of a position, least significant first. */
  function Bits(pos: nat, n: nat): (bits: seq<Fe>)
    ensures |bits| == n && AllBoolean(bits)
  {
    if n == 0 then [] else [pos % 2] + Bits(pos / 2, n - 1)
  }

  lemma {:induction false} PathAt(h: Hash, leaves: map<nat, Fe>, level: nat, pos: nat, n: nat, j: nat)
    requires j < n
    ensures PathUp(h, leaves, level, pos, n)[j] == Node(h, leaves, level + j, Sibling(Ancestor(pos, j)))
    decreases n
  {
    hide Node, Sibling;
    if j == 0 {
    } else {
      PathAt(h, leaves, level + 1, pos / 2, n - 1, j - 1);
    }
  }

  lemma {:induction false} BitAt(pos: nat, n: nat, j: nat)
    requires j < n
    ensures Bits(pos, n)[j] == Ancestor(pos, j) % 2
  {
    if j == 0 {
    } else {
      BitAt(pos / 2, n - 1, j - 1);
    }
  }

  predicate AllBoolean(bits: seq<Fe>) {
    forall i | 0 <= i < |bits| :: bits[i] == 0 || bits[i] == 1
  }

  /** The position a digit sequence names. */
  function PosOf(bits: seq<Fe>): nat
    requires AllBoolean(bits)
  {
    if bits == [] then 0 else bits[0] + 2 * PosOf(bits[1..])
  }

  lemma Halves(digit: nat, rest: nat)
    requires digit < 2
    ensures (digit + 2 * rest) % 2 == digit && (digit + 2 * rest) / 2 == rest
  {
  }

  lemma {:induction false} BitsOfPos(bits: seq<Fe>)
    requires AllBoolean(bits)
    ensures Bits(PosOf(bits), |bits|) == bits
    ensures Ancestor(PosOf(bits), |bits|) == 0
    ensures PosOf(bits) < Pow2(|bits|)
  {
    if bits == [] {
    } else {
      var rest := bits[1..];
      BitsOfPos(rest);
      var pos := PosOf(bits);
      Halves(bits[0], PosOf(rest));
      assert Bits(pos, |bits|) == [bits[0]] + rest;
      assert Ancestor(pos, |bits|) == Ancestor(PosOf(rest), |rest|);
    }
  }

  lemma {:induction false} PosOfBits(pos: nat, n: nat)
    requires Ancestor(pos, n) == 0
    ensures PosOf(Bits(pos, n)) == pos
  {
    if n == 0 {
    } else {
      PosOfBits(pos / 2, n - 1);
      assert Bits(pos, n)[1..] == Bits(pos / 2, n - 1);
    }
  }

  function Pair(bit: Fe, sibling: Fe, cur: Fe): seq<Fe> {
    if bit == 1 then [sibling, cur] else [cur, sibling]
  }

  /** The root reached from a node by hashing along a path; bit 1 puts the current node on the right. */
  function Fold(h: Hash, cur: Fe, path: seq<Fe>, bits: seq<Fe>): Fe
    requires |path| == |bits|
    decreases |path|
  {
    if path == [] then cur
    else Fold(h, h(Pair(bits[0], path[0], cur)), path[1..], bits[1..])
  }

  lemma FoldStep(h: Hash, cur: Fe, path: seq<Fe>, bits: seq<Fe>)
    requires |path| == |bits| > 0
    ensures Fold(h, cur, path, bits) == Fold(h, h(Pair(bits[0], path[0], cur)), path[1..], bits[1..])
  {
  }

  /** The pairs hashed by Fold, in order. */
  function FoldInputs(h: Hash, cur: Fe, path: seq<Fe>, bits: seq<Fe>): (xs: seq<seq<Fe>>)
    requires |path| == |bits|
    ensures |xs| == |path|
    decreases |path|
  {
    if path == [] then []
    else [Pair(bits[0], path[0], cur)] + FoldInputs(h, h(Pair(bits[0], path[0], cur)), path[1..], bits[1..])
  }

  lemma PathUnfolds(h: Hash, leaves: map<nat, Fe>, level: nat, pos: nat, n: nat)
    requires n > 0
    ensures var path, bits := PathUp(h, leaves, level, pos, n), Bits(pos, n);
            && path[0] == Node(h, leaves, level, Sibling(pos))
            && path[1..] == PathUp(h, leaves, level + 1, pos / 2, n - 1)
            && bits[0] == pos % 2 && bits[1..] == Bits(pos / 2, n - 1)
  {
  }

  lemma ParentOfPair(h: Hash, leaves: map<nat, Fe>, level: nat, pos: nat)
    ensures h(Pair(pos % 2, Node(h, leaves, level, Sibling(pos)), Node(h, leaves, level, pos)))
         == Node(h, leaves, level + 1, pos / 2)
  {
    if pos % 2 == 0 {
      assert 2 * (pos / 2) == pos;
    } else {
      assert 2 * (pos / 2) + 1 == pos;
    }
  }

  /** Folding a node along its own path reaches its ancestor. */
  lemma FoldReachesAncestor(h: Hash, leaves: map<nat, Fe>, level: nat, pos: nat, n: nat)
    ensures Fold(h, Node(h, leaves, level, pos), PathUp(h, leaves, level, pos, n), Bits(pos, n))
         == Node(h, leaves, level + n, Ancestor(pos, n))
  {
    FoldReaches(h, leaves, level, pos, n, Node(h, leaves, level, pos), level + n, Ancestor(pos, n));
  }

  lemma {:induction false} FoldReaches(h: Hash, leaves: map<nat, Fe>, level: nat, pos: nat, n: nat, cur: Fe, top: nat,
                                       at: nat)
    requires cur == Node(h, leaves, level, pos) && top == level + n && at == Ancestor(pos, n)
    ensures Fold(h, cur, PathUp(h, leaves, level, pos, n), Bits(pos, n)) == Node(h, leaves, top, at)
    decreases n
  {
    hide Node, Fold, PathUp, Bits, Ancestor;
    if n == 0 {
      FoldNothing(h, leaves, level, pos, cur);
    } else {
      var up := Node(h, leaves, level + 1, pos / 2);
      FoldOneLevel(h, leaves, level, pos, n);
      AncestorUnfolds(pos, n);
      FoldReaches(h, leaves, level + 1, pos / 2, n - 1, up, top, at);
    }
  }

  lemma FoldNothing(h: Hash, leaves: map<nat, Fe>, level: nat, pos: nat, cur: Fe)
    ensures Fold(h, cur, PathUp(h, leaves, level, pos, 0), Bits(pos, 0)) == cur && Ancestor(pos, 0) == pos
  {
  }

  lemma AncestorUnfolds(pos: nat, n: nat)
    requires n > 0
    ensures Ancestor(pos, n) == Ancestor(pos / 2, n - 1)
  {
  }

  lemma FoldOneLevel(h: Hash, leaves: map<nat, Fe>, level: nat, pos: nat, n: nat)
    requires n > 0
    ensures Fold(h, Node(h, leaves, level, pos), PathUp(h, leaves, level, pos, n), Bits(pos, n))
         == Fold(h, Node(h, leaves, level + 1, pos / 2), PathUp(h, leaves, level + 1, pos / 2, n - 1),
                 Bits(pos / 2, n - 1))
  {
    PathUnfolds(h, leaves, level, pos, n);
    ParentOfPair(h, leaves, level, pos);
    FoldStep(h, Node(h, leaves, level, pos), PathUp(h, leaves, level, pos, n), Bits(pos, n));
  }

  /** Writing a leaf leaves every sibling on its path unchanged. */
  lemma {:induction false} PathFrame(h: Hash, leaves: map<nat, Fe>, i: nat, v: Fe, level: nat, n: nat)
    ensures PathUp(h, leaves[i := v], level, Ancestor(i, level), n) == PathUp(h, leaves, level, Ancestor(i, level), n)
    decreases n
  {
    if n == 0 {
    } else {
      var pos := Ancestor(i, level);
      NodeFrame(h, leaves, i, v, level, Sibling(pos));
      AncestorStep(i, level);
      PathFrame(h, leaves, i, v, level + 1, n - 1);
    }
  }

  /** The path of a leaf, taken before it is overwritten, folds the old leaf to the old ancestor and the new to the
      new. */
  lemma UpdateByPath(h: Hash, leaves: map<nat, Fe>, i: nat, v: Fe, n: nat)
    ensures Fold(h, LeafAt(leaves, i), PathUp(h, leaves, 0, i, n), Bits(i, n)) == Node(h, leaves, n, Ancestor(i, n))
    ensures Fold(h, v, PathUp(h, leaves, 0, i, n), Bits(i, n)) == Node(h, leaves[i := v], n, Ancestor(i, n))
  {
    FoldReachesAncestor(h, leaves, 0, i, n);
    FoldReachesAncestor(h, leaves[i := v], 0, i, n);
    assert Ancestor(i, 0) == i;
    PathFrame(h, leaves, i, v, 0, n);
  }

  /** Two folds along the same digits that meet started equal and met the same siblings, or they exhibit a collision. */
  lemma {:induction false} FoldBinds(h: Hash, c1: Fe, p1: seq<Fe>, c2: Fe, p2: seq<Fe>, bits: seq<Fe>)
    requires |p1| == |p2| == |bits|
    requires Fold(h, c1, p1, bits) == Fold(h, c2, p2, bits)
    ensures (c1 == c2 && p1 == p2) || Clash(h, FoldInputs(h, c1, p1, bits), FoldInputs(h, c2, p2, bits))
    decreases |bits|
  {
    if bits == [] {
    } else {
      var x1, x2 := Pair(bits[0], p1[0], c1), Pair(bits[0], p2[0], c2);
      var i1, i2 := FoldInputs(h, c1, p1, bits), FoldInputs(h, c2, p2, bits);
      assert i1[0] == x1 && i2[0] == x2;
      FoldBinds(h, h(x1), p1[1..], h(x2), p2[1..], bits[1..]);
      var t1, t2 := FoldInputs(h, h(x1), p1[1..], bits[1..]), FoldInputs(h, h(x2), p2[1..], bits[1..]);
      if Clash(h, t1, t2) {
        var k :| 0 <= k < |t1| && k < |t2| && t1[k] != t2[k] && h(t1[k]) == h(t2[k]);
        assert i1[k + 1] == t1[k] && i2[k + 1] == t2[k];
      } else if x1 == x2 {
        assert x1[0] == x2[0] && x1[1] == x2[1];
        assert p1 == [p1[0]] + p1[1..] && p2 == [p2[0]] + p2[1..];
      }
    }
  }

  /** The root of a tree determines its leaves, up to a collision between the two computations. */
  lemma LeafBinds(h: Hash, leaves: map<nat, Fe>, leaf: Fe, path: seq<Fe>, bits: seq<Fe>)
    requires |path| == |bits| && AllBoolean(bits)
    requires Fold(h, leaf, path, bits) == Node(h, leaves, |bits|, 0)
    ensures (leaf == LeafAt(leaves, PosOf(bits)) && path == PathUp(h, leaves, 0, PosOf(bits), |bits|))
         || Clash(h, FoldInputs(h, leaf, path, bits), HonestInputs(h, leaves, bits))
  {
    var p := PosOf(bits);
    BitsOfPos(bits);
    FoldReachesAncestor(h, leaves, 0, p, |bits|);
    FoldBinds(h, leaf, path, LeafAt(leaves, p), PathUp(h, leaves, 0, p, |bits|), bits);
  }

  /** Trees with one root agree on every leaf, up to a collision. */
  lemma RootBindsLeaf(h: Hash, a: map<nat, Fe>, b: map<nat, Fe>, i: nat, depth: nat)
    requires Ancestor(i, depth) == 0 && Node(h, a, depth, 0) == Node(h, b, depth, 0)
    ensures LeafAt(a, i) == LeafAt(b, i)
         || Clash(h, FoldInputs(h, LeafAt(a, i), PathUp(h, a, 0, i, depth), Bits(i, depth)),
                     FoldInputs(h, LeafAt(b, i), PathUp(h, b, 0, i, depth), Bits(i, depth)))
  {
    hide Node, PathUp, Bits, Fold, FoldInputs, Ancestor, Clash;
    UpdateByPath(h, a, i, 0, depth);
    UpdateByPath(h, b, i, 0, depth);
    FoldBinds(h, LeafAt(a, i), PathUp(h, a, 0, i, depth), LeafAt(b, i), PathUp(h, b, 0, i, depth), Bits(i, depth));
  }

  /** The pairs hashed when the tree itself folds the leaf that `bits` names. */
  function HonestInputs(h: Hash, leaves: map<nat, Fe>, bits: seq<Fe>): seq<seq<Fe>>
    requires AllBoolean(bits)
  {
    FoldInputs(h, LeafAt(leaves, PosOf(bits)), PathUp(h, leaves, 0, PosOf(bits), |bits|), bits)
  }

  /** Account leaf: H(index, pubX, pubY, balance, nonce) over canonical representatives. */
  function LeafHash(h: Hash, index: int, pubX: int, pubY: int, balance: int, nonce: int): Fe {
    h([Reduce(index), Reduce(pubX), Reduce(pubY), Reduce(balance), Reduce(nonce)])
  }
}
