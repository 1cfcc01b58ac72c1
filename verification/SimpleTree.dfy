/** The in-memory tree used beside the circuit: recomputes every node from the leaf map. */
module SimpleTree {
  import opened Field
  import opened Merkle

  // 64-bit index arithmetic, digit by digit

  /** x & ^(1 << k) */
  function ClearBit(x: nat, k: nat): nat {
    if k == 0 then x - x % 2 else x % 2 + 2 * ClearBit(x / 2, k - 1)
  }

  /** x | (1 << k) */
  function SetBit(x: nat, k: nat): nat {
    if k == 0 then x - x % 2 + 1 else x % 2 + 2 * SetBit(x / 2, k - 1)
  }

  /** x ^ (1 << k) */
  function FlipBit(x: nat, k: nat): nat {
    if k == 0 then Sibling(x) else x % 2 + 2 * FlipBit(x / 2, k - 1)
  }

  lemma BitsAboveLevel(x: nat, k: nat)
    ensures Ancestor(ClearBit(x, k), k) == 2 * Ancestor(x, k + 1)
    ensures Ancestor(SetBit(x, k), k) == 2 * Ancestor(x, k + 1) + 1
    ensures Ancestor(FlipBit(x, k), k) == Sibling(Ancestor(x, k))
  {
    hide Ancestor, ClearBit, SetBit, FlipBit, Sibling;
    ClearedAbove(x, k);
    SetAbove(x, k);
    FlippedAbove(x, k);
  }

  lemma {:induction false} ClearedAbove(x: nat, k: nat)
    ensures Ancestor(ClearBit(x, k), k) == 2 * Ancestor(x, k + 1)
  {
    if k == 0 {
      assert Ancestor(x, 1) == Ancestor(x / 2, 0) == x / 2;
    } else {
      ClearedAbove(x / 2, k - 1);
      assert ClearBit(x, k) / 2 == ClearBit(x / 2, k - 1);
    }
  }

  lemma {:induction false} SetAbove(x: nat, k: nat)
    ensures Ancestor(SetBit(x, k), k) == 2 * Ancestor(x, k + 1) + 1
  {
    if k == 0 {
      assert Ancestor(x, 1) == Ancestor(x / 2, 0) == x / 2;
    } else {
      SetAbove(x / 2, k - 1);
      assert SetBit(x, k) / 2 == SetBit(x / 2, k - 1);
    }
  }

  lemma {:induction false} FlippedAbove(x: nat, k: nat)
    ensures Ancestor(FlipBit(x, k), k) == Sibling(Ancestor(x, k))
  {
    hide Sibling;
    if k == 0 {
    } else {
      FlippedAbove(x / 2, k - 1);
      assert FlipBit(x, k) / 2 == FlipBit(x / 2, k - 1);
    }
  }

  /** Value of the node covering `index` at a level, recomputed from the leaves. */
  function GetNode(h: Hash, leaves: map<nat, Fe>, index: nat, level: nat): Fe
    decreases level
  {
    if level == 0 then
      if index in leaves then leaves[index] else 0
    else
      var left := GetNode(h, leaves, ClearBit(index, level - 1), level - 1);
      var right := GetNode(h, leaves, SetBit(index, level - 1), level - 1);
      h([left, right])
  }

  /** The low digits of the index that the recursion carries along never matter. */
  lemma {:induction false} GetNodeIsNode(h: Hash, leaves: map<nat, Fe>, index: nat, level: nat)
    ensures GetNode(h, leaves, index, level) == Node(h, leaves, level, Ancestor(index, level))
    decreases level
  {
    hide ClearBit, SetBit;
    if level == 0 {
      assert Ancestor(index, 0) == index;
    } else {
      BitsAboveLevel(index, level - 1);
      GetNodeIsNode(h, leaves, ClearBit(index, level - 1), level - 1);
      GetNodeIsNode(h, leaves, SetBit(index, level - 1), level - 1);
    }
  }

  /** The i-th entry of the path and digits, in the form the loop computes them. */
  lemma StepOfPath(h: Hash, leaves: map<nat, Fe>, index: nat, depth: nat, i: nat)
    requires i < depth
    ensures Bits(index, depth)[i] == (index / Pow2(i)) % 2
    ensures PathUp(h, leaves, 0, index, depth)[i] == GetNode(h, leaves, FlipBit(index, i), i)
  {
    AncestorIsShift(index, i);
    BitAt(index, depth, i);
    BitsAboveLevel(index, i);
    GetNodeIsNode(h, leaves, FlipBit(index, i), i);
    PathAt(h, leaves, 0, index, depth, i);
  }

  lemma {:induction false} AncestorOfZero(n: nat)
    ensures Ancestor(0, n) == 0
  {
    if n == 0 {
    } else {
      AncestorOfZero(n - 1);
    }
  }

  class SparseMerkleTree {
    const h: Hash
    const depth: nat
    var leaves: map<nat, Fe>
    var zeroHashes: seq<Fe>

    ghost predicate Valid()
      reads this
    {
      |zeroHashes| == depth + 1 && forall l | 0 <= l <= depth :: zeroHashes[l] == ZeroHash(h, l)
    }

    constructor (h: Hash, depth: nat)
      ensures Valid() && this.h == h && this.depth == depth && leaves == map[]
    {
      this.h, this.depth, leaves := h, depth, map[];
      new;
      ComputeZeroHashes();
    }

    method ComputeZeroHashes()
      modifies this`zeroHashes
      ensures Valid()
    {
      hide ZeroHash;
      ZeroHashLeaf(h);
      zeroHashes := [0];
      for i := 1 to depth + 1
        invariant |zeroHashes| == i
        invariant forall l | 0 <= l < i :: zeroHashes[l] == ZeroHash(h, l)
      {
        ZeroHashUp(h, i - 1);
        zeroHashes := zeroHashes + [h([zeroHashes[i - 1], zeroHashes[i - 1]])];
      }
    }

    method Update(index: nat, value: Fe)
      modifies this`leaves
      ensures leaves == old(leaves)[index := value]
    {
      leaves := leaves[index := value];
    }

    method GetPath(index: nat) returns (path: array<Fe>, bits: array<Fe>)
      ensures path[..] == PathUp(h, leaves, 0, index, depth)
      ensures bits[..] == Bits(index, depth)
    {
      path, bits := new Fe[depth], new Fe[depth];
      for i := 0 to depth
        invariant forall j | 0 <= j < i :: path[j] == PathUp(h, leaves, 0, index, depth)[j]
        invariant forall j | 0 <= j < i :: bits[j] == Bits(index, depth)[j]
      {
        StepOfPath(h, leaves, index, depth, i);
        bits[i] := (index / Pow2(i)) % 2;
        path[i] := GetNode(h, leaves, FlipBit(index, i), i);
      }
    }

    method Root() returns (root: Fe)
      ensures root == Node(h, leaves, depth, 0)
    {
      AncestorOfZero(depth);
      GetNodeIsNode(h, leaves, 0, depth);
      root := GetNode(h, leaves, 0, depth);
    }
  }
}
