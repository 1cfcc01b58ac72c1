/** The sequencer's database: balance records, the incremental Merkle tree, account ids and metadata. */
module MerkleDB {
  import opened Options
  import opened Field
  import opened Merkle
  import opened Bytes
  import SimpleTree

  /** One leaf's record.  The leaf index is accountID * 256 + tokenID. */
  datatype BalanceState = BalanceState(accountID: nat, tokenID: nat, pubX: nat, pubY: nat, balance: nat, nonce: nat)

  type BalanceMap = map<(nat, nat), BalanceState>

  function LeafIndex(accountID: nat, tokenID: nat): nat {
    accountID * 256 + tokenID
  }

  function RecordHash(h: Hash, acc: BalanceState): Fe {
    LeafHash(h, LeafIndex(acc.accountID, acc.tokenID), acc.pubX, acc.pubY, acc.balance, acc.nonce)
  }

  // ------------------------------------------------------------------ node keys

  /** 12-byte key: 4 bytes of level, 8 bytes of index. */
  function NodeKey(level: nat, index: nat): (key: seq<Byte>)
    ensures |key| == 12
  {
    BigEndian(level, 4) + BigEndian(index, 8)
  }

  /** Different nodes never share a key, and no node key starts like a text key ("balance:", "pubkey:", ...). */
  lemma NodeKeysDistinct(level: nat, index: nat, level': nat, index': nat)
    requires level < Pow256(4) && level' < Pow256(4) && index < Pow256(8) && index' < Pow256(8)
    ensures NodeKey(level, index) == NodeKey(level', index') ==> level == level' && index == index'
    ensures level < Pow256(3) ==> NodeKey(level, index)[0] == 0
  {
    var k, k' := NodeKey(level, index), NodeKey(level', index');
    assert k[..4] == BigEndian(level, 4) && k[4..] == BigEndian(index, 8);
    assert k'[..4] == BigEndian(level', 4) && k'[4..] == BigEndian(index', 8);
    BigEndianRoundTrip(level, 4);
    BigEndianRoundTrip(level', 4);
    BigEndianRoundTrip(index, 8);
    BigEndianRoundTrip(index', 8);
    if level < Pow256(3) {
      LeadingByte(level, 3);
    }
  }

  lemma {:induction false} LeadingByte(x: nat, n: nat)
    requires x < Pow256(n)
    ensures BigEndian(x, n + 1)[0] == 0
  {
    if n == 0 {
    } else {
      LeadingByte(x / 256, n - 1);
      assert BigEndian(x, n + 1)[0] == BigEndian(x / 256, n)[0];
    }
  }

  // ------------------------------------------------------------------ what the node table must hold

  function NodeKeys(indices: set<nat>, depth: nat): set<(nat, nat)> {
    set i, l | i in indices && 0 <= l <= depth :: (l, Ancestor(i, l))
  }

  /** Exactly the ancestors of written leaves are stored, each with the value the recursive tree gives it. */
  function NodesOf(h: Hash, leaves: map<nat, Fe>, depth: nat): map<(nat, nat), Fe> {
    map k | k in NodeKeys(leaves.Keys, depth) :: Node(h, leaves, k.0, k.1)
  }

  /** The leaf at a record's own index holds its hash. */
  predicate HoldsRecord(h: Hash, leaves: map<nat, Fe>, acc: BalanceState) {
    LeafIndex(acc.accountID, acc.tokenID) in leaves
    && leaves[LeafIndex(acc.accountID, acc.tokenID)] == RecordHash(h, acc)
  }

  /** The leaf assignment that a set of balance records stands for. */
  ghost predicate LeavesMatch(h: Hash, balances: BalanceMap, leaves: map<nat, Fe>) {
    && (forall k | k in balances :: k.1 < 256 && balances[k].accountID == k.0 && balances[k].tokenID == k.1)
    && (forall k {:trigger HoldsRecord(h, leaves, balances[k])} | k in balances :: HoldsRecord(h, leaves, balances[k]))
    && (forall i | i in leaves :: exists k :: k in balances && LeafIndex(k.0, k.1) == i)
  }

  lemma AncestorStart(pos: nat)
    ensures Ancestor(pos, 0) == pos
  {
  }

  lemma IndexDigits(accountID: nat, tokenID: nat)
    requires tokenID < 256
    ensures LeafIndex(accountID, tokenID) / 256 == accountID && LeafIndex(accountID, tokenID) % 256 == tokenID
  {
  }

  lemma IndexSplit(index: nat)
    ensures LeafIndex(index / 256, index % 256) == index
  {
  }

  lemma IndexInjective(a: nat, t: nat, a': nat, t': nat)
    requires t < 256 && t' < 256
    ensures LeafIndex(a, t) == LeafIndex(a', t') <==> a == a' && t == t'
  {
  }

  lemma LeavesMatchPut(h: Hash, balances: BalanceMap, leaves: map<nat, Fe>, acc: BalanceState)
    requires LeavesMatch(h, balances, leaves) && acc.tokenID < 256
    ensures LeavesMatch(h, balances[(acc.accountID, acc.tokenID) := acc],
                        leaves[LeafIndex(acc.accountID, acc.tokenID) := RecordHash(h, acc)])
  {
    hide RecordHash, LeafIndex;
    var key, b := (acc.accountID, acc.tokenID), balances[(acc.accountID, acc.tokenID) := acc];
    var l := leaves[LeafIndex(acc.accountID, acc.tokenID) := RecordHash(h, acc)];
    forall k | k in b ensures HoldsRecord(h, l, b[k]) {
      if k != key {
        assert HoldsRecord(h, leaves, balances[k]);
        IndexInjective(k.0, k.1, acc.accountID, acc.tokenID);
      }
    }
    forall i | i in l ensures exists k :: k in b && LeafIndex(k.0, k.1) == i {
      if i == LeafIndex(key.0, key.1) {
        assert key in b;
      } else {
        var k :| k in balances && LeafIndex(k.0, k.1) == i;
        assert k in b;
      }
    }
  }

  /** An index is a leaf exactly when its account and token have a record, and then holds its hash. */
  lemma LeafHasRecord(h: Hash, balances: BalanceMap, leaves: map<nat, Fe>, accountID: nat, tokenID: nat)
    requires LeavesMatch(h, balances, leaves) && tokenID < 256
    ensures LeafIndex(accountID, tokenID) in leaves <==> (accountID, tokenID) in balances
    ensures (accountID, tokenID) in balances ==>
              leaves[LeafIndex(accountID, tokenID)] == RecordHash(h, balances[(accountID, tokenID)])
  {
    hide RecordHash, LeafIndex;
    if (accountID, tokenID) in balances {
      assert HoldsRecord(h, leaves, balances[(accountID, tokenID)]);
    }
    if LeafIndex(accountID, tokenID) in leaves {
      var k :| k in balances && LeafIndex(k.0, k.1) == LeafIndex(accountID, tokenID);
      IndexInjective(k.0, k.1, accountID, tokenID);
    }
  }

  lemma SameBalancesSameLeaves(h: Hash, balances: BalanceMap, a: map<nat, Fe>, b: map<nat, Fe>)
    requires LeavesMatch(h, balances, a) && LeavesMatch(h, balances, b)
    ensures a == b
  {
    hide RecordHash, LeafIndex;
    forall i | i in a ensures i in b && b[i] == a[i] {
      var k :| k in balances && LeafIndex(k.0, k.1) == i;
      assert HoldsRecord(h, a, balances[k]) && HoldsRecord(h, b, balances[k]);
    }
    forall i | i in b ensures i in a {
      var k :| k in balances && LeafIndex(k.0, k.1) == i;
      assert HoldsRecord(h, a, balances[k]);
    }
  }

  lemma EmptyDatabase(h: Hash, depth: nat)
    ensures NodesOf(h, map[], depth) == map[] && LeavesMatch(h, map[], map[])
  {
    hide Node;
    var leaves: map<nat, Fe> := map[];
    assert NodeKeys(leaves.Keys, depth) == {};
  }

  /** The stored or defaulted value of a node is the recursive tree's value. */
  lemma StoredNode(h: Hash, leaves: map<nat, Fe>, depth: nat, level: nat, pos: nat)
    requires level <= depth
    ensures (if (level, pos) in NodesOf(h, leaves, depth) then NodesOf(h, leaves, depth)[(level, pos)]
             else ZeroHash(h, level))
         == Node(h, leaves, level, pos)
  {
    if (level, pos) !in NodesOf(h, leaves, depth) {
      forall i | i in leaves ensures Ancestor(i, level) != pos {
        assert (level, Ancestor(i, level)) in NodeKeys(leaves.Keys, depth);
      }
      EmptySubtree(h, leaves, level, pos);
    }
  }

  /** Each node the database serves is the node the in-memory tree recomputes from the same leaves. */
  lemma RefinesSimpleTree(h: Hash, leaves: map<nat, Fe>, depth: nat, index: nat, level: nat)
    requires level <= depth
    ensures var k, table := (level, index / Pow2(level)), NodesOf(h, leaves, depth);
            (if k in table then table[k] else ZeroHash(h, level)) == SimpleTree.GetNode(h, leaves, index, level)
  {
    AncestorIsShift(index, level);
    StoredNode(h, leaves, depth, level, Ancestor(index, level));
    SimpleTree.GetNodeIsNode(h, leaves, index, level);
  }

  /** The nodes on the way from leaf i up n levels. */
  function PathNodes(h: Hash, leaves: map<nat, Fe>, i: nat, n: nat): map<(nat, nat), Fe> {
    if n == 0 then map[(0, i) := LeafAt(leaves, i)]
    else PathNodes(h, leaves, i, n - 1)[(n, Ancestor(i, n)) := Node(h, leaves, n, Ancestor(i, n))]
  }

  lemma {:induction false} PathNodesContents(h: Hash, leaves: map<nat, Fe>, i: nat, n: nat)
    ensures forall k :: k in PathNodes(h, leaves, i, n) <==> 0 <= k.0 <= n && k.1 == Ancestor(i, k.0)
    ensures forall k | k in PathNodes(h, leaves, i, n) :: PathNodes(h, leaves, i, n)[k] == Node(h, leaves, k.0, k.1)
  {
    if n == 0 {
    } else {
      PathNodesContents(h, leaves, i, n - 1);
    }
  }

  /** One level of the write: the hash of the node and its old sibling is the parent in the new tree. */
  lemma ParentAfterWrite(h: Hash, leaves: map<nat, Fe>, i: nat, v: Fe, level: nat)
    ensures var pos, t := Ancestor(i, level), leaves[i := v];
            h(Pair(pos % 2, Node(h, leaves, level, Sibling(pos)), Node(h, t, level, pos)))
            == Node(h, t, level + 1, Ancestor(i, level + 1))
    ensures Ancestor(i, level + 1) == Ancestor(i, level) / 2
  {
    AncestorStep(i, level);
    NodeFrame(h, leaves, i, v, level, Sibling(Ancestor(i, level)));
  }

  /** Rewriting the ancestors of one leaf turns the node table of the old leaves into that of the new leaves. */
  lemma NodesAfterWrite(h: Hash, leaves: map<nat, Fe>, depth: nat, i: nat, v: Fe)
    ensures NodesOf(h, leaves, depth) + PathNodes(h, leaves[i := v], i, depth) == NodesOf(h, leaves[i := v], depth)
  {
    var batch := PathNodes(h, leaves[i := v], i, depth);
    PathNodesContents(h, leaves[i := v], i, depth);
    var before, after := NodesOf(h, leaves, depth) + batch, NodesOf(h, leaves[i := v], depth);
    forall k | k in before ensures k in after && before[k] == after[k] {
      if k in batch {
        assert i in leaves[i := v];
      } else {
        var j :| j in leaves && k == (k.0, Ancestor(j, k.0));
        assert j in leaves[i := v];
        NodeFrame(h, leaves, i, v, k.0, k.1);
      }
    }
    forall k | k in after ensures k in before {
      var j :| j in leaves[i := v] && k == (k.0, Ancestor(j, k.0));
      if j != i {
        assert j in leaves;
      }
    }
  }

  /** One atomic database write of the ledger part: a record, a leaf with its ancestors, or a metadata value. */
  datatype Write =
    | PutBalance(acc: BalanceState)
    | PutLeaf(index: nat, hash: Fe)
    | PutMeta(key: string, value: seq<Byte>)

  function TrimPrefix(key: string): string {
    if |key| >= 2 && key[..2] == "0x" then key[2..] else key
  }

  class LevelDBMerkleTree {
    const h: Hash
    const depth: nat
    var zeroHashes: seq<Fe>
    var balances: BalanceMap
    var nodes: map<(nat, nat), Fe>
    var meta: map<string, seq<Byte>>
    var pubkeys: map<string, nat>
    var nextAccountID: nat
    ghost var leaves: map<nat, Fe>  // the current leaf assignment
    ghost var writes: seq<Write>    // every ledger write so far

    ghost predicate Valid()
      reads this
    {
      && |zeroHashes| == depth + 1
      && (forall l | 0 <= l <= depth :: zeroHashes[l] == ZeroHash(h, l))
      && nodes == NodesOf(h, leaves, depth)
      && (forall p | p in pubkeys :: pubkeys[p] < nextAccountID)
      && (forall p, q | p in pubkeys && q in pubkeys && pubkeys[p] == pubkeys[q] :: p == q)
    }

    /** Every balance record has its leaf in the tree and there are no other leaves. */
    ghost predicate Synced()
      reads this
    {
      Valid() && LeavesMatch(h, balances, leaves)
    }

    constructor (h: Hash, depth: nat)
      ensures Synced() && this.h == h && this.depth == depth
      ensures balances == map[] && leaves == map[] && meta == map[] && pubkeys == map[] && nextAccountID == 0
              && writes == []
    {
      this.h, this.depth := h, depth;
      balances, nodes, meta, pubkeys, nextAccountID := map[], map[], map[], map[], 0;
      leaves, writes := map[], [];
      new;
      hide NodesOf, LeavesMatch, Node;
      ComputeZeroHashes();
      EmptyDatabase(h, depth);
    }

    method ComputeZeroHashes()
      modifies this`zeroHashes
      ensures |zeroHashes| == depth + 1 && forall l | 0 <= l <= depth :: zeroHashes[l] == ZeroHash(h, l)
    {
      hide ZeroHash;
      ZeroHashLeaf(h);
      zeroHashes := [0];
      for i := 1 to depth + 1
        invariant |zeroHashes| == i
        invariant forall l | 0 <= l < i :: zeroHashes[l] == ZeroHash(h, l)
      {
        ZeroHashUp(h, i - 1);
        zeroHashes := zeroHashes + [h([zeroHashes[i - 1], zeroHashes[i - 1]])];
      }
    }

    function GetNode(level: nat, index: nat): (value: Fe)
      requires Valid() && level <= depth
      reads this
      ensures value == Node(h, leaves, level, index)
    {
      StoredNode(h, leaves, depth, level, index);
      if (level, index) in nodes then nodes[(level, index)] else zeroHashes[level]
    }

    method Update(index: nat, leafHash: Fe)
      requires Valid()
      modifies this`nodes, this`leaves, this`writes
      ensures Valid()
      ensures leaves == old(leaves)[index := leafHash]
      ensures writes == old(writes) + [PutLeaf(index, leafHash)]
    {
      ghost var target := leaves[index := leafHash];
      var cur, at := leafHash, index;
      var batch := map[(0, index) := leafHash];
      for i := 0 to depth
        invariant nodes == old(nodes) && leaves == old(leaves) && writes == old(writes)
        invariant at == Ancestor(index, i) && cur == Node(h, target, i, at)
        invariant batch == PathNodes(h, target, index, i)
      {
        var sibling := GetNode(i, Sibling(at));
        var left, right := cur, sibling;
        if at % 2 == 1 {
          left, right := sibling, cur;
        }
        ParentAfterWrite(h, leaves, index, leafHash, i);
        cur := h([left, right]);
        at := at / 2;
        batch := batch[(i + 1, at) := cur];
      }
      NodesAfterWrite(h, leaves, depth, index, leafHash);
      nodes := nodes + batch;
      leaves, writes := target, writes + [PutLeaf(index, leafHash)];
    }

    method GetPath(index: nat) returns (path: array<Fe>, bits: array<Fe>)
      requires Valid()
      ensures path[..] == PathUp(h, leaves, 0, index, depth)
      ensures bits[..] == Bits(index, depth)
    {
      hide Node, PathUp, Bits, NodesOf, Ancestor;
      AncestorStart(index);
      path, bits := new Fe[depth], new Fe[depth];
      var at := index;
      for i := 0 to depth
        invariant at == Ancestor(index, i)
        invariant forall j | 0 <= j < i :: path[j] == PathUp(h, leaves, 0, index, depth)[j]
        invariant forall j | 0 <= j < i :: bits[j] == Bits(index, depth)[j]
      {
        PathAt(h, leaves, 0, index, depth, i);
        BitAt(index, depth, i);
        AncestorStep(index, i);
        path[i] := GetNode(i, Sibling(at));
        bits[i] := at % 2;
        at := at / 2;
      }
    }

    function Root(): (root: Fe)
      requires Valid()
      reads this
      ensures root == Node(h, leaves, depth, 0)
    {
      GetNode(depth, 0)
    }

    function GetBalance(accountID: nat, tokenID: nat): Option<BalanceState>
      reads this
    {
      if (accountID, tokenID) in balances then Some(balances[(accountID, tokenID)]) else None
    }

    /** Two database writes: the record, then the leaf with its ancestors. */
    method SetBalance(acc: BalanceState)
      requires Valid()
      modifies this`balances, this`nodes, this`leaves, this`writes
      ensures Valid()
      ensures writes == old(writes) + [PutBalance(acc),
                                       PutLeaf(LeafIndex(acc.accountID, acc.tokenID), RecordHash(h, acc))]
      ensures balances == old(balances)[(acc.accountID, acc.tokenID) := acc]
      ensures leaves == old(leaves)[LeafIndex(acc.accountID, acc.tokenID) := RecordHash(h, acc)]
      ensures old(Synced()) && acc.tokenID < 256 ==> Synced()
    {
      if Synced() && acc.tokenID < 256 {
        LeavesMatchPut(h, balances, leaves, acc);
      }
      balances, writes := balances[(acc.accountID, acc.tokenID) := acc], writes + [PutBalance(acc)];
      Update(LeafIndex(acc.accountID, acc.tokenID), RecordHash(h, acc));
    }

    method SetMeta(key: string, value: seq<Byte>)
      modifies this`meta, this`writes
      ensures meta == old(meta)[key := value] && writes == old(writes) + [PutMeta(key, value)]
    {
      meta, writes := meta[key := value], writes + [PutMeta(key, value)];
    }

    method GetNextAccountID() returns (id: nat)
      requires Valid()
      modifies this`nextAccountID
      ensures Valid() && id == old(nextAccountID) && nextAccountID == id + 1
    {
      id := nextAccountID;
      nextAccountID := id + 1;
    }

    /** A known key keeps its id; an unknown one gets an id no key has had. */
    method GetAccountID(pubKeyHex: string) returns (id: nat)
      requires Valid()
      modifies this`pubkeys, this`nextAccountID
      ensures Valid()
      ensures TrimPrefix(pubKeyHex) in pubkeys && pubkeys[TrimPrefix(pubKeyHex)] == id
      ensures TrimPrefix(pubKeyHex) in old(pubkeys) ==> pubkeys == old(pubkeys) && nextAccountID == old(nextAccountID)
      ensures TrimPrefix(pubKeyHex) !in old(pubkeys) ==>
        pubkeys == old(pubkeys)[TrimPrefix(pubKeyHex) := id] && id == old(nextAccountID) && nextAccountID == id + 1
    {
      var clean := TrimPrefix(pubKeyHex);
      if clean in pubkeys {
        id := pubkeys[clean];
      } else {
        id := GetNextAccountID();
        pubkeys := pubkeys[clean := id];
      }
    }
  }

  /** A key has one account with and without its prefix: whoever asks first, both spellings get the same id. */
  method PrefixIsNoAccount(tree: LevelDBMerkleTree, pubKeyHex: string) returns (a: nat, b: nat)
    requires tree.Valid() && (|pubKeyHex| >= 2 ==> pubKeyHex[..2] != "0x")
    modifies tree`pubkeys, tree`nextAccountID
    ensures tree.Valid() && a == b
  {
    hide NodesOf;
    a := tree.GetAccountID("0x" + pubKeyHex);
    b := tree.GetAccountID(pubKeyHex);
  }
}
