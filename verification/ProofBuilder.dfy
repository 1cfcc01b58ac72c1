/** The offline tool as a whole: replay, compare with the chain, and build an escape proof for a key. */
module ProofBuilder {
  import opened Batcher
  import opened CrashReplay
  import opened EndToEnd
  import opened Field
  import opened Merkle
  import opened MerkleDB
  import opened Options
  import opened Replay
  import opened Rollup
  import opened Sequencer

  datatype ProofOutput = ProofOutput(
    accountID: nat, tokenID: nat, index: nat, balance: nat, nonce: nat, pubX: nat, pubY: nat, siblings: seq<Fe>,
        pathBits: seq<Fe>)

  /** What a proof file for an account and token holds: the leaf's path, and its record or zeros. */
  ghost predicate BuiltFor(h: Hash, depth: nat, d: Data, id: nat, token: nat, o: ProofOutput) {
    && o.accountID == id && o.tokenID == token && o.index == LeafIndex(id, token)
    && o.siblings == PathUp(h, d.leaves, 0, o.index, depth) && o.pathBits == Bits(o.index, depth)
    && if (id, token) in d.balances then
         var acc := d.balances[(id, token)];
         o.balance == acc.balance && o.nonce == acc.nonce && o.pubX == acc.pubX && o.pubY == acc.pubY
       else o.balance == 0 && o.nonce == 0 && o.pubX == 0 && o.pubY == 0
  }

  /** The proof is for the id the key has in this database, or for the next free one when it has none. */
  method BuildProof(tree: LevelDBMerkleTree, pubkey: string, tokenID: nat) returns (proof: ProofOutput)
    requires tree.Valid()
    modifies tree`pubkeys, tree`nextAccountID
    ensures tree.Valid()
    ensures BuiltFor(tree.h, tree.depth, Data(tree.balances, tree.leaves), old(IdFor(tree, pubkey)), tokenID, proof)
    ensures TrimPrefix(pubkey) in tree.pubkeys && tree.pubkeys[TrimPrefix(pubkey)] == old(IdFor(tree, pubkey))
    ensures TrimPrefix(pubkey) in old(tree.pubkeys) ==>
              tree.pubkeys == old(tree.pubkeys) && tree.nextAccountID == old(tree.nextAccountID)
    ensures TrimPrefix(pubkey) !in old(tree.pubkeys) ==>
              && tree.pubkeys == old(tree.pubkeys)[TrimPrefix(pubkey) := old(tree.nextAccountID)]
              && tree.nextAccountID == old(tree.nextAccountID) + 1
  {
    hide NodesOf, Node;
    var accID := tree.GetAccountID(pubkey);
    var acc := tree.GetBalance(accID, tokenID);
    var balance, nonce, pubX, pubY := 0, 0, 0, 0;
    if acc.Some? {
      balance, nonce, pubX, pubY := acc.value.balance, acc.value.nonce, acc.value.pubX, acc.value.pubY;
    }
    var index := accID * 256 + tokenID;
    var path, bits := tree.GetPath(index);
    proof := ProofOutput(accID, tokenID, index, balance, nonce, pubX, pubY, path[..], bits[..]);
  }

  // ------------------------------------------------------------------ from a proof file to a claim

  predicate FitsWords(o: ProofOutput) {
    o.index < TWO_TO_256 && o.balance < TWO_TO_256 && o.nonce < TWO_TO_256 && o.pubX < TWO_TO_256 && o.pubY < TWO_TO_256
    && |o.siblings| == DEPTH && |o.pathBits| == DEPTH
  }

  /** The claim a user submits from a proof file. */
  function ClaimOf(o: ProofOutput): (p: EscapeProof)
    requires FitsWords(o)
    ensures WellFormed(p)
  {
    EscapeProof(o.tokenID, o.balance, o.nonce, o.pubX, o.pubY, o.index,
      seq(DEPTH, i requires 0 <= i < DEPTH => o.siblings[i] as Bytes32),
          seq(DEPTH, i requires 0 <= i < DEPTH => o.pathBits[i] == 1))
  }

  lemma WordsOfOutput(o: ProofOutput)
    requires FitsWords(o) && AllBoolean(o.pathBits)
    ensures Words(ClaimOf(o).siblings) == o.siblings && BitsOf(ClaimOf(o).pathBits) == o.pathBits
  {
    var p := ClaimOf(o);
    forall i | 0 <= i < DEPTH ensures Words(p.siblings)[i] == o.siblings[i] && BitsOf(p.pathBits)[i] == o.pathBits[i] {
      assert Reduce(o.siblings[i]) == o.siblings[i];
    }
  }

  /** A proof built from a tree folds to that tree's root when the leaf is opened; for a leaf never written it can
      only do so by exhibiting a zero preimage or a collision. */
  lemma BuiltProofPasses(h: Hash, d: Data, id: nat, token: nat, o: ProofOutput)
    requires LeavesMatch(h, d.balances, d.leaves) && BuiltFor(h, DEPTH, d, id, token, o) && FitsWords(o)
    requires token < 256 && LeafIndex(id, token) < Pow2(DEPTH)
    ensures ClaimOf(o).tokenId == token == ClaimOf(o).index % 256
    ensures (id, token) in d.balances ==>
              ClaimRoot(h, ClaimOf(o)) == Node(h, d.leaves, DEPTH, 0)
              && ClaimOf(o).balance == d.balances[(id, token)].balance
    ensures (id, token) !in d.balances && ClaimRoot(h, ClaimOf(o)) == Node(h, d.leaves, DEPTH, 0) ==>
              var leaf := LeafHash(h, o.index, 0, 0, 0, 0);
              leaf == 0 || Clash(h, FoldInputs(h, leaf, o.siblings, o.pathBits), HonestInputs(h, d.leaves, o.pathBits))
  {
    hide Node, PathUp, Bits, Fold, FoldInputs, LeafHash, HonestInputs, Clash, Ancestor, LeavesMatch, Pow2;
    AncestorOfSmall(o.index, DEPTH);
    IndexDigits(id, token);
    WordsOfOutput(o);
    UpdateByPath(h, d.leaves, o.index, 0, DEPTH);
    NoLeafWithoutRecord(h, d.balances, d.leaves, id, token);
    if (id, token) in d.balances {
      assert LeafAt(d.leaves, o.index) == RecordHash(h, d.balances[(id, token)]);
    } else if ClaimRoot(h, ClaimOf(o)) == Node(h, d.leaves, DEPTH, 0) {
      LeafBinds(h, d.leaves, LeafHash(h, o.index, 0, 0, 0, 0), o.siblings, o.pathBits);
      PosOfBits(o.index, DEPTH);
    }
  }

  // ------------------------------------------------------------------ whose leaf a proof is about

  /** The proof's coordinates are those the key decodes to. */
  predicate CarriesKey(env: Env, o: ProofOutput, key: string) {
    env.decodeKey(key) == Some((Reduce(o.pubX), Reduce(o.pubY)))
  }

  /** On the sequencer's own database a key's proof for an opened leaf passes, and is about the key's own leaf. */
  lemma OwnProofPasses(env: Env, tree: LevelDBMerkleTree, pubkey: string, token: nat, o: ProofOutput)
    requires TreeOk(env, tree) && tree.depth == DEPTH && TrimPrefix(pubkey) in tree.pubkeys && token < 256
    requires (IdFor(tree, pubkey), token) in tree.balances && LeafIndex(IdFor(tree, pubkey), token) < Pow2(DEPTH)
    requires BuiltFor(tree.h, DEPTH, Data(tree.balances, tree.leaves), IdFor(tree, pubkey), token, o) && FitsWords(o)
    ensures ClaimRoot(tree.h, ClaimOf(o)) == tree.Root() && CarriesKey(env, o, TrimPrefix(pubkey))
    ensures o.balance == tree.balances[(IdFor(tree, pubkey), token)].balance
  {
    hide Node, PathUp, Bits, LeavesMatch, KeysMatch, Reduce, NodesOf, ClaimRoot, Pow2;
    BuiltProofPasses(tree.h, Data(tree.balances, tree.leaves), IdFor(tree, pubkey), token, o);
    OwnerIsKey(env, tree.balances, tree.pubkeys, TrimPrefix(pubkey), token);
  }

  /** A key the sequencer does not know gets a proof of an unwritten leaf, with zeros. */
  lemma UnknownKeyHasNoLeaf(env: Env, tree: LevelDBMerkleTree, pubkey: string, token: nat)
    requires TreeOk(env, tree) && TrimPrefix(pubkey) !in tree.pubkeys
    ensures (IdFor(tree, pubkey), token) !in tree.balances
  {
    hide Node, NodesOf, LeavesMatch, Reduce;
  }

  /** On a database that replay has rebuilt from the sequencer's, ids are handed out afresh.  The proof for a key
      with an opened leaf is about the key's own account exactly when this database gives the key the sequencer's id.
      Then it passes with the key's own coordinates and balance; otherwise it names another leaf, and if that one is
      opened it passes with the coordinates of another key.  `st` is the sequencer's state at the last seal, whose
      root is the one on chain. */
  lemma RebuiltProof(env: Env, st: Books, d: Data, pubkey: string, token: nat, id: nat, o: ProofOutput)
    requires StateOk(env, st) && TrimPrefix(pubkey) in st.pubkeys && token < 256
    requires LeavesMatch(env.p.h, d.balances, d.leaves) && Mirrors(st.balances, st.leaves, d)
    requires (st.pubkeys[TrimPrefix(pubkey)], token) in st.balances
    requires LeafIndex(st.pubkeys[TrimPrefix(pubkey)], token) < Pow2(DEPTH) && LeafIndex(id, token) < Pow2(DEPTH)
    requires BuiltFor(env.p.h, DEPTH, d, id, token, o) && FitsWords(o)
    ensures o.index == LeafIndex(st.pubkeys[TrimPrefix(pubkey)], token) <==> id == st.pubkeys[TrimPrefix(pubkey)]
    ensures id == st.pubkeys[TrimPrefix(pubkey)] ==>
              && ClaimRoot(env.p.h, ClaimOf(o)) == Node(env.p.h, st.leaves, DEPTH, 0)
              && CarriesKey(env, o, TrimPrefix(pubkey))
              && o.balance == st.balances[(id, token)].balance && o.nonce == st.balances[(id, token)].nonce
    ensures id != st.pubkeys[TrimPrefix(pubkey)] && (id, token) in st.balances ==>
              && ClaimRoot(env.p.h, ClaimOf(o)) == Node(env.p.h, st.leaves, DEPTH, 0)
              && exists other | other in st.pubkeys ::
                   other != TrimPrefix(pubkey) && st.pubkeys[other] == id && CarriesKey(env, o, other)
  {
    hide Node, PathUp, Bits, LeavesMatch, Reduce, ClaimRoot, Pow2;
    var own := st.pubkeys[TrimPrefix(pubkey)];
    IndexInjective(id, token, own, token);
    BuiltProofPasses(env.p.h, d, id, token, o);
    if id == own {
      assert SameRecord(st.balances[(id, token)], d.balances[(id, token)]);
      StateOwner(env, st, TrimPrefix(pubkey), token);
    } else if (id, token) in st.balances {
      assert SameRecord(st.balances[(id, token)], d.balances[(id, token)]);
      var other :| other in st.pubkeys && st.pubkeys[other] == id && OwnedBy(env, st.balances[(id, token)], other);
      assert CarriesKey(env, o, other);
    }
  }

  lemma StateOwner(env: Env, st: Books, key: string, token: nat)
    requires StateOk(env, st) && key in st.pubkeys && (st.pubkeys[key], token) in st.balances
    ensures OwnedBy(env, st.balances[(st.pubkeys[key], token)], key)
  {
    hide LeavesMatch, KeysMatch, OwnedBy;
    OwnerIsKey(env, st.balances, st.pubkeys, key, token);
  }

  // ------------------------------------------------------------------ one start of the tool

  datatype Reconstruction = NoProof | Proof(proof: ProofOutput)

  /** Replays to the chain's batch count, insists on the chain's root, then builds the proof.  Replay assigns no
      account ids, so the proof is for the id the database gave the key on an earlier start, or for the next free
      one. */
  method Reconstruct(tree: LevelDBMerkleTree, payloads: seq<Payload>, batchCount: nat, stateRoot: Fe, pubkey: string,
                     tokenID: nat)
    returns (outcome: Reconstruction)
    requires tree.Valid() && batchCount <= |payloads| && batchCount < TWO_TO_64
    modifies tree
    ensures tree.Valid()
    ensures old(ReadCheckpoint(tree.meta)).Corrupt? ==> outcome.NoProof? && StoreOf(tree) == old(StoreOf(tree))
    ensures old(ReadCheckpoint(tree.meta)).Next? ==>
              var b := old(ReadCheckpoint(tree.meta)).batch;
              var run := RunBatches(tree.h, tree.depth, payloads, b, batchCount, old(StoreOf(tree)));
              && (outcome.Proof? <==> run.Finished? && Node(tree.h, run.s.leaves, tree.depth, 0) == stateRoot)
              && (run.Finished? ==> StoreOf(tree) == run.s)
              && StoreOf(tree) == EndOf(tree.h, tree.depth, payloads, b, batchCount, old(StoreOf(tree)))
    ensures outcome.Proof? ==>
              BuiltFor(tree.h, tree.depth, DataOf(StoreOf(tree)), old(IdFor(tree, pubkey)), tokenID, outcome.proof)
    ensures outcome.NoProof? ==> tree.pubkeys == old(tree.pubkeys) && tree.nextAccountID == old(tree.nextAccountID)
  {
    hide NodesOf, Node, RunBatches, EndOf, ReadCheckpoint, BuiltFor;
    var replayed := ReplayAllBatches(tree, payloads, batchCount);
    if !replayed || tree.Root() != stateRoot {
      return NoProof;
    }
    var proof := BuildProof(tree, pubkey, tokenID);
    outcome := Proof(proof);
  }

  /** On a new data directory a first start that fetches every sealed batch always passes its checks, also while the
      sequencer has calls pending, and builds the proof of account 0's leaf, whoever asks: it is the key's own
      exactly when the sequencer gave that key id 0, and otherwise, if that leaf was opened, it passes as another
      key's. */
  method FirstProof(env: Env, tool: LevelDBMerkleTree, payloads: seq<Payload>, stateRoot: Fe, pubkey: string,
                    tokenID: nat, ghost base: Data, ghost groups: seq<seq<Added>>, ghost st: Books)
                      returns (outcome: Reconstruction)
    requires SealedAt(env, base, groups, st) && env.p.depth == DEPTH && tokenID < 256
             && TrimPrefix(pubkey) in st.pubkeys
    requires (st.pubkeys[TrimPrefix(pubkey)], tokenID) in st.balances
    requires LeafIndex(st.pubkeys[TrimPrefix(pubkey)], tokenID) < Pow2(DEPTH)
    requires tool.Valid() && tool.h == env.p.h && tool.depth == DEPTH && DataOf(StoreOf(tool)) == base
    requires ReadCheckpoint(tool.meta) == Next(0) && tool.pubkeys == map[] && tool.nextAccountID == 0
    requires payloads == Payloads(groups) && |payloads| < TWO_TO_64 && stateRoot == Node(env.p.h, st.leaves, DEPTH, 0)
    modifies tool
    ensures outcome.Proof? && outcome.proof.accountID == 0 && outcome.proof.index == tokenID
    ensures var own, proof := st.pubkeys[TrimPrefix(pubkey)], outcome.proof;
            && (proof.index == LeafIndex(own, tokenID) <==> own == 0)
            && (FitsWords(proof) && (0, tokenID) in st.balances ==> ClaimRoot(env.p.h, ClaimOf(proof)) == stateRoot)
            && (FitsWords(proof) && own == 0 ==> CarriesKey(env, proof, TrimPrefix(pubkey)))
            && (FitsWords(proof) && own != 0 && (0, tokenID) in st.balances ==>
                  exists other | other in st.pubkeys :: other != TrimPrefix(pubkey) && CarriesKey(env, proof, other))
  {
    hide Node, NodesOf, PathUp, Bits, LeavesMatch, KeysMatch, Reduce, Mirrors, ClaimRoot, Pow2, RunBatches, StateOk,
         SealedAt, ReadCheckpoint, Payloads;
    ghost var before := StoreOf(tool);
    SealedParts(env, base, groups, st);
    ReplayRebuildsSealed(env, base, groups, st, before);
    ghost var run := RunBatches(tool.h, DEPTH, payloads, 0, |payloads|, before);
    SameLeaves(st, run.s);
    outcome := Reconstruct(tool, payloads, |payloads|, stateRoot, pubkey, tokenID);
    IndexInjective(0, tokenID, st.pubkeys[TrimPrefix(pubkey)], tokenID);
    assert LeafIndex(0, tokenID) == tokenID;
    assert tokenID < Pow2(DEPTH) by { TokenFits(tokenID); }
    if FitsWords(outcome.proof) {
      RebuiltProof(env, st, DataOf(run.s), pubkey, tokenID, 0, outcome.proof);
    }
  }

  lemma SealedParts(env: Env, base: Data, groups: seq<seq<Added>>, st: Books)
    requires SealedAt(env, base, groups, st)
    ensures StateOk(env, st) && forall k | 0 <= k < |groups| :: groups[k] != []
  {
    hide StateOk, Reproduces, LeavesMatch;
  }

  lemma SameLeaves(st: Books, s: Store)
    requires Mirrors(st.balances, st.leaves, DataOf(s))
    ensures s.leaves == st.leaves
  {
    hide SameRecords;
  }

  lemma TokenFits(token: nat)
    requires token < 256
    ensures token < Pow2(DEPTH)
  {
    assert Pow2(8) == 256;
    PowGrows(8, DEPTH);
  }

  lemma {:induction false} PowGrows(m: nat, n: nat)
    requires m <= n
    ensures Pow2(m) <= Pow2(n)
  {
    if m == n {
    } else {
      PowGrows(m, n - 1);
    }
  }
}
