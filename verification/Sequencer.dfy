/** The sequencer's three ways of changing the ledger: trades, L1 deposits and opening credits. */
module Sequencer {
  import opened Options
  import opened Field
  import opened Merkle
  import opened MerkleDB
  import opened Circuit
  import opened Batcher
  import opened Honest

  /** The proof system's parameters and the curve operations that the sequencer calls. */
  datatype Env = Env(
    p: Params,
    decodeSig: SigDecoder,
    compressKey: (nat, nat) -> Option<string>,
    decodeKey: string -> Option<(Fe, Fe)>)
  {
    /** The fixture verifies, and decoding a compressed point gives the point back. */
    ghost predicate Valid() {
      && p.FixtureValid()
      && forall x: nat, y: nat | compressKey(x, y).Some? ::
           decodeKey(TrimPrefix(compressKey(x, y).value)) == Some((Reduce(x), Reduce(y)))
    }
  }

  datatype Order = Order(makerAddress: string, tokenID: nat, isBuy: bool, circuitSignature: string)
  datatype Trade = Trade(makerOrder: Order, takerOrder: Order, matchPrice: nat, matchAmount: nat)
  datatype DepositEvent = DepositEvent(tokenId: nat, amount: nat, pubKeyX: nat, pubKeyY: nat)

  const INITIAL_CREDIT: nat := 1000000
  const DUMMY_INDEX: nat := 99
  const NO_SIGNATURE: string := "0x0000000000000000000000000000000000000000000000000000000000000000"

  function QuoteTokenForBook(baseToken: nat): (quote: nat)
    ensures quote != baseToken
  {
    if baseToken == 1 then 2 else 1
  }

  /** Every record's owner is a known key that decodes to the coordinates the record carries. */
  ghost predicate KeysMatch(env: Env, balances: BalanceMap, pubkeys: map<string, nat>) {
    forall k | k in balances :: exists s | s in pubkeys :: pubkeys[s] == k.0 && OwnedBy(env, balances[k], s)
  }

  predicate OwnedBy(env: Env, acc: BalanceState, key: string) {
    env.decodeKey(key) == Some((Reduce(acc.pubX), Reduce(acc.pubY)))
  }

  /** What the sequencer's database holds at some moment. */
  datatype Books = Books(balances: BalanceMap, leaves: map<nat, Fe>, pubkeys: map<string, nat>, next: nat)

  ghost function BooksOf(tree: LevelDBMerkleTree): Books
    reads tree
  {
    Books(tree.balances, tree.leaves, tree.pubkeys, tree.nextAccountID)
  }

  /** Records, leaves and account ids agree. */
  ghost predicate BooksOk(h: Hash, b: Books) {
    && LeavesMatch(h, b.balances, b.leaves)
    && (forall k | k in b.balances :: k.0 < b.next)
    && (forall p | p in b.pubkeys :: b.pubkeys[p] < b.next)
    && (forall p, q | p in b.pubkeys && q in b.pubkeys && b.pubkeys[p] == b.pubkeys[q] :: p == q)
  }

  /** The database is in order: tree, records and owners agree. */
  ghost predicate TreeOk(env: Env, tree: LevelDBMerkleTree)
    reads tree
  {
    env.Valid() && tree.Synced() && tree.h == env.p.h && tree.depth == env.p.depth
    && KeysMatch(env, tree.balances, tree.pubkeys)
  }

  lemma TreeBooks(env: Env, tree: LevelDBMerkleTree)
    requires TreeOk(env, tree)
    ensures BooksOk(env.p.h, BooksOf(tree)) && KeysMatch(env, tree.balances, tree.pubkeys)
  {
    hide LeavesMatch, NodesOf, OwnedBy;
    forall k | k in tree.balances ensures k.0 < tree.nextAccountID {
      var s :| s in tree.pubkeys && tree.pubkeys[s] == k.0 && OwnedBy(env, tree.balances[k], s);
    }
  }

  /** The calls so far chain up to `root` and the circuit accepts each of them. */
  ghost predicate LogOk(env: Env, log: seq<Added>, root: Fe) {
    && Contiguous(log)
    && (log != [] ==> log[|log| - 1].newRoot == root)
    && (forall i | 0 <= i < |log| :: Proves(env.p, env.decodeSig, log[i]))
  }

  /** The sequencer's state between calls. */
  ghost predicate SystemValid(env: Env, tree: LevelDBMerkleTree, batch: Batcher)
    reads tree, batch
  {
    TreeOk(env, tree) && batch.Valid() && batch.h == env.p.h && LogOk(env, batch.Log(), tree.Root())
  }

  lemma LogExtended(env: Env, log: seq<Added>, a: Added)
    requires LogOk(env, log, a.oldRoot)
    ensures LogOk(env, log + [a], a.newRoot) <==> Proves(env.p, env.decodeSig, a)
  {
    hide Proves;
    var log' := log + [a];
    assert log'[|log|] == a;
    assert forall i | 0 <= i < |log| :: log'[i] == log[i];
  }

  // ------------------------------------------------------------------ recorded legs are honest

  function IndexOf(acc: BalanceState): nat {
    LeafIndex(acc.accountID, acc.tokenID)
  }

  function Key(acc: BalanceState): (nat, nat) {
    (acc.accountID, acc.tokenID)
  }

  function StoreLeaf(h: Hash, leaves: map<nat, Fe>, acc: BalanceState): map<nat, Fe> {
    leaves[IndexOf(acc) := RecordHash(h, acc)]
  }

  /** What the sequencer records about a leaf before changing it. */
  function Snapshot(h: Hash, depth: nat, leaves: map<nat, Fe>, acc: BalanceState, isGenesis: bool): LeafUpdate {
    var i := LeafIndex(acc.accountID, acc.tokenID);
    LeafUpdate(i, acc.balance, acc.nonce, isGenesis, PathUp(h, leaves, 0, i, depth), Bits(i, depth))
  }

  /** The records carry the same key up to residues, so they hash alike. */
  predicate SameKey(acc: BalanceState, x: nat, y: nat) {
    Reduce(acc.pubX) == Reduce(x) && Reduce(acc.pubY) == Reduce(y)
  }

  /** The circuit leg that a snapshot of a leaf gives. */
  function SnapshotLeg(h: Hash, depth: nat, leaves: map<nat, Fe>, acc: BalanceState, isGenesis: bool,
                       x: nat, y: nat, debit: nat, credit: nat): Leg {
    Leg(WitnessLeg(Snapshot(h, depth, leaves, acc, isGenesis)), PublicKey(Reduce(x), Reduce(y)), Reduce(debit),
        Reduce(credit), 0)
  }

  /** It is honest. */
  lemma SnapshotIsHonest(h: Hash, depth: nat, leaves: map<nat, Fe>, acc: BalanceState, isGenesis: bool,
                         x: nat, y: nat, debit: nat, credit: nat)
    requires Ancestor(IndexOf(acc), depth) == 0 && SameKey(acc, x, y)
    requires LeafAt(leaves, IndexOf(acc)) == if isGenesis then 0 else RecordHash(h, acc)
    ensures HonestLeg(h, depth, leaves, SnapshotLeg(h, depth, leaves, acc, isGenesis, x, y, debit, credit))
  {
    hide Reduce, Ancestor, PathUp, Bits;
    PosOfBits(IndexOf(acc), depth);
  }

  /** Writing it is storing the updated record. */
  lemma SnapshotWrites(h: Hash, depth: nat, leaves: map<nat, Fe>, acc: BalanceState, isGenesis: bool,
                       x: nat, y: nat, debit: nat, credit: nat)
    requires acc.tokenID < 256 && Ancestor(IndexOf(acc), depth) == 0 && SameKey(acc, x, y)
    requires debit <= acc.balance + credit
    ensures var leg := SnapshotLeg(h, depth, leaves, acc, isGenesis, x, y, debit, credit);
            AllBoolean(leg.u.bits) && PosOf(leg.u.bits) == IndexOf(acc)
            && NewLeaf(h, leg) == RecordHash(h, acc.(balance := acc.balance - debit + credit))
  {
    hide Reduce, Ancestor, PathUp, Bits, NewLeaf;
    PosOfBits(IndexOf(acc), depth);
    IndexDigits(acc.accountID, acc.tokenID);
    NewLeafIsRecordHash(h, Snapshot(h, depth, leaves, acc, isGenesis), x, y, debit, credit, 0);
  }

  lemma WriteAt(h: Hash, leaves: map<nat, Fe>, leg: Leg, i: nat)
    requires AllBoolean(leg.u.bits) && PosOf(leg.u.bits) == i
    ensures WriteLeg(h, leaves, leg) == leaves[i := NewLeaf(h, leg)]
  {
  }

  lemma SmallIndexHasRoot(i: nat, depth: nat)
    requires i < Pow2(depth)
    ensures Ancestor(i, depth) == 0
  {
    AncestorOfSmall(i, depth);
  }

  method SnapshotUpdate(tree: LevelDBMerkleTree, acc: BalanceState) returns (u: LeafUpdate)
    requires tree.Valid()
    ensures u == Snapshot(tree.h, tree.depth, tree.leaves, acc, false)
  {
    var index := acc.accountID * 256 + acc.tokenID;
    var path, bits := tree.GetPath(index);
    u := LeafUpdate(index, acc.balance, acc.nonce, false, path[..], bits[..]);
  }

  /** Filler for a leg that the operation type leaves inactive. */
  method EmptyStateUpdate(tree: LevelDBMerkleTree, index: nat) returns (u: LeafUpdate)
    requires tree.Valid()
    ensures u == LeafUpdate(index, 0, 0, false, PathUp(tree.h, tree.leaves, 0, index, tree.depth),
                            Bits(index, tree.depth))
  {
    var path, bits := tree.GetPath(index);
    u := LeafUpdate(index, 0, 0, false, path[..], bits[..]);
  }

  // ------------------------------------------------------------------ deposits

  /** A deposit or opening credit as recorded: taker base active, everything else filler. */
  predicate IsDepositOf(t: StateTransition, amount: nat, x: nat, y: nat, base: LeafUpdate, filler: LeafUpdate) {
    t == StateTransition(3, amount, 0, 0, 0, NO_SIGNATURE, filler, filler, x, y, NO_SIGNATURE, base, filler)
  }

  predicate IsFiller(depth: nat, u: LeafUpdate) {
    !u.isGenesis && u.balance == 0 && u.nonce == 0 && |u.path| == depth && |u.pathBits| == depth
    && AllBoolean(u.pathBits)
  }

  /** A recorded deposit satisfies the circuit exactly when its amount passes the 252-bit check, and reaches the new
      root. */
  lemma DepositProvable(env: Env, leaves: map<nat, Fe>, acc: BalanceState, isGenesis: bool, amount: nat, x: nat, y: nat,
                        t: StateTransition, filler: LeafUpdate)
    requires env.Valid() && SameKey(acc, x, y) && acc.tokenID < 256
    requires var i := LeafIndex(acc.accountID, acc.tokenID);
             Ancestor(i, env.p.depth) == 0 && LeafAt(leaves, i) == if isGenesis then 0 else RecordHash(env.p.h, acc)
    requires isGenesis ==> acc.balance == 0 && acc.nonce == 0
    requires IsFiller(env.p.depth, filler)
    requires IsDepositOf(t, amount, x, y, Snapshot(env.p.h, env.p.depth, leaves, acc, isGenesis), filler)
    ensures var h, depth := env.p.h, env.p.depth;
            var leaves' := StoreLeaf(h, leaves, acc.(balance := acc.balance + amount));
            Proves(env.p, env.decodeSig, Added(t, Node(h, leaves, depth, 0), Node(h, leaves', depth, 0)))
            <==> Reduce(amount) < AMOUNT_LIMIT
  {
    hide Node, PathUp, Bits, Ancestor, Fold, RecordHash, LegsOk, LegsRoot, NewLeaf, OldLeaf, Satisfied, OutRoot, Reduce,
         UpdateOk, HonestLeg, WriteLeg, LeafAt, SameKey, Witness, WitnessLeg, ActiveLegs, OpShaped, IsDepositOf,
             IsFiller;
    var h, depth := env.p.h, env.p.depth;
    var op := Witness(env.decodeSig, t);
    var base := Snapshot(h, depth, leaves, acc, isGenesis);
    SnapshotIsHonest(h, depth, leaves, acc, isGenesis, x, y, 0, amount);
    SnapshotWrites(h, depth, leaves, acc, isGenesis, x, y, 0, amount);
    var leg := DepositWitness(env, t, amount, x, y, base, filler);
    WriteAt(h, leaves, leg, IndexOf(acc));
    OneHonestLeg(h, depth, leaves, leg);
    DepositSatisfied(env.p, op, Node(h, leaves, depth, 0));
  }

  /** The witness of a recorded deposit has one active leg, the taker's base. */
  lemma DepositWitness(env: Env, t: StateTransition, amount: nat, x: nat, y: nat, base: LeafUpdate, filler: LeafUpdate)
    returns (leg: Leg)
    requires env.Valid() && IsDepositOf(t, amount, x, y, base, filler) && IsFiller(env.p.depth, filler)
    requires |base.path| == env.p.depth && |base.pathBits| == env.p.depth && AllBoolean(base.pathBits)
    requires base.isGenesis ==> base.balance == 0 && base.nonce == 0
    ensures leg == Leg(WitnessLeg(base), PublicKey(Reduce(x), Reduce(y)), Reduce(0), Reduce(amount), 0)
            && leg.debit == 0
    ensures var op := Witness(env.decodeSig, t);
            && t.opType == 3 && op.opType == OP_DEPOSIT && op.quoteAmount == 0 && op.amount == Reduce(amount)
            && ActiveLegs(op) == [leg]
            && OpShaped(env.p, op)
            && UpdateOk(op.makerBase) && UpdateOk(op.makerQuote) && UpdateOk(op.takerBase) && UpdateOk(op.takerQuote)
  {
    hide Reduce, UpdateOk;
    ReduceSmall();
    leg := Leg(WitnessLeg(base), PublicKey(Reduce(x), Reduce(y)), Reduce(0), Reduce(amount), 0);
    RecordedUpdateOk(filler);
    RecordedUpdateOk(base);
  }

  lemma RecordedUpdateOk(u: LeafUpdate)
    requires AllBoolean(u.pathBits) && (u.isGenesis ==> u.balance == 0 && u.nonce == 0)
    ensures UpdateOk(WitnessLeg(u))
  {
  }

  lemma ReduceCanonical(x: Fe)
    ensures Reduce(x) == x
  {
  }

  lemma ReduceSmall()
    ensures Reduce(0) == 0 && Reduce(1) == 1 && Reduce(2) == 2 && Reduce(3) == 3
  {
  }

  lemma DepositSatisfied(p: Params, op: Operation, root: Fe)
    requires op.opType == OP_DEPOSIT && op.quoteAmount == 0 && OpShaped(p, op) && LegsShaped(ActiveLegs(op))
    requires UpdateOk(op.makerBase) && UpdateOk(op.makerQuote) && UpdateOk(op.takerBase) && UpdateOk(op.takerQuote)
    requires LegsOk(p.h, ActiveLegs(op), root)
    ensures Satisfied(p, op, root) <==> op.amount < AMOUNT_LIMIT
    ensures OutRoot(p, op, root) == LegsRoot(p.h, ActiveLegs(op), root)
  {
  }

  lemma OneHonestLeg(h: Hash, depth: nat, leaves: map<nat, Fe>, leg: Leg)
    requires HonestLeg(h, depth, leaves, leg) && leg.debit == 0
    ensures LegsShaped([leg]) && LegsOk(h, [leg], Node(h, leaves, depth, 0))
    ensures LegsRoot(h, [leg], Node(h, leaves, depth, 0)) == Node(h, WriteLeg(h, leaves, leg), depth, 0)
  {
    assert [leg][1..] == [];
    assert HonestLegs(h, depth, WriteLeg(h, leaves, leg), []);
    HonestLegsAccepted(h, depth, leaves, [leg]);
  }

  lemma NoLeafWithoutRecord(h: Hash, balances: BalanceMap, leaves: map<nat, Fe>, id: nat, token: nat)
    requires LeavesMatch(h, balances, leaves) && token < 256
    ensures (id, token) in balances ==>
              balances[(id, token)].accountID == id && balances[(id, token)].tokenID == token
              && LeafAt(leaves, LeafIndex(id, token)) == RecordHash(h, balances[(id, token)])
    ensures (id, token) !in balances ==> LeafAt(leaves, LeafIndex(id, token)) == 0
  {
    hide RecordHash, LeafIndex;
    LeafHasRecord(h, balances, leaves, id, token);
  }

  /** The id a key has, or the one it would be given next. */
  ghost function IdFor(tree: LevelDBMerkleTree, key: string): nat
    reads tree
  {
    if TrimPrefix(key) in tree.pubkeys then tree.pubkeys[TrimPrefix(key)] else tree.nextAccountID
  }

  /** The account that a credit lands on: its record, or the empty one of a leaf never written. */
  function AccountBefore(balances: BalanceMap, id: nat, token: nat, x: nat, y: nat): BalanceState {
    if (id, token) in balances then balances[(id, token)] else BalanceState(id, token, x, y, 0, 0)
  }

  /** The records after adding an amount to one leaf. */
  function Credited(balances: BalanceMap, id: nat, token: nat, x: nat, y: nat, amount: nat): BalanceMap {
    var acc := AccountBefore(balances, id, token, x, y);
    balances[(id, token) := acc.(balance := acc.balance + amount)]
  }

  /** What a recorded credit says: the leaf before it, and the records and leaves after it. */
  ghost predicate CreditRecorded(h: Hash, depth: nat, balances: BalanceMap, leaves: map<nat, Fe>, balances': BalanceMap,
                                 leaves': map<nat, Fe>, t: StateTransition, id: nat, token: nat, amount: nat) {
    var acc := AccountBefore(balances, id, token, t.takerX, t.takerY);
    && t.opType == 3 && t.amount == amount
    && acc.accountID == id && acc.tokenID == token && SameKey(acc, t.takerX, t.takerY)
    && t.takerBase == Snapshot(h, depth, leaves, acc, (id, token) !in balances)
    && balances' == Credited(balances, id, token, t.takerX, t.takerY, amount)
    && leaves' == leaves[LeafIndex(id, token) := RecordHash(h, acc.(balance := acc.balance + amount))]
  }

  lemma CreditedIs(balances: BalanceMap, id: nat, token: nat, x: nat, y: nat, amount: nat, acc: BalanceState)
    requires acc == AccountBefore(balances, id, token, x, y) && acc.accountID == id && acc.tokenID == token
    ensures Credited(balances, id, token, x, y, amount)
         == balances[(acc.accountID, acc.tokenID) := acc.(balance := acc.balance + amount)]
  {
  }

  lemma KeysMatchCredit(env: Env, balances: BalanceMap, pubkeys: map<string, nat>, key: string, token: nat,
                        acc: BalanceState)
    requires KeysMatch(env, balances, pubkeys) && key in pubkeys && OwnedBy(env, acc, key)
    ensures KeysMatch(env, balances[(pubkeys[key], token) := acc], pubkeys)
  {
  }

  lemma KeysMatchMore(env: Env, balances: BalanceMap, pubkeys: map<string, nat>, more: map<string, nat>)
    requires KeysMatch(env, balances, pubkeys) && forall s | s in pubkeys :: s in more && more[s] == pubkeys[s]
    ensures KeysMatch(env, balances, more)
  {
  }

  lemma OwnerIsKey(env: Env, balances: BalanceMap, pubkeys: map<string, nat>, key: string, token: nat)
    requires KeysMatch(env, balances, pubkeys) && key in pubkeys && (pubkeys[key], token) in balances
    requires forall p, q | p in pubkeys && q in pubkeys && pubkeys[p] == pubkeys[q] :: p == q
    ensures OwnedBy(env, balances[(pubkeys[key], token)], key)
  {
  }

  /** Handles one L1 Deposit event. */
  method ProcessDeposit(env: Env, event: DepositEvent, tree: LevelDBMerkleTree, batch: Batcher)
    returns (applied: bool, t: StateTransition)
    requires SystemValid(env, tree, batch) && event.tokenId < 256
    requires env.compressKey(event.pubKeyX, event.pubKeyY).Some? ==>
      LeafIndex(IdFor(tree, env.compressKey(event.pubKeyX, event.pubKeyY).value), event.tokenId) < Pow2(tree.depth)
    modifies tree, batch
    ensures applied <==> env.compressKey(event.pubKeyX, event.pubKeyY).Some?
    ensures !applied ==>
              tree.balances == old(tree.balances) && tree.nodes == old(tree.nodes) && tree.pubkeys == old(tree.pubkeys)
                         && batch.Log() == old(batch.Log()) && SystemValid(env, tree, batch)
    ensures applied ==>
      var id := old(IdFor(tree, env.compressKey(event.pubKeyX, event.pubKeyY).value));
      && tree.balances == Credited(old(tree.balances), id, event.tokenId, event.pubKeyX, event.pubKeyY, event.amount)
      && tree.Valid() && batch.Log() == old(batch.Log()) + [Added(t, old(tree.Root()), tree.Root())]
      && CreditRecorded(env.p.h, env.p.depth, old(tree.balances), old(tree.leaves), tree.balances, tree.leaves, t, id,
                        event.tokenId, event.amount)
      && (SystemValid(env, tree, batch) <==> Reduce(event.amount) < AMOUNT_LIMIT)
  {
    hide Node, Proves, LogOk, KeysMatch, NodesOf, LeavesMatch, Reduce, CreditRecorded;
    var oldRoot := tree.Root();
    var compressed := env.compressKey(event.pubKeyX, event.pubKeyY);
    if compressed.None? {
      return false, *;
    }
    var accID := tree.GetAccountID(compressed.value);
    KeysMatchMore(env, tree.balances, old(tree.pubkeys), tree.pubkeys);
    t := CreditLeaf(env, compressed.value, accID, event.tokenId, event.amount, event.pubKeyX, event.pubKeyY, oldRoot,
                    tree, batch);
    applied := true;
  }

  /** Snapshots the leaf, adds the amount, writes it back and records the transition. */
  method CreditLeaf(env: Env, key: string, accID: nat, tokenId: nat, amount: nat, x: nat, y: nat, oldRoot: Fe,
                    tree: LevelDBMerkleTree, batch: Batcher)
    returns (t: StateTransition)
    requires SystemValid(env, tree, batch) && tokenId < 256 && oldRoot == tree.Root()
    requires TrimPrefix(key) in tree.pubkeys && tree.pubkeys[TrimPrefix(key)] == accID
    requires env.decodeKey(TrimPrefix(key)) == Some((Reduce(x), Reduce(y)))
    requires LeafIndex(accID, tokenId) < Pow2(tree.depth)
    modifies tree`balances, tree`nodes, tree`leaves, tree`writes, batch
    ensures TreeOk(env, tree)
    ensures tree.balances == Credited(old(tree.balances), accID, tokenId, x, y, amount)
    ensures batch.Log() == old(batch.Log()) + [Added(t, oldRoot, tree.Root())]
    ensures CreditRecorded(env.p.h, env.p.depth, old(tree.balances), old(tree.leaves), tree.balances, tree.leaves, t,
                           accID, tokenId, amount)
    ensures SystemValid(env, tree, batch) <==> Reduce(amount) < AMOUNT_LIMIT
  {
    hide Node, Proves, LogOk, Flatten, KeysMatch, NodesOf, LeavesMatch, CreditRecorded;
    ghost var log := batch.Log();
    t := CreditTree(env, key, accID, tokenId, amount, x, y, tree);
    var newRoot := tree.Root();
    batch.AddTransition(t, oldRoot, newRoot);
    LogExtended(env, log, Added(t, oldRoot, newRoot));
  }

  method CreditTree(env: Env, key: string, accID: nat, tokenId: nat, amount: nat, x: nat, y: nat,
                    tree: LevelDBMerkleTree)
    returns (t: StateTransition)
    requires TreeOk(env, tree) && tokenId < 256
    requires TrimPrefix(key) in tree.pubkeys && tree.pubkeys[TrimPrefix(key)] == accID
    requires env.decodeKey(TrimPrefix(key)) == Some((Reduce(x), Reduce(y)))
    requires LeafIndex(accID, tokenId) < Pow2(tree.depth)
    modifies tree`balances, tree`nodes, tree`leaves, tree`writes
    ensures TreeOk(env, tree)
    ensures tree.balances == Credited(old(tree.balances), accID, tokenId, x, y, amount)
    ensures CreditRecorded(env.p.h, env.p.depth, old(tree.balances), old(tree.leaves), tree.balances, tree.leaves, t,
                           accID, tokenId, amount)
    ensures Proves(env.p, env.decodeSig, Added(t, old(tree.Root()), tree.Root())) <==> Reduce(amount) < AMOUNT_LIMIT
  {
    hide Node, PathUp, Bits, Fold, Proves, RecordHash, NodesOf, ZeroHash, Ancestor, Reduce, Credited, LeavesMatch,
         KeysMatch, CreditRecorded, SameKey;
    ghost var leaves, balances := tree.leaves, tree.balances;
    var existing := tree.GetBalance(accID, tokenId);
    var isGenesis := existing.None?;
    var leafIndex := accID * 256 + tokenId;
    var path, bits := tree.GetPath(leafIndex);
    var acc := if existing.Some? then existing.value else BalanceState(accID, tokenId, x, y, 0, 0);
    OwnerBeforeCredit(env, balances, tree.pubkeys, TrimPrefix(key), tokenId, x, y, acc);
    NoLeafWithoutRecord(env.p.h, balances, leaves, accID, tokenId);
    SmallIndexHasRoot(leafIndex, env.p.depth);
    var takerBase := LeafUpdate(leafIndex, acc.balance, acc.nonce, isGenesis, path[..], bits[..]);
    var credited := acc.(balance := acc.balance + amount);
    CreditedIs(balances, accID, tokenId, x, y, amount, acc);
    KeysMatchCredit(env, balances, tree.pubkeys, TrimPrefix(key), tokenId, credited);
    tree.SetBalance(credited);
    assert tree.balances == Credited(balances, accID, tokenId, x, y, amount);
    var filler := EmptyStateUpdate(tree, DUMMY_INDEX);
    t := StateTransition(3, amount, 0, 0, 0, NO_SIGNATURE, filler, filler, x, y, NO_SIGNATURE, takerBase, filler);
    DepositProvable(env, leaves, acc, isGenesis, amount, x, y, t, filler);
    CreditIsRecorded(env.p.h, env.p.depth, balances, leaves, tree.balances, tree.leaves, t, accID, tokenId, amount,
                     acc);
  }

  lemma CreditIsRecorded(h: Hash, depth: nat, balances: BalanceMap, leaves: map<nat, Fe>, balances': BalanceMap,
                         leaves': map<nat, Fe>, t: StateTransition, id: nat, token: nat, amount: nat, acc: BalanceState)
    requires acc == AccountBefore(balances, id, token, t.takerX, t.takerY) && acc.accountID == id
             && acc.tokenID == token
    requires t.opType == 3 && t.amount == amount && SameKey(acc, t.takerX, t.takerY)
    requires t.takerBase == Snapshot(h, depth, leaves, acc, (id, token) !in balances)
    requires balances' == Credited(balances, id, token, t.takerX, t.takerY, amount)
    requires leaves' == leaves[LeafIndex(id, token) := RecordHash(h, acc.(balance := acc.balance + amount))]
    ensures CreditRecorded(h, depth, balances, leaves, balances', leaves', t, id, token, amount)
  {
    hide RecordHash, Snapshot, SameKey;
  }

  /** The owner of a leaf about to be credited is the crediting key. */
  lemma OwnerBeforeCredit(env: Env, balances: BalanceMap, pubkeys: map<string, nat>, key: string,
                          token: nat, x: nat, y: nat, acc: BalanceState)
    requires KeysMatch(env, balances, pubkeys) && key in pubkeys && env.decodeKey(key) == Some((Reduce(x), Reduce(y)))
    requires forall p, q | p in pubkeys && q in pubkeys && pubkeys[p] == pubkeys[q] :: p == q
    requires acc == AccountBefore(balances, pubkeys[key], token, x, y)
    ensures SameKey(acc, x, y) && OwnedBy(env, acc, key)
  {
    hide Reduce, KeysMatch;
    if (pubkeys[key], token) in balances {
      OwnerIsKey(env, balances, pubkeys, key, token);
    }
  }

  /** Returns the leaf's record, first crediting a leaf never written. */
  method OpenBalance(env: Env, pubKeyHex: string, tokenID: nat, tree: LevelDBMerkleTree, batch: Batcher)
    returns (acc: Option<BalanceState>)
    requires SystemValid(env, tree, batch) && tokenID < 256
    requires LeafIndex(IdFor(tree, pubKeyHex), tokenID) < Pow2(tree.depth)
    modifies tree, batch
    ensures SystemValid(env, tree, batch)
    ensures var id := old(IdFor(tree, pubKeyHex));
            && (acc.Some? <==> (id, tokenID) in old(tree.balances) || env.decodeKey(TrimPrefix(pubKeyHex)).Some?)
            && (acc.Some? ==> (id, tokenID) in tree.balances && acc.value == tree.balances[(id, tokenID)])
            && ((id, tokenID) in old(tree.balances) || acc.None? ==>
                  tree.balances == old(tree.balances) && tree.nodes == old(tree.nodes)
                  && batch.Log() == old(batch.Log()))
            && ((id, tokenID) !in old(tree.balances) && acc.Some? ==>
                  acc.value.balance == INITIAL_CREDIT && acc.value.nonce == 0
                  && tree.balances == old(tree.balances)[(id, tokenID) := acc.value]
                  && |batch.Log()| == old(|batch.Log()|) + 1
                  && var t := batch.Log()[old(|batch.Log()|)].t;
                     batch.Log() == old(batch.Log()) + [Added(t, old(tree.Root()), tree.Root())]
                     && CreditRecorded(env.p.h, env.p.depth, old(tree.balances), old(tree.leaves), tree.balances,
                                       tree.leaves, t, id, tokenID, INITIAL_CREDIT))
  {
    hide Node, Proves, LogOk, NodesOf, LeavesMatch, KeysMatch, Reduce, CreditRecorded;
    var accID := tree.GetAccountID(pubKeyHex);
    KeysMatchMore(env, tree.balances, old(tree.pubkeys), tree.pubkeys);
    acc := tree.GetBalance(accID, tokenID);
    if acc.Some? {
      return;
    }
    var coordinates := env.decodeKey(TrimPrefix(pubKeyHex));
    if coordinates.None? {
      return;
    }
    var pubX, pubY := coordinates.value.0, coordinates.value.1;
    var oldRoot := tree.Root();
    ReduceCanonical(pubX);
    ReduceCanonical(pubY);
    ReduceCanonical(INITIAL_CREDIT);
    var t := CreditLeaf(env, pubKeyHex, accID, tokenID, INITIAL_CREDIT, pubX, pubY, oldRoot, tree, batch);
    acc := tree.GetBalance(accID, tokenID);
  }

  // ------------------------------------------------------------------ every sealed batch proves

  /** After any run of provable calls: each sealed batch satisfies the whole circuit with its own public inputs, and
      consecutive batches share a root. */
  lemma SealedBatchesProve(env: Env, tree: LevelDBMerkleTree, batch: Batcher, id: nat)
    requires SystemValid(env, tree, batch) && 1 <= id <= |batch.groups|
    ensures id in batch.batchHistory
    ensures var b, ops := batch.batchHistory[id], Operations(env.decodeSig, batch.groups[id - 1]);
            && b.transitions == Transitions(batch.groups[id - 1]) && |ops| == batch.batchSize
            && OpsShaped(env.p, ops) && Accepts(env.p, ops, b.oldRoot, b.newRoot, b.withdrawalHash, b.depositHash)
    ensures id < |batch.groups| ==>
              id + 1 in batch.batchHistory && batch.batchHistory[id].newRoot == batch.batchHistory[id + 1].oldRoot
    ensures id == |batch.groups| && batch.open == [] ==> batch.batchHistory[id].newRoot == tree.Root()
  {
    hide Proves, Node, Accepts, OpsShaped, TreeOk;
    var groups, n := batch.groups, |batch.groups|;
    var flat := Flatten(groups, n);
    forall i | 0 <= i < |flat| ensures Proves(env.p, env.decodeSig, flat[i]) {
      assert batch.Log()[i] == flat[i];
    }
    GroupsChain(groups, n, batch.open);
    GroupsProve(env.p, env.decodeSig, groups, n);
    HistoryAt(batch.h, groups, n, id);
    SealedBatchAccepted(env.p, env.decodeSig, id, groups[id - 1]);
    if id < n {
      HistoryAt(batch.h, groups, n, id + 1);
    } else if batch.open == [] {
      assert batch.Log() == flat;
      assert flat == Flatten(groups, n - 1) + groups[n - 1];
    }
  }
}
