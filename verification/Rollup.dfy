/** The L1 contract: settlement chain, token registry, deposits and escape claims. */
module Rollup {
  import opened Options
  import opened Field
  import opened Merkle
  import opened Circuit
  import opened Ledger
  import Modular

  type Address = nat  // 0 is the zero address
  type Bytes32 = x: int | 0 <= x < TWO_TO_256

  const TWO_TO_256: nat := 0x1_0000000000000000_0000000000000000_0000000000000000_0000000000000000
  const MAX_UINT64: nat := 0xFFFF_FFFF_FFFF_FFFF
  const DEPTH: nat := 28

  datatype EscapeProof = EscapeProof(
    tokenId: nat, balance: Bytes32, nonce: Bytes32, pubX: Bytes32, pubY: Bytes32, index: Bytes32,
    siblings: seq<Bytes32>, pathBits: seq<bool>)

  predicate WellFormed(p: EscapeProof) {
    |p.siblings| == DEPTH && |p.pathBits| == DEPTH
  }

  // ------------------------------------------------------------------ leaf and fold over 256-bit words

  /** MiMC.hash on words: only residues matter. */
  function HashWords(h: Hash, data: seq<Bytes32>): Fe {
    h(seq(|data|, i requires 0 <= i < |data| => Reduce(data[i])))
  }

  function BitsOf(flags: seq<bool>): (bits: seq<Fe>)
    ensures |bits| == |flags| && AllBoolean(bits)
  {
    seq(|flags|, i requires 0 <= i < |flags| => if flags[i] then 1 else 0)
  }

  function Words(siblings: seq<Bytes32>): (path: seq<Fe>)
    ensures |path| == |siblings|
  {
    seq(|siblings|, i requires 0 <= i < |siblings| => Reduce(siblings[i]))
  }

  method AccountLeafOf(h: Hash, index: Bytes32, pubX: Bytes32, pubY: Bytes32, balance: Bytes32, nonce: Bytes32)
    returns (leaf: Fe)
    ensures leaf == LeafHash(h, index, pubX, pubY, balance, nonce)
  {
    var data: seq<Bytes32> := [index, pubX, pubY, balance, nonce];
    leaf := HashWords(h, data);
    assert seq(|data|, i requires 0 <= i < |data| => Reduce(data[i]))
        == [Reduce(index), Reduce(pubX), Reduce(pubY), Reduce(balance), Reduce(nonce)];
  }

  method FoldMerklePath(h: Hash, leaf: Fe, siblings: seq<Bytes32>, pathBits: seq<bool>) returns (cur: Fe)
    requires |siblings| == |pathBits|
    ensures cur == Fold(h, leaf, Words(siblings), BitsOf(pathBits))
  {
    hide Reduce;
    cur := leaf;
    var path, bits := Words(siblings), BitsOf(pathBits);
    for i := 0 to |siblings|
      invariant Fold(h, cur, path[i..], bits[i..]) == Fold(h, leaf, path, bits)
    {
      FoldStep(h, cur, path[i..], bits[i..]);
      assert path[i..][1..] == path[i + 1..] && bits[i..][1..] == bits[i + 1..];
      var pair: seq<Bytes32> := if pathBits[i] then [siblings[i], cur] else [cur, siblings[i]];
      PairResidues(bits[i], siblings[i], cur, pair);
      cur := HashWords(h, pair);
    }
  }

  lemma PairResidues(bit: Fe, sibling: Bytes32, cur: Fe, pair: seq<Bytes32>)
    requires pair == if bit == 1 then [sibling as int, cur as int] else [cur as int, sibling as int]
    ensures seq(|pair|, i requires 0 <= i < |pair| => Reduce(pair[i])) == Pair(bit, Reduce(sibling), cur)
  {
    assert Reduce(cur) == cur;
  }

  /** The root an escape claim folds to. */
  function ClaimRoot(h: Hash, p: EscapeProof): Fe
    requires WellFormed(p)
  {
    Fold(h, LeafHash(h, p.index, p.pubX, p.pubY, p.balance, p.nonce), Words(p.siblings), BitsOf(p.pathBits))
  }

  // ------------------------------------------------------------------ what an accepted claim binds

  function ClaimPosition(p: EscapeProof): nat {
    PosOf(BitsOf(p.pathBits))
  }

  function ClaimedAccount(p: EscapeProof): Account {
    Account(Reduce(p.index), PublicKey(Reduce(p.pubX), Reduce(p.pubY)), Reduce(p.balance), Reduce(p.nonce))
  }

  /** What an accepted claim exhibits about the hash if it does not describe the ledger's leaf. */
  predicate ClaimBreaks(h: Hash, l: Accounts, p: EscapeProof)
    requires WellFormed(p)
  {
    var pos, claimed := ClaimPosition(p), Preimage(ClaimedAccount(p));
    || Clash(h, FoldInputs(h, h(claimed), Words(p.siblings), BitsOf(p.pathBits)),
             HonestInputs(h, Leaves(h, l), BitsOf(p.pathBits)))
    || (pos in l && claimed != Preimage(l[pos]) && h(claimed) == h(Preimage(l[pos])))
    || (pos !in l && h(claimed) == 0)
  }

  /** A claim that folds to a ledger's root carries, modulo Q, exactly the account at the position its bits name. */
  lemma ClaimBinds(h: Hash, l: Accounts, p: EscapeProof)
    requires WellFormed(p) && ClaimRoot(h, p) == RootOf(h, DEPTH, l)
    ensures ClaimBreaks(h, l, p) || (ClaimPosition(p) in l && l[ClaimPosition(p)] == ClaimedAccount(p))
  {
    hide Node, PathUp, Fold, FoldInputs, Reduce;
    if !ClaimBreaks(h, l, p) {
      var pos, claimed := ClaimPosition(p), Preimage(ClaimedAccount(p));
      assert LeafHash(h, p.index, p.pubX, p.pubY, p.balance, p.nonce) == h(claimed);
      LeafBinds(h, Leaves(h, l), h(claimed), Words(p.siblings), BitsOf(p.pathBits));
      var held := Preimage(l[pos]);
      assert claimed == held;
      assert claimed[0] == held[0] && claimed[1] == held[1] && claimed[2] == held[2] && claimed[3] == held[3]
             && claimed[4] == held[4];
    }
  }

  /** The words themselves are the account's true values exactly when they are canonical field elements. */
  lemma CanonicalClaimIsExact(p: EscapeProof)
    ensures var a := ClaimedAccount(p);
            (a.index == p.index && a.key.x == p.pubX && a.key.y == p.pubY && a.balance == p.balance
             && a.nonce == p.nonce)
            <==> p.index < Q && p.pubX < Q && p.pubY < Q && p.balance < Q && p.nonce < Q
  {
    CanonicalIff(p.index);
    CanonicalIff(p.pubX);
    CanonicalIff(p.pubY);
    CanonicalIff(p.balance);
    CanonicalIff(p.nonce);
  }

  lemma CanonicalIff(x: Bytes32)
    ensures Reduce(x) == x <==> x < Q
  {
  }

  /** Ledgers whose leaves store their own position, as every leaf written by the sequencer does. */
  predicate WellIndexed(l: Accounts) {
    forall pos | pos in l :: l[pos].index == pos
  }

  /** Claims on such ledgers concern the same position exactly when their index words agree modulo Q. */
  lemma SameLeafExactly(h: Hash, l1: Accounts, p1: EscapeProof, l2: Accounts, p2: EscapeProof)
    requires WellFormed(p1) && WellFormed(p2) && WellIndexed(l1) && WellIndexed(l2)
    requires ClaimRoot(h, p1) == RootOf(h, DEPTH, l1) && ClaimRoot(h, p2) == RootOf(h, DEPTH, l2)
    ensures ClaimBreaks(h, l1, p1) || ClaimBreaks(h, l2, p2) ||
            (ClaimPosition(p1) == ClaimPosition(p2) <==> Reduce(p1.index) == Reduce(p2.index))
  {
    hide Node, PathUp, Fold, FoldInputs, ClaimBreaks, ClaimRoot, Reduce;
    ClaimBinds(h, l1, p1);
    ClaimBinds(h, l2, p2);
  }

  /** Words with the same residue fold alike: adding Q to any of the five changes neither root, position nor account. */
  lemma AliasFoldsAlike(h: Hash, p: EscapeProof, q: EscapeProof)
    requires WellFormed(p) && q.siblings == p.siblings && q.pathBits == p.pathBits
    requires Reduce(q.index) == Reduce(p.index) && Reduce(q.pubX) == Reduce(p.pubX) && Reduce(q.pubY) == Reduce(p.pubY)
    requires Reduce(q.balance) == Reduce(p.balance) && Reduce(q.nonce) == Reduce(p.nonce)
    ensures WellFormed(q) && ClaimRoot(h, q) == ClaimRoot(h, p)
    ensures ClaimPosition(q) == ClaimPosition(p) && ClaimedAccount(q) == ClaimedAccount(p)
  {
    hide Reduce, Fold;
  }

  /** A word and its residue name the same token, the index modulo 256, exactly when the word is canonical. */
  lemma TokenOfWord(x: Bytes32)
    ensures x % 256 == Reduce(x) % 256 <==> x < Q
  {
    var k, m, r := x / Q, Q / 256, Reduce(x);
    assert x == k * Q + r && 0 <= k <= 5;
    AliasToken(k, m, r);
  }

  lemma AliasToken(k: nat, m: nat, r: nat)
    requires k <= 5 && Q == 256 * m + 1
    ensures (k * Q + r) % 256 == r % 256 <==> k == 0
  {
    assert k * Q == (k * m) * 256 + k;
    Modular.ModPlusMultiple(k + r, k * m, 256);
    SmallShift(k, r);
  }

  lemma SmallShift(k: nat, r: nat)
    requires k <= 5
    ensures (k + r) % 256 == r % 256 <==> k == 0
  {
  }

  // ------------------------------------------------------------------ the contract

  /** One settled batch: its public inputs. */
  datatype Settled = Settled(oldRoot: Bytes32, newRoot: Bytes32, withdrawalHash: Bytes32, depositHash: Bytes32)

  type ProofBytes = seq<Bytes32>

  predicate RootsChain(s: seq<Settled>) {
    forall i | 0 <= i < |s| - 1 :: s[i].newRoot == s[i + 1].oldRoot
  }

  /** An escape payout: who got how much of which token, on which claim, against which root, when, and after how many
      settled batches. */
  datatype Payment = Payment(
    to: Address, claim: EscapeProof, token: Address, amount: nat, root: Bytes32, at: nat, after: nat)

  /** A deposit into a key. */
  datatype KeyDeposit = KeyDeposit(from: Address, x: Bytes32, y: Bytes32)

  type KeyHash = (Bytes32, Bytes32) -> Bytes32

  /** Sender of the first of the first n deposits whose key words hash to k. */
  function FirstDepositor(keyHash: KeyHash, deposits: seq<KeyDeposit>, n: nat, k: Bytes32): Option<Address>
    requires n <= |deposits|
  {
    if n == 0 then None
    else
      var before := FirstDepositor(keyHash, deposits, n - 1, k);
      if before.Some? then before
      else if keyHash(deposits[n - 1].x, deposits[n - 1].y) == k then Some(deposits[n - 1].from)
      else None
  }

  lemma {:induction false} FirstDepositorStays(keyHash: KeyHash, deposits: seq<KeyDeposit>, d: KeyDeposit, n: nat,
                                               k: Bytes32)
    requires n <= |deposits|
    ensures FirstDepositor(keyHash, deposits + [d], n, k) == FirstDepositor(keyHash, deposits, n, k)
  {
    if n == 0 {
    } else {
      FirstDepositorStays(keyHash, deposits, d, n - 1, k);
    }
  }

  ghost predicate DepositorsOk(keyHash: KeyHash, depositorOf: map<Bytes32, Address>, deposits: seq<KeyDeposit>) {
    forall k ::
      FirstDepositor(keyHash, deposits, |deposits|, k) == if k in depositorOf then Some(depositorOf[k]) else None
  }

  lemma DepositRecorded(keyHash: KeyHash, depositorOf: map<Bytes32, Address>, deposits: seq<KeyDeposit>, d: KeyDeposit)
    requires DepositorsOk(keyHash, depositorOf, deposits)
    ensures var k := keyHash(d.x, d.y);
            DepositorsOk(keyHash, if k in depositorOf then depositorOf else depositorOf[k := d.from], deposits + [d])
  {
    var k, next := keyHash(d.x, d.y), deposits + [d];
    var depositorOf' := if k in depositorOf then depositorOf else depositorOf[k := d.from];
    forall j
      ensures FirstDepositor(keyHash, next, |next|, j) == if j in depositorOf' then Some(depositorOf'[j]) else None
    {
      FirstDepositorStays(keyHash, deposits, d, |deposits|, j);
      assert next[|next| - 1] == d;
    }
  }

  /** Exactly the settled batches have a recorded, non-zero hash. */
  ghost predicate HashPerBatch(hashes: map<nat, Bytes32>, count: nat) {
    (forall i: nat :: i in hashes <==> i < count) && (forall i | i in hashes :: hashes[i] != 0)
  }

  /** Every settled batch carried a proof the verifier accepted. */
  predicate AllVerified(verifies: (ProofBytes, Settled) -> bool, proofs: seq<ProofBytes>, s: seq<Settled>) {
    |proofs| == |s| && forall i | 0 <= i < |s| :: verifies(proofs[i], s[i])
  }

  lemma VerifiedGrows(verifies: (ProofBytes, Settled) -> bool, proofs: seq<ProofBytes>, s: seq<Settled>,
                      proof: ProofBytes, next: Settled)
    requires AllVerified(verifies, proofs, s) && verifies(proof, next)
    ensures AllVerified(verifies, proofs + [proof], s + [next])
  {
  }

  lemma HashRecorded(hashes: map<nat, Bytes32>, count: nat, hash: Bytes32)
    requires HashPerBatch(hashes, count) && hash != 0
    ensures HashPerBatch(hashes[count := hash], count + 1)
  {
  }

  /** Settled batches chain up to the current root, each with a verified proof and its two hashes. */
  ghost predicate ChainOk(verifies: (ProofBytes, Settled) -> bool, s: seq<Settled>, proofs: seq<ProofBytes>,
                          root: Bytes32, count: nat, blobs: map<nat, Bytes32>, datas: map<nat, Bytes32>) {
    && count == |s| == |proofs| && count <= MAX_UINT64
    && RootsChain(s) && (s != [] ==> root == s[|s| - 1].newRoot)
    && AllVerified(verifies, proofs, s)
    && HashPerBatch(blobs, count) && HashPerBatch(datas, count)
  }

  lemma ChainSettles(verifies: (ProofBytes, Settled) -> bool, s: seq<Settled>, proofs: seq<ProofBytes>, root: Bytes32,
                     count: nat, blobs: map<nat, Bytes32>, datas: map<nat, Bytes32>, next: Settled, proof: ProofBytes,
                         blob: Bytes32, data: Bytes32)
    requires ChainOk(verifies, s, proofs, root, count, blobs, datas) && count < MAX_UINT64
    requires next.oldRoot == root && verifies(proof, next) && blob != 0 && data != 0
    ensures ChainOk(verifies, s + [next], proofs + [proof], next.newRoot, count + 1, blobs[count := blob],
                    datas[count := data])
  {
    hide RootsChain, AllVerified, HashPerBatch;
    ChainGrows(s, next, root);
    VerifiedGrows(verifies, proofs, s, proof, next);
    HashRecorded(blobs, count, blob);
    HashRecorded(datas, count, data);
  }

  lemma ChainGrows(s: seq<Settled>, next: Settled, root: Bytes32)
    requires RootsChain(s) && (s != [] ==> s[|s| - 1].newRoot == root) && next.oldRoot == root
    ensures RootsChain(s + [next])
  {
  }

  /** Ids 1 up to the next one are taken, each token has one id, and ids fit a leaf index. */
  ghost predicate RegistryOk(tokens: map<nat, Address>, tokenIds: map<Address, nat>, nextTokenId: nat) {
    && 1 <= nextTokenId <= 256
    && (forall id: nat :: id in tokens <==> 1 <= id < nextTokenId)
    && (forall id | id in tokens :: tokens[id] in tokenIds && tokenIds[tokens[id]] == id)
    && (forall a | a in tokenIds :: tokenIds[a] in tokens && tokens[tokenIds[a]] == a)
  }

  /** No index word is paid twice, and the mapping remembers exactly the paid ones. */
  ghost predicate PaidOk(paid: seq<Payment>, withdrawn: set<Bytes32>) {
    && (forall i, j | 0 <= i < j < |paid| :: paid[i].claim.index != paid[j].claim.index)
    && (forall i | 0 <= i < |paid| :: paid[i].claim.index in withdrawn)
    && (forall x | x in withdrawn :: exists i | 0 <= i < |paid| :: paid[i].claim.index == x)
  }

  /** The claim folded to the root, its token is the one its index names, and its key words' first depositor got the
      money. */
  ghost predicate Justified(h: Hash, keyHash: KeyHash, tokens: map<nat, Address>, depositorOf: map<Bytes32, Address>,
                            q: Payment) {
    && WellFormed(q.claim) && ClaimRoot(h, q.claim) == q.root
    && q.claim.tokenId == q.claim.index % 256 && q.claim.tokenId in tokens && tokens[q.claim.tokenId] == q.token
    && q.token != 0 && q.amount == q.claim.balance
    && keyHash(q.claim.pubX, q.claim.pubY) in depositorOf && depositorOf[keyHash(q.claim.pubX, q.claim.pubY)] == q.to
  }

  ghost predicate AllJustified(h: Hash, keyHash: KeyHash, tokens: map<nat, Address>,
                               depositorOf: map<Bytes32, Address>, paid: seq<Payment>) {
    forall i | 0 <= i < |paid| :: Justified(h, keyHash, tokens, depositorOf, paid[i])
  }

  /** Each settlement has its time, the last one is on record, and every payout was made more than the timeout after the
      last settlement before it (or after deployment), against the root of that settlement. */
  ghost predicate StallsOk(settled: seq<Settled>, settledAt: seq<nat>, deployedAt: nat, lastBatchAt: nat, timeout: nat,
                           paid: seq<Payment>) {
    && |settledAt| == |settled| && lastBatchAt == (if settled == [] then deployedAt else settledAt[|settled| - 1])
    && forall i | 0 <= i < |paid| :: PaidInStall(settled, settledAt, deployedAt, timeout, paid[i])
  }

  ghost predicate PaidInStall(settled: seq<Settled>, settledAt: seq<nat>, deployedAt: nat, timeout: nat, q: Payment)
    requires |settledAt| == |settled|
  {
    && q.after <= |settled| && q.at > (if q.after == 0 then deployedAt else settledAt[q.after - 1]) + timeout
    && (q.after > 0 ==> q.root == settled[q.after - 1].newRoot)
  }

  lemma StallsGrow(settled: seq<Settled>, settledAt: seq<nat>, deployedAt: nat, lastBatchAt: nat, timeout: nat,
                   paid: seq<Payment>, next: Settled, now: nat)
    requires StallsOk(settled, settledAt, deployedAt, lastBatchAt, timeout, paid)
    ensures StallsOk(settled + [next], settledAt + [now], deployedAt, now, timeout, paid)
  {
    forall i | 0 <= i < |paid| ensures PaidInStall(settled + [next], settledAt + [now], deployedAt, timeout, paid[i]) {
      assert PaidInStall(settled, settledAt, deployedAt, timeout, paid[i]);
    }
  }

  lemma StallsPay(settled: seq<Settled>, settledAt: seq<nat>, deployedAt: nat, lastBatchAt: nat, timeout: nat,
                  paid: seq<Payment>, q: Payment)
    requires StallsOk(settled, settledAt, deployedAt, lastBatchAt, timeout, paid)
    requires q.after == |settled| && q.at > lastBatchAt + timeout
    requires settled != [] ==> q.root == settled[|settled| - 1].newRoot
    ensures StallsOk(settled, settledAt, deployedAt, lastBatchAt, timeout, paid + [q])
  {
  }

  /** Registered tokens and recorded depositors never change, so payments stay justified. */
  lemma StayJustified(h: Hash, keyHash: KeyHash, tokens: map<nat, Address>, depositorOf: map<Bytes32, Address>,
                      tokens': map<nat, Address>, depositorOf': map<Bytes32, Address>, paid: seq<Payment>)
    requires AllJustified(h, keyHash, tokens, depositorOf, paid)
    requires forall id | id in tokens :: id in tokens' && tokens'[id] == tokens[id]
    requires forall k | k in depositorOf :: k in depositorOf' && depositorOf'[k] == depositorOf[k]
    ensures AllJustified(h, keyHash, tokens', depositorOf', paid)
  {
    hide ClaimRoot;
    forall i | 0 <= i < |paid| ensures Justified(h, keyHash, tokens', depositorOf', paid[i]) {
      assert Justified(h, keyHash, tokens, depositorOf, paid[i]);
    }
  }

  lemma PaymentRecorded(paid: seq<Payment>, withdrawn: set<Bytes32>, q: Payment)
    requires PaidOk(paid, withdrawn) && q.claim.index !in withdrawn
    ensures PaidOk(paid + [q], withdrawn + {q.claim.index})
  {
    var next := paid + [q];
    assert next[|paid|] == q;
    forall x | x in withdrawn ensures exists i | 0 <= i < |next| :: next[i].claim.index == x {
      var i :| 0 <= i < |paid| && paid[i].claim.index == x;
      assert next[i].claim.index == x;
    }
  }

  class NowaRollup {
    const h: Hash
    const verifies: (ProofBytes, Settled) -> bool    // the Groth16 verifier
    const keyHash: KeyHash                           // keccak256 of the encoded key
    const escapeTimeout: nat
    const owner: Address
    var stateRoot: Bytes32
    var batchCount: nat
    var tokens: map<nat, Address>
    var tokenIds: map<Address, nat>
    var nextTokenId: nat
    var batchBlobHash: map<nat, Bytes32>
    var batchDataHash: map<nat, Bytes32>
    var isProver: set<Address>
    var lastBatchAt: nat
    var depositorOf: map<Bytes32, Address>
    var escapeWithdrawn: set<Bytes32>
    ghost var settled: seq<Settled>     // batches in settlement order
    ghost var settledAt: seq<nat>       // when each was settled
    ghost const deployedAt: nat
    ghost var proofs: seq<ProofBytes>   // the proof each one carried
    ghost var paid: seq<Payment>        // escape payouts, in order
    ghost var deposits: seq<KeyDeposit> // accepted deposits, in order

    ghost predicate Valid()
      reads this
    {
      && ChainOk(verifies, settled, proofs, stateRoot, batchCount, batchBlobHash, batchDataHash)
      && RegistryOk(tokens, tokenIds, nextTokenId)
      && DepositorsOk(keyHash, depositorOf, deposits)
      && PaidOk(paid, escapeWithdrawn) && AllJustified(h, keyHash, tokens, depositorOf, paid)
      && StallsOk(settled, settledAt, deployedAt, lastBatchAt, escapeTimeout, paid)
    }

    constructor (h: Hash, verifies: (ProofBytes, Settled) -> bool, keyHash: KeyHash,
                 sender: Address, initialRoot: Bytes32, escapeTimeout: nat, now: nat)
      ensures Valid() && stateRoot == initialRoot && settled == [] && paid == [] && deposits == []
      ensures this.h == h && this.verifies == verifies && this.keyHash == keyHash
              && this.escapeTimeout == escapeTimeout && owner == sender
      ensures isProver == {sender} && lastBatchAt == deployedAt == now && settledAt == [] && depositorOf == map[]
    {
      this.h, this.verifies, this.keyHash, this.escapeTimeout, owner := h, verifies, keyHash, escapeTimeout, sender;
      stateRoot, batchCount, lastBatchAt, isProver := initialRoot, 0, now, {sender};
      tokens, tokenIds, nextTokenId := map[], map[], 1;
      batchBlobHash, batchDataHash, depositorOf, escapeWithdrawn := map[], map[], map[], {};
      settled, settledAt, deployedAt, proofs, paid, deposits := [], [], now, [], [], [];
    }

    /** Allowed only before the first batch, so it never breaks the settled chain. */
    method SetStateRoot(sender: Address, root: Bytes32) returns (ok: bool)
      requires Valid()
      modifies this`stateRoot
      ensures Valid()
      ensures ok <==> sender == owner && batchCount == 0
      ensures stateRoot == if ok then root else old(stateRoot)
    {
      ok := sender == owner && batchCount == 0;
      if ok {
        stateRoot := root;
      }
    }

    method RegisterToken(sender: Address, token: Address) returns (ok: bool)
      requires Valid()
      modifies this`tokens, this`tokenIds, this`nextTokenId
      ensures Valid()
      ensures ok <==> sender == owner && token !in old(tokenIds) && old(nextTokenId) < 256
      ensures ok ==>
                && tokens == old(tokens)[old(nextTokenId) := token]
                && tokenIds == old(tokenIds)[token := old(nextTokenId)]
                && nextTokenId == old(nextTokenId) + 1
      ensures !ok ==> tokens == old(tokens) && tokenIds == old(tokenIds) && nextTokenId == old(nextTokenId)
    {
      hide PaidOk, ChainOk, DepositorsOk, AllJustified, StallsOk;
      ok := sender == owner && token !in tokenIds && nextTokenId < 256;
      if ok {
        var tokenId := nextTokenId;
        nextTokenId := nextTokenId + 1;
        tokens := tokens[tokenId := token];
        tokenIds := tokenIds[token := tokenId];
        StayJustified(h, keyHash, old(tokens), depositorOf, tokens, depositorOf, paid);
      }
    }

    /** The first depositor into a key owns its escape rights for good. */
    method Deposit(sender: Address, tokenId: nat, amount: nat, pubKeyX: Bytes32, pubKeyY: Bytes32, transferOk: bool)
      returns (ok: bool)
      requires Valid() && sender != 0
      modifies this`depositorOf, this`deposits
      ensures Valid()
      ensures ok <==> tokenId in tokens && tokens[tokenId] != 0 && amount > 0 && transferOk
      ensures deposits == old(deposits) + if ok then [KeyDeposit(sender, pubKeyX, pubKeyY)] else []
      ensures forall k | k in old(depositorOf) :: k in depositorOf && depositorOf[k] == old(depositorOf)[k]
      ensures depositorOf == if ok && keyHash(pubKeyX, pubKeyY) !in old(depositorOf)
                             then old(depositorOf)[keyHash(pubKeyX, pubKeyY) := sender] else old(depositorOf)
    {
      hide PaidOk, ChainOk, RegistryOk, DepositorsOk, AllJustified, StallsOk;
      ok := tokenId in tokens && tokens[tokenId] != 0 && amount > 0 && transferOk;
      if ok {
        var key := keyHash(pubKeyX, pubKeyY);
        DepositRecorded(keyHash, depositorOf, deposits, KeyDeposit(sender, pubKeyX, pubKeyY));
        if key !in depositorOf {
          depositorOf := depositorOf[key := sender];
        }
        deposits := deposits + [KeyDeposit(sender, pubKeyX, pubKeyY)];
        StayJustified(h, keyHash, tokens, old(depositorOf), tokens, depositorOf, paid);
      }
    }

    method SubmitBatch(sender: Address, proof: ProofBytes, oldRoot: Bytes32, newRoot: Bytes32, withdrawalHash: Bytes32,
                       depositHash: Bytes32, dataHash: Bytes32, blobHash: Bytes32, now: nat) returns (ok: bool)
      requires Valid()
      modifies this`batchCount, this`stateRoot, this`batchBlobHash, this`batchDataHash, this`lastBatchAt, this`settled,
               this`settledAt, this`proofs
      ensures Valid()
      ensures ok <==>
        && sender in isProver && oldRoot == old(stateRoot) && dataHash != 0 && blobHash != 0
        && verifies(proof, Settled(oldRoot, newRoot, withdrawalHash, depositHash)) && old(batchCount) < MAX_UINT64
      ensures ok ==>
                && settled == old(settled) + [Settled(oldRoot, newRoot, withdrawalHash, depositHash)]
                && settledAt == old(settledAt) + [now] && proofs == old(proofs) + [proof]
      ensures ok ==> stateRoot == newRoot && lastBatchAt == now && batchCount == old(batchCount) + 1
      ensures ok ==> batchBlobHash == old(batchBlobHash)[old(batchCount) := blobHash]
      ensures ok ==> batchDataHash == old(batchDataHash)[old(batchCount) := dataHash]
      ensures !ok ==>
                && settled == old(settled) && settledAt == old(settledAt) && proofs == old(proofs)
                && stateRoot == old(stateRoot) && batchCount == old(batchCount) && lastBatchAt == old(lastBatchAt)
                && batchBlobHash == old(batchBlobHash) && batchDataHash == old(batchDataHash)
    {
      hide RegistryOk, PaidOk, ChainOk, DepositorsOk, AllJustified, StallsOk;
      ok := sender in isProver && oldRoot == stateRoot && dataHash != 0 && blobHash != 0;
      if !ok {
        return;
      }
      var publicInputs := Settled(oldRoot, newRoot, withdrawalHash, depositHash);
      ok := verifies(proof, publicInputs) && batchCount < MAX_UINT64;
      if ok {
        Settle(publicInputs, proof, dataHash, blobHash, now);
      }
    }

    /** The effects of a verified batch. */
    method Settle(publicInputs: Settled, proof: ProofBytes, dataHash: Bytes32, blobHash: Bytes32, now: nat)
      requires Valid() && publicInputs.oldRoot == stateRoot && verifies(proof, publicInputs)
      requires dataHash != 0 && blobHash != 0 && batchCount < MAX_UINT64
      modifies this`batchCount, this`stateRoot, this`batchBlobHash, this`batchDataHash, this`lastBatchAt, this`settled,
               this`settledAt, this`proofs
      ensures Valid()
      ensures settled == old(settled) + [publicInputs] && settledAt == old(settledAt) + [now]
      ensures proofs == old(proofs) + [proof]
      ensures stateRoot == publicInputs.newRoot && lastBatchAt == now && batchCount == old(batchCount) + 1
      ensures batchBlobHash == old(batchBlobHash)[old(batchCount) := blobHash]
      ensures batchDataHash == old(batchDataHash)[old(batchCount) := dataHash]
    {
      hide RegistryOk, PaidOk, ChainOk, DepositorsOk, AllJustified, StallsOk;
      ChainSettles(verifies, settled, proofs, stateRoot, batchCount, batchBlobHash, batchDataHash, publicInputs, proof,
                   blobHash, dataHash);
      StallsGrow(settled, settledAt, deployedAt, lastBatchAt, escapeTimeout, paid, publicInputs, now);
      var batchId := batchCount;
      batchCount := batchId + 1;
      stateRoot := publicInputs.newRoot;
      batchBlobHash := batchBlobHash[batchId := blobHash];
      batchDataHash := batchDataHash[batchId := dataHash];
      lastBatchAt := now;
      settled, settledAt, proofs := settled + [publicInputs], settledAt + [now], proofs + [proof];
    }

    lemma LastRoot()
      requires Valid()
      ensures settled != [] ==> stateRoot == settled[|settled| - 1].newRoot
    {
    }

    /** What the contract asks of an escape claim. */
    predicate Payable(sender: Address, p: EscapeProof, now: nat)
      requires WellFormed(p)
      reads this
    {
      && now > lastBatchAt + escapeTimeout && p.index % 256 == p.tokenId
      && keyHash(p.pubX, p.pubY) in depositorOf && depositorOf[keyHash(p.pubX, p.pubY)] == sender
      && p.index !in escapeWithdrawn
      && ClaimRoot(h, p) == stateRoot
      && p.tokenId in tokens && tokens[p.tokenId] != 0
    }

    /** Pays the claimed balance to the first depositor of the claimed key words, once per index word. */
    method EmergencyWithdraw(sender: Address, p: EscapeProof, now: nat, transferOk: bool) returns (ok: bool)
      requires Valid() && WellFormed(p)
      modifies this`escapeWithdrawn, this`paid
      ensures Valid()
      ensures ok <==> old(Payable(sender, p, now)) && transferOk
      ensures ok ==> paid == old(paid) + [Payment(sender, p, tokens[p.tokenId], p.balance, stateRoot, now, |settled|)]
                     && escapeWithdrawn == old(escapeWithdrawn) + {p.index}
      ensures !ok ==> paid == old(paid) && escapeWithdrawn == old(escapeWithdrawn)
    {
      hide RegistryOk, ChainOk, Fold, LeafHash, Reduce, PaidOk, DepositorsOk, StallsOk;
      ok := now > lastBatchAt + escapeTimeout && p.index % 256 == p.tokenId;
      var key := keyHash(p.pubX, p.pubY);
      ok := ok && key in depositorOf && depositorOf[key] == sender && p.index !in escapeWithdrawn;
      var leaf := AccountLeafOf(h, p.index, p.pubX, p.pubY, p.balance, p.nonce);
      var root := FoldMerklePath(h, leaf, p.siblings, p.pathBits);
      ok := ok && root == stateRoot && p.tokenId in tokens && tokens[p.tokenId] != 0 && transferOk;
      if ok {
        ghost var payment := Payment(sender, p, tokens[p.tokenId], p.balance, stateRoot, now, |settled|);
        PaymentRecorded(paid, escapeWithdrawn, payment);
        LastRoot();
        StallsPay(settled, settledAt, deployedAt, lastBatchAt, escapeTimeout, paid, payment);
        escapeWithdrawn := escapeWithdrawn + {p.index};
        paid := paid + [payment];
      }
    }
  }

  // ------------------------------------------------------------------ what escape payouts mean over a run

  /** Two payouts of a run concern the same leaf exactly when their index words agree modulo Q; so with canonical
      indices each leaf is paid at most once. */
  lemma LeafPaidOnce(c: NowaRollup, i: nat, j: nat, l1: Accounts, l2: Accounts)
    requires c.Valid() && i < j < |c.paid| && WellIndexed(l1) && WellIndexed(l2)
    requires c.paid[i].root == RootOf(c.h, DEPTH, l1) && c.paid[j].root == RootOf(c.h, DEPTH, l2)
    ensures WellFormed(c.paid[i].claim) && WellFormed(c.paid[j].claim)
    ensures var p1, p2 := c.paid[i].claim, c.paid[j].claim;
            ClaimBreaks(c.h, l1, p1) || ClaimBreaks(c.h, l2, p2) ||
            ((ClaimPosition(p1) == ClaimPosition(p2) <==> Reduce(p1.index) == Reduce(p2.index))
             && (p1.index < Q && p2.index < Q ==> ClaimPosition(p1) != ClaimPosition(p2)))
  {
    hide ClaimRoot, ClaimBreaks, ClaimPosition, RootOf, Reduce, WellIndexed, RegistryOk, ChainOk, DepositorsOk;
    var p1, p2 := c.paid[i].claim, c.paid[j].claim;
    assert Justified(c.h, c.keyHash, c.tokens, c.depositorOf, c.paid[i])
           && Justified(c.h, c.keyHash, c.tokens, c.depositorOf, c.paid[j]);
    SameLeafExactly(c.h, l1, p1, l2, p2);
    CanonicalIff(p1.index);
    CanonicalIff(p2.index);
  }

  /** A payout goes to the first depositor of the claimed key words.  It is in the leaf's own token exactly when the
      index is canonical, on the leaf's own key exactly when both key words are, and of the leaf's own balance
      exactly when that word is. */
  lemma PaymentIsDue(c: NowaRollup, i: nat, l: Accounts)
    requires c.Valid() && i < |c.paid| && WellIndexed(l) && c.paid[i].root == RootOf(c.h, DEPTH, l)
    ensures WellFormed(c.paid[i].claim)
    ensures var p, pos := c.paid[i].claim, ClaimPosition(c.paid[i].claim);
            ClaimBreaks(c.h, l, p) ||
            (&& pos in l && p.tokenId in c.tokens && c.tokens[p.tokenId] == c.paid[i].token
             && FirstDepositor(c.keyHash, c.deposits, |c.deposits|, c.keyHash(p.pubX, p.pubY)) == Some(c.paid[i].to)
             && (p.tokenId == pos % 256 <==> p.index < Q)
             && (p.pubX == l[pos].key.x && p.pubY == l[pos].key.y <==> p.pubX < Q && p.pubY < Q)
             && (c.paid[i].amount == l[pos].balance <==> p.balance < Q))
  {
    hide ClaimRoot, ClaimBreaks, ClaimPosition, RootOf, Reduce, FirstDepositor, RegistryOk, ChainOk, PaidOk;
    var p := c.paid[i].claim;
    assert Justified(c.h, c.keyHash, c.tokens, c.depositorOf, c.paid[i]);
    ClaimBinds(c.h, l, p);
    TokenOfWord(p.index);
    CanonicalIff(p.pubX);
    CanonicalIff(p.pubY);
    CanonicalIff(p.balance);
  }

  /** Every payout was made more than the timeout after the last batch settled before it, or after deployment, and
      against the root that batch settled. */
  lemma PaidOnlyWhenStalled(c: NowaRollup, i: nat)
    requires c.Valid() && i < |c.paid|
    ensures var q := c.paid[i];
            && q.after <= |c.settled| == |c.settledAt|
            && q.at > (if q.after == 0 then c.deployedAt else c.settledAt[q.after - 1]) + c.escapeTimeout
            && (q.after > 0 ==> q.root == c.settled[q.after - 1].newRoot)
  {
    hide RegistryOk, ChainOk, PaidOk, DepositorsOk, AllJustified;
    assert PaidInStall(c.settled, c.settledAt, c.deployedAt, c.escapeTimeout, c.paid[i]);
  }

  /** The times of the run never go back, up to `now`. */
  ghost predicate ClockOk(c: NowaRollup, now: nat)
    requires |c.settledAt| == |c.settled|
    reads c
  {
    forall i | 0 <= i < |c.paid| ::
      c.paid[i].at <= (if c.paid[i].after < |c.settled| then c.settledAt[c.paid[i].after] else now)
  }

  /** Batch k settled within the timeout of the batch before it, or of deployment. */
  ghost predicate InTime(c: NowaRollup, k: nat)
    requires k < |c.settledAt|
    reads c
  {
    c.settledAt[k] <= (if k == 0 then c.deployedAt else c.settledAt[k - 1]) + c.escapeTimeout
  }

  /** A payout means that the batch after it settled late, or that none has settled since. */
  lemma PaidInGap(c: NowaRollup, now: nat, i: nat)
    requires c.Valid() && |c.settledAt| == |c.settled| && ClockOk(c, now) && i < |c.paid|
    ensures c.paid[i].after < |c.settled| ==> !InTime(c, c.paid[i].after)
    ensures c.paid[i].after >= |c.settled| ==> now > c.lastBatchAt + c.escapeTimeout
  {
    hide RegistryOk, ChainOk, PaidOk, DepositorsOk, AllJustified;
    PaidOnlyWhenStalled(c, i);
  }

  /** While each batch settles within the timeout of the one before it, nothing is paid. */
  lemma NothingPaidWhileSettling(c: NowaRollup, now: nat)
    requires c.Valid() && |c.settledAt| == |c.settled| && ClockOk(c, now)
    requires (forall k | 0 <= k < |c.settled| :: InTime(c, k)) && now <= c.lastBatchAt + c.escapeTimeout
    ensures c.paid == []
  {
    hide RegistryOk, ChainOk, PaidOk, DepositorsOk, AllJustified, InTime, StallsOk;
    if c.paid != [] {
      PaidInGap(c, now, 0);
    }
  }

  /** The words that decide whom a claim pays, and in what, are canonical. */
  predicate CanonicalNames(p: EscapeProof) {
    p.index < Q && p.pubX < Q && p.pubY < Q
  }

  /** The payout is in the leaf's own token, to the first depositor of the leaf's own key. */
  ghost predicate PaidAsDue(c: NowaRollup, i: nat, l: Accounts)
    requires i < |c.paid|
    reads c
  {
    var pos := ClaimPosition(c.paid[i].claim);
    && pos in l && pos % 256 in c.tokens && c.paid[i].token == c.tokens[pos % 256]
    && FirstDepositor(c.keyHash, c.deposits, |c.deposits|, c.keyHash(l[pos].key.x, l[pos].key.y)) == Some(c.paid[i].to)
  }

  /** The committed ledgers behind the payouts of a run. */
  ghost predicate Committed(c: NowaRollup, ledgers: seq<Accounts>)
    reads c
  {
    |ledgers| == |c.paid|
    && forall i | 0 <= i < |ledgers| :: WellIndexed(ledgers[i]) && c.paid[i].root == RootOf(c.h, DEPTH, ledgers[i])
  }

  ghost predicate SomeClaimBreaks(c: NowaRollup, ledgers: seq<Accounts>)
    requires |ledgers| == |c.paid| && forall i | 0 <= i < |c.paid| :: WellFormed(c.paid[i].claim)
    reads c
  {
    exists i | 0 <= i < |ledgers| :: ClaimBreaks(c.h, ledgers[i], c.paid[i].claim)
  }

  /** Over any run whose claims name index and key canonically, every leaf is paid at most once, in its own token, to
      the first depositor of its own key; or some claim exhibits a break. */
  lemma CanonicalRunPaysAsDue(c: NowaRollup, ledgers: seq<Accounts>)
    requires c.Valid() && Committed(c, ledgers) && forall i | 0 <= i < |c.paid| :: CanonicalNames(c.paid[i].claim)
    ensures forall i | 0 <= i < |c.paid| :: WellFormed(c.paid[i].claim)
    ensures SomeClaimBreaks(c, ledgers) ||
            ((forall i | 0 <= i < |c.paid| :: PaidAsDue(c, i, ledgers[i]))
             && forall i, j | 0 <= i < j < |c.paid| :: ClaimPosition(c.paid[i].claim) != ClaimPosition(c.paid[j].claim))
  {
    hide ClaimRoot, ClaimBreaks, ClaimPosition, RootOf, WellIndexed, FirstDepositor, RegistryOk, ChainOk, PaidOk,
         DepositorsOk;
    forall i | 0 <= i < |c.paid| ensures WellFormed(c.paid[i].claim) {
      assert Justified(c.h, c.keyHash, c.tokens, c.depositorOf, c.paid[i]);
    }
    if !SomeClaimBreaks(c, ledgers) {
      forall i | 0 <= i < |c.paid| ensures PaidAsDue(c, i, ledgers[i]) {
        assert !ClaimBreaks(c.h, ledgers[i], c.paid[i].claim);
        PaymentIsDue(c, i, ledgers[i]);
      }
      forall i, j | 0 <= i < j < |c.paid| ensures ClaimPosition(c.paid[i].claim) != ClaimPosition(c.paid[j].claim) {
        assert !ClaimBreaks(c.h, ledgers[i], c.paid[i].claim) && !ClaimBreaks(c.h, ledgers[j], c.paid[j].claim);
        LeafPaidOnce(c, i, j, ledgers[i], ledgers[j]);
      }
    }
  }

  /** After a claim has been paid, the same leaf can be claimed again by the same key exactly under another index
      word with the same residue whose token is registered. */
  lemma NextClaimExactly(c: NowaRollup, sender: Address, p: EscapeProof, now: nat, index: Bytes32)
    requires c.Valid() && WellFormed(p) && Reduce(index) == Reduce(p.index)
    requires now > c.lastBatchAt + c.escapeTimeout && ClaimRoot(c.h, p) == c.stateRoot
    requires c.keyHash(p.pubX, p.pubY) in c.depositorOf && c.depositorOf[c.keyHash(p.pubX, p.pubY)] == sender
    ensures var q := p.(index := index, tokenId := index % 256);
            && ClaimPosition(q) == ClaimPosition(p) && ClaimedAccount(q) == ClaimedAccount(p)
            && (c.Payable(sender, q, now) <==>
                  index !in c.escapeWithdrawn && index % 256 in c.tokens && c.tokens[index % 256] != 0)
  {
    hide ClaimRoot, ClaimPosition, ClaimedAccount, Reduce;
    AliasFoldsAlike(c.h, p, p.(index := index, tokenId := index % 256));
  }

  /** So a leaf is paid a second time, in the next token, whenever that token is registered and index + Q fits a
      word. */
  method PayAliasedIndex(c: NowaRollup, sender: Address, p: EscapeProof, now: nat) returns (first: bool, second: bool)
    requires c.Valid() && WellFormed(p) && c.Payable(sender, p, now)
    requires p.index + Q < TWO_TO_256 && p.index + Q !in c.escapeWithdrawn
    requires p.tokenId + 1 in c.tokens && c.tokens[p.tokenId + 1] != 0
    modifies c`escapeWithdrawn, c`paid
    ensures c.Valid() && first && second && |c.paid| == |old(c.paid)| + 2
    ensures var a, b := c.paid[|old(c.paid)|], c.paid[|old(c.paid)| + 1];
            && a.to == b.to == sender && a.claim.balance == b.claim.balance == p.balance
            && a.token == c.tokens[p.tokenId] && b.token == c.tokens[p.tokenId + 1]
            && ClaimPosition(a.claim) == ClaimPosition(b.claim) && ClaimedAccount(a.claim) == ClaimedAccount(b.claim)
  {
    hide ClaimRoot, ClaimPosition, ClaimedAccount, ChainOk, PaidOk, AllJustified, DepositorsOk, Reduce;
    var index: Bytes32 := p.index + Q;
    NextToken(p.index, c.nextTokenId, p.tokenId);
    var q := p.(index := index, tokenId := index % 256);
    AliasFoldsAlike(c.h, p, q);
    first := c.EmergencyWithdraw(sender, p, now, true);
    second := c.EmergencyWithdraw(sender, q, now, true);
  }

  lemma NextToken(index: Bytes32, nextTokenId: nat, tokenId: nat)
    requires index % 256 == tokenId && tokenId + 1 < nextTokenId <= 256
    ensures (index + Q) % 256 == tokenId + 1 && Reduce(index + Q) == Reduce(index)
  {
    assert Q % 256 == 1;
  }

  /** And a leaf is paid to the depositor of other words for the same key, when nobody has deposited under those
      words yet. */
  method PayAliasedKey(c: NowaRollup, other: Address, p: EscapeProof, now: nat) returns (deposited: bool, paid: bool)
    requires c.Valid() && WellFormed(p) && other != 0 && now > c.lastBatchAt + c.escapeTimeout
    requires p.index % 256 == p.tokenId && p.index !in c.escapeWithdrawn && ClaimRoot(c.h, p) == c.stateRoot
    requires p.tokenId in c.tokens && c.tokens[p.tokenId] != 0
    requires p.pubX + Q < TWO_TO_256 && c.keyHash(p.pubX + Q, p.pubY) !in c.depositorOf
    modifies c`depositorOf, c`deposits, c`escapeWithdrawn, c`paid
    ensures c.Valid() && deposited && paid && |c.paid| == |old(c.paid)| + 1
    ensures var a := c.paid[|old(c.paid)|];
            && a.to == other && a.claim.balance == p.balance && a.token == c.tokens[p.tokenId]
            && ClaimPosition(a.claim) == ClaimPosition(p) && ClaimedAccount(a.claim) == ClaimedAccount(p)
    ensures forall k | k in old(c.depositorOf) :: k in c.depositorOf && c.depositorOf[k] == old(c.depositorOf[k])
  {
    hide ClaimRoot, ClaimPosition, ClaimedAccount, ChainOk, PaidOk, AllJustified, DepositorsOk;
    var x: Bytes32 := p.pubX + Q;
    var q := p.(pubX := x);
    assert Reduce(x) == Reduce(p.pubX);
    AliasFoldsAlike(c.h, p, q);
    deposited := c.Deposit(other, p.tokenId, 1, x, p.pubY, true);
    paid := c.EmergencyWithdraw(other, q, now, true);
  }

  // ------------------------------------------------------------------ the settled chain commits to one ledger

  /** The operations a settled batch proves: their circuit accepts the batch's public inputs. */
  predicate Proven(p: Params, ops: seq<Operation>, s: Settled) {
    && OpsShaped(p, ops) && s.oldRoot < Q && s.newRoot < Q && s.withdrawalHash < Q && s.depositHash < Q
    && Accepts(p, ops, s.oldRoot, s.newRoot, s.withdrawalHash, s.depositHash)
  }

  predicate AllNamed(batches: seq<seq<Operation>>, n: nat)
    requires n <= |batches|
  {
    n == 0 || (AllNamed(batches, n - 1) && OpsNamed(batches[n - 1], |batches[n - 1]|))
  }

  function LedgerAfter(l: Accounts, batches: seq<seq<Operation>>, n: nat): Outcome
    requires n <= |batches| && AllNamed(batches, n)
  {
    if n == 0 then Done(l)
    else
      match LedgerAfter(l, batches, n - 1)
      case Rejected => Rejected
      case Done(l') => RunLedger(l', batches[n - 1], |batches[n - 1]|)
  }

  predicate SomeBatchBreaks(p: Params, l: Accounts, batches: seq<seq<Operation>>, n: nat)
    requires n <= |batches| && AllNamed(batches, n) && forall i | 0 <= i < |batches| :: OpsShaped(p, batches[i])
  {
    n > 0 &&
    (SomeBatchBreaks(p, l, batches, n - 1) ||
     match LedgerAfter(l, batches, n - 1)
     case Rejected => false
     case Done(l') => BatchBreaks(p, l', batches[n - 1], |batches[n - 1]|))
  }

  /** If every settled batch is proven, the chain's last root commits to the ledger that all their operations, in
      order, make of the initial one; or some batch's witness breaks the hash. */
  lemma {:induction false} SettledChainSound(p: Params, l: Accounts, s: seq<Settled>, batches: seq<seq<Operation>>,
                                             n: nat)
    requires 0 < n <= |s| == |batches| && RootsChain(s) && (forall i | 0 <= i < |s| :: Proven(p, batches[i], s[i]))
    requires s[0].oldRoot == RootOf(p.h, p.depth, l)
    ensures AllNamed(batches, n) && (forall i | 0 <= i < |batches| :: OpsShaped(p, batches[i]))
    ensures SomeBatchBreaks(p, l, batches, n) ||
            (LedgerAfter(l, batches, n).Done?
             && s[n - 1].newRoot == RootOf(p.h, p.depth, LedgerAfter(l, batches, n).ledger))
  {
    hide RunLedger, BatchBreaks, RunBatch, BatchOk, OpsNamed;
    assert forall i | 0 <= i < |batches| :: OpsShaped(p, batches[i]) by {
      forall i | 0 <= i < |batches| ensures OpsShaped(p, batches[i]) { assert Proven(p, batches[i], s[i]); }
    }
    assert Proven(p, batches[n - 1], s[n - 1]);
    if n == 1 {
      assert AllNamed(batches, 0) && LedgerAfter(l, batches, 0) == Done(l);
      BatchSound(p, l, batches[0], |batches[0]|);
    } else {
      SettledChainSound(p, l, s, batches, n - 1);
      AcceptedInRange(p, batches[n - 1], |batches[n - 1]|, s[n - 1].oldRoot);
      if !SomeBatchBreaks(p, l, batches, n - 1) {
        BatchSound(p, LedgerAfter(l, batches, n - 1).ledger, batches[n - 1], |batches[n - 1]|);
      }
    }
  }
}
