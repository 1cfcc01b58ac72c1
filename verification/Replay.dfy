/** Rebuilding the ledger from posted batches: agreement with the proof, and restart after a crash. */
module Replay {
  import opened Field
  import opened Bytes
  import opened Merkle
  import opened MerkleDB
  import opened Circuit
  import opened Batcher
  import opened Honest

  const TWO_TO_64: nat := 0x1_0000_0000_0000_0000
  const CHECKPOINT_KEY: string := "last_replayed_batch"

  // ------------------------------------------------------------------ legs of a transition

  /** One applyLeg call: recorded pre-image, owner, signed balance change, nonce increment. */
  datatype ReplayLeg = ReplayLeg(u: LeafUpdate, x: nat, y: nat, delta: int, bump: nat)

  function ReplayLegs(t: StateTransition): seq<ReplayLeg> {
    var bump := if t.opType == 0 then 0 else 1;
    (if t.opType != 3 then [ReplayLeg(t.makerBase, t.makerX, t.makerY, -(t.amount as int), bump)] else []) +
    (if t.opType == 0 then [ReplayLeg(t.makerQuote, t.makerX, t.makerY, t.quoteAmount, 0)] else []) +
    (if t.opType != 2 then [ReplayLeg(t.takerBase, t.takerX, t.takerY, t.amount, 0)] else []) +
    (if t.opType == 0 then [ReplayLeg(t.takerQuote, t.takerX, t.takerY, -(t.quoteAmount as int), 0)] else [])
  }

  predicate Solvent(leg: ReplayLeg) {
    leg.u.balance + leg.delta >= 0
  }

  predicate AllSolvent(legs: seq<ReplayLeg>) {
    forall i | 0 <= i < |legs| :: Solvent(legs[i])
  }

  /** The absolute record a leg writes; the nonce is a 64-bit counter. */
  function RecordAfter(leg: ReplayLeg): BalanceState
    requires Solvent(leg)
  {
    BalanceState(leg.u.index / 256, leg.u.index % 256, leg.x, leg.y, leg.u.balance + leg.delta,
                 (leg.u.nonce + leg.bump) % TWO_TO_64)
  }

  /** Database writes of a run of legs, up to the first one that would go negative. */
  function LegWrites(h: Hash, legs: seq<ReplayLeg>): seq<Write> {
    if legs == [] || !Solvent(legs[0]) then []
    else TwoWrites(h, legs[0]) + LegWrites(h, legs[1..])
  }

  /** One leg's writes: the record, then its leaf. */
  function TwoWrites(h: Hash, leg: ReplayLeg): seq<Write>
    requires Solvent(leg)
  {
    [PutBalance(RecordAfter(leg)), PutLeaf(leg.u.index, RecordHash(h, RecordAfter(leg)))]
  }

  // ------------------------------------------------------------------ database states

  datatype Store = Store(balances: BalanceMap, leaves: map<nat, Fe>, meta: map<string, seq<Byte>>)

  function ApplyWrite(s: Store, w: Write): Store {
    match w
    case PutBalance(acc) => s.(balances := s.balances[(acc.accountID, acc.tokenID) := acc])
    case PutLeaf(index, hash) => s.(leaves := s.leaves[index := hash])
    case PutMeta(key, value) => s.(meta := s.meta[key := value])
  }

  /** State after the first n of a list of writes. */
  function ApplyWrites(s: Store, ws: seq<Write>, n: nat): Store
    requires n <= |ws|
  {
    if n == 0 then s else ApplyWrite(ApplyWrites(s, ws, n - 1), ws[n - 1])
  }

  /** State after one leg's writes. */
  function AfterLeg(h: Hash, s: Store, leg: ReplayLeg): Store
    requires Solvent(leg)
  {
    var acc := RecordAfter(leg);
    s.(balances := s.balances[(acc.accountID, acc.tokenID) := acc],
       leaves := s.leaves[leg.u.index := RecordHash(h, acc)])
  }

  lemma {:induction false} ApplyConcat(s: Store, a: seq<Write>, b: seq<Write>, n: nat)
    requires n <= |b|
    ensures ApplyWrites(s, a + b, |a| + n) == ApplyWrites(ApplyWrites(s, a, |a|), b, n)
  {
    if n > 0 {
      ApplyConcat(s, a, b, n - 1);
      assert (a + b)[|a| + n - 1] == b[n - 1];
    } else {
      ApplyPrefix(s, a, b, |a|);
    }
  }

  lemma {:induction false} ApplyPrefix(s: Store, a: seq<Write>, b: seq<Write>, n: nat)
    requires n <= |a|
    ensures ApplyWrites(s, a + b, n) == ApplyWrites(s, a, n)
  {
    if n == 0 {
    } else {
      ApplyPrefix(s, a, b, n - 1);
    }
  }

  ghost function StoreOf(tree: LevelDBMerkleTree): Store
    reads tree
  {
    Store(tree.balances, tree.leaves, tree.meta)
  }

  // ------------------------------------------------------------------ the replayer

  method ApplyLeg(tree: LevelDBMerkleTree, u: LeafUpdate, x: nat, y: nat, delta: int, bump: nat) returns (ok: bool)
    requires tree.Valid()
    modifies tree`balances, tree`nodes, tree`leaves, tree`writes
    ensures tree.Valid()
    ensures var leg := ReplayLeg(u, x, y, delta, bump);
            && (ok <==> Solvent(leg))
            && (ok ==> tree.writes == old(tree.writes) + TwoWrites(tree.h, leg)
                       && StoreOf(tree) == AfterLeg(tree.h, old(StoreOf(tree)), leg))
            && (!ok ==> tree.writes == old(tree.writes) && StoreOf(tree) == old(StoreOf(tree)))
  {
    hide NodesOf, Node, RecordHash;
    var newBalance := u.balance + delta;
    if newBalance < 0 {
      return false;
    }
    IndexSplit(u.index);
    tree.SetBalance(BalanceState(u.index / 256, u.index % 256, x, y, newBalance, (u.nonce + bump) % TWO_TO_64));
    ok := true;
  }

  /** The writes of legs `done` and then of one more leg are the writes of `done + [leg]`, when all of `done` are
      solvent. */
  lemma {:induction false} LegWritesSnoc(h: Hash, done: seq<ReplayLeg>, leg: ReplayLeg)
    requires AllSolvent(done)
    ensures LegWrites(h, done + [leg]) == LegWrites(h, done) + LegWrites(h, [leg])
    ensures |LegWrites(h, done)| == 2 * |done|
    decreases |done|
  {
    if done == [] {
      assert done + [leg] == [leg];
    } else {
      assert (done + [leg])[1..] == done[1..] + [leg];
      LegWritesSnoc(h, done[1..], leg);
    }
  }

  lemma {:induction false} LegWritesStop(h: Hash, done: seq<ReplayLeg>, leg: ReplayLeg, rest: seq<ReplayLeg>)
    requires AllSolvent(done) && !Solvent(leg)
    ensures LegWrites(h, done + [leg] + rest) == LegWrites(h, done)
    decreases |done|
  {
    if done == [] {
    } else {
      assert (done + [leg] + rest)[1..] == done[1..] + [leg] + rest;
      LegWritesStop(h, done[1..], leg, rest);
    }
  }

  /** State of a replay that has applied exactly the legs `done`. */
  ghost predicate HasApplied(h: Hash, before: Store, after: Store, log0: seq<Write>, log: seq<Write>,
                             done: seq<ReplayLeg>) {
    var ws := LegWrites(h, done);
    AllSolvent(done) && log == log0 + ws && after == ApplyWrites(before, ws, |ws|)
  }

  lemma ApplyTwo(h: Hash, s: Store, leg: ReplayLeg)
    requires Solvent(leg)
    ensures ApplyWrites(s, TwoWrites(h, leg), 2) == AfterLeg(h, s, leg)
  {
    hide RecordHash, RecordAfter;
    var ws := TwoWrites(h, leg);
    assert ApplyWrites(s, ws, 1) == ApplyWrite(ApplyWrites(s, ws, 0), ws[0]);
    assert ApplyWrites(s, ws, 2) == ApplyWrite(ApplyWrites(s, ws, 1), ws[1]);
  }

  lemma HasAppliedOne(h: Hash, before: Store, mid: Store, log0: seq<Write>, log1: seq<Write>, done: seq<ReplayLeg>,
                      leg: ReplayLeg)
    requires HasApplied(h, before, mid, log0, log1, done) && Solvent(leg)
    ensures HasApplied(h, before, AfterLeg(h, mid, leg), log0, log1 + TwoWrites(h, leg), done + [leg])
  {
    hide RecordHash, RecordAfter, AfterLeg;
    LegWritesSnoc(h, done, leg);
    var a, b := LegWrites(h, done), TwoWrites(h, leg);
    assert LegWrites(h, [leg]) == b by { assert [leg][1..] == []; }
    ApplyConcat(before, a, b, 2);
    ApplyTwo(h, mid, leg);
    assert log0 + a + b == log0 + (a + b);
  }

  /** Applies the transition's active legs in circuit order; fails on the first negative balance. */
  method ReplayTransition(tree: LevelDBMerkleTree, t: StateTransition) returns (ok: bool)
    requires tree.Valid()
    modifies tree`balances, tree`nodes, tree`leaves, tree`writes
    ensures tree.Valid()
    ensures ok <==> AllSolvent(ReplayLegs(t))
    ensures tree.writes == old(tree.writes) + LegWrites(tree.h, ReplayLegs(t))
    ensures StoreOf(tree) == ApplyWrites(old(StoreOf(tree)), LegWrites(tree.h, ReplayLegs(t)),
                                         |LegWrites(tree.h, ReplayLegs(t))|)
  {
    hide NodesOf, Node, RecordHash, HasApplied, ApplyWrites;
    ghost var before, log0, legs := StoreOf(tree), tree.writes, ReplayLegs(t);
    ghost var done: seq<ReplayLeg> := [];
    HasAppliedNone(tree.h, before, log0);
    if t.opType != 3 {
      var bump := if t.opType == 0 then 0 else 1;
      ok := Apply(tree, t.makerBase, t.makerX, t.makerY, -(t.amount as int), bump, before, log0, done, legs);
      if !ok { return; }
      done := done + [ReplayLeg(t.makerBase, t.makerX, t.makerY, -(t.amount as int), bump)];
    }
    if t.opType == 0 {
      ok := Apply(tree, t.makerQuote, t.makerX, t.makerY, t.quoteAmount, 0, before, log0, done, legs);
      if !ok { return; }
      done := done + [ReplayLeg(t.makerQuote, t.makerX, t.makerY, t.quoteAmount, 0)];
    }
    if t.opType != 2 {
      ok := Apply(tree, t.takerBase, t.takerX, t.takerY, t.amount, 0, before, log0, done, legs);
      if !ok { return; }
      done := done + [ReplayLeg(t.takerBase, t.takerX, t.takerY, t.amount, 0)];
    }
    if t.opType == 0 {
      ok := Apply(tree, t.takerQuote, t.takerX, t.takerY, -(t.quoteAmount as int), 0, before, log0, done, legs);
      if !ok { return; }
      done := done + [ReplayLeg(t.takerQuote, t.takerX, t.takerY, -(t.quoteAmount as int), 0)];
    }
    assert done == legs;
    AppliedAll(tree.h, before, StoreOf(tree), log0, tree.writes, done);
    ok := true;
  }

  lemma HasAppliedNone(h: Hash, before: Store, log0: seq<Write>)
    ensures HasApplied(h, before, before, log0, log0, [])
  {
  }

  lemma AppliedAll(h: Hash, before: Store, after: Store, log0: seq<Write>, log: seq<Write>, legs: seq<ReplayLeg>)
    requires HasApplied(h, before, after, log0, log, legs)
    ensures AllSolvent(legs) && log == log0 + LegWrites(h, legs)
            && after == ApplyWrites(before, LegWrites(h, legs), |LegWrites(h, legs)|)
  {
  }

  /** ApplyLeg with the bookkeeping of the legs already applied; on failure nothing of `legs` beyond `done` is
      written. */
  method Apply(tree: LevelDBMerkleTree, u: LeafUpdate, x: nat, y: nat, delta: int, bump: nat,
               ghost before: Store, ghost log0: seq<Write>, ghost done: seq<ReplayLeg>, ghost legs: seq<ReplayLeg>)
                 returns (ok: bool)
    requires tree.Valid() && HasApplied(tree.h, before, StoreOf(tree), log0, tree.writes, done)
    requires done + [ReplayLeg(u, x, y, delta, bump)] <= legs
    modifies tree`balances, tree`nodes, tree`leaves, tree`writes
    ensures tree.Valid()
    ensures ok ==> HasApplied(tree.h, before, StoreOf(tree), log0, tree.writes,
                              done + [ReplayLeg(u, x, y, delta, bump)])
    ensures !ok ==> !AllSolvent(legs) && tree.writes == log0 + LegWrites(tree.h, legs)
                    && StoreOf(tree) == ApplyWrites(before, LegWrites(tree.h, legs), |LegWrites(tree.h, legs)|)
  {
    hide NodesOf, Node, RecordHash, ApplyWrites, LegWrites, AfterLeg, TwoWrites;
    ghost var mid, log1, leg := StoreOf(tree), tree.writes, ReplayLeg(u, x, y, delta, bump);
    ok := ApplyLeg(tree, u, x, y, delta, bump);
    if ok {
      HasAppliedOne(tree.h, before, mid, log0, log1, done, leg);
    } else {
      ghost var rest := legs[|done| + 1..];
      assert legs == done + [leg] + rest;
      assert legs[|done|] == leg;
      LegWritesStop(tree.h, done, leg, rest);
    }
  }

  // ------------------------------------------------------------------ agreement with the proof

  /** The circuit leg that a replay leg mirrors. */
  function CircuitLeg(leg: ReplayLeg): Leg
    requires leg.bump < 2
  {
    Leg(WitnessLeg(leg.u), PublicKey(Reduce(leg.x), Reduce(leg.y)),
        Reduce(if leg.delta < 0 then -leg.delta else 0), Reduce(if leg.delta > 0 then leg.delta else 0), leg.bump)
  }

  predicate Bumps(legs: seq<ReplayLeg>) {
    forall i | 0 <= i < |legs| :: legs[i].bump < 2
  }

  function CircuitLegs(legs: seq<ReplayLeg>): (cs: seq<Leg>)
    requires Bumps(legs)
    ensures |cs| == |legs|
  {
    if legs == [] then [] else [CircuitLeg(legs[0])] + CircuitLegs(legs[1..])
  }

  /** Replay runs exactly the circuit's active legs, for all four operation types. */
  lemma SameLegs(decode: SigDecoder, t: StateTransition)
    requires t.opType < 4
    ensures Bumps(ReplayLegs(t)) && CircuitLegs(ReplayLegs(t)) == ActiveLegs(Witness(decode, t))
  {
    hide WitnessLeg, Reduce;
    ReduceTypes(t.opType);
    var legs := ReplayLegs(t);
    CircuitLegsUnfold(legs);
    if |legs| > 1 {
      CircuitLegsUnfold(legs[1..]);
    }
    if |legs| > 2 {
      assert legs[1..][1..] == legs[2..] && legs[2..][1..] == legs[3..];
      CircuitLegsUnfold(legs[2..]);
      CircuitLegsUnfold(legs[3..]);
    }
  }

  lemma CircuitLegsUnfold(legs: seq<ReplayLeg>)
    requires Bumps(legs) && legs != []
    ensures CircuitLegs(legs) == [CircuitLeg(legs[0])] + CircuitLegs(legs[1..])
    ensures |legs| == 1 ==> CircuitLegs(legs[1..]) == []
  {
  }

  lemma ReduceTypes(opType: nat)
    requires opType < 4
    ensures Reduce(opType) == opType && Reduce(0) == 0
  {
  }

  /** Each leg's recorded path and digits are those of its index in the tree as the previous legs left it. */
  predicate PathsFromTree(h: Hash, depth: nat, leaves: map<nat, Fe>, legs: seq<ReplayLeg>)
    requires Bumps(legs)
    decreases |legs|
  {
    legs == [] ||
    (var leg := legs[0];
     && leg.u.path == PathUp(h, leaves, 0, leg.u.index, depth) && leg.u.pathBits == Bits(leg.u.index, depth)
     && Ancestor(leg.u.index, depth) == 0
     && PathsFromTree(h, depth, leaves[leg.u.index := NewLeaf(h, CircuitLeg(leg))], legs[1..]))
  }

  /** The 64-bit nonce counter does not wrap. */
  predicate NoncesFit(legs: seq<ReplayLeg>) {
    forall i | 0 <= i < |legs| :: legs[i].u.nonce + legs[i].bump < TWO_TO_64
  }

  /** The leaves that replaying the legs leaves behind. */
  function ReplayedLeaves(h: Hash, leaves: map<nat, Fe>, legs: seq<ReplayLeg>): map<nat, Fe>
    requires AllSolvent(legs)
    decreases |legs|
  {
    if legs == [] then leaves
    else ReplayedLeaves(h, leaves[legs[0].u.index := RecordHash(h, RecordAfter(legs[0]))], legs[1..])
  }

  /** The leaves that the circuit's legs prove. */
  function ProvedLeaves(h: Hash, leaves: map<nat, Fe>, legs: seq<ReplayLeg>): map<nat, Fe>
    requires Bumps(legs)
    decreases |legs|
  {
    if legs == [] then leaves else ProvedLeaves(h, leaves[legs[0].u.index := NewLeaf(h, CircuitLeg(legs[0]))],
                                                legs[1..])
  }

  lemma {:induction false} WritesReplayedLeaves(h: Hash, s: Store, legs: seq<ReplayLeg>)
    requires AllSolvent(legs)
    ensures var ws := LegWrites(h, legs); ApplyWrites(s, ws, |ws|).leaves == ReplayedLeaves(h, s.leaves, legs)
    decreases |legs|
  {
    hide RecordHash, RecordAfter;
    if legs == [] {
    } else {
      FirstTwoWrites(h, s, legs);
      WritesReplayedLeaves(h, AfterLeg(h, s, legs[0]), legs[1..]);
    }
  }

  lemma FirstTwoWrites(h: Hash, s: Store, legs: seq<ReplayLeg>)
    requires legs != [] && Solvent(legs[0])
    ensures var ws, rest := LegWrites(h, legs), LegWrites(h, legs[1..]);
            ApplyWrites(s, ws, |ws|) == ApplyWrites(AfterLeg(h, s, legs[0]), rest, |rest|)
  {
    hide RecordHash, RecordAfter, AfterLeg;
    ApplyConcat(s, TwoWrites(h, legs[0]), LegWrites(h, legs[1..]), |LegWrites(h, legs[1..])|);
    ApplyTwo(h, s, legs[0]);
  }

  lemma LegRootInTree(h: Hash, depth: nat, leaves: map<nat, Fe>, leg: ReplayLeg)
    requires leg.bump < 2
    requires leg.u.path == PathUp(h, leaves, 0, leg.u.index, depth) && leg.u.pathBits == Bits(leg.u.index, depth)
    requires Ancestor(leg.u.index, depth) == 0
    ensures LegRoot(h, CircuitLeg(leg)) == Node(h, leaves[leg.u.index := NewLeaf(h, CircuitLeg(leg))], depth, 0)
  {
    hide Node, PathUp, Bits, Ancestor, Fold, NewLeaf, Reduce;
    UpdateByPath(h, leaves, leg.u.index, NewLeaf(h, CircuitLeg(leg)), depth);
  }

  /** Leg by leg the circuit's running root is that of the tree with the leaves proved so far. */
  lemma {:induction false} CircuitRoot(h: Hash, depth: nat, leaves: map<nat, Fe>, legs: seq<ReplayLeg>)
    requires Bumps(legs) && PathsFromTree(h, depth, leaves, legs) && LegsShaped(CircuitLegs(legs))
    ensures LegsRoot(h, CircuitLegs(legs), Node(h, leaves, depth, 0))
            == Node(h, ProvedLeaves(h, leaves, legs), depth, 0)
    decreases |legs|
  {
    hide Node, NewLeaf, PathUp, Bits, Ancestor, LegRoot, CircuitLeg;
    if legs == [] {
    } else {
      var cs := CircuitLegs(legs);
      assert cs[0] == CircuitLeg(legs[0]) && cs[1..] == CircuitLegs(legs[1..]);
      LegRootInTree(h, depth, leaves, legs[0]);
      CircuitRoot(h, depth, leaves[legs[0].u.index := NewLeaf(h, cs[0])], legs[1..]);
    }
  }

  /** The preimage of the leaf that the circuit proves, with the nonce it counts to; replay's has the nonce `n`. */
  function LeafInputs(leg: ReplayLeg, n: nat): seq<Fe> {
    [Reduce(leg.u.index), Reduce(leg.x), Reduce(leg.y), Reduce(leg.u.balance + leg.delta), Reduce(n)]
  }

  lemma HashAtIndex(h: Hash, index: nat, x: nat, y: nat, balance: nat, nonce: nat)
    ensures RecordHash(h, BalanceState(index / 256, index % 256, x, y, balance, nonce))
            == LeafHash(h, index, x, y, balance, nonce)
  {
    hide LeafHash;
    IndexSplit(index);
  }

  /** Both sides write the same account, the circuit with the nonce counted on and replay with it in 64 bits. */
  lemma LeafPreimages(h: Hash, leg: ReplayLeg)
    requires leg.bump < 2 && Solvent(leg)
    ensures NewLeaf(h, CircuitLeg(leg)) == h(LeafInputs(leg, leg.u.nonce + leg.bump))
    ensures RecordHash(h, RecordAfter(leg)) == h(LeafInputs(leg, (leg.u.nonce + leg.bump) % TWO_TO_64))
  {
    hide Reduce, NewLeaf, RecordHash, LeafIndex;
    var debit := if leg.delta < 0 then -leg.delta else 0;
    var credit := if leg.delta > 0 then leg.delta else 0;
    var u, balance := leg.u, leg.u.balance + leg.delta;
    NewLeafIsRecordHash(h, u, leg.x, leg.y, debit, credit, leg.bump);
    HashAtIndex(h, u.index, leg.x, leg.y, balance, u.nonce + leg.bump);
    HashAtIndex(h, u.index, leg.x, leg.y, balance, (u.nonce + leg.bump) % TWO_TO_64);
  }

  lemma {:induction false} SameLeavesWhenFitting(h: Hash, leaves: map<nat, Fe>, legs: seq<ReplayLeg>)
    requires Bumps(legs) && AllSolvent(legs) && NoncesFit(legs)
    ensures ReplayedLeaves(h, leaves, legs) == ProvedLeaves(h, leaves, legs)
    decreases |legs|
  {
    hide NewLeaf, RecordHash, RecordAfter, CircuitLeg, LeafInputs;
    if legs == [] {
    } else {
      LeafPreimages(h, legs[0]);
      SameLeavesWhenFitting(h, leaves[legs[0].u.index := NewLeaf(h, CircuitLeg(legs[0]))], legs[1..]);
    }
  }

  /** Replaying the circuit's legs leaves a tree with the circuit's running root. */
  lemma LegsAgree(h: Hash, depth: nat, s: Store, legs: seq<ReplayLeg>)
    requires Bumps(legs) && AllSolvent(legs) && NoncesFit(legs) && PathsFromTree(h, depth, s.leaves, legs)
    requires LegsShaped(CircuitLegs(legs))
    ensures var ws := LegWrites(h, legs);
            LegsRoot(h, CircuitLegs(legs), Node(h, s.leaves, depth, 0))
                == Node(h, ApplyWrites(s, ws, |ws|).leaves, depth, 0)
  {
    hide Node, PathsFromTree, ReplayedLeaves, ProvedLeaves, LegWrites, ApplyWrites, LegsRoot, CircuitLegs, LegsShaped;
    CircuitRoot(h, depth, s.leaves, legs);
    SameLeavesWhenFitting(h, s.leaves, legs);
    WritesReplayedLeaves(h, s, legs);
  }

  lemma {:induction false} AcceptedAreCovered(h: Hash, legs: seq<Leg>, root: Fe)
    requires LegsShaped(legs) && LegsOk(h, legs, root)
    ensures Covered(legs)
    decreases |legs|
  {
    if legs == [] {
    } else {
      AcceptedAreCovered(h, legs[1..], LegRoot(h, legs[0]));
      forall i | 1 <= i < |legs| ensures legs[i].debit <= legs[i].u.balance {
        assert legs[i] == legs[1..][i - 1];
      }
    }
  }

  lemma {:induction false} CoveredAreSolvent(legs: seq<ReplayLeg>)
    requires Bumps(legs) && Covered(CircuitLegs(legs))
    requires forall i | 0 <= i < |legs| :: legs[i].u.balance < Q && legs[i].delta + Q > 0
    ensures AllSolvent(legs)
    decreases |legs|
  {
    if legs == [] {
    } else {
      var cs := CircuitLegs(legs);
      assert cs[0] == CircuitLeg(legs[0]) && cs[1..] == CircuitLegs(legs[1..]);
      assert Covered(cs[1..]) by {
        forall i | 0 <= i < |cs[1..]| ensures cs[1..][i].debit <= cs[1..][i].u.balance {
          assert cs[1..][i] == cs[i + 1];
        }
      }
      CoveredAreSolvent(legs[1..]);
      assert cs[0].debit <= cs[0].u.balance;
      forall i | 0 <= i < |legs| ensures Solvent(legs[i]) {
        if i > 0 {
          assert legs[i] == legs[1..][i - 1];
        }
      }
    }
  }

  /** Amounts and balances are recorded as canonical field elements. */
  predicate Canonical(t: StateTransition) {
    t.amount < Q && t.quoteAmount < Q && t.makerBase.balance < Q && t.makerQuote.balance < Q && t.takerBase.balance < Q
    && t.takerQuote.balance < Q
  }

  /** Every recorded balance covers its debit as whole numbers. */
  predicate DebitsCovered(t: StateTransition) {
    (t.opType != 3 ==> t.amount <= t.makerBase.balance) && (t.opType == 0 ==> t.quoteAmount <= t.takerQuote.balance)
  }

  lemma SolventExactly(t: StateTransition)
    ensures AllSolvent(ReplayLegs(t)) <==> DebitsCovered(t)
  {
    var legs := ReplayLegs(t);
    assert t.opType != 3 ==> legs[0].delta == -(t.amount as int) && legs[0].u == t.makerBase;
    assert t.opType == 0 ==> legs[3].delta == -(t.quoteAmount as int) && legs[3].u == t.takerQuote;
  }

  /** Nonces are recorded as 64-bit numbers. */
  predicate NonceWidth(t: StateTransition) {
    t.makerBase.nonce < TWO_TO_64 && t.makerQuote.nonce < TWO_TO_64
    && t.takerBase.nonce < TWO_TO_64 && t.takerQuote.nonce < TWO_TO_64
  }

  /** A transfer or withdrawal at the last 64-bit nonce, unless the transfer's credit rewrites the debited leaf. */
  predicate NonceLost(t: StateTransition) {
    && t.opType in {1, 2} && t.makerBase.nonce == TWO_TO_64 - 1
    && !(t.opType == 1 && t.takerBase.index == t.makerBase.index)
  }

  /** The first leg's leaf hashes alike with nonce 0 and with nonce 2^64, or its two leaves fold alike along the path
      that the tree with the later legs' leaves gives it. */
  predicate NonceBreaks(h: Hash, depth: nat, leaves: map<nat, Fe>, legs: seq<ReplayLeg>)
    requires Bumps(legs) && legs != []
  {
    var leg := legs[0];
    var path, bits := PathUp(h, ProvedLeaves(h, leaves, legs[1..]), 0, leg.u.index, depth), Bits(leg.u.index, depth);
    || Clash(h, [LeafInputs(leg, 0)], [LeafInputs(leg, TWO_TO_64)])
    || Clash(h, FoldInputs(h, h(LeafInputs(leg, 0)), path, bits),
             FoldInputs(h, h(LeafInputs(leg, TWO_TO_64)), path, bits))
  }

  /** Two values at one leaf give one root only by a collision. */
  lemma LeafDecidesRoot(h: Hash, depth: nat, leaves: map<nat, Fe>, i: nat, xs: seq<Fe>, ys: seq<Fe>)
    requires xs != ys && Ancestor(i, depth) == 0
    requires Node(h, leaves[i := h(xs)], depth, 0) == Node(h, leaves[i := h(ys)], depth, 0)
    ensures var path, bits := PathUp(h, leaves, 0, i, depth), Bits(i, depth);
            Clash(h, [xs], [ys]) || Clash(h, FoldInputs(h, h(xs), path, bits), FoldInputs(h, h(ys), path, bits))
  {
    hide Node, PathUp, Bits, Ancestor, Fold, FoldInputs;
    UpdateByPath(h, leaves, i, h(xs), depth);
    UpdateByPath(h, leaves, i, h(ys), depth);
    FoldBinds(h, h(xs), PathUp(h, leaves, 0, i, depth), h(ys), PathUp(h, leaves, 0, i, depth), Bits(i, depth));
    assert [xs][0] == xs && [ys][0] == ys;
  }

  lemma ProvedAfterWrite(h: Hash, leaves: map<nat, Fe>, i: nat, v: Fe, rest: seq<ReplayLeg>)
    requires Bumps(rest) && |rest| < 2
    ensures ProvedLeaves(h, leaves[i := v], rest)
         == if rest != [] && rest[0].u.index == i then ProvedLeaves(h, leaves, rest)
         else ProvedLeaves(h, leaves, rest)[i := v]
  {
    hide NewLeaf, CircuitLeg;
    if rest != [] {
      assert rest[1..] == [];
    }
  }

  /** At the last 64-bit nonce the circuit counts on and replay starts again at zero: the two trees have different
      roots, or a collision is exhibited, unless a second leg writes the same leaf. */
  lemma NonceWraps(h: Hash, depth: nat, leaves: map<nat, Fe>, legs: seq<ReplayLeg>)
    requires Bumps(legs) && AllSolvent(legs) && 0 < |legs| <= 2 && NoncesFit(legs[1..])
    requires legs[0].bump == 1 && legs[0].u.nonce == TWO_TO_64 - 1 && Ancestor(legs[0].u.index, depth) == 0
    ensures var same := |legs| == 2 && legs[1].u.index == legs[0].u.index;
            var replayed, proved := ReplayedLeaves(h, leaves, legs), ProvedLeaves(h, leaves, legs);
            if same then replayed == proved
            else Node(h, replayed, depth, 0) != Node(h, proved, depth, 0) || NonceBreaks(h, depth, leaves, legs)
  {
    hide NewLeaf, RecordHash, RecordAfter, CircuitLeg, Node, Ancestor, PathUp, Bits, Clash, FoldInputs, LeafInputs;
    var leg, rest := legs[0], legs[1..];
    var replayed, proved := RecordHash(h, RecordAfter(leg)), NewLeaf(h, CircuitLeg(leg));
    LeafPreimages(h, leg);
    SameLeavesWhenFitting(h, leaves[leg.u.index := replayed], rest);
    ProvedAfterWrite(h, leaves, leg.u.index, replayed, rest);
    ProvedAfterWrite(h, leaves, leg.u.index, proved, rest);
    var others := ProvedLeaves(h, leaves, rest);
    var xs, ys := LeafInputs(leg, 0), LeafInputs(leg, TWO_TO_64);
    NoncesDiffer(leg);
    if Node(h, others[leg.u.index := h(xs)], depth, 0) == Node(h, others[leg.u.index := h(ys)], depth, 0) {
      LeafDecidesRoot(h, depth, others, leg.u.index, xs, ys);
    }
  }

  lemma NoncesDiffer(leg: ReplayLeg)
    ensures LeafInputs(leg, 0) != LeafInputs(leg, TWO_TO_64)
  {
    assert LeafInputs(leg, 0)[4] == Reduce(0) && LeafInputs(leg, TWO_TO_64)[4] == Reduce(TWO_TO_64);
  }

  /** A transition with tree-produced paths that the circuit accepts from the tree's root replays exactly when the
      recorded balances cover the debits as whole numbers, in particular when everything is recorded canonically; and
      replaying it leaves a tree whose root is the circuit's output root exactly when the debited leaf's nonce is not
      lost, but for a collision. */
  lemma ReplayAgrees(p: Params, decode: SigDecoder, s: Store, t: StateTransition)
    requires t.opType < 4 && NonceWidth(t) && OpShaped(p, Witness(decode, t))
    requires Bumps(ReplayLegs(t)) ==> PathsFromTree(p.h, p.depth, s.leaves, ReplayLegs(t))
    requires Satisfied(p, Witness(decode, t), Node(p.h, s.leaves, p.depth, 0))
    ensures AllSolvent(ReplayLegs(t)) <==> DebitsCovered(t)
    ensures Canonical(t) ==> DebitsCovered(t)
    ensures Bumps(ReplayLegs(t))
    ensures DebitsCovered(t) ==>
              var ws, op, legs := LegWrites(p.h, ReplayLegs(t)), Witness(decode, t), ReplayLegs(t);
              var same := Node(p.h, ApplyWrites(s, ws, |ws|).leaves, p.depth, 0)
                  == OutRoot(p, op, Node(p.h, s.leaves, p.depth, 0));
              if NonceLost(t) then !same || NonceBreaks(p.h, p.depth, s.leaves, legs) else same
  {
    hide Node, NewLeaf, PathsFromTree, LegWrites, CircuitLegs, Witness, ApplyWrites, DebitsCovered, AllSolvent,
         ReplayedLeaves, ProvedLeaves, NonceBreaks;
    var legs, op, root := ReplayLegs(t), Witness(decode, t), Node(p.h, s.leaves, p.depth, 0);
    SameLegs(decode, t);
    LegsAreShaped(p, op);
    AcceptedAreCovered(p.h, ActiveLegs(op), root);
    SolventExactly(t);
    if Canonical(t) {
      CoveredAreSolvent(legs);
    }
    if DebitsCovered(t) {
      CircuitRoot(p.h, p.depth, s.leaves, legs);
      WritesReplayedLeaves(p.h, s, legs);
      TransitionLeaves(p.h, p.depth, s.leaves, t);
    }
  }

  lemma TransitionLeaves(h: Hash, depth: nat, leaves: map<nat, Fe>, t: StateTransition)
    requires t.opType < 4 && NonceWidth(t) && AllSolvent(ReplayLegs(t))
    requires Bumps(ReplayLegs(t)) && PathsFromTree(h, depth, leaves, ReplayLegs(t))
    ensures var legs := ReplayLegs(t);
            var same := Node(h, ReplayedLeaves(h, leaves, legs), depth, 0)
                == Node(h, ProvedLeaves(h, leaves, legs), depth, 0);
            if NonceLost(t) then !same || NonceBreaks(h, depth, leaves, legs) else same
  {
    hide Node, ReplayedLeaves, ProvedLeaves, NonceBreaks, AllSolvent, PathUp, Bits, NewLeaf, Ancestor, CircuitLeg;
    var legs := ReplayLegs(t);
    if NoncesFit(legs) {
      SameLeavesWhenFitting(h, leaves, legs);
    } else {
      NonceWraps(h, depth, leaves, legs);
    }
  }

  /** With canonical balances an accepted transition replays exactly when its debited amounts are canonical: the
      circuit reads amounts modulo Q, replay reads them whole. */
  lemma LargeAmountsDoNotReplay(p: Params, decode: SigDecoder, root: Fe, t: StateTransition)
    requires t.opType < 4 && OpShaped(p, Witness(decode, t)) && Satisfied(p, Witness(decode, t), root)
    requires t.makerBase.balance < Q && t.takerQuote.balance < Q
    ensures AllSolvent(ReplayLegs(t)) <==> (t.opType != 3 ==> t.amount < Q) && (t.opType == 0 ==> t.quoteAmount < Q)
  {
    hide LegsOk, SignaturesOk, UpdateOk, AllSolvent;
    SolventExactly(t);
    DebitResidues(p, decode, root, t);
    ResidueCovered(t.amount, t.makerBase.balance);
    ResidueCovered(t.quoteAmount, t.takerQuote.balance);
  }

  lemma ResidueCovered(amount: nat, balance: nat)
    requires balance < Q
    ensures Reduce(amount) <= Reduce(balance) ==> (amount <= balance <==> amount < Q)
  {
  }

  lemma DebitResidues(p: Params, decode: SigDecoder, root: Fe, t: StateTransition)
    requires t.opType < 4 && OpShaped(p, Witness(decode, t)) && Satisfied(p, Witness(decode, t), root)
    ensures t.opType != 3 ==> Reduce(t.amount) <= Reduce(t.makerBase.balance)
    ensures t.opType == 0 ==> Reduce(t.quoteAmount) <= Reduce(t.takerQuote.balance)
  {
    hide LegsOk, SignaturesOk, UpdateOk, Reduce;
    ReduceTypes(t.opType);
    var legs := ActiveLegs(Witness(decode, t));
    LegsAreShaped(p, Witness(decode, t));
    AcceptedAreCovered(p.h, legs, root);
    assert t.opType != 3 ==> legs[0].debit <= legs[0].u.balance;
    assert t.opType == 0 ==> legs[3].debit <= legs[3].u.balance;
  }
}
