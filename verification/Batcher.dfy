/** State transitions, the witness they become, and the batcher that groups them. */
module Batcher {
  import opened Options
  import opened Field
  import opened Circuit

  /** One leg as recorded by the sequencer; path and digits come from the tree. */
  datatype LeafUpdate = LeafUpdate(index: nat, balance: nat, nonce: nat, isGenesis: bool, path: seq<Fe>,
                                   pathBits: seq<Fe>)

  datatype StateTransition = StateTransition(
    opType: nat, amount: nat, quoteAmount: nat,
    makerX: nat, makerY: nat, makerSig: string, makerBase: LeafUpdate, makerQuote: LeafUpdate,
    takerX: nat, takerY: nat, takerSig: string, takerBase: LeafUpdate, takerQuote: LeafUpdate)

  /** Decoding of a hex signature into curve coordinates. */
  type SigDecoder = string -> Signature

  function WitnessLeg(u: LeafUpdate): StateUpdate {
    StateUpdate(Reduce(u.index), Reduce(u.balance), Reduce(u.nonce), if u.isGenesis then 1 else 0, u.path, u.pathBits)
  }

  /** The prover's assignment of a transition to circuit variables. */
  function Witness(decode: SigDecoder, t: StateTransition): Operation {
    Operation(
      Reduce(t.opType), Reduce(t.amount), Reduce(t.quoteAmount),
      PublicKey(Reduce(t.makerX), Reduce(t.makerY)), decode(t.makerSig),
      WitnessLeg(t.makerBase), WitnessLeg(t.makerQuote),
      PublicKey(Reduce(t.takerX), Reduce(t.takerY)), decode(t.takerSig),
      WitnessLeg(t.takerBase), WitnessLeg(t.takerQuote))
  }

  datatype ZKBatch = ZKBatch(
    batchID: nat, oldRoot: Fe, newRoot: Fe, withdrawalHash: Fe, depositHash: Fe, transitions: seq<StateTransition>)

  /** One call of AddTransition. */
  datatype Added = Added(t: StateTransition, oldRoot: Fe, newRoot: Fe)

  // ------------------------------------------------------------------ what a sealed batch must be

  function Transitions(log: seq<Added>): (ts: seq<StateTransition>)
    ensures |ts| == |log|
  {
    seq(|log|, i requires 0 <= i < |log| => log[i].t)
  }

  /** Chain of H(acc, leaf index, amount) over the deposits among the first n calls. */
  function DepositAcc(h: Hash, log: seq<Added>, n: nat): Fe
    requires n <= |log|
  {
    if n == 0 then 0
    else
      var acc, t := DepositAcc(h, log, n - 1), log[n - 1].t;
      if t.opType == 3 then h([acc, Reduce(t.takerBase.index), Reduce(t.amount)]) else acc
  }

  function WithdrawalAcc(h: Hash, log: seq<Added>, n: nat): Fe
    requires n <= |log|
  {
    if n == 0 then 0
    else
      var acc, t := WithdrawalAcc(h, log, n - 1), log[n - 1].t;
      if t.opType == 2 then h([acc, Reduce(t.makerBase.index), Reduce(t.amount)]) else acc
  }

  /** The sealed form of a group of calls: first old root, last new root, accumulators of exactly this group. */
  function Sealed(h: Hash, id: nat, log: seq<Added>): ZKBatch
    requires log != []
  {
    ZKBatch(id, log[0].oldRoot, log[|log| - 1].newRoot, WithdrawalAcc(h, log, |log|), DepositAcc(h, log, |log|),
            Transitions(log))
  }

  function Flatten(groups: seq<seq<Added>>, n: nat): seq<Added>
    requires n <= |groups|
  {
    if n == 0 then [] else Flatten(groups, n - 1) + groups[n - 1]
  }

  lemma {:induction false} FlattenExtended(groups: seq<seq<Added>>, g: seq<Added>, n: nat)
    requires n <= |groups|
    ensures Flatten(groups + [g], n) == Flatten(groups, n)
  {
    if n == 0 {
    } else {
      FlattenExtended(groups, g, n - 1);
    }
  }

  /** Sealed batches by id, 1 to n. */
  function History(h: Hash, groups: seq<seq<Added>>, n: nat): (m: map<nat, ZKBatch>)
    requires n <= |groups| && forall k | 0 <= k < n :: groups[k] != []
    ensures forall id: nat :: id in m <==> 1 <= id <= n
  {
    if n == 0 then map[] else History(h, groups, n - 1)[n := Sealed(h, n, groups[n - 1])]
  }

  lemma {:induction false} HistoryAt(h: Hash, groups: seq<seq<Added>>, n: nat, id: nat)
    requires 1 <= id <= n <= |groups| && forall k | 0 <= k < n :: groups[k] != []
    ensures History(h, groups, n)[id] == Sealed(h, id, groups[id - 1])
  {
    if id < n {
      HistoryAt(h, groups, n - 1, id);
    }
  }

  lemma {:induction false} HistoryExtended(h: Hash, groups: seq<seq<Added>>, g: seq<Added>, n: nat)
    requires n <= |groups| && forall k | 0 <= k < n :: groups[k] != []
    ensures History(h, groups + [g], n) == History(h, groups, n)
  {
    if n == 0 {
    } else {
      HistoryExtended(h, groups, g, n - 1);
    }
  }

  lemma {:induction false} AccOfPrefix(h: Hash, log: seq<Added>, a: Added, n: nat)
    requires n <= |log|
    ensures DepositAcc(h, log + [a], n) == DepositAcc(h, log, n)
    ensures WithdrawalAcc(h, log + [a], n) == WithdrawalAcc(h, log, n)
  {
    if n == 0 {
    } else {
      AccOfPrefix(h, log, a, n - 1);
    }
  }

  /** Each call starts from the root the previous call reached. */
  predicate Contiguous(log: seq<Added>) {
    forall i | 0 <= i < |log| - 1 :: log[i].newRoot == log[i + 1].oldRoot
  }

  lemma ContiguousParts(a: seq<Added>, b: seq<Added>)
    requires Contiguous(a + b)
    ensures Contiguous(a) && Contiguous(b)
    ensures a != [] && b != [] ==> a[|a| - 1].newRoot == b[0].oldRoot
  {
    var c := a + b;
    forall i | 0 <= i < |a| - 1 ensures a[i].newRoot == a[i + 1].oldRoot {
      assert c[i] == a[i] && c[i + 1] == a[i + 1];
    }
    forall i | 0 <= i < |b| - 1 ensures b[i].newRoot == b[i + 1].oldRoot {
      assert c[|a| + i] == b[i] && c[|a| + i + 1] == b[i + 1];
    }
    if a != [] && b != [] {
      assert c[|a| - 1] == a[|a| - 1] && c[|a|] == b[0];
    }
  }

  /** Grouping contiguous calls gives groups that are contiguous and whose boundary roots chain. */
  lemma {:induction false} GroupsChain(groups: seq<seq<Added>>, n: nat, open: seq<Added>)
    requires n <= |groups| && (forall k | 0 <= k < n :: groups[k] != []) && Contiguous(Flatten(groups, n) + open)
    ensures forall k | 0 <= k < n :: Contiguous(groups[k])
    ensures forall k | 0 <= k < n - 1 :: groups[k][|groups[k]| - 1].newRoot == groups[k + 1][0].oldRoot
    ensures Contiguous(open) && (n > 0 && open != [] ==> groups[n - 1][|groups[n - 1]| - 1].newRoot == open[0].oldRoot)
  {
    if n == 0 {
      assert Flatten(groups, 0) + open == open;
    } else {
      var before, last := Flatten(groups, n - 1), groups[n - 1];
      assert before + last + open == before + (last + open);
      ContiguousParts(before, last + open);
      ContiguousParts(last, open);
      ContiguousParts(before + last, open);
      GroupsChain(groups, n - 1, last);
    }
  }

  // ------------------------------------------------------------------ the batcher

  class Batcher {
    const h: Hash
    const batchSize: nat
    var currentBatch: ZKBatch
    var latestBatch: Option<ZKBatch>
    var batchCounter: nat
    var batchHistory: map<nat, ZKBatch>
    var currentDepositHash: Fe
    var currentWithdrawalHash: Fe
    ghost var groups: seq<seq<Added>>  // calls of each sealed batch
    ghost var open: seq<Added>         // calls since the last seal

    ghost predicate Valid()
      reads this
    {
      && |open| < batchSize
      && batchCounter == |groups| + 1
      && currentBatch.batchID == batchCounter
      && currentBatch.transitions == Transitions(open)
      && (open != [] ==> currentBatch.oldRoot == open[0].oldRoot && currentBatch.newRoot == open[|open| - 1].newRoot)
      && currentDepositHash == DepositAcc(h, open, |open|)
      && currentWithdrawalHash == WithdrawalAcc(h, open, |open|)
      && (forall k | 0 <= k < |groups| :: |groups[k]| == batchSize)
      && batchHistory == History(h, groups, |groups|)
      && latestBatch == if groups == [] then None else Some(Sealed(h, |groups|, groups[|groups| - 1]))
    }

    /** Every call so far, in order. */
    ghost function Log(): seq<Added>
      reads this
    {
      Flatten(groups, |groups|) + open
    }

    constructor (h: Hash, batchSize: nat)
      requires batchSize > 0
      ensures Valid() && Log() == [] && this.h == h && this.batchSize == batchSize && groups == []
    {
      this.h, this.batchSize := h, batchSize;
      currentBatch := ZKBatch(1, 0, 0, 0, 0, []);
      latestBatch, batchCounter, batchHistory := None, 1, map[];
      currentDepositHash, currentWithdrawalHash := 0, 0;
      groups, open := [], [];
    }

    /** One continuous hash chain over reduced items. */
    method MimcHash(items: seq<int>) returns (digest: Fe)
      ensures digest == h(ReduceAll(items))
    {
      var written: seq<Fe> := [];
      for i := 0 to |items|
        invariant written == ReduceAll(items[..i])
      {
        written := written + [Reduce(items[i])];
        assert items[..i + 1] == items[..i] + [items[i]];
      }
      assert items[..|items|] == items;
      digest := h(written);
    }

    method AddTransition(t: StateTransition, oldRoot: Fe, newRoot: Fe)
      requires Valid()
      modifies this
      ensures Valid()
      ensures Log() == old(Log()) + [Added(t, oldRoot, newRoot)]
      ensures old(|open|) + 1 < batchSize ==> groups == old(groups) && open == old(open) + [Added(t, oldRoot, newRoot)]
      ensures old(|open|) + 1 == batchSize ==>
                groups == old(groups) + [old(open) + [Added(t, oldRoot, newRoot)]] && open == []
    {
      hide History, Flatten, Sealed;
      ghost var call := Added(t, oldRoot, newRoot);
      ghost var grown := open + [call];
      if |currentBatch.transitions| == 0 {
        currentBatch := currentBatch.(oldRoot := oldRoot);
      }
      currentBatch := currentBatch.(transitions := currentBatch.transitions + [t]);
      currentBatch := currentBatch.(newRoot := newRoot);
      assert currentBatch.transitions == Transitions(grown);
      Accumulate(t, call);
      open := grown;
      if |currentBatch.transitions| == batchSize {
        Seal();
      }
      assert Flatten(old(groups), |old(groups)|) + grown == old(Log()) + [call];
    }

    method Accumulate(t: StateTransition, ghost call: Added)
      requires call.t == t
      requires currentDepositHash == DepositAcc(h, open, |open|)
               && currentWithdrawalHash == WithdrawalAcc(h, open, |open|)
      modifies this`currentDepositHash, this`currentWithdrawalHash
      ensures currentDepositHash == DepositAcc(h, open + [call], |open| + 1)
      ensures currentWithdrawalHash == WithdrawalAcc(h, open + [call], |open| + 1)
    {
      AccOfPrefix(h, open, call, |open|);
      ReducedTriple(currentDepositHash, t.takerBase.index, t.amount);
      ReducedTriple(currentWithdrawalHash, t.makerBase.index, t.amount);
      if t.opType == 3 {
        currentDepositHash := MimcHash([currentDepositHash, t.takerBase.index, t.amount]);
      }
      if t.opType == 2 {
        currentWithdrawalHash := MimcHash([currentWithdrawalHash, t.makerBase.index, t.amount]);
      }
    }

    /** The full batch goes into the history and a new one starts. */
    method Seal()
      requires |open| == batchSize > 0
      requires batchCounter == |groups| + 1 && currentBatch.batchID == batchCounter
      requires currentBatch.transitions == Transitions(open)
      requires currentBatch.oldRoot == open[0].oldRoot && currentBatch.newRoot == open[|open| - 1].newRoot
      requires currentDepositHash == DepositAcc(h, open, |open|)
               && currentWithdrawalHash == WithdrawalAcc(h, open, |open|)
      requires forall k | 0 <= k < |groups| :: |groups[k]| == batchSize
      requires batchHistory == History(h, groups, |groups|)
      modifies this
      ensures Valid() && Log() == old(Log()) && groups == old(groups) + [old(open)] && open == []
    {
      hide History, Flatten;
      currentBatch := currentBatch.(withdrawalHash := currentWithdrawalHash);
      currentBatch := currentBatch.(depositHash := currentDepositHash);
      assert currentBatch == Sealed(h, batchCounter, open);
      SealedLast(h, groups, open);
      batchHistory := batchHistory[currentBatch.batchID := currentBatch];
      latestBatch := Some(currentBatch);
      batchCounter := batchCounter + 1;
      currentBatch := ZKBatch(batchCounter, 0, 0, 0, 0, []);
      currentDepositHash, currentWithdrawalHash := 0, 0;
      groups, open := groups + [open], [];
    }

    method GetBatch(id: nat) returns (batch: Option<ZKBatch>)
      requires Valid()
      ensures batch == if 1 <= id <= |groups| then Some(Sealed(h, id, groups[id - 1])) else None
    {
      if 1 <= id <= |groups| {
        HistoryAt(h, groups, |groups|, id);
      }
      batch := if id in batchHistory then Some(batchHistory[id]) else None;
    }

    method GetBatchCount() returns (count: nat)
      requires Valid()
      ensures count == |groups|
    {
      CountIds(batchHistory.Keys, |groups|);
      count := |batchHistory|;
    }
  }

  lemma SealedLast(h: Hash, groups: seq<seq<Added>>, open: seq<Added>)
    requires open != [] && forall k | 0 <= k < |groups| :: groups[k] != []
    ensures var g' := groups + [open];
            && (forall k | 0 <= k < |g'| :: g'[k] != [])
            && History(h, g', |g'|) == History(h, groups, |groups|)[|groups| + 1 := Sealed(h, |groups| + 1, open)]
            && Flatten(g', |g'|) == Flatten(groups, |groups|) + open
  {
    HistoryExtended(h, groups, open, |groups|);
    FlattenExtended(groups, open, |groups|);
  }

  lemma ReducedTriple(acc: Fe, index: nat, amount: nat)
    ensures ReduceAll([acc, index, amount]) == [acc, Reduce(index), Reduce(amount)]
  {
  }

  lemma {:induction false} CountIds(ids: set<nat>, n: nat)
    requires forall id: nat :: id in ids <==> 1 <= id <= n
    ensures |ids| == n
  {
    if n > 0 {
      CountIds(ids - {n}, n - 1);
    } else {
      assert ids == {};
    }
  }

  // ------------------------------------------------------------------ sealed batches prove

  function Operations(decode: SigDecoder, log: seq<Added>): (ops: seq<Operation>)
    ensures |ops| == |log|
  {
    seq(|log|, i requires 0 <= i < |log| => Witness(decode, log[i].t))
  }

  /** The circuit accepts this transition from its old root and computes its new root. */
  predicate Proves(p: Params, decode: SigDecoder, a: Added) {
    && a.t.opType < 4
    && OpShaped(p, Witness(decode, a.t))
    && Satisfied(p, Witness(decode, a.t), a.oldRoot)
    && OutRoot(p, Witness(decode, a.t), a.oldRoot) == a.newRoot
  }

  lemma NextAccumulators(h: Hash, decode: SigDecoder, t: StateTransition, d: Fe, w: Fe)
    requires t.opType < 4
    ensures NextDepositHash(h, Witness(decode, t), d) ==
              if t.opType == 3 then h([d, Reduce(t.takerBase.index), Reduce(t.amount)]) else d
    ensures NextWithdrawalHash(h, Witness(decode, t), w) ==
              if t.opType == 2 then h([w, Reduce(t.makerBase.index), Reduce(t.amount)]) else w
  {
  }

  /** The batcher's accumulators are the circuit's. */
  lemma {:induction false} AccumulatorsAgree(p: Params, decode: SigDecoder, log: seq<Added>, n: nat, root: Fe)
    requires n <= |log| && OpsShaped(p, Operations(decode, log)) && forall i | 0 <= i < |log| :: log[i].t.opType < 4
    ensures RunBatch(p, Operations(decode, log), n, root).depositHash == DepositAcc(p.h, log, n)
    ensures RunBatch(p, Operations(decode, log), n, root).withdrawalHash == WithdrawalAcc(p.h, log, n)
  {
    hide OutRoot, OpShaped, Witness, NextDepositHash, NextWithdrawalHash;
    if n == 0 {
    } else {
      AccumulatorsAgree(p, decode, log, n - 1, root);
      var r := RunBatch(p, Operations(decode, log), n - 1, root);
      NextAccumulators(p.h, decode, log[n - 1].t, r.depositHash, r.withdrawalHash);
    }
  }

  lemma {:induction false} ProvesInOrder(p: Params, decode: SigDecoder, log: seq<Added>, n: nat)
    requires 0 < n <= |log| && Contiguous(log) && (forall i | 0 <= i < |log| :: Proves(p, decode, log[i]))
    ensures OpsShaped(p, Operations(decode, log))
    ensures BatchOk(p, Operations(decode, log), n, log[0].oldRoot)
    ensures RunBatch(p, Operations(decode, log), n, log[0].oldRoot).root == log[n - 1].newRoot
  {
    var ops := Operations(decode, log);
    assert OpsShaped(p, ops);
    assert ops[n - 1] == Witness(decode, log[n - 1].t) && Proves(p, decode, log[n - 1]);
    if n == 1 {
      assert BatchOk(p, ops, 0, log[0].oldRoot) && RunBatch(p, ops, 0, log[0].oldRoot).root == log[0].oldRoot;
    } else {
      ProvesInOrder(p, decode, log, n - 1);
      assert log[n - 2].newRoot == log[n - 1].oldRoot;
    }
  }

  /** A sealed batch of provable, contiguous transitions satisfies the whole circuit with its own public inputs. */
  lemma SealedBatchAccepted(p: Params, decode: SigDecoder, id: nat, log: seq<Added>)
    requires log != [] && Contiguous(log) && (forall i | 0 <= i < |log| :: Proves(p, decode, log[i]))
    ensures var b, ops := Sealed(p.h, id, log), Operations(decode, log);
            OpsShaped(p, ops) && Accepts(p, ops, b.oldRoot, b.newRoot, b.withdrawalHash, b.depositHash)
  {
    ProvesInOrder(p, decode, log, |log|);
    AccumulatorsAgree(p, decode, log, |log|, log[0].oldRoot);
  }

  lemma {:induction false} GroupsProve(p: Params, decode: SigDecoder, groups: seq<seq<Added>>, n: nat)
    requires n <= |groups| && forall i | 0 <= i < |Flatten(groups, n)| :: Proves(p, decode, Flatten(groups, n)[i])
    ensures forall k, i | 0 <= k < n && 0 <= i < |groups[k]| :: Proves(p, decode, groups[k][i])
  {
    hide Proves;
    if n == 0 {
    } else {
      var before, last := Flatten(groups, n - 1), groups[n - 1];
      assert Flatten(groups, n) == before + last;
      forall i | 0 <= i < |before| ensures Proves(p, decode, before[i]) {
        assert (before + last)[i] == before[i];
      }
      GroupsProve(p, decode, groups, n - 1);
      forall i | 0 <= i < |last| ensures Proves(p, decode, last[i]) {
        assert (before + last)[|before| + i] == last[i];
      }
    }
  }
}
