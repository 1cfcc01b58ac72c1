/** The resumable replay of all settled batches, and why stopping it anywhere is harmless. */
module CrashReplay {
  import opened Field
  import opened Bytes
  import opened Merkle
  import opened MerkleDB
  import opened Batcher
  import opened Replay

  /** A decoded batch payload: its transitions and the root its proof committed to. */
  datatype Payload = Payload(transitions: seq<StateTransition>, newRoot: Fe)

  datatype Checkpoint = Corrupt | Next(batch: nat)

  /** The next batch to replay, from the stored 8-byte number of the last one. */
  function ReadCheckpoint(meta: map<string, seq<Byte>>): Checkpoint {
    if CHECKPOINT_KEY !in meta then Next(0)
    else if |meta[CHECKPOINT_KEY]| != 8 then Corrupt
    else Next(FromBigEndian(meta[CHECKPOINT_KEY]) + 1)
  }

  lemma CheckpointRead(meta: map<string, seq<Byte>>)
    ensures CHECKPOINT_KEY !in meta ==> ReadCheckpoint(meta) == Next(0)
    ensures CHECKPOINT_KEY in meta ==> (ReadCheckpoint(meta).Corrupt? <==> |meta[CHECKPOINT_KEY]| != 8)
  {
  }

  lemma CheckpointRoundTrip(meta: map<string, seq<Byte>>, b: nat)
    requires b < TWO_TO_64
    ensures ReadCheckpoint(meta[CHECKPOINT_KEY := BigEndian(b, 8)]) == Next(b + 1)
  {
    assert Pow256(8) == TWO_TO_64;
    BigEndianRoundTrip(b, 8);
  }

  // ------------------------------------------------------------------ the writes of a run

  /** Writes of the first n transitions; replay stops at the first one that would go negative. */
  function TransitionWrites(h: Hash, ts: seq<StateTransition>, n: nat): seq<Write>
    requires n <= |ts|
  {
    if n == 0 then []
    else TransitionWrites(h, ts, n - 1) + if AllReplayable(ts, n - 1) then LegWrites(h, ReplayLegs(ts[n - 1])) else []
  }

  function BatchWrites(h: Hash, p: Payload): seq<Write> {
    TransitionWrites(h, p.transitions, |p.transitions|)
  }

  function CheckpointWrite(b: nat): Write {
    PutMeta(CHECKPOINT_KEY, BigEndian(b, 8))
  }

  predicate AllReplayable(ts: seq<StateTransition>, n: nat)
    requires n <= |ts|
  {
    forall i | 0 <= i < n :: AllSolvent(ReplayLegs(ts[i]))
  }

  /** Outcome of an uninterrupted run of batches b..n: the final state, or a failed integrity check. */
  datatype Run = Failed | Finished(s: Store)

  predicate BatchChecks(h: Hash, depth: nat, p: Payload, s: Store) {
    var ws := BatchWrites(h, p);
    AllReplayable(p.transitions, |p.transitions|) && Node(h, ApplyWrites(s, ws, |ws|).leaves, depth, 0) == p.newRoot
  }

  function AfterBatch(h: Hash, p: Payload, b: nat, s: Store): Store {
    var ws := BatchWrites(h, p);
    ApplyWrite(ApplyWrites(s, ws, |ws|), CheckpointWrite(b))
  }

  function RunBatches(h: Hash, depth: nat, payloads: seq<Payload>, b: nat, n: nat, s: Store): Run
    requires n <= |payloads|
    decreases n - b
  {
    if b >= n then Finished(s)
    else if BatchChecks(h, depth, payloads[b], s) then
      RunBatches(h, depth, payloads, b + 1, n, AfterBatch(h, payloads[b], b, s))
    else Failed
  }

  /** State after the first k database writes of the same run, when it is stopped there (or at a failed check). */
  function StopAfter(h: Hash, depth: nat, payloads: seq<Payload>, b: nat, n: nat, s: Store, k: nat): Store
    requires n <= |payloads|
    decreases n - b
  {
    if b >= n then s
    else
      var ws := BatchWrites(h, payloads[b]);
      if k <= |ws| then ApplyWrites(s, ws, k)
      else if !BatchChecks(h, depth, payloads[b], s) then ApplyWrites(s, ws, |ws|)
      else StopAfter(h, depth, payloads, b + 1, n, AfterBatch(h, payloads[b], b, s), k - |ws| - 1)
  }

  /** State in which the run ends: after the last batch, or in the middle of the first one that fails. */
  function EndOf(h: Hash, depth: nat, payloads: seq<Payload>, b: nat, n: nat, s: Store): Store
    requires n <= |payloads|
    decreases n - b
  {
    if b >= n then s
    else if BatchChecks(h, depth, payloads[b], s) then
      EndOf(h, depth, payloads, b + 1, n, AfterBatch(h, payloads[b], b, s))
    else ApplyWrites(s, BatchWrites(h, payloads[b]), |BatchWrites(h, payloads[b])|)
  }

  /** The writes the run makes, up to and including those of the first batch that fails. */
  function WritesOf(h: Hash, depth: nat, payloads: seq<Payload>, b: nat, n: nat, s: Store): seq<Write>
    requires n <= |payloads|
    decreases n - b
  {
    if b >= n then []
    else if BatchChecks(h, depth, payloads[b], s) then
      BatchWrites(h, payloads[b]) + [CheckpointWrite(b)]
          + WritesOf(h, depth, payloads, b + 1, n, AfterBatch(h, payloads[b], b, s))
    else BatchWrites(h, payloads[b])
  }

  /** Stopping after k writes is having applied the first k of the run's writes, and ending is having applied all. */
  lemma {:induction false} StopIsPrefix(h: Hash, depth: nat, payloads: seq<Payload>, b: nat, n: nat, s: Store, k: nat)
    requires n <= |payloads| && k <= |WritesOf(h, depth, payloads, b, n, s)|
    ensures StopAfter(h, depth, payloads, b, n, s, k) == ApplyWrites(s, WritesOf(h, depth, payloads, b, n, s), k)
    ensures k == |WritesOf(h, depth, payloads, b, n, s)| ==>
              EndOf(h, depth, payloads, b, n, s) == ApplyWrites(s, WritesOf(h, depth, payloads, b, n, s), k)
    decreases n - b
  {
    hide BatchWrites, BatchChecks, ApplyWrite;
    if b >= n {
    } else if BatchChecks(h, depth, payloads[b], s) {
      var ws, next := BatchWrites(h, payloads[b]), AfterBatch(h, payloads[b], b, s);
      var first, rest := ws + [CheckpointWrite(b)], WritesOf(h, depth, payloads, b + 1, n, next);
      BatchThenRest(s, ws, CheckpointWrite(b), rest, if k <= |ws| then k else |ws|);
      if k > |ws| {
        StopIsPrefix(h, depth, payloads, b + 1, n, next, k - |first|);
        ApplyConcat(s, first, rest, k - |first|);
      }
    }
  }

  lemma BatchThenRest(s: Store, ws: seq<Write>, c: Write, rest: seq<Write>, k: nat)
    requires k <= |ws|
    ensures ApplyWrites(s, ws + [c] + rest, k) == ApplyWrites(s, ws, k)
    ensures ApplyWrites(s, ws + [c], |ws| + 1) == ApplyWrite(ApplyWrites(s, ws, |ws|), c)
  {
    hide ApplyWrite;
    assert ws + [c] + rest == ws + ([c] + rest);
    ApplyPrefix(s, ws, [c] + rest, k);
    ApplyPrefix(s, ws, [c], |ws|);
  }

  // ------------------------------------------------------------------ the replayer's loops

  method ReplayOneBatch(tree: LevelDBMerkleTree, p: Payload) returns (ok: bool)
    requires tree.Valid()
    modifies tree`balances, tree`nodes, tree`leaves, tree`writes
    ensures tree.Valid()
    ensures ok <==> BatchChecks(tree.h, tree.depth, p, old(StoreOf(tree)))
    ensures ok ==> tree.Root() == p.newRoot
    ensures tree.writes == old(tree.writes) + BatchWrites(tree.h, p)
    ensures StoreOf(tree) == ApplyWrites(old(StoreOf(tree)), BatchWrites(tree.h, p), |BatchWrites(tree.h, p)|)
  {
    hide NodesOf, Node, LegWrites, ApplyWrites, ReplayLegs, AllSolvent;
    ghost var s0, log0 := StoreOf(tree), tree.writes;
    ApplyNothing(s0, TransitionWrites(tree.h, p.transitions, 0));
    for i := 0 to |p.transitions|
      invariant tree.Valid() && AllReplayable(p.transitions, i)
      invariant tree.writes == log0 + TransitionWrites(tree.h, p.transitions, i)
      invariant StoreOf(tree) == ApplyWrites(s0, TransitionWrites(tree.h, p.transitions, i),
                                             |TransitionWrites(tree.h, p.transitions, i)|)
    {
      ghost var a, b := TransitionWrites(tree.h, p.transitions, i), LegWrites(tree.h, ReplayLegs(p.transitions[i]));
      ApplyConcat(s0, a, b, |b|);
      assert log0 + a + b == log0 + (a + b);
      var applied := ReplayTransition(tree, p.transitions[i]);
      if !applied {
        NothingAfterFailure(tree.h, p.transitions, i + 1, |p.transitions|);
        return false;
      }
    }
    ok := tree.Root() == p.newRoot;
  }

  /** Once a transition has failed, the rest of the batch writes nothing. */
  lemma {:induction false} NothingAfterFailure(h: Hash, ts: seq<StateTransition>, m: nat, n: nat)
    requires 0 < m <= n <= |ts| && !AllSolvent(ReplayLegs(ts[m - 1]))
    ensures TransitionWrites(h, ts, n) == TransitionWrites(h, ts, m) && !AllReplayable(ts, n)
  {
    hide LegWrites, AllSolvent, ReplayLegs;
    if m == n {
      assert !AllReplayable(ts, n);
    } else {
      NothingAfterFailure(h, ts, m, n - 1);
    }
  }

  lemma ApplyNothing(s: Store, ws: seq<Write>)
    ensures ApplyWrites(s, ws, 0) == s
  {
  }

  lemma ConcatAdvance(log: seq<Write>, ws: seq<Write>, c: seq<Write>, rest: seq<Write>)
    ensures log + (ws + c + rest) == (log + ws + c) + rest
  {
  }

  /** Replays every batch from the checkpoint on, advancing the checkpoint after each. */
  method ReplayAllBatches(tree: LevelDBMerkleTree, payloads: seq<Payload>, batchCount: nat) returns (ok: bool)
    requires tree.Valid() && batchCount <= |payloads| && batchCount < TWO_TO_64
    modifies tree`balances, tree`nodes, tree`leaves, tree`meta, tree`writes
    ensures tree.Valid()
    ensures old(ReadCheckpoint(tree.meta)).Corrupt? ==> !ok && StoreOf(tree) == old(StoreOf(tree))
    ensures CHECKPOINT_KEY in old(tree.meta) && |old(tree.meta)[CHECKPOINT_KEY]| != 8 ==>
              !ok && StoreOf(tree) == old(StoreOf(tree))
    ensures CHECKPOINT_KEY !in old(tree.meta) ==> old(ReadCheckpoint(tree.meta)) == Next(0)
    ensures old(ReadCheckpoint(tree.meta)).Next? ==>
      var run := RunBatches(tree.h, tree.depth, payloads, old(ReadCheckpoint(tree.meta)).batch, batchCount,
                            old(StoreOf(tree)));
      && (ok <==> run.Finished?) && (ok ==> run == Finished(StoreOf(tree)))
      && StoreOf(tree) == EndOf(tree.h, tree.depth, payloads, old(ReadCheckpoint(tree.meta)).batch, batchCount,
                                old(StoreOf(tree)))
      && tree.writes == old(tree.writes)
                        + WritesOf(tree.h, tree.depth, payloads, old(ReadCheckpoint(tree.meta)).batch, batchCount,
                                   old(StoreOf(tree)))
    ensures ok && old(ReadCheckpoint(tree.meta)).batch < batchCount ==>
              tree.Root() == payloads[batchCount - 1].newRoot && ReadCheckpoint(tree.meta) == Next(batchCount)
  {
    hide NodesOf, Node, BatchWrites, BatchChecks, ReadCheckpoint, ApplyWrites, FromBigEndian, BigEndian;
    ghost var s0 := StoreOf(tree);
    CheckpointRead(tree.meta);
    var checkpoint := ReadCheckpoint(tree.meta);
    if checkpoint.Corrupt? {
      return false;
    }
    var i := checkpoint.batch;
    while i < batchCount
      invariant tree.Valid()
      invariant RunBatches(tree.h, tree.depth, payloads, i, batchCount, StoreOf(tree))
             == RunBatches(tree.h, tree.depth, payloads, checkpoint.batch, batchCount, s0)
      invariant EndOf(tree.h, tree.depth, payloads, i, batchCount, StoreOf(tree))
             == EndOf(tree.h, tree.depth, payloads, checkpoint.batch, batchCount, s0)
      invariant tree.writes + WritesOf(tree.h, tree.depth, payloads, i, batchCount, StoreOf(tree))
             == old(tree.writes) + WritesOf(tree.h, tree.depth, payloads, checkpoint.batch, batchCount, s0)
    {
      ghost var s, log := StoreOf(tree), tree.writes;
      var replayed := ReplayOneBatch(tree, payloads[i]);
      if !replayed {
        return false;
      }
      tree.SetMeta(CHECKPOINT_KEY, BigEndian(i, 8));
      assert StoreOf(tree) == AfterBatch(tree.h, payloads[i], i, s);
      ConcatAdvance(log, BatchWrites(tree.h, payloads[i]), [CheckpointWrite(i)],
                    WritesOf(tree.h, tree.depth, payloads, i + 1, batchCount, StoreOf(tree)));
      i := i + 1;
    }
    if checkpoint.batch < batchCount {
      FinishedRunRebuilds(tree.h, tree.depth, payloads, checkpoint.batch, batchCount, s0, StoreOf(tree));
    }
    ok := true;
  }

  // ------------------------------------------------------------------ what a run has checked

  /** A finished run has rebuilt the root its last payload names, and its checkpoint stands behind that batch. */
  lemma {:induction false} FinishedRunRebuilds(h: Hash, depth: nat, payloads: seq<Payload>, b: nat, n: nat, s: Store,
                                               final: Store)
    requires b < n <= |payloads| && n < TWO_TO_64 && RunBatches(h, depth, payloads, b, n, s) == Finished(final)
    ensures Node(h, final.leaves, depth, 0) == payloads[n - 1].newRoot && ReadCheckpoint(final.meta) == Next(n)
    decreases n - b
  {
    hide Node, ReadCheckpoint, BigEndian, ApplyWrites, BatchWrites;
    var ws := BatchWrites(h, payloads[b]);
    CheckpointRoundTrip(ApplyWrites(s, ws, |ws|).meta, b);
    if b + 1 < n {
      FinishedRunRebuilds(h, depth, payloads, b + 1, n, AfterBatch(h, payloads[b], b, s), final);
    }
  }

  /** If the i-th write is a checkpoint, it is that of one of the run's batches, the tree then has the root that batch's
      payload names, and replay started there goes on with the next batch. */
  ghost predicate CheckpointChecked(h: Hash, depth: nat, payloads: seq<Payload>, b: nat, n: nat, s: Store,
                                    ws: seq<Write>, i: nat)
    requires n <= |payloads| && i < |ws|
  {
    ws[i].PutMeta? ==>
      exists m: nat | b <= m < n :: Checkpointed(h, depth, payloads[m], m, ApplyWrites(s, ws, i + 1))
  }

  predicate Checkpointed(h: Hash, depth: nat, p: Payload, m: nat, s: Store) {
    Node(h, s.leaves, depth, 0) == p.newRoot && ReadCheckpoint(s.meta) == Next(m + 1)
  }

  /** Every checkpoint that a run writes, finished or not, stands behind a batch whose root has been rebuilt. */
  lemma {:induction false} CheckpointsAreChecked(h: Hash, depth: nat, payloads: seq<Payload>, b: nat, n: nat, s: Store,
                                                 i: nat)
    requires n <= |payloads| && n < TWO_TO_64 && i < |WritesOf(h, depth, payloads, b, n, s)|
    ensures CheckpointChecked(h, depth, payloads, b, n, s, WritesOf(h, depth, payloads, b, n, s), i)
    decreases n - b
  {
    hide Node, ReadCheckpoint, BigEndian, ApplyWrites, BatchWrites, BatchChecks, Checkpointed, CheckpointWrite;
    var ws, all := BatchWrites(h, payloads[b]), WritesOf(h, depth, payloads, b, n, s);
    BatchWritesNoMeta(h, payloads[b]);
    if i < |ws| {
      assert all[i] == ws[i];
    } else {
      var next := AfterBatch(h, payloads[b], b, s);
      var first, rest := ws + [CheckpointWrite(b)], WritesOf(h, depth, payloads, b + 1, n, next);
      assert all == first + rest;
      BatchThenRest(s, ws, CheckpointWrite(b), rest, |ws|);
      if i == |ws| {
        FirstCheckpoint(h, depth, payloads[b], b, s, rest);
      } else {
        var j := i - |first|;
        CheckpointsAreChecked(h, depth, payloads, b + 1, n, next, j);
        assert all[i] == rest[j];
        ApplyConcat(s, first, rest, j + 1);
      }
    }
  }

  lemma FirstCheckpoint(h: Hash, depth: nat, p: Payload, b: nat, s: Store, rest: seq<Write>)
    requires b < TWO_TO_64 && BatchChecks(h, depth, p, s)
    ensures var ws := BatchWrites(h, p);
            Checkpointed(h, depth, p, b, ApplyWrites(s, ws + [CheckpointWrite(b)] + rest, |ws| + 1))
  {
    hide Node, ReadCheckpoint, BigEndian, ApplyWrites, BatchWrites;
    var ws := BatchWrites(h, p);
    CheckpointRoundTrip(ApplyWrites(s, ws, |ws|).meta, b);
    BatchThenRest(s, ws, CheckpointWrite(b), rest, |ws|);
    ApplyPrefix(s, ws + [CheckpointWrite(b)], rest, |ws| + 1);
  }

  /** A batch whose legs are not all solvent, or whose rebuilt root is not the one its payload names, ends every run
      that reaches it, with the checkpoint still before it. */
  lemma {:induction false} WrongRootStops(h: Hash, depth: nat, payloads: seq<Payload>, b: nat, m: nat, n: nat, s: Store,
                                          reached: Store)
    requires b <= m < n <= |payloads| && n < TWO_TO_64 && ReadCheckpoint(s.meta) == Next(b)
    requires RunBatches(h, depth, payloads, b, m, s) == Finished(reached)
    requires var ws := BatchWrites(h, payloads[m]);
             || Node(h, ApplyWrites(reached, ws, |ws|).leaves, depth, 0) != payloads[m].newRoot
             || exists t | t in payloads[m].transitions :: !AllSolvent(ReplayLegs(t))
    ensures RunBatches(h, depth, payloads, b, n, s) == Failed
    ensures ReadCheckpoint(EndOf(h, depth, payloads, b, n, s).meta) == Next(m)
    decreases m - b
  {
    hide Node, ReadCheckpoint, BigEndian, ApplyWrites, BatchWrites, AllSolvent, ReplayLegs;
    var ws := BatchWrites(h, payloads[b]);
    BatchWritesNoMeta(h, payloads[b]);
    WritesStayWithin(s, ws, |ws|, |ws|);
    if b < m {
      CheckpointRoundTrip(ApplyWrites(s, ws, |ws|).meta, b);
      WrongRootStops(h, depth, payloads, b + 1, m, n, AfterBatch(h, payloads[b], b, s), reached);
    }
  }

  // ------------------------------------------------------------------ overlays

  /** Two states agree except possibly at records and leaves in the given sets. */
  ghost predicate AgreeExcept(s1: Store, s2: Store, ks: set<(nat, nat)>, is': set<nat>) {
    && s1.meta == s2.meta
    && (forall k: (nat, nat) | k !in ks ::
          (k in s1.balances <==> k in s2.balances) && (k in s1.balances ==> s1.balances[k] == s2.balances[k]))
    && (forall i: nat | i !in is' ::
          (i in s1.leaves <==> i in s2.leaves) && (i in s1.leaves ==> s1.leaves[i] == s2.leaves[i]))
  }

  function Records(ws: seq<Write>, n: nat): set<(nat, nat)>
    requires n <= |ws|
  {
    if n == 0 then {}
    else Records(ws, n - 1) + if ws[n - 1].PutBalance? then {(ws[n - 1].acc.accountID, ws[n - 1].acc.tokenID)} else {}
  }

  function LeafIndices(ws: seq<Write>, n: nat): set<nat>
    requires n <= |ws|
  {
    if n == 0 then {} else LeafIndices(ws, n - 1) + if ws[n - 1].PutLeaf? then {ws[n - 1].index} else {}
  }

  predicate NoMeta(ws: seq<Write>) {
    forall i | 0 <= i < |ws| :: !ws[i].PutMeta?
  }

  /** Replaying writes of absolute values erases any disagreement at the places they write. */
  lemma {:induction false} WritesErase(s1: Store, s2: Store, ws: seq<Write>, n: nat, ks: set<(nat, nat)>, is': set<nat>)
    requires n <= |ws| && AgreeExcept(s1, s2, ks, is')
    ensures AgreeExcept(ApplyWrites(s1, ws, n), ApplyWrites(s2, ws, n), ks - Records(ws, n), is' - LeafIndices(ws, n))
  {
    if n == 0 {
    } else {
      WritesErase(s1, s2, ws, n - 1, ks, is');
    }
  }

  /** Applying some of the writes changes nothing but the places those writes touch. */
  lemma {:induction false} WritesStayWithin(s: Store, ws: seq<Write>, n: nat, m: nat)
    requires n <= m <= |ws| && NoMeta(ws)
    ensures AgreeExcept(ApplyWrites(s, ws, n), s, Records(ws, m), LeafIndices(ws, m))
    decreases m, n
  {
    if n < m {
      WritesStayWithin(s, ws, n, m - 1);
    } else if n > 0 {
      WritesStayWithin(s, ws, n - 1, m - 1);
    }
  }

  lemma AgreeTrans(s1: Store, s2: Store, s3: Store, ks: set<(nat, nat)>, is': set<nat>)
    requires AgreeExcept(s1, s2, ks, is') && AgreeExcept(s2, s3, ks, is')
    ensures AgreeExcept(s1, s3, ks, is')
  {
  }

  lemma AgreeEverywhere(s1: Store, s2: Store)
    requires AgreeExcept(s1, s2, {}, {})
    ensures s1 == s2
  {
    assert s1.balances.Keys == s2.balances.Keys;
    assert s1.leaves.Keys == s2.leaves.Keys;
    assert s1.balances == s2.balances;
    assert s1.leaves == s2.leaves;
  }

  lemma {:induction false} LegsWriteNoMeta(h: Hash, legs: seq<ReplayLeg>)
    ensures NoMeta(LegWrites(h, legs))
    decreases |legs|
  {
    if legs != [] && Solvent(legs[0]) {
      LegsWriteNoMeta(h, legs[1..]);
    }
  }

  lemma {:induction false} TransitionsWriteNoMeta(h: Hash, ts: seq<StateTransition>, n: nat)
    requires n <= |ts|
    ensures NoMeta(TransitionWrites(h, ts, n))
  {
    if n == 0 {
    } else {
      TransitionsWriteNoMeta(h, ts, n - 1);
      LegsWriteNoMeta(h, ReplayLegs(ts[n - 1]));
    }
  }

  // ------------------------------------------------------------------ crash safety

  /** `s` is the clean state `base`, possibly dirtied by some of the writes of batch b. */
  ghost predicate Dirty(h: Hash, payloads: seq<Payload>, b: nat, n: nat, s: Store, base: Store)
    requires n <= |payloads|
  {
    if b >= n then s == base
    else
      var ws := BatchWrites(h, payloads[b]);
      AgreeExcept(s, base, Records(ws, |ws|), LeafIndices(ws, |ws|))
  }

  /** Running batch b from a dirtied state is running it from the clean one. */
  lemma DirtyBatchConverges(h: Hash, depth: nat, payloads: seq<Payload>, b: nat, n: nat, s: Store, base: Store)
    requires b < n <= |payloads| && Dirty(h, payloads, b, n, s, base)
    ensures var ws := BatchWrites(h, payloads[b]); ApplyWrites(s, ws, |ws|) == ApplyWrites(base, ws, |ws|)
    ensures AfterBatch(h, payloads[b], b, s) == AfterBatch(h, payloads[b], b, base)
    ensures BatchChecks(h, depth, payloads[b], s) <==> BatchChecks(h, depth, payloads[b], base)
  {
    hide BatchWrites, ApplyWrites;
    var ws := BatchWrites(h, payloads[b]);
    var ks, is' := Records(ws, |ws|), LeafIndices(ws, |ws|);
    WritesErase(s, base, ws, |ws|, ks, is');
    assert ks - ks == {} && is' - is' == {};
    AgreeEverywhere(ApplyWrites(s, ws, |ws|), ApplyWrites(base, ws, |ws|));
  }

  lemma DirtyRunConverges(h: Hash, depth: nat, payloads: seq<Payload>, b: nat, n: nat, s: Store, base: Store)
    requires n <= |payloads| && Dirty(h, payloads, b, n, s, base)
    ensures RunBatches(h, depth, payloads, b, n, s) == RunBatches(h, depth, payloads, b, n, base)
  {
    hide BatchWrites, ApplyWrites;
    if b < n {
      DirtyBatchConverges(h, depth, payloads, b, n, s, base);
    }
  }

  /** A checkpoint in the clean state that names the batch it stands before, and the outcome of running on from
      there. */
  ghost predicate Standing(h: Hash, depth: nat, payloads: seq<Payload>, b: nat, n: nat, base: Store, outcome: Run)
    requires n <= |payloads|
  {
    b <= n && ReadCheckpoint(base.meta) == Next(b) && RunBatches(h, depth, payloads, b, n, base) == outcome
  }

  /** Stopping a run of the first m batches anywhere leaves a clean state dirtied by at most one unfinished batch,
      with the checkpoint before it. */
  lemma {:induction false} StoppedIsDirty(h: Hash, depth: nat, payloads: seq<Payload>, b: nat, m: nat, n: nat,
                                          s: Store, base: Store, outcome: Run, k: nat)
    returns (b': nat, base': Store)
    requires m <= n <= |payloads| && n < TWO_TO_64
    requires Standing(h, depth, payloads, b, n, base, outcome) && Dirty(h, payloads, b, n, s, base)
    ensures Standing(h, depth, payloads, b', n, base', outcome)
    ensures Dirty(h, payloads, b', n, StopAfter(h, depth, payloads, b, m, s, k), base')
    decreases m - b
  {
    hide BatchWrites, ApplyWrites, AgreeExcept, FromBigEndian, ReadCheckpoint, BatchChecks, Records, LeafIndices,
         BigEndian;
    if b >= m {
      b', base' := b, base;
    } else {
      var ws := BatchWrites(h, payloads[b]);
      if k <= |ws| {
        TransitionsWriteNoMeta(h, payloads[b].transitions, |payloads[b].transitions|);
        BatchWritesNoMeta(h, payloads[b]);
        WritesStayWithin(s, ws, k, |ws|);
        AgreeTrans(ApplyWrites(s, ws, k), s, base, Records(ws, |ws|), LeafIndices(ws, |ws|));
        b', base' := b, base;
      } else if !BatchChecks(h, depth, payloads[b], s) {
        BatchWritesNoMeta(h, payloads[b]);
        WritesStayWithin(s, ws, |ws|, |ws|);
        AgreeTrans(ApplyWrites(s, ws, |ws|), s, base, Records(ws, |ws|), LeafIndices(ws, |ws|));
        b', base' := b, base;
      } else {
        DirtyBatchConverges(h, depth, payloads, b, n, s, base);
        var clean := AfterBatch(h, payloads[b], b, base);
        CheckpointRoundTrip(ApplyWrites(base, ws, |ws|).meta, b);
        CleanIsDirty(h, payloads, b + 1, n, clean);
        b', base' := StoppedIsDirty(h, depth, payloads, b + 1, m, n, clean, clean, outcome, k - |ws| - 1);
      }
    }
  }

  lemma BatchWritesNoMeta(h: Hash, p: Payload)
    ensures NoMeta(BatchWrites(h, p))
  {
    TransitionsWriteNoMeta(h, p.transitions, |p.transitions|);
  }

  lemma CleanIsDirty(h: Hash, payloads: seq<Payload>, b: nat, n: nat, s: Store)
    requires n <= |payloads|
    ensures Dirty(h, payloads, b, n, s, s)
  {
  }

  lemma DirtyKeepsMeta(h: Hash, payloads: seq<Payload>, b: nat, n: nat, s: Store, base: Store)
    requires n <= |payloads| && Dirty(h, payloads, b, n, s, base)
    ensures s.meta == base.meta
  {
  }

  /** One interrupted start: the number of batches the chain reported, and the database writes made before the stop. */
  datatype Stop = Stop(batchCount: nat, writes: nat)

  /** Each start reads the checkpoint and the chain's batch count, and is stopped after some number of database
      writes. */
  function Crashes(h: Hash, depth: nat, payloads: seq<Payload>, s: Store, stops: seq<Stop>): Store
    requires forall i | 0 <= i < |stops| :: stops[i].batchCount <= |payloads|
    decreases |stops|
  {
    if stops == [] then s
    else
      match ReadCheckpoint(s.meta)
      case Corrupt => s
      case Next(b) =>
        Crashes(h, depth, payloads, StopAfter(h, depth, payloads, b, stops[0].batchCount, s, stops[0].writes),
                stops[1..])
  }

  /** However often replay is stopped and restarted while batches are added, an uninterrupted run from what is left
      ends as a run that was never stopped: in the same records, leaves and checkpoint, or in a failed check exactly
      when that one does. */
  lemma CrashSafe(h: Hash, depth: nat, payloads: seq<Payload>, n: nat, s: Store, b: nat, stops: seq<Stop>)
    requires n <= |payloads| && n < TWO_TO_64 && b <= n && forall i | 0 <= i < |stops| :: stops[i].batchCount <= n
    requires ReadCheckpoint(s.meta) == Next(b)
    ensures var left := Crashes(h, depth, payloads, s, stops);
            && ReadCheckpoint(left.meta).Next?
            && RunBatches(h, depth, payloads, ReadCheckpoint(left.meta).batch, n, left)
                == RunBatches(h, depth, payloads, b, n, s)
  {
    hide RunBatches, ReadCheckpoint, Crashes, Dirty;
    CleanIsDirty(h, payloads, b, n, s);
    CrashSafeFrom(h, depth, payloads, n, s, b, s, stops, RunBatches(h, depth, payloads, b, n, s));
  }

  lemma {:induction false} CrashSafeFrom(h: Hash, depth: nat, payloads: seq<Payload>, n: nat, s: Store, b: nat,
                                         base: Store, stops: seq<Stop>, outcome: Run)
    requires n <= |payloads| && n < TWO_TO_64 && forall i | 0 <= i < |stops| :: stops[i].batchCount <= n
    requires Standing(h, depth, payloads, b, n, base, outcome) && Dirty(h, payloads, b, n, s, base)
    ensures var left := Crashes(h, depth, payloads, s, stops);
            && ReadCheckpoint(left.meta).Next?
            && RunBatches(h, depth, payloads, ReadCheckpoint(left.meta).batch, n, left) == outcome
    decreases |stops|
  {
    hide RunBatches, StopAfter, Dirty, ReadCheckpoint;
    DirtyKeepsMeta(h, payloads, b, n, s, base);
    if stops == [] {
      DirtyRunConverges(h, depth, payloads, b, n, s, base);
    } else {
      var count, k := stops[0].batchCount, stops[0].writes;
      var b', base' := StoppedIsDirty(h, depth, payloads, b, count, n, s, base, outcome, k);
      CrashSafeFrom(h, depth, payloads, n, StopAfter(h, depth, payloads, b, count, s, k), b', base', stops[1..],
                    outcome);
    }
  }

  /** Equal leaves mean an equal node table and root, so the database as a whole is the same. */
  lemma SameLeavesSameNodes(t1: LevelDBMerkleTree, t2: LevelDBMerkleTree)
    requires t1.Valid() && t2.Valid() && t1.h == t2.h && t1.depth == t2.depth && StoreOf(t1) == StoreOf(t2)
    ensures t1.nodes == t2.nodes && t1.Root() == t2.Root() && t1.balances == t2.balances && t1.meta == t2.meta
  {
  }
}
