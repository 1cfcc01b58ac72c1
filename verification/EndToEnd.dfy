/** Replaying what the sequencer has sealed rebuilds the sequencer's own tree. */
module EndToEnd {
  import opened Options
  import opened Batcher
  import opened Circuit
  import opened CrashReplay
  import opened Field
  import opened Merkle
  import opened MerkleDB
  import opened Replay
  import opened Sequencer
  import opened Trades

  // ------------------------------------------------------------------ what replay makes of a transition

  /** The part of a database that replay writes besides its checkpoint. */
  datatype Data = Data(balances: BalanceMap, leaves: map<nat, Fe>)

  const NO_DATA := Data(map[], map[])

  function DataOf(s: Store): Data {
    Data(s.balances, s.leaves)
  }

  /** The record that a leg writes, with its leaf. */
  function PutLeg(h: Hash, d: Data, leg: ReplayLeg): Data
    requires Solvent(leg)
  {
    var acc := RecordAfter(leg);
    Data(d.balances[Key(acc) := acc], d.leaves[leg.u.index := RecordHash(h, acc)])
  }

  /** Records and leaves after replaying the legs, up to the first one that would go negative. */
  function ReplayData(h: Hash, d: Data, legs: seq<ReplayLeg>): Data
    decreases |legs|
  {
    if legs == [] || !Solvent(legs[0]) then d else ReplayData(h, PutLeg(h, d, legs[0]), legs[1..])
  }

  /** These are the records and leaves that replay's database writes produce. */
  lemma {:induction false} DataOfWrites(h: Hash, s: Store, legs: seq<ReplayLeg>)
    ensures var ws := LegWrites(h, legs); DataOf(ApplyWrites(s, ws, |ws|)) == ReplayData(h, DataOf(s), legs)
    decreases |legs|
  {
    hide RecordHash;
    if legs == [] || !Solvent(legs[0]) {
    } else {
      FirstTwoWrites(h, s, legs);
      DataOfWrites(h, AfterLeg(h, s, legs[0]), legs[1..]);
    }
  }

  /** Replay keeps records and leaves describing each other. */
  lemma {:induction false} ReplayKeepsMatch(h: Hash, d: Data, legs: seq<ReplayLeg>)
    requires LeavesMatch(h, d.balances, d.leaves)
    ensures var d' := ReplayData(h, d, legs); LeavesMatch(h, d'.balances, d'.leaves)
    decreases |legs|
  {
    hide RecordHash, LeavesMatch;
    if legs == [] || !Solvent(legs[0]) {
    } else {
      var acc := RecordAfter(legs[0]);
      IndexSplit(legs[0].u.index);
      LeavesMatchPut(h, d.balances, d.leaves, acc);
      ReplayKeepsMatch(h, PutLeg(h, d, legs[0]), legs[1..]);
    }
  }

  // ------------------------------------------------------------------ agreement with the sequencer's database

  /** The same record, with the key's coordinates compared as field elements. */
  predicate SameRecord(a: BalanceState, b: BalanceState) {
    a == b.(pubX := a.pubX, pubY := a.pubY) && SameKey(a, b.pubX, b.pubY)
  }

  ghost predicate SameRecords(a: BalanceMap, b: BalanceMap) {
    (forall k :: k in a <==> k in b) && (forall k | k in a :: SameRecord(a[k], b[k]))
  }

  /** The replayed data has the sequencer's leaves, and its records. */
  ghost predicate Mirrors(balances: BalanceMap, leaves: map<nat, Fe>, d: Data) {
    d.leaves == leaves && SameRecords(balances, d.balances)
  }

  /** Replaying a snapshot's leg writes the changed record and its leaf. */
  lemma LegReplays(h: Hash, depth: nat, leaves: map<nat, Fe>, acc: BalanceState, isGenesis: bool, x: nat, y: nat,
                   delta: int)
    requires acc.tokenID < 256 && acc.nonce < TWO_TO_64 && SameKey(acc, x, y) && acc.balance + delta >= 0
    ensures var leg := ReplayLeg(Snapshot(h, depth, leaves, acc, isGenesis), x, y, delta, 0);
            && leg.u.index == IndexOf(acc)
            && Solvent(leg) && SameRecord(acc.(balance := acc.balance + delta), RecordAfter(leg))
            && RecordHash(h, RecordAfter(leg)) == RecordHash(h, acc.(balance := acc.balance + delta))
  {
    hide Reduce;
    IndexDigits(acc.accountID, acc.tokenID);
  }

  lemma PutMirrors(h: Hash, balances: BalanceMap, leaves: map<nat, Fe>, d: Data, acc: BalanceState, leg: ReplayLeg)
    requires Mirrors(balances, leaves, d) && Solvent(leg) && leg.u.index == IndexOf(acc)
    requires SameRecord(acc, RecordAfter(leg)) && RecordHash(h, RecordAfter(leg)) == RecordHash(h, acc)
    ensures Mirrors(balances[Key(acc) := acc], StoreLeaf(h, leaves, acc), PutLeg(h, d, leg))
  {
    hide RecordHash, SameKey, RecordAfter;
  }

  lemma FourReplay(h: Hash, d: Data, legs: seq<ReplayLeg>)
    requires |legs| == 4 && AllSolvent(legs)
    ensures ReplayData(h, d, legs)
         == PutLeg(h, PutLeg(h, PutLeg(h, PutLeg(h, d, legs[0]), legs[1]), legs[2]), legs[3])
  {
    hide PutLeg, Solvent;
    var t1, t2, t3 := legs[1..], legs[2..], legs[3..];
    assert t1[1..] == t2 && t2[1..] == t3 && t3[1..] == [];
    var d1 := PutLeg(h, d, legs[0]);
    var d2 := PutLeg(h, d1, legs[1]);
    var d3 := PutLeg(h, d2, legs[2]);
    assert ReplayData(h, d3, t3) == PutLeg(h, d3, legs[3]);
    assert ReplayData(h, d2, t2) == ReplayData(h, d3, t3);
    assert ReplayData(h, d1, t1) == ReplayData(h, d2, t2);
  }

  ghost predicate NoncesFit4(s: Legs4) {
    s.sellerBase.nonce < TWO_TO_64 && s.sellerQuote.nonce < TWO_TO_64
    && s.buyerBase.nonce < TWO_TO_64 && s.buyerQuote.nonce < TWO_TO_64
  }

  /** Replaying a recorded trade leaves the records and leaves the sequencer left. */
  lemma TradeReplays(env: Env, balances: BalanceMap, leaves: map<nat, Fe>, d: Data, s: Legs4, amount: nat, quote: nat,
                     sellSig: string, buySig: string)
    requires Mirrors(balances, leaves, d)
    requires TwoByTwo(s) && NoncesFit4(s) && amount <= s.sellerBase.balance && quote <= s.buyerQuote.balance
    requires OneKeyASide(s)
    ensures var h, depth, f := env.p.h, env.p.depth, Filled(s, amount, quote);
            var legs := ReplayLegs(TradeTransition(h, depth, leaves, s, amount, quote, sellSig, buySig));
            AllSolvent(legs) && Mirrors(StoreAll(balances, f), TradeLeaves(h, leaves, f, 4), ReplayData(h, d, legs))
  {
    hide Snapshot, RecordHash, RecordAfter, Solvent, Reduce, TradeLeaves, ReplayData, PutLeg, Mirrors, StoreAll,
         StoreLeaf, SameRecord, SameKey, Key;
    var h, depth, f := env.p.h, env.p.depth, Filled(s, amount, quote);
    var l1, l2, l3 := TradeLeaves(h, leaves, f, 1), TradeLeaves(h, leaves, f, 2), TradeLeaves(h, leaves, f, 3);
    var b1 := balances[Key(f.sellerBase) := f.sellerBase];
    var b2 := b1[Key(f.sellerQuote) := f.sellerQuote];
    var b3 := b2[Key(f.buyerBase) := f.buyerBase];
    TradeUnfolds(h, depth, balances, leaves, s, amount, quote, sellSig, buySig);
    FilledFields(s, amount, quote);
    var legs := ReplayLegs(TradeTransition(h, depth, leaves, s, amount, quote, sellSig, buySig));
    assert |legs| == 4;
    LegReplays(h, depth, leaves, s.sellerBase, false, s.sellerBase.pubX, s.sellerBase.pubY, -(amount as int))
      by { OwnKey(s.sellerBase); }
    LegReplays(h, depth, l1, s.sellerQuote, false, s.sellerBase.pubX, s.sellerBase.pubY, quote);
    LegReplays(h, depth, l2, s.buyerBase, false, s.buyerBase.pubX, s.buyerBase.pubY, amount) by { OwnKey(s.buyerBase); }
    LegReplays(h, depth, l3, s.buyerQuote, false, s.buyerBase.pubX, s.buyerBase.pubY, -(quote as int));
    FourReplay(h, d, legs);
    PutMirrors(h, balances, leaves, d, f.sellerBase, legs[0]);
    PutMirrors(h, b1, l1, PutLeg(h, d, legs[0]), f.sellerQuote, legs[1]);
    PutMirrors(h, b2, l2, PutLeg(h, PutLeg(h, d, legs[0]), legs[1]), f.buyerBase, legs[2]);
    PutMirrors(h, b3, l3, PutLeg(h, PutLeg(h, PutLeg(h, d, legs[0]), legs[1]), legs[2]), f.buyerQuote, legs[3]);
  }

  /** Data that agree off the four leaves become alike. */
  lemma OverwrittenAlike(h: Hash, d: Data, d': Data, legs: seq<ReplayLeg>)
    requires |legs| == 4 && AllSolvent(legs)
    requires forall k: (nat, nat) | k !in LegKeys(legs) ::
               (k in d.balances <==> k in d'.balances) && (k in d.balances ==> d.balances[k] == d'.balances[k])
    requires forall i: nat | i !in LegIndices(legs) ::
               (i in d.leaves <==> i in d'.leaves) && (i in d.leaves ==> d.leaves[i] == d'.leaves[i])
    ensures ReplayData(h, d, legs) == ReplayData(h, d', legs)
  {
    hide RecordAfter, RecordHash, ReplayData, Solvent, Key;
    FourReplay(h, d, legs);
    FourReplay(h, d', legs);
    var r0, r1, r2, r3 := RecordAfter(legs[0]), RecordAfter(legs[1]), RecordAfter(legs[2]), RecordAfter(legs[3]);
    FourPutsAlike(d.balances, d'.balances, Key(r0), Key(r1), Key(r2), Key(r3), r0, r1, r2, r3);
    FourPutsAlike(d.leaves, d'.leaves, legs[0].u.index, legs[1].u.index, legs[2].u.index, legs[3].u.index,
                  RecordHash(h, r0), RecordHash(h, r1), RecordHash(h, r2), RecordHash(h, r3));
  }

  lemma FourPutsAlike<K, V>(m: map<K, V>, m': map<K, V>, k0: K, k1: K, k2: K, k3: K, v0: V, v1: V, v2: V, v3: V)
    requires forall k: K | k !in {k0, k1, k2, k3} :: (k in m <==> k in m') && (k in m ==> m[k] == m'[k])
    ensures m[k0 := v0][k1 := v1][k2 := v2][k3 := v3] == m'[k0 := v0][k1 := v1][k2 := v2][k3 := v3]
  {
    var n, n' := m[k0 := v0][k1 := v1][k2 := v2][k3 := v3], m'[k0 := v0][k1 := v1][k2 := v2][k3 := v3];
    forall k | k in n ensures k in n' && n[k] == n'[k] {
      if k !in {k0, k1, k2, k3} {
        assert k in m;
      }
    }
    forall k | k in n' ensures k in n {
      if k !in {k0, k1, k2, k3} {
        assert k in m';
      }
    }
  }

  function LegKeys(legs: seq<ReplayLeg>): set<(nat, nat)>
    requires |legs| == 4 && AllSolvent(legs)
  {
    {Key(RecordAfter(legs[0])), Key(RecordAfter(legs[1])), Key(RecordAfter(legs[2])), Key(RecordAfter(legs[3]))}
  }

  function LegIndices(legs: seq<ReplayLeg>): set<nat>
    requires |legs| == 4
  {
    {legs[0].u.index, legs[1].u.index, legs[2].u.index, legs[3].u.index}
  }

  lemma TradeLegKeys(h: Hash, depth: nat, leaves: map<nat, Fe>, s: Legs4, amount: nat, quote: nat, sellSig: string,
                     buySig: string)
    requires TwoByTwo(s) && amount <= s.sellerBase.balance && quote <= s.buyerQuote.balance
    requires AllSolvent(ReplayLegs(TradeTransition(h, depth, leaves, s, amount, quote, sellSig, buySig)))
    ensures var legs := ReplayLegs(TradeTransition(h, depth, leaves, s, amount, quote, sellSig, buySig));
            |legs| == 4 && LegKeys(legs) == FourKeys(s) && LegIndices(legs) == FourIndices(s)
  {
    hide PathUp, Bits, TradeLeaves, Filled, AllSolvent;
    IndexDigits(s.sellerBase.accountID, s.sellerBase.tokenID);
    IndexDigits(s.sellerQuote.accountID, s.sellerQuote.tokenID);
    IndexDigits(s.buyerBase.accountID, s.buyerBase.tokenID);
    IndexDigits(s.buyerQuote.accountID, s.buyerQuote.tokenID);
  }

  /** Replaying a recorded trade also rebuilds the leaves that its lookups opened: its legs write all four. */
  lemma OpeningTradeReplays(env: Env, b: Books, b4: Books, d: Data, s: Legs4, amount: nat, quote: nat,
                            sellSig: string, buySig: string)
    requires Mirrors(b.balances, b.leaves, d) && Extends(b, b4) && OnlyOpens(b, b4, s)
    requires TwoByTwo(s) && NoncesFit4(s) && amount <= s.sellerBase.balance && quote <= s.buyerQuote.balance
    requires OneKeyASide(s)
    ensures var h, depth, f := env.p.h, env.p.depth, Filled(s, amount, quote);
            var legs := ReplayLegs(TradeTransition(h, depth, b4.leaves, s, amount, quote, sellSig, buySig));
            && AllSolvent(legs)
            && Mirrors(StoreAll(b4.balances, f), TradeLeaves(h, b4.leaves, f, 4), ReplayData(h, d, legs))
  {
    hide Filled, StoreAll, TradeLeaves, TradeTransition, ReplayLegs, ReplayData, AllSolvent, NoncesFit4, OneKeyASide,
         TwoByTwo, FourKeys, FourIndices, LegKeys, LegIndices, SameRecord;
    var h, depth := env.p.h, env.p.depth;
    var d4 := WithOpened(b4, d);
    OpenedMirrors(b, b4, d);
    TradeReplays(env, b4.balances, b4.leaves, d4, s, amount, quote, sellSig, buySig);
    TradeLegKeys(h, depth, b4.leaves, s, amount, quote, sellSig, buySig);
    OverwrittenAlike(h, d, d4, ReplayLegs(TradeTransition(h, depth, b4.leaves, s, amount, quote, sellSig, buySig)));
  }

  /** The data with the leaves the lookups opened. */
  function WithOpened(b4: Books, d: Data): Data {
    Data(map k | k in b4.balances :: if k in d.balances then d.balances[k] else b4.balances[k], b4.leaves)
  }

  lemma OpenedMirrors(b: Books, b4: Books, d: Data)
    requires Mirrors(b.balances, b.leaves, d) && Extends(b, b4)
    ensures Mirrors(b4.balances, b4.leaves, WithOpened(b4, d))
  {
    hide Reduce;
  }

  /** Replaying a recorded deposit or opening credit leaves the records and leaves the sequencer left. */
  lemma CreditReplays(h: Hash, depth: nat, balances: BalanceMap, leaves: map<nat, Fe>, balances': BalanceMap,
                      leaves': map<nat, Fe>, d: Data, t: StateTransition, id: nat, token: nat, amount: nat)
    requires Mirrors(balances, leaves, d)
    requires CreditRecorded(h, depth, balances, leaves, balances', leaves', t, id, token, amount)
    requires token < 256 && NoncesBounded(balances)
    ensures AllSolvent(ReplayLegs(t)) && NoncesBounded(balances')
    ensures Mirrors(balances', leaves', ReplayData(h, d, ReplayLegs(t)))
  {
    hide Snapshot, RecordHash, RecordAfter, Solvent, Reduce, Mirrors, PutLeg, SameRecord;
    var acc := AccountBefore(balances, id, token, t.takerX, t.takerY);
    var after := acc.(balance := acc.balance + amount);
    LegReplays(h, depth, leaves, acc, (id, token) !in balances, t.takerX, t.takerY, amount);
    var legs := ReplayLegs(t);
    assert |legs| == 1 && legs[1..] == [];
    assert ReplayData(h, d, legs) == PutLeg(h, d, legs[0]);
    PutMirrors(h, balances, leaves, d, after, legs[0]);
  }

  ghost predicate NoncesBounded(balances: BalanceMap) {
    forall k | k in balances :: balances[k].nonce < TWO_TO_64
  }

  // ------------------------------------------------------------------ the run invariant

  /** Records and leaves after replaying the first n transitions of the log on a database that held `base`. */
  function AfterLog(h: Hash, base: Data, log: seq<Added>, n: nat): Data
    requires n <= |log|
  {
    if n == 0 then base else ReplayData(h, AfterLog(h, base, log, n - 1), ReplayLegs(log[n - 1].t))
  }

  /** Every logged transition replays to the root it was logged with, and the last one to these records and leaves. */
  ghost predicate Reproduces(h: Hash, depth: nat, base: Data, log: seq<Added>, balances: BalanceMap,
                             leaves: map<nat, Fe>) {
    && Mirrors(balances, leaves, AfterLog(h, base, log, |log|))
    && forall i | 0 <= i < |log| :: ReplaysTo(h, depth, base, log, i)
  }

  ghost predicate ReplaysTo(h: Hash, depth: nat, base: Data, log: seq<Added>, i: nat)
    requires i < |log|
  {
    AllSolvent(ReplayLegs(log[i].t)) && log[i].newRoot == Node(h, AfterLog(h, base, log, i + 1).leaves, depth, 0)
  }

  lemma {:induction false} AfterLonger(h: Hash, base: Data, log: seq<Added>, a: Added, n: nat)
    requires n <= |log|
    ensures AfterLog(h, base, log + [a], n) == AfterLog(h, base, log, n)
  {
    hide ReplayData, ReplayLegs;
    if n == 0 {
    } else {
      AfterLonger(h, base, log, a, n - 1);
      assert (log + [a])[n - 1] == log[n - 1];
    }
  }

  lemma ReproducesMore(h: Hash, depth: nat, base: Data, log: seq<Added>, balances: BalanceMap, leaves: map<nat, Fe>,
                       a: Added, balances': BalanceMap, leaves': map<nat, Fe>)
    requires Reproduces(h, depth, base, log, balances, leaves) && AllSolvent(ReplayLegs(a.t))
    requires Mirrors(balances', leaves', ReplayData(h, AfterLog(h, base, log, |log|), ReplayLegs(a.t)))
    requires a.newRoot == Node(h, leaves', depth, 0)
    ensures Reproduces(h, depth, base, log + [a], balances', leaves')
  {
    hide ReplayData, ReplayLegs, AllSolvent, Node, SameRecords;
    var next := log + [a];
    AfterLonger(h, base, log, a, |log|);
    forall i | 0 <= i < |next| ensures ReplaysTo(h, depth, base, next, i) {
      if i < |log| {
        assert ReplaysTo(h, depth, base, log, i);
        AfterLonger(h, base, log, a, i + 1);
      }
    }
  }

  lemma Mirrored(h: Hash, depth: nat, base: Data, log: seq<Added>, balances: BalanceMap, leaves: map<nat, Fe>)
    requires Reproduces(h, depth, base, log, balances, leaves)
    ensures Mirrors(balances, leaves, AfterLog(h, base, log, |log|))
  {
  }

  /** The run since the batcher was made is in order: its log is provable, and replays from `base` to the database. */
  ghost predicate RunOk(env: Env, base: Data, tree: LevelDBMerkleTree, batch: Batcher)
    reads tree, batch
  {
    SystemValid(env, tree, batch) && Replayable(env, base, tree, batch)
  }

  ghost predicate Replayable(env: Env, base: Data, tree: LevelDBMerkleTree, batch: Batcher)
    reads tree, batch
  {
    Reproduces(env.p.h, env.p.depth, base, batch.Log(), tree.balances, tree.leaves) && NoncesBounded(tree.balances)
  }

  /** A new batcher begins a run on whatever the database holds. */
  method Resume(env: Env, tree: LevelDBMerkleTree, batchSize: nat) returns (batch: Batcher)
    requires TreeOk(env, tree) && NoncesBounded(tree.balances) && batchSize > 0
    ensures fresh(batch) && batch.Log() == [] && RunOk(env, Data(tree.balances, tree.leaves), tree, batch)
  {
    hide Node, NodesOf, TreeOk, Reduce;
    batch := new Batcher(env.p.h, batchSize);
  }

  /** On an empty database the run begins with nothing. */
  method Start(env: Env, batchSize: nat) returns (tree: LevelDBMerkleTree, batch: Batcher)
    requires env.Valid() && batchSize > 0
    ensures RunOk(env, NO_DATA, tree, batch) && batch.Log() == [] && fresh(tree) && fresh(batch)
    ensures tree.balances == map[] && tree.pubkeys == map[] && tree.nextAccountID == 0
  {
    hide Node, NodesOf, RunOk;
    tree := new LevelDBMerkleTree(env.p.h, env.p.depth);
    batch := Resume(env, tree, batchSize);
  }

  lemma RecordNonces(balances: BalanceMap, s: Legs4)
    requires NoncesBounded(balances) && AmongRecords(balances, s)
    ensures NoncesFit4(s)
  {
  }

  lemma FilledNonces(balances: BalanceMap, s: Legs4, amount: nat, quote: nat)
    requires NoncesBounded(balances) && NoncesFit4(s) && amount <= s.sellerBase.balance && quote <= s.buyerQuote.balance
    ensures NoncesBounded(StoreAll(balances, Filled(s, amount, quote)))
  {
  }

  lemma LookedNonces(env: Env, b: Books, key: string, token: nat)
    requires NoncesBounded(b.balances)
    ensures NoncesBounded(Looked(env, b, key, token).balances)
  {
    hide StoreLeaf;
  }

  lemma OpenedNonces(env: Env, b: Books, trade: Sequencer.Trade)
    requires NoncesBounded(b.balances)
    ensures NoncesBounded(Opened(env, b, trade).balances)
  {
    hide NoncesBounded, Looked;
    var b1 := Looked(env, b, SellKey(trade), BaseOf(trade));
    var b2 := Looked(env, b1, SellKey(trade), QuoteOf(trade));
    LookedNonces(env, b, SellKey(trade), BaseOf(trade));
    LookedNonces(env, b1, SellKey(trade), QuoteOf(trade));
    LookedNonces(env, b2, BuyKey(trade), BaseOf(trade));
    LookedNonces(env, Looked(env, b2, BuyKey(trade), BaseOf(trade)), BuyKey(trade), QuoteOf(trade));
  }

  lemma AppliedReplays(env: Env, base: Data, log: seq<Added>, b: Books, trade: Sequencer.Trade, a: Added, after: Books)
    requires Reproduces(env.p.h, env.p.depth, base, log, b.balances, b.leaves) && NoncesBounded(b.balances)
    requires BooksOk(env.p.h, b) && Owned(env, b) && TokensFit(trade) && Payable(Copies(env, b, trade), trade)
    requires after == FilledBooks(env.p.h, Opened(env, b, trade), Copies(env, b, trade), trade.matchAmount,
                                  MatchQuote(trade))
    requires a.t == TradeTransition(env.p.h, env.p.depth, Opened(env, b, trade).leaves, Copies(env, b, trade),
                                    trade.matchAmount, MatchQuote(trade), SellOf(trade).circuitSignature,
                                    BuyOf(trade).circuitSignature)
    requires a.newRoot == Node(env.p.h, after.leaves, env.p.depth, 0)
    ensures Reproduces(env.p.h, env.p.depth, base, log + [a], after.balances, after.leaves)
    ensures NoncesBounded(after.balances)
  {
    hide Node, Owned, BooksOk, Reproduces, TradeTransition, StoreAll, Filled, TradeLeaves, ReplayLegs, Mirrors, Copies,
         Opened,
         MatchQuote, Extends, OnlyOpens, OneKeyASide, NoncesBounded, AllSolvent, ReplayData, AmongRecords, NoncesFit4;
    var s, b4 := Copies(env, b, trade), Opened(env, b, trade);
    Mirrored(env.p.h, env.p.depth, base, log, b.balances, b.leaves);
    CopiesAreHeld(env, b, trade);
    OpenedAdds(env, b, trade);
    OpenedNonces(env, b, trade);
    OneKeyAlways(env, b, trade);
    RecordNonces(b4.balances, s);
    OpeningTradeReplays(env, b, b4, AfterLog(env.p.h, base, log, |log|), s, trade.matchAmount, MatchQuote(trade),
                        SellOf(trade).circuitSignature, BuyOf(trade).circuitSignature);
    ReproducesMore(env.p.h, env.p.depth, base, log, b.balances, b.leaves, a, after.balances, after.leaves);
    FilledNonces(b4.balances, s, trade.matchAmount, MatchQuote(trade));
  }

  lemma SkippedReplays(env: Env, base: Data, log: seq<Added>, b: Books, trade: Sequencer.Trade)
    requires Reproduces(env.p.h, env.p.depth, base, log, b.balances, b.leaves) && NoncesBounded(b.balances)
    requires BooksOk(env.p.h, b) && TokensFit(trade)
    ensures var b4 := Opened(env, b, trade);
            && NoncesBounded(b4.balances)
            && (Reproduces(env.p.h, env.p.depth, base, log, b4.balances, b4.leaves) <==>
                AllOpen(b, Copies(env, b, trade)))
  {
    hide BooksOk, Copies, Opened, AfterLog, ReplaysTo, NoncesBounded, SameRecord;
    CopiesAreHeld(env, b, trade);
    OpenedNonces(env, b, trade);
  }

  /** A trade keeps the run replayable exactly when it is applied or opens no leaf, since replay of a trade writes
      all four leaves; and it keeps the run in order exactly under the conditions of TradeInOrder as well, but for a
      break. */
  method TradeStep(env: Env, trade: Sequencer.Trade, tree: LevelDBMerkleTree, batch: Batcher, ghost base: Data)
    returns (applied: bool, t: StateTransition)
    requires RunOk(env, base, tree, batch)
    requires Attempted(trade) ==> TokensFit(trade) && InTree(Copies(env, BooksOf(tree), trade), tree.depth)
    modifies tree, batch
    ensures !Attempted(trade) ==> RunOk(env, base, tree, batch)
    ensures Attempted(trade) ==>
      var b, log := old(BooksOf(tree)), old(batch.Log());
      var rebuilt := applied || AllOpen(b, Copies(env, b, trade));
      && (Replayable(env, base, tree, batch) <==> rebuilt)
      && (TradeInOrder(env, b, log, trade, applied, t) && rebuilt ==> RunOk(env, base, tree, batch))
      && (RunOk(env, base, tree, batch) ==>
            rebuilt && (TradeInOrder(env, b, log, trade, applied, t) || TradeBreaks(env, b, trade)))
  {
    hide Node, Proves, LogOk, KeysMatch, NodesOf, LeavesMatch, Reduce, Reproduces, TradeTransition, StoreAll, Filled,
         TradeLeaves, TradeCondition, ReplayLegs, Mirrors, Copies, Opened, TradeInOrder, TradeBreaks, InTree,
             NoncesBounded,
         Attempted, TokensFit, AllOpen;
    ghost var log, b := batch.Log(), BooksOf(tree);
    TreeBooks(env, tree);
    applied, t := ApplyTrade(env, trade, tree, batch);
    if Attempted(trade) {
      if applied {
        AppliedReplays(env, base, log, b, trade, batch.Log()[|log|], BooksOf(tree));
      } else {
        SkippedReplays(env, base, log, b, trade);
      }
    }
  }

  /** An L1 deposit does too. */
  method DepositStep(env: Env, event: DepositEvent, tree: LevelDBMerkleTree, batch: Batcher, ghost base: Data)
    returns (applied: bool)
    requires RunOk(env, base, tree, batch) && event.tokenId < 256
    requires env.compressKey(event.pubKeyX, event.pubKeyY).Some? ==>
      LeafIndex(IdFor(tree, env.compressKey(event.pubKeyX, event.pubKeyY).value), event.tokenId) < Pow2(tree.depth)
    modifies tree, batch
    ensures Replayable(env, base, tree, batch)
    ensures RunOk(env, base, tree, batch) <==> !applied || Reduce(event.amount) < AMOUNT_LIMIT
  {
    hide Node, Proves, LogOk, KeysMatch, NodesOf, LeavesMatch, Reduce, Reproduces, Credited, CreditRecorded,
         ReplayLegs, Mirrors;
    ghost var log, leaves, balances := batch.Log(), tree.leaves, tree.balances;
    ghost var key := env.compressKey(event.pubKeyX, event.pubKeyY);
    ghost var id := if key.Some? then IdFor(tree, key.value) else 0;
    var t;
    applied, t := ProcessDeposit(env, event, tree, batch);
    if applied {
      Mirrored(env.p.h, env.p.depth, base, log, balances, leaves);
      CreditReplays(env.p.h, env.p.depth, balances, leaves, tree.balances, tree.leaves,
                    AfterLog(env.p.h, base, log, |log|), t, id, event.tokenId, event.amount);
      ReproducesMore(env.p.h, env.p.depth, base, log, balances, leaves, batch.Log()[|log|], tree.balances, tree.leaves);
    } else {
      assert tree.leaves == leaves by { SameBalancesSameLeaves(env.p.h, balances, leaves, tree.leaves); }
    }
  }

  /** Opening a leaf always keeps the run in order. */
  method OpenStep(env: Env, pubKeyHex: string, tokenID: nat, tree: LevelDBMerkleTree, batch: Batcher, ghost base: Data)
    returns (acc: Option<BalanceState>)
    requires RunOk(env, base, tree, batch) && tokenID < 256
    requires LeafIndex(IdFor(tree, pubKeyHex), tokenID) < Pow2(tree.depth)
    modifies tree, batch
    ensures RunOk(env, base, tree, batch)
  {
    hide Node, Proves, LogOk, KeysMatch, NodesOf, LeavesMatch, Reduce, Reproduces, CreditRecorded, ReplayLegs, Mirrors;
    ghost var log, leaves, balances, id := batch.Log(), tree.leaves, tree.balances, IdFor(tree, pubKeyHex);
    acc := OpenBalance(env, pubKeyHex, tokenID, tree, batch);
    if (id, tokenID) !in balances && acc.Some? {
      ghost var a := batch.Log()[|log|];
      Mirrored(env.p.h, env.p.depth, base, log, balances, leaves);
      CreditReplays(env.p.h, env.p.depth, balances, leaves, tree.balances, tree.leaves,
                    AfterLog(env.p.h, base, log, |log|), a.t, id, tokenID, INITIAL_CREDIT);
      ReproducesMore(env.p.h, env.p.depth, base, log, balances, leaves, a, tree.balances, tree.leaves);
    } else {
      assert tree.leaves == leaves by { SameBalancesSameLeaves(env.p.h, balances, leaves, tree.leaves); }
    }
  }

  // ------------------------------------------------------------------ replaying the sealed batches

  /** The payloads posted for the first n sealed batches. */
  function Payloads(groups: seq<seq<Added>>): (ps: seq<Payload>)
    requires forall k | 0 <= k < |groups| :: groups[k] != []
    ensures |ps| == |groups|
  {
    seq(|groups|, i requires 0 <= i < |groups| => Payload(Transitions(groups[i]), groups[i][|groups[i]| - 1].newRoot))
  }

  /** Replaying k transitions of a group that sits at `from` in the log advances the data by k entries. */
  lemma {:induction false} GroupReplays(h: Hash, depth: nat, base: Data, log: seq<Added>, from: nat, group: seq<Added>,
                                        s: Store, k: nat)
    requires from + |group| <= |log| && group == log[from..from + |group|] && k <= |group|
    requires (forall i | 0 <= i < |log| :: ReplaysTo(h, depth, base, log, i))
             && DataOf(s) == AfterLog(h, base, log, from)
    ensures AllReplayable(Transitions(group), k)
    ensures var ws := TransitionWrites(h, Transitions(group), k);
            DataOf(ApplyWrites(s, ws, |ws|)) == AfterLog(h, base, log, from + k)
  {
    hide LegWrites, ReplayLegs, ReplayData, ApplyWrites, AllSolvent, Node, DataOf;
    if k == 0 {
      ApplyNothing(s, []);
    } else {
      GroupReplays(h, depth, base, log, from, group, s, k - 1);
      var a := TransitionWrites(h, Transitions(group), k - 1);
      var legs := ReplayLegs(Transitions(group)[k - 1]);
      var b := LegWrites(h, legs);
      ApplyConcat(s, a, b, |b|);
      DataOfWrites(h, ApplyWrites(s, a, |a|), legs);
      assert log[from + k - 1] == group[k - 1];
      assert ReplaysTo(h, depth, base, log, from + k - 1);
    }
  }

  lemma GroupChecks(h: Hash, depth: nat, base: Data, log: seq<Added>, from: nat, group: seq<Added>, b: nat, s: Store)
    requires (forall i | 0 <= i < |log| :: ReplaysTo(h, depth, base, log, i)) && group != []
    requires from + |group| <= |log| && group == log[from..from + |group|] && DataOf(s) == AfterLog(h, base, log, from)
    ensures var p := Payload(Transitions(group), group[|group| - 1].newRoot);
            BatchChecks(h, depth, p, s) && DataOf(AfterBatch(h, p, b, s)) == AfterLog(h, base, log, from + |group|)
  {
    hide AllSolvent, ReplayLegs, AfterLog, Node, TransitionWrites, ApplyWrites;
    GroupReplays(h, depth, base, log, from, group, s, |group|);
    assert ReplaysTo(h, depth, base, log, from + |group| - 1);
    assert log[from + |group| - 1] == group[|group| - 1];
  }

  lemma {:induction false} BatchesReplay(h: Hash, depth: nat, base: Data, log: seq<Added>, groups: seq<seq<Added>>,
                                         b: nat, s: Store)
    requires (forall i | 0 <= i < |log| :: ReplaysTo(h, depth, base, log, i)) && b <= |groups|
             && forall k | 0 <= k < |groups| :: groups[k] != []
    requires Flatten(groups, |groups|) <= log && FlatLength(groups, b) <= |log|
    requires DataOf(s) == AfterLog(h, base, log, FlatLength(groups, b))
    ensures FlatLength(groups, |groups|) <= |log|
    ensures var run := RunBatches(h, depth, Payloads(groups), b, |groups|, s);
            run.Finished? && DataOf(run.s) == AfterLog(h, base, log, FlatLength(groups, |groups|))
    decreases |groups| - b
  {
    hide ReplaysTo, AfterLog, BatchChecks, AfterBatch, Transitions, DataOf;
    FlattenAt(groups, b, |groups|);
    if b == |groups| {
    } else {
      var from, group := FlatLength(groups, b), groups[b];
      FlattenAt(groups, b + 1, |groups|);
      assert log[from..from + |group|] == group;
      GroupChecks(h, depth, base, log, from, group, b, s);
      BatchesReplay(h, depth, base, log, groups, b + 1, AfterBatch(h, Payloads(groups)[b], b, s));
    }
  }

  /** Replaying a log keeps records and leaves describing each other. */
  lemma {:induction false} LogKeepsMatch(h: Hash, base: Data, log: seq<Added>, n: nat)
    requires n <= |log| && LeavesMatch(h, base.balances, base.leaves)
    ensures var d := AfterLog(h, base, log, n); LeavesMatch(h, d.balances, d.leaves)
  {
    hide LeavesMatch, ReplayData;
    if n == 0 {
    } else {
      LogKeepsMatch(h, base, log, n - 1);
      ReplayKeepsMatch(h, AfterLog(h, base, log, n - 1), ReplayLegs(log[n - 1].t));
    }
  }

  function FlatLength(groups: seq<seq<Added>>, n: nat): nat
    requires n <= |groups|
  {
    |Flatten(groups, n)|
  }

  lemma {:induction false} FlattenAt(groups: seq<seq<Added>>, b: nat, n: nat)
    requires b <= n <= |groups|
    ensures Flatten(groups, b) <= Flatten(groups, n)
  {
    if b < n {
      FlattenAt(groups, b, n - 1);
    }
  }

  /** Replaying every sealed batch on a database that holds what the sequencer's held when its batcher was made
      (nothing, for a new sequencer) passes each root check and keeps records and leaves in agreement; once no call
      is pending it ends with exactly the sequencer's leaves, so with its root and all of its nodes, and with its
      records. */
  lemma ReplayRebuildsSequencer(env: Env, base: Data, tree: LevelDBMerkleTree, batch: Batcher, s: Store)
    requires batch.Valid() && tree.Valid() && tree.h == env.p.h && tree.depth == env.p.depth && DataOf(s) == base
    requires Reproduces(env.p.h, env.p.depth, base, batch.Log(), tree.balances, tree.leaves)
             && LeavesMatch(env.p.h, base.balances, base.leaves)
    ensures forall k | 0 <= k < |batch.groups| :: batch.groups[k] != []
    ensures var run := RunBatches(env.p.h, env.p.depth, Payloads(batch.groups), 0, |batch.groups|, s);
            && run.Finished? && LeavesMatch(env.p.h, run.s.balances, run.s.leaves)
            && (batch.open == [] ==> run.s.leaves == tree.leaves && SameRecords(tree.balances, run.s.balances)
                                     && Node(env.p.h, run.s.leaves, env.p.depth, 0) == tree.Root())
  {
    hide AfterLog, RunBatches, Node, Flatten, LeavesMatch, SameRecords, ReplaysTo;
    var log, n := batch.Log(), |batch.groups|;
    assert Flatten(batch.groups, 0) == [] && AfterLog(env.p.h, base, log, 0) == base
      by { NothingYet(env.p.h, base, log, batch.groups); }
    BatchesReplay(env.p.h, env.p.depth, base, log, batch.groups, 0, s);
    LogKeepsMatch(env.p.h, base, log, FlatLength(batch.groups, n));
    if batch.open == [] {
      assert log == Flatten(batch.groups, n);
    }
  }

  // ------------------------------------------------------------------ the state at the last seal

  ghost predicate StateOk(env: Env, st: Books) {
    BooksOk(env.p.h, st) && KeysMatch(env, st.balances, st.pubkeys)
  }

  /** `st` is what the sequencer held when the last of these batches was sealed, on a database that began with
      `base`. */
  ghost predicate SealedAt(env: Env, base: Data, groups: seq<seq<Added>>, st: Books) {
    && (forall k | 0 <= k < |groups| :: groups[k] != [])
    && LeavesMatch(env.p.h, base.balances, base.leaves) && StateOk(env, st)
    && Reproduces(env.p.h, env.p.depth, base, Flatten(groups, |groups|), st.balances, st.leaves)
  }

  /** In a run in order every seal makes such a state.  Calls that follow it leave the sealed batches as they are. */
  lemma SealedNow(env: Env, base: Data, tree: LevelDBMerkleTree, batch: Batcher)
    requires RunOk(env, base, tree, batch) && LeavesMatch(env.p.h, base.balances, base.leaves) && batch.open == []
    ensures SealedAt(env, base, batch.groups, BooksOf(tree))
  {
    hide LeavesMatch, KeysMatch, Reproduces, LogOk, NodesOf, Flatten;
    TreeBooks(env, tree);
    assert batch.Log() == Flatten(batch.groups, |batch.groups|);
  }

  /** Whatever calls are pending by now, replaying the sealed batches passes each root check and rebuilds the leaves,
      the root and the records that the sequencer had at the last seal. */
  lemma ReplayRebuildsSealed(env: Env, base: Data, groups: seq<seq<Added>>, st: Books, s: Store)
    requires SealedAt(env, base, groups, st) && DataOf(s) == base
    ensures var run := RunBatches(env.p.h, env.p.depth, Payloads(groups), 0, |groups|, s);
            && run.Finished? && LeavesMatch(env.p.h, run.s.balances, run.s.leaves)
            && Mirrors(st.balances, st.leaves, DataOf(run.s))
  {
    hide AfterLog, RunBatches, Flatten, LeavesMatch, Mirrors, ReplaysTo, KeysMatch;
    var log := Flatten(groups, |groups|);
    NothingYet(env.p.h, base, log, groups);
    BatchesReplay(env.p.h, env.p.depth, base, log, groups, 0, s);
    LogKeepsMatch(env.p.h, base, log, |log|);
  }

  lemma NothingYet(h: Hash, base: Data, log: seq<Added>, groups: seq<seq<Added>>)
    ensures Flatten(groups, 0) == [] && AfterLog(h, base, log, 0) == base
  {
  }

  /** For a sequencer that started with nothing, an empty database is where replay begins. */
  lemma ReplayFromNothing(env: Env, tree: LevelDBMerkleTree, batch: Batcher)
    requires RunOk(env, NO_DATA, tree, batch) && batch.open == []
    ensures forall k | 0 <= k < |batch.groups| :: batch.groups[k] != []
    ensures var run := RunBatches(env.p.h, env.p.depth, Payloads(batch.groups), 0, |batch.groups|,
                                  Store(map[], map[], map[]));
            && run.Finished? && LeavesMatch(env.p.h, run.s.balances, run.s.leaves)
            && Mirrors(tree.balances, tree.leaves, DataOf(run.s))
  {
    hide RunBatches, LogOk, KeysMatch, Reproduces, NodesOf;
    ReplayRebuildsSequencer(env, NO_DATA, tree, batch, Store(map[], map[], map[]));
  }
}
