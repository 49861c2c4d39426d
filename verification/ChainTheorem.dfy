/** The chain-level theorem: every reachable database is the one a fresh indexer has
    after processing the surviving blocks. */
module ChainTheorem {
  import opened Model
  import opened Ledger
  import opened Invariants
  import opened Steps
  import opened Filtering
  import opened Rollback
  import opened ReorgIsReplay
  import opened Residues
  import opened Counters
  import opened Score
  import opened Chain
  import opened ChainReplay

  /** The database of a chain: its operations replayed from empty tables, and both
      chain indexes holding exactly its blocks. */
  ghost predicate Canonical(db: Db, limit: Limit, ms: seq<Mergeset>) {
    && ValidChain(limit, ms)
    && db.core == Run(OpsOf(limit, ms))
    && ResidueOk(db.core, db.residue)
    && db.blocks == BlocksOf(ms)
    && db.blockScores == ScoresOf(ms)
  }

  // ---------------------------------------------------------------- which blocks go

  /** The least blue score among the removed blocks that are stored. */
  function LeastOf(scores: map<Hash, u64>, removed: seq<Hash>): Option<u64> {
    if removed == [] then None
    else
      var n := |removed| - 1;
      var least := LeastOf(scores, removed[..n]);
      if removed[n] in scores then Some(MinScore(least, scores[removed[n]])) else least
  }

  lemma {:induction false} LeastIsLower(scores: map<Hash, u64>, removed: seq<Hash>)
    ensures forall h :: h in removed && h in scores ==>
              LeastOf(scores, removed).Some? && LeastOf(scores, removed).value <= scores[h]
  {
    if removed != [] {
      var n := |removed| - 1;
      LeastIsLower(scores, removed[..n]);
      assert forall h :: h in removed <==> h in removed[..n] || h == removed[n];
    }
  }

  /** Looking the removed blocks up while deleting them finds the least stored score,
      also when a hash is listed twice or the tip is found by its forward row. */
  lemma {:induction false} IdentifyIsLeast(blocks: set<BlockKey>, scores: map<Hash, u64>, removed: seq<Hash>)
    requires forall b :: b in blocks ==> b.hash in scores && scores[b.hash] == b.blueScore
    ensures Identify(blocks, scores, removed) == (scores - (set h | h in removed), LeastOf(scores, removed))
  {
    if removed == [] {
      assert scores - (set h | h in removed) == scores;
    } else {
      var n := |removed| - 1;
      IdentifyIsLeast(blocks, scores, removed[..n]);
      LeastIsLower(scores, removed[..n]);
      assert forall h :: h in removed <==> h in removed[..n] || h == removed[n];
      assert scores - (set h | h in removed) == scores - (set h | h in removed[..n]) - {removed[n]};
      if removed[n] !in scores - (set h | h in removed[..n]) {
        assert scores - (set h | h in removed) == scores - (set h | h in removed[..n]);
      }
    }
  }

  lemma BlocksIndexed(limit: Limit, ms: seq<Mergeset>)
    requires ValidChain(limit, ms)
    ensures forall b :: b in BlocksOf(ms) ==> b.hash in ScoresOf(ms) && ScoresOf(ms)[b.hash] == b.blueScore
  {
    hide ValidChain, ScoresOf;
    HashesDiffer(limit, ms);
    ScoresMembers(ms);
  }

  /** The chain after a change. */
  function CutAt(ms: seq<Mergeset>, removed: seq<Hash>, forced: Option<u64>): seq<Mergeset> {
    match RollbackScore(LeastOf(ScoresOf(ms), removed), forced)
    case None => ms
    case Some(b) => BelowBlue(ms, b)
  }

  /** The mergesets of `more` that are neither below the tip nor stored, nor delivered
      twice. */
  function News(blocks: set<BlockKey>, last: u64, more: seq<Mergeset>): seq<Mergeset> {
    if more == [] then []
    else
      var n := |more| - 1;
      var before := News(blocks, last, more[..n]);
      if more[n].blueScore < last || BlockKey(more[n].blueScore, more[n].hash) in blocks + BlocksOf(before) then before
      else before + [more[n]]
  }

  /** What a chain takes over of the mergesets that are delivered. */
  function NewsFor(ms: seq<Mergeset>, more: seq<Mergeset>): seq<Mergeset> {
    News(BlocksOf(ms), LastBlueScore(BlocksOf(ms)), more)
  }

  function Survivors(ms: seq<Mergeset>, change: ChainChange): seq<Mergeset> {
    var cut := CutAt(ms, change.removed, change.forced);
    cut + NewsFor(cut, change.mergesets)
  }

  // ---------------------------------------------------------------- removal

  lemma CutIndex(limit: Limit, ms: seq<Mergeset>, removed: seq<Hash>, b: nat)
    requires ValidChain(limit, ms)
    requires forall h :: h in removed && h in ScoresOf(ms) ==> ScoresOf(ms)[h] >= b
    ensures ScoresOf(ms) - (set h | h in removed) - HashesOf(BlocksSince(BlocksOf(ms), b)) == ScoresOf(BelowBlue(ms, b))
  {
    hide ValidChain, ScoresOf, BlocksOf, BlocksSince, HashesOf;
    CutBlocks(limit, ms, b);
    HashesDiffer(limit, ms);
    ScoresMembers(ms);
    var gone := HashesOf(BlocksSince(BlocksOf(ms), b));
    forall h | h in removed && h in ScoresOf(ms) ensures h in gone {
      var m :| m in ms && m.hash == h;
      HashGoes(ms, b, m);
    }
    assert ScoresOf(ms) - (set h | h in removed) - gone == ScoresOf(ms) - gone;
  }

  lemma HashGoes(ms: seq<Mergeset>, b: nat, m: Mergeset)
    requires m in ms && m.blueScore >= b
    ensures m.hash in HashesOf(BlocksSince(BlocksOf(ms), b))
  {
    var k := BlockKey(m.blueScore, m.hash);
    assert k in BlocksSince(BlocksOf(ms), b);
  }

  lemma LeastFits(limit: Limit, ms: seq<Mergeset>, removed: seq<Hash>, forced: Option<u64>)
    requires ValidChain(limit, ms) && (forced.Some? ==> Fits(limit, forced.value))
    ensures var b := RollbackScore(LeastOf(ScoresOf(ms), removed), forced); b.Some? ==> Fits(limit, b.value)
    ensures var b := RollbackScore(LeastOf(ScoresOf(ms), removed), forced);
            forall h :: h in removed && h in ScoresOf(ms) ==> b.Some? && ScoresOf(ms)[h] >= b.value
  {
    hide Fits, ScoresOf;
    LeastIsLower(ScoresOf(ms), removed);
    LeastIsStored(ScoresOf(ms), removed);
    HashesDiffer(limit, ms);
    ScoresMembers(ms);
    var least := LeastOf(ScoresOf(ms), removed);
    if least.Some? {
      var h :| h in ScoresOf(ms) && ScoresOf(ms)[h] == least.value;
      var m :| m in ms && m.hash == h;
      var i :| 0 <= i < |ms| && ms[i] == m;
      OrderedFits(limit, ms[i]);
    }
  }

  lemma {:induction false} LeastIsStored(scores: map<Hash, u64>, removed: seq<Hash>)
    ensures LeastOf(scores, removed).Some? ==> exists h :: h in scores && scores[h] == LeastOf(scores, removed).value
  {
    if removed != [] {
      var n := |removed| - 1;
      LeastIsStored(scores, removed[..n]);
      if removed[n] in scores {
        assert scores[removed[n]] == scores[removed[n]];
      }
    }
  }

  /** A reorganisation leaves the database of the chain cut at the least removed or
      forced blue score; it cannot fail. */
  lemma RemovalIsCanonical(db: Db, limit: Limit, ms: seq<Mergeset>, removed: seq<Hash>, forced: Option<u64>)
    requires Canonical(db, limit, ms) && (forced.Some? ==> Fits(limit, forced.value))
    ensures ProcessRemoval(db, limit, removed, forced).Some?
    ensures Canonical(ProcessRemoval(db, limit, removed, forced).value.0, limit, CutAt(ms, removed, forced))
  {
    hide ValidChain, Run, ScoresOf, BlocksOf, BlocksSince, HashesOf, RemoveAbove, Fits, VipOk, SellersIndexed, Threshold, LeastOf, Identify, OpsOf;
    BlocksIndexed(limit, ms);
    IdentifyIsLeast(db.blocks, db.blockScores, removed);
    LeastFits(limit, ms, removed, forced);
    match RollbackScore(LeastOf(ScoresOf(ms), removed), forced)
    case None =>
      NothingRemoved(ScoresOf(ms), removed);
    case Some(b) =>
      var h, threshold := OpsOf(limit, ms), Threshold(limit, b);
      ChainIsHistory(limit, ms);
      RollbackIsReplay(h, db.residue, threshold);
      RollbackKeepsResidue(h, db.residue, threshold);
      CutOps(limit, ms, b);
      CutBlocks(limit, ms, b);
      CutIndex(limit, ms, removed, b);
      PrefixChainIsValid(limit, ms, |BelowBlue(ms, b)|);
  }

  lemma NothingRemoved(scores: map<Hash, u64>, removed: seq<Hash>)
    requires forall h :: h in removed ==> h !in scores
    ensures scores - (set h | h in removed) == scores
  {
  }

  // ---------------------------------------------------------------- additions

  /** No operation of a new block is in the log yet, so none is filtered out. */
  lemma {:induction false} AllIncoming(opScores: map<TxId, nat>, limit: Limit, m: Mergeset, n: nat)
    requires n <= |m.ops| && forall i :: 0 <= i < |m.ops| ==> m.ops[i].op.common.txId !in opScores
    ensures Incoming(opScores, limit, m, m.ops[..n]) == BlockOps(limit, m)[..n]
  {
    if n > 0 {
      AllIncoming(opScores, limit, m, n - 1);
      assert m.ops[..n][..n - 1] == m.ops[..n - 1];
      assert BlockOps(limit, m)[..n] == BlockOps(limit, m)[..n - 1] + [OpOf(limit, m, n - 1)];
    }
  }

  lemma NewTxIds(limit: Limit, ms: seq<Mergeset>, m: Mergeset)
    requires ValidChain(limit, ms + [m])
    ensures ValidHistory(OpsOf(limit, ms)) && ValidHistory(OpsOf(limit, ms) + BlockOps(limit, m))
    ensures forall i :: 0 <= i < |m.ops| ==> m.ops[i].op.common.txId !in Run(OpsOf(limit, ms)).opScores
  {
    hide OrderedBlock, Good, ValidHistory;
    assert (ms + [m])[..|ms|] == ms;
    PrefixChainIsValid(limit, ms + [m], |ms|);
    ChainIsHistory(limit, ms);
    ChainIsHistory(limit, ms + [m]);
    RunIsGood(OpsOf(limit, ms));
    var h, b := OpsOf(limit, ms), BlockOps(limit, m);
    forall i | 0 <= i < |m.ops| ensures m.ops[i].op.common.txId !in Run(h).opScores {
      var x := m.ops[i].op.common.txId;
      assert b[i].op.common.txId == x && (h + b)[|h| + i] == b[i];
      assert forall j :: 0 <= j < |h| ==> (h + b)[j] == h[j];
    }
  }

  /** Processing the operations of a block continues the replay. */
  lemma {:induction false} ProcessOpsReplays(h: seq<ContextOp>, r: Residue, xs: seq<ContextOp>)
    requires ValidHistory(h + xs) && ResidueOk(Run(h), r)
    ensures ProcessOps(Processed(Run(h), r, ZERO), xs).Some?
    ensures var p := ProcessOps(Processed(Run(h), r, ZERO), xs).value;
            p.core == Run(h + xs) && ResidueOk(p.core, p.residue)
    decreases |xs|
  {
    hide ValidHistory, OneStep, VipOk, SellersIndexed, Apply;
    if xs == [] {
      assert h + xs == h;
    } else {
      var n := |xs| - 1;
      assert (h + xs)[..|h + xs| - 1] == h + xs[..n];
      PrefixIsValid(h + xs);
      ProcessOpsReplays(h, r, xs[..n]);
      var p := ProcessOps(Processed(Run(h), r, ZERO), xs[..n]).value;
      RunStep(h + xs);
      StepApplies(p.core, Run(h + xs), xs[n]);
      ApplyKeepsVip(p.core, Run(h + xs), xs[n], p.residue);
      ApplyKeepsSellers(p.core, Run(h + xs), xs[n], p.residue);
    }
  }

  lemma StepApplies(c: Core, d: Core, x: ContextOp)
    requires OneStep(c, d, x)
    ensures Apply(c, x).Stepped? && d == Apply(c, x).core
  {
    hide Good, AddsOnly, Apply;
  }

  /** A new block above the tip extends the chain by exactly that block. */
  lemma AddIsCanonical(db: Db, limit: Limit, last: nat, ms: seq<Mergeset>, m: Mergeset)
    requires Canonical(db, limit, ms) && ValidChain(limit, ms + [m]) && m.blueScore >= last
    ensures AddMergeset(db, limit, last, m).Some?
    ensures Canonical(AddMergeset(db, limit, last, m).value.0, limit, ms + [m])
  {
    hide ValidChain, Run, VipOk, SellersIndexed, ProcessOps, Incoming, BlockOps, ValidHistory;
    NewTxIds(limit, ms, m);
    AllIncoming(db.core.opScores, limit, m, |m.ops|);
    assert m.ops[..|m.ops|] == m.ops && BlockOps(limit, m)[..|m.ops|] == BlockOps(limit, m) by { BlockLength(limit, m); }
    ProcessOpsReplays(OpsOf(limit, ms), db.residue, BlockOps(limit, m));
    NewKey(limit, ms, m);
    assert (ms + [m])[..|ms + [m]| - 1] == ms;
  }

  lemma BlockLength(limit: Limit, m: Mergeset)
    ensures |BlockOps(limit, m)| == |m.ops|
  {
  }

  lemma NewKey(limit: Limit, ms: seq<Mergeset>, m: Mergeset)
    requires ValidChain(limit, ms + [m])
    ensures BlockKey(m.blueScore, m.hash) !in BlocksOf(ms)
    ensures BlocksOf(ms + [m]) == BlocksOf(ms) + {BlockKey(m.blueScore, m.hash)}
  {
    hide OrderedBlock, DistinctTxIds;
    forall l | l in ms ensures l.blueScore < m.blueScore {
      var i :| 0 <= i < |ms| && ms[i] == l;
      assert (ms + [m])[i] == l && (ms + [m])[|ms|] == m;
    }
    assert forall l :: l in ms + [m] <==> l in ms || l == m;
    assert BlocksOf(ms + [m]) == BlocksOf(ms) + {BlockKey(m.blueScore, m.hash)};
  }

  lemma {:induction false} AdditionsAreCanonical(db: Db, limit: Limit, last: nat, ms: seq<Mergeset>, more: seq<Mergeset>)
    requires Canonical(db, limit, ms) && ValidChain(limit, ms + more)
    requires forall i :: 0 <= i < |more| ==> more[i].blueScore >= last
    ensures ProcessAdditions(db, limit, last, more).Some?
    ensures Canonical(ProcessAdditions(db, limit, last, more).value.0, limit, ms + more)
    decreases |more|
  {
    hide ValidChain, Canonical, AddMergeset;
    if more == [] {
      assert ms + more == ms;
    } else {
      var n := |more| - 1;
      assert (ms + more)[..|ms| + n] == ms + more[..n];
      PrefixChainIsValid(limit, ms + more, |ms| + n);
      AdditionsAreCanonical(db, limit, last, ms, more[..n]);
      assert ms + more == ms + more[..n] + [more[n]];
      AddIsCanonical(ProcessAdditions(db, limit, last, more[..n]).value.0, limit, last, ms + more[..n], more[n]);
    }
  }

  lemma AddingNothing(s: Stats)
    requires FitsU64(s)
    ensures Add(s, ZERO) == s
  {
  }

  lemma BlocksJoin(ms: seq<Mergeset>, m: Mergeset)
    ensures BlocksOf(ms + [m]) == BlocksOf(ms) + {BlockKey(m.blueScore, m.hash)}
  {
    assert forall l :: l in ms + [m] <==> l in ms || l == m;
  }

  predicate IsNews(blocks: set<BlockKey>, last: nat, m: Mergeset) {
    m.blueScore >= last && BlockKey(m.blueScore, m.hash) !in blocks
  }

  lemma AddEffect(db: Db, limit: Limit, last: nat, m: Mergeset)
    ensures var r := AddMergeset(db, limit, last, m);
            if IsNews(db.blocks, last, m) then r.Some? ==> r.value.0.blocks == db.blocks + {BlockKey(m.blueScore, m.hash)}
            else r == Some((db, ZERO))
  {
    hide ProcessOps, Incoming;
  }

  /** One more mergeset after what the ones before it left. */
  function Joined(before: Option<(Db, Stats)>, limit: Limit, last: nat, m: Mergeset): Option<(Db, Stats)> {
    if before.None? then None
    else
      match AddMergeset(before.value.0, limit, last, m)
      case None => None
      case Some((after, more)) => Some((after, Add(before.value.1, more)))
  }

  lemma OneMoreMergeset(db: Db, limit: Limit, last: nat, before: seq<Mergeset>, m: Mergeset)
    ensures ProcessAdditions(db, limit, last, before + [m]) == Joined(ProcessAdditions(db, limit, last, before), limit, last, m)
  {
    hide AddMergeset, Add;
    assert (before + [m])[..|before|] == before;
  }

  /** The chain index after the additions, and a report of u64s. */
  ghost predicate Left(r: Option<(Db, Stats)>, blocks: set<BlockKey>) {
    r.Some? ==> FitsU64(r.value.1) && r.value.0.blocks == blocks
  }

  lemma JoinedEffect(before: Option<(Db, Stats)>, limit: Limit, last: nat, m: Mergeset, blocks: set<BlockKey>)
    requires Left(before, blocks)
    ensures var r := Joined(before, limit, last, m);
            if IsNews(blocks, last, m) then Left(r, blocks + {BlockKey(m.blueScore, m.hash)})
            else r == before
  {
    hide AddMergeset, FitsU64, Add;
    if before.Some? {
      AddEffect(before.value.0, limit, last, m);
      AddingNothing(before.value.1);
      SumFitsU64();
    }
  }

  /** Mergesets that are stored already, below the tip or delivered twice do nothing, mixed
      with new ones as they may be. */
  lemma {:induction false} OnlyNewsCount(db: Db, limit: Limit, last: u64, more: seq<Mergeset>)
    ensures ProcessAdditions(db, limit, last, more) == ProcessAdditions(db, limit, last, News(db.blocks, last, more))
    ensures Left(ProcessAdditions(db, limit, last, more), db.blocks + BlocksOf(News(db.blocks, last, more)))
    decreases |more|
  {
    hide ProcessAdditions, BlocksOf, Joined, Left;
    if more == [] {
      NothingAdded(db, limit, last);
    } else {
      var rest, m := more[..|more| - 1], more[|more| - 1];
      OnlyNewsCount(db, limit, last, rest);
      var news := News(db.blocks, last, rest);
      assert more == rest + [m];
      OneMoreMergeset(db, limit, last, rest, m);
      OneMoreMergeset(db, limit, last, news, m);
      JoinedEffect(ProcessAdditions(db, limit, last, rest), limit, last, m, db.blocks + BlocksOf(news));
      BlocksJoin(news, m);
      assert db.blocks + BlocksOf(news + [m]) == db.blocks + BlocksOf(news) + {BlockKey(m.blueScore, m.hash)};
    }
  }

  lemma NothingAdded(db: Db, limit: Limit, last: nat)
    ensures ProcessAdditions(db, limit, last, []) == Some((db, ZERO))
    ensures Left(ProcessAdditions(db, limit, last, []), db.blocks + BlocksOf([]))
  {
    assert db.blocks + BlocksOf([]) == db.blocks;
  }

  lemma SumFitsU64()
    ensures forall a, b :: FitsU64(Add(a, b))
  {
  }

  lemma {:induction false} NewsAreHigh(blocks: set<BlockKey>, last: u64, more: seq<Mergeset>)
    ensures forall i :: 0 <= i < |News(blocks, last, more)| ==> News(blocks, last, more)[i].blueScore >= last
  {
    hide BlocksOf;
    if more != [] {
      NewsAreHigh(blocks, last, more[..|more| - 1]);
    }
  }

  /** Blocks that extend the chain are all new. */
  lemma {:induction false} ExtensionsAreNews(limit: Limit, ms: seq<Mergeset>, more: seq<Mergeset>, n: nat)
    requires ValidChain(limit, ms + more) && n <= |more|
    ensures News(BlocksOf(ms), LastBlueScore(BlocksOf(ms)), more[..n]) == more[..n]
  {
    hide ValidChain, BlocksOf, LastBlueScore;
    if n > 0 {
      ExtensionsAreNews(limit, ms, more, n - 1);
      assert more[..n][..n - 1] == more[..n - 1];
      TipIsLower(limit, ms, more);
      assert (ms + more)[..|ms| + n] == ms + more[..n - 1] + [more[n - 1]];
      PrefixChainIsValid(limit, ms + more, |ms| + n);
      NewKey(limit, ms + more[..n - 1], more[n - 1]);
      BlocksOfBoth(ms, more[..n - 1]);
    }
  }

  lemma BlocksOfBoth(a: seq<Mergeset>, b: seq<Mergeset>)
    ensures BlocksOf(a + b) == BlocksOf(a) + BlocksOf(b)
  {
    assert forall m :: m in a + b <==> m in a || m in b;
  }

  lemma TipIsLower(limit: Limit, ms: seq<Mergeset>, more: seq<Mergeset>)
    requires ValidChain(limit, ms + more)
    ensures forall i :: 0 <= i < |more| ==> more[i].blueScore >= LastBlueScore(BlocksOf(ms))
  {
    if ms != [] {
      assert BlockKey(ms[0].blueScore, ms[0].hash) in BlocksOf(ms);
      var tip := Tip(BlocksOf(ms));
      var m :| m in ms && tip == BlockKey(m.blueScore, m.hash);
      var j :| 0 <= j < |ms| && ms[j] == m;
      forall i | 0 <= i < |more| ensures more[i].blueScore >= tip.blueScore {
        assert (ms + more)[j] == m && (ms + more)[|ms| + i] == more[i];
      }
    } else {
      assert BlocksOf(ms) == {};
    }
  }

  // ---------------------------------------------------------------- changes

  /** The forced score fits and the surviving chain is a valid one.  The mergesets of the
      change may be mixed with stored or old ones. */
  ghost predicate ValidChange(limit: Limit, ms: seq<Mergeset>, change: ChainChange) {
    (change.forced.Some? ==> Fits(limit, change.forced.value)) && ValidChain(limit, Survivors(ms, change))
  }

  lemma StatsDoNotMatter(db: Db, stats: Stats, limit: Limit, ms: seq<Mergeset>)
    ensures Canonical(db.(stats := stats), limit, ms) <==> Canonical(db, limit, ms)
  {
    hide ValidChain;
  }

  lemma NoCut(ms: seq<Mergeset>)
    ensures CutAt(ms, [], None) == ms
  {
  }

  lemma RemoveIsCanonical(db: Db, limit: Limit, ms: seq<Mergeset>, change: ChainChange)
    requires Canonical(db, limit, ms) && (change.forced.Some? ==> Fits(limit, change.forced.value))
    ensures Remove(db, limit, change).Some?
    ensures Canonical(Remove(db, limit, change).value, limit, CutAt(ms, change.removed, change.forced))
  {
    hide Canonical, ProcessRemoval, Fits;
    if change.removed == [] && change.forced.None? {
      NoCut(ms);
    } else {
      RemovalIsCanonical(db, limit, ms, change.removed, change.forced);
      var (after, diff) := ProcessRemoval(db, limit, change.removed, change.forced).value;
      StatsDoNotMatter(after, Sub(after.stats, diff), limit, CutAt(ms, change.removed, change.forced));
    }
  }

  lemma ExtendIsCanonical(db: Db, limit: Limit, ms: seq<Mergeset>, more: seq<Mergeset>)
    requires Canonical(db, limit, ms) && ValidChain(limit, ms + NewsFor(ms, more))
    ensures Extend(db, limit, more).Some?
    ensures Canonical(Extend(db, limit, more).value, limit, ms + NewsFor(ms, more))
  {
    hide Canonical, ProcessAdditions, ValidChain, BlocksOf;
    if more == [] {
      assert ms + [] == ms;
    } else {
      assert db.blocks == BlocksOf(ms) by { CanonicalBlocks(db, limit, ms); }
      var last, news := LastBlueScore(db.blocks), NewsFor(ms, more);
      OnlyNewsCount(db, limit, last, more);
      NewsAreHigh(db.blocks, last, more);
      AdditionsAreCanonical(db, limit, last, ms, news);
      var (after, diff) := ProcessAdditions(db, limit, last, more).value;
      StatsDoNotMatter(after, Add(after.stats, diff), limit, ms + news);
    }
  }

  lemma CanonicalBlocks(db: Db, limit: Limit, ms: seq<Mergeset>)
    requires Canonical(db, limit, ms)
    ensures db.blocks == BlocksOf(ms)
  {
    hide ValidChain;
  }

  /** One virtual chain change never aborts and leaves the database of the survivors. */
  lemma ChangeIsCanonical(db: Db, limit: Limit, ms: seq<Mergeset>, change: ChainChange)
    requires Canonical(db, limit, ms) && ValidChange(limit, ms, change)
    ensures ProcessChange(db, limit, change).Some?
    ensures Canonical(ProcessChange(db, limit, change).value, limit, Survivors(ms, change))
  {
    hide Canonical, Remove, Extend, ValidChain, Fits, NewsFor;
    RemoveIsCanonical(db, limit, ms, change);
    ExtendIsCanonical(Remove(db, limit, change).value, limit, CutAt(ms, change.removed, change.forced), change.mergesets);
  }

  /** The chain after a run of changes, from nothing. */
  function ChainAfter(changes: seq<ChainChange>): seq<Mergeset> {
    if changes == [] then [] else Survivors(ChainAfter(changes[..|changes| - 1]), changes[|changes| - 1])
  }

  ghost predicate ValidRun(limit: Limit, changes: seq<ChainChange>) {
    changes != [] ==>
      && ValidRun(limit, changes[..|changes| - 1])
      && ValidChange(limit, ChainAfter(changes[..|changes| - 1]), changes[|changes| - 1])
  }

  lemma EmptyIsCanonical(limit: Limit)
    ensures Canonical(EMPTY_DB, limit, [])
  {
    assert BlocksOf([]) == {};
  }

  /** Over any run of changes, reorganisations of any depth included, no transaction
      aborts and the database is always that of the surviving chain. */
  lemma {:induction false} RunIsCanonical(limit: Limit, changes: seq<ChainChange>)
    requires ValidRun(limit, changes)
    ensures ProcessAll(EMPTY_DB, limit, changes).Some?
    ensures Canonical(ProcessAll(EMPTY_DB, limit, changes).value, limit, ChainAfter(changes))
    decreases |changes|
  {
    hide Canonical, ValidChange, ProcessChange, Survivors;
    if changes == [] {
      EmptyIsCanonical(limit);
    } else {
      var before := changes[..|changes| - 1];
      RunIsCanonical(limit, before);
      ChangeIsCanonical(ProcessAll(EMPTY_DB, limit, before).value, limit, ChainAfter(before), changes[|changes| - 1]);
    }
  }

  /** Two indexers whose surviving chains agree hold the same ledger and chain index,
      token ids included, however different the reorganisations they went through:
      putting removed blocks back gives the state before they were removed. */
  lemma SameChainSameTables(limit: Limit, changes: seq<ChainChange>, others: seq<ChainChange>)
    requires ValidRun(limit, changes) && ValidRun(limit, others) && ChainAfter(changes) == ChainAfter(others)
    ensures ProcessAll(EMPTY_DB, limit, changes).Some? && ProcessAll(EMPTY_DB, limit, others).Some?
    ensures var a, b := ProcessAll(EMPTY_DB, limit, changes).value, ProcessAll(EMPTY_DB, limit, others).value;
            a.core == b.core && a.blocks == b.blocks && a.blockScores == b.blockScores
  {
    hide ValidRun, ProcessAll, ValidChain, Run, ResidueOk;
    RunIsCanonical(limit, changes);
    RunIsCanonical(limit, others);
  }
}
