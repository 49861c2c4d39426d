/** The chain indexes in every reachable state, what a rollback leaves of a height, and
    blocks that are delivered again. */
module ChainIndexes {
  import opened Model
  import opened Ledger
  import opened Invariants
  import opened Preservation
  import opened Steps
  import opened Filtering
  import opened Rollback
  import opened ReorgIsReplay
  import opened Residues
  import opened Counters
  import opened Score
  import opened Chain
  import opened ChainReplay
  import opened ChainTheorem
  import opened Guarantees

  // ---------------------------------------------------------------- the indexes agree

  /** Both chain indexes hold the same blocks, the transaction index is the inverse of the
      log, and every logged operation lies in a stored block. */
  ghost predicate IndexesAgree(db: Db, limit: Limit) {
    && (forall b :: b in db.blocks <==> b.hash in db.blockScores && db.blockScores[b.hash] == b.blueScore)
    && OpsOk(db.core.ops, db.core.opScores)
    && (forall s :: s in db.core.ops ==> exists b :: b in db.blocks && b.blueScore == BlueScore(limit, s))
  }

  lemma BlocksAgree(limit: Limit, ms: seq<Mergeset>)
    requires ValidChain(limit, ms)
    ensures forall b: BlockKey :: b in BlocksOf(ms) <==> b.hash in ScoresOf(ms) && ScoresOf(ms)[b.hash] == b.blueScore
  {
    hide ValidChain, ScoresOf;
    HashesDiffer(limit, ms);
    ScoresMembers(ms);
    forall b: BlockKey | b.hash in ScoresOf(ms) && ScoresOf(ms)[b.hash] == b.blueScore ensures b in BlocksOf(ms) {
      var m :| m in ms && m.hash == b.hash;
      assert b == BlockKey(m.blueScore, m.hash);
    }
  }

  ghost predicate LiesIn(limit: Limit, ms: seq<Mergeset>, s: nat) {
    exists m :: m in ms && m.blueScore == BlueScore(limit, s)
  }

  /** Every operation of a chain belongs to one of its blocks, and its score says which. */
  lemma {:induction false} OpsLieInBlocks(limit: Limit, ms: seq<Mergeset>)
    requires forall i :: 0 <= i < |ms| ==> OrderedBlock(limit, ms[i])
    ensures forall x :: x in OpsOf(limit, ms) ==> LiesIn(limit, ms, x.score)
    decreases |ms|
  {
    hide OrderedBlock, BlueScore, TxScore;
    if ms != [] {
      var prefix, last := ms[..|ms| - 1], ms[|ms| - 1];
      OpsLieInBlocks(limit, prefix);
      assert OrderedBlock(limit, last) && last in ms;
      forall x | x in OpsOf(limit, ms) ensures LiesIn(limit, ms, x.score) {
        if x in OpsOf(limit, prefix) {
          var m :| m in prefix && m.blueScore == BlueScore(limit, x.score);
          assert m in ms;
        } else {
          var i :| 0 <= i < |last.ops| && BlockOps(limit, last)[i] == x;
          ScoreInBlock(limit, last, i);
        }
      }
    }
  }

  lemma ScoreInBlock(limit: Limit, m: Mergeset, i: nat)
    requires OrderedBlock(limit, m) && i < |m.ops|
    ensures BlueScore(limit, OpOf(limit, m, i).score) == m.blueScore
  {
    hide BlueScore, TxScore;
    ThresholdSeparates(limit, m.blueScore, m.ops[i].blockIndex, m.ops[i].txIndex, m.blueScore);
  }

  lemma LoggedIsInHistory(h: seq<ContextOp>, s: nat)
    requires ValidHistory(h) && s in Run(h).ops
    ensures exists i :: 0 <= i < |h| && h[i].score == s
  {
    hide ValidHistory, Good, Run, OpsOk;
    RunIsGood(h);
    PartsOfGood(Run(h), NextScore(h));
    InverseAt(Run(h), s);
    var x := Run(h).ops[s].op.common.txId;
    var i :| 0 <= i < |h| && h[i].op.common.txId == x;
    assert h[i].score == s;
  }

  lemma InverseAt(c: Core, s: nat)
    requires OpsOk(c.ops, c.opScores) && s in c.ops
    ensures c.ops[s].op.common.txId in c.opScores && c.opScores[c.ops[s].op.common.txId] == s
  {
  }

  /** In every reachable state, forced rollbacks included. */
  lemma ChainIndexesAgree(limit: Limit, changes: seq<ChainChange>)
    requires ValidRun(limit, changes)
    ensures ProcessAll(EMPTY_DB, limit, changes).Some?
    ensures IndexesAgree(ProcessAll(EMPTY_DB, limit, changes).value, limit)
  {
    hide ValidRun, ProcessAll, Good, Run, OpsOk, BlueScore, ScoresOf, BlocksOf, ResidueOk, ValidHistory, LogsExactly, OrderedBlock, DistinctTxIds;
    RunIsCanonical(limit, changes);
    var ms := ChainAfter(changes);
    var h := OpsOf(limit, ms);
    ReachableIsGood(limit, changes);
    PartsOfGood(Run(h), NextScore(h));
    BlocksAgree(limit, ms);
    OpsLieInBlocks(limit, ms);
    forall s | s in Run(h).ops ensures exists b :: b in BlocksOf(ms) && b.blueScore == BlueScore(limit, s) {
      LoggedIsInHistory(h, s);
      var i :| 0 <= i < |h| && h[i].score == s;
      assert LiesIn(limit, ms, h[i].score);
      var m :| m in ms && m.blueScore == BlueScore(limit, h[i].score);
      StoredBlock(ms, m);
    }
  }

  lemma StoredBlock(ms: seq<Mergeset>, m: Mergeset)
    requires m in ms
    ensures BlockKey(m.blueScore, m.hash) in BlocksOf(ms)
  {
  }

  // ---------------------------------------------------------------- after a rollback

  /** No row of any ledger table carries a score from `t` on. */
  ghost predicate NothingFrom(c: Core, t: nat) {
    && Bounded(c, t)
    && (forall k :: k in c.history ==> k.score < t)
    && (forall k :: k in c.mints ==> k.score < t)
    && (forall k :: k in c.registry ==> c.registry[k].score < t)
    && (forall k :: k in c.owners ==> c.owners[k].score < t)
    && (forall k :: k in c.listings ==> c.listings[k].score < t)
    && (forall x :: x in c.opScores ==> c.opScores[x] < t)
  }

  lemma BoundedIsNothingFrom(c: Core, t: nat)
    requires Good(c, t)
    ensures NothingFrom(c, t)
  {
    hide SupplyOk, PremintsDone, OwnedAreMinted, SendsOk;
    BoundedOfGood(c, t);
    HistoryIsBounded(c, t);
    RegistryIsBounded(c, t);
    forall k | k in c.mints ensures k.score < t {
      assert ChangeKey(k.score, k.token, k.seqNo) in c.changes;
    }
  }

  lemma {:induction false} LastIsBelow(h: seq<ContextOp>, t: nat)
    requires AllBelow(h, t)
    ensures NextScore(h) <= t
  {
  }

  /** After a reorganisation to blue score `b` nothing at or above `b` remains, and the
      blocks below it are all still there. */
  lemma RollbackLeavesNothingAbove(db: Db, limit: Limit, ms: seq<Mergeset>, removed: seq<Hash>, forced: Option<u64>, b: u64)
    requires Canonical(db, limit, ms) && (forced.Some? ==> Fits(limit, forced.value))
    requires RollbackScore(LeastOf(db.blockScores, removed), forced) == Some(b)
    ensures ProcessRemoval(db, limit, removed, forced).Some?
    ensures var after := ProcessRemoval(db, limit, removed, forced).value.0;
            && (forall k :: k in after.blocks <==> k in db.blocks && k.blueScore < b)
            && (forall x :: x in after.blockScores ==> after.blockScores[x] < b)
            && NothingFrom(after.core, Threshold(limit, b))
  {
    hide ValidChain, Run, ScoresOf, BlocksOf, ResidueOk, ProcessRemoval, Fits, Threshold, LeastOf, OpsOf, BelowBlue, Good, LogsExactly, NothingFrom,
      ValidHistory, OrderedBlock;
    RemovalIsCanonical(db, limit, ms, removed, forced);
    LeastFits(limit, ms, removed, forced);
    var p := BelowBlue(ms, b);
    var h, t := OpsOf(limit, p), Threshold(limit, b);
    CutBlocks(limit, ms, b);
    CutMembers(limit, ms, b);
    PrefixChainIsValid(limit, ms, |p|);
    BlocksAgree(limit, p);
    ScoresBelow(limit, p, b);
    ChainIsHistory(limit, p);
    RunIsGood(h);
    BlocksOrdered(limit, p);
    ChainBelow(limit, p, b);
    LastIsBelow(h, t);
    WiderBound(Run(h), NextScore(h), t);
    BoundedIsNothingFrom(Run(h), t);
  }

  lemma BlocksOrdered(limit: Limit, p: seq<Mergeset>)
    requires ValidChain(limit, p)
    ensures forall i :: 0 <= i < |p| ==> OrderedBlock(limit, p[i])
  {
  }

  lemma ScoresBelow(limit: Limit, p: seq<Mergeset>, b: nat)
    requires ValidChain(limit, p) && forall m :: m in p ==> m.blueScore < b
    ensures forall x :: x in ScoresOf(p) ==> ScoresOf(p)[x] < b
  {
    hide ValidChain, ScoresOf;
    HashesDiffer(limit, p);
    ScoresMembers(p);
    forall x | x in ScoresOf(p) ensures ScoresOf(p)[x] < b {
      var m :| m in p && m.hash == x;
    }
  }

  // ---------------------------------------------------------------- blocks that come again

  lemma {:induction false} StoredBlocksAreSkipped(db: Db, limit: Limit, last: u64, again: seq<Mergeset>)
    requires forall i :: 0 <= i < |again| ==> again[i].blueScore < last || BlockKey(again[i].blueScore, again[i].hash) in db.blocks
    ensures ProcessAdditions(db, limit, last, again) == Some((db, ZERO))
    decreases |again|
  {
    hide ProcessOps;
    if again != [] {
      StoredBlocksAreSkipped(db, limit, last, again[..|again| - 1]);
      AddingNothing(ZERO);
    }
  }

  /** Blocks that are stored already, or lie below the tip, change nothing. */
  lemma RedeliveryChangesNothing(db: Db, limit: Limit, again: seq<Mergeset>)
    requires FitsU64(db.stats)
    requires forall i :: 0 <= i < |again| ==>
               BlockKey(again[i].blueScore, again[i].hash) in db.blocks || exists b :: b in db.blocks && again[i].blueScore < b.blueScore
    ensures Extend(db, limit, again) == Some(db)
  {
    hide ProcessAdditions, Add;
    if again != [] {
      assert forall b :: b in db.blocks ==> b.blueScore <= LastBlueScore(db.blocks);
      StoredBlocksAreSkipped(db, limit, LastBlueScore(db.blocks), again);
      AddingNothing(db.stats);
    }
  }

  /** Rolling back to any blue score and delivering the removed blocks again gives the
      same ledger, token ids included, and the same chain indexes. */
  lemma RemovedBlocksComeBack(db: Db, limit: Limit, ms: seq<Mergeset>, b: u64)
    requires Canonical(db, limit, ms) && Fits(limit, b)
    ensures var change := ChainChange([], Some(b), ms[|BelowBlue(ms, b)|..]);
            var after := ProcessChange(db, limit, change);
            && after.Some?
            && after.value.core == db.core && after.value.blocks == db.blocks && after.value.blockScores == db.blockScores
  {
    hide ValidChain, Run, ScoresOf, BlocksOf, ResidueOk, ProcessChange, Fits, OpsOf;
    var change := ChainChange([], Some(b), ms[|BelowBlue(ms, b)|..]);
    var cut, rest := BelowBlue(ms, b), change.mergesets;
    assert cut + rest == ms && rest[..|rest|] == rest;
    ExtensionsAreNews(limit, cut, rest, |rest|);
    assert Survivors(ms, change) == ms;
    ChangeIsCanonical(db, limit, ms, change);
  }

  // ---------------------------------------------------------------- the discount log

  /** The discounts in force are exactly the ones the log holds. */
  ghost predicate DiscountLogExact(vip: set<VipKey>, discounts: map<DiscountKey, u64>) {
    forall k :: k in vip <==> DiscountKey(k.score, k.tick, k.spk) in discounts && discounts[DiscountKey(k.score, k.tick, k.spk)] == k.fee
  }

  /** A rollback takes discounts out of force but leaves their log rows, so the log stays
      exact if and only if it has no row from the threshold on. */
  lemma DiscountLogExactIff(h: seq<ContextOp>, r: Residue, threshold: nat)
    requires ValidHistory(h) && DiscountLogExact(Run(h).vip, r.discounts)
    ensures RemoveAbove(Run(h), r, threshold).Some?
    ensures var u := RemoveAbove(Run(h), r, threshold).value;
            && u.residue.discounts == r.discounts
            && (DiscountLogExact(u.core.vip, u.residue.discounts) <==> forall k :: k in r.discounts ==> k.score < threshold)
  {
    hide ValidHistory, Run, RemoveAbove, Below;
    assert VipOk(Run(h).vip, r.discounts);
    RollbackIsReplay(h, r, threshold);
    IndexAfterRollback(h, r, threshold);
    RunIsFiltered(h, threshold);
    var c, t := Run(h), Run(Below(h, threshold));
    forall k | k in r.discounts ensures VipKey(k.spk, k.tick, k.score, r.discounts[k]) in c.vip {
    }
    if exists k :: k in r.discounts && k.score >= threshold {
      var k :| k in r.discounts && k.score >= threshold;
      assert VipKey(k.spk, k.tick, k.score, r.discounts[k]) !in t.vip;
    }
  }
}
