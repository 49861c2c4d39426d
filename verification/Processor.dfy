/** Virtual chain changes and the notification queue as they work on the store
    (nexus/src/processor.rs); `Chain` is the specification. */
module Processor {
  import opened Model
  import opened Ledger
  import opened Counters
  import opened Rollback
  import opened Chain
  import opened Score
  import opened Store
  import opened Operations
  import opened Removal
  import opened ChainTheorem

  lemma RemovalComposes(c: Core, r: Residue, threshold: nat, u: Undone, deployed: Core, premints: map<Tick, nat>,
                        undiscounted: Core, delisted: Core, residue: Residue)
    requires Removable(c.ops, Ascending(Scores(c.ops, threshold)))
    requires u == RemoveOps(Undone(c, r, ZERO), Ascending(Scores(c.ops, threshold)))
    requires (deployed, premints) == RemoveDeployments(u.core, threshold)
    requires undiscounted == RemoveDiscounts(deployed, u.residue, threshold)
    requires (delisted, residue) == RemoveListings(undiscounted, u.residue, threshold)
    ensures RemoveAbove(c, r, threshold)
              == match ReconstructOwnership(delisted, threshold, premints)
                 case None => None
                 case Some(d) => Some(Undone(d, residue, u.diff))
  {
    hide Ascending, Scores, RemoveOps, RemoveDeployments, RemoveDiscounts, RemoveListings, ReconstructOwnership, Removable;
  }

  /** Everything the ledger holds at or above the threshold goes. */
  method RemoveFrom(tx: WriteTransaction, txScoreThreshold: nat) returns (diff: Option<Stats>)
    modifies tx`collectionRegistry, tx`collectionDeployments, tx`mintHistory, tx`ownershipChanges, tx`ownershipHistory,
      tx`currentOwnership, tx`addressHoldings, tx`vip, tx`availableRanges, tx`rangeLengths, tx`tokenIdMeta,
      tx`listings, tx`listingsByTick, tx`addressListings, tx`operationHistory, tx`txIdToOpscore
    ensures match RemoveAbove(old(tx.Core()), old(tx.Residue()), txScoreThreshold)
            case None => diff == None
            case Some(u) => diff == Some(Wrapped(u.diff)) && tx.Core() == u.core && tx.Residue() == u.residue
  {
    hide RemoveAbove, Ascending, Scores, RemoveOps, RemoveDeployments, RemoveDiscounts, RemoveListings, ReconstructOwnership, Removable, Wrapped;
    ghost var c, r := tx.Core(), tx.Residue();
    var statDiffs := RemoveAffectedOperations(tx, txScoreThreshold);
    ghost var u := RemoveOps(Undone(c, r, ZERO), Ascending(Scores(c.ops, txScoreThreshold)));
    var premintFromRemoved := RemoveAffectedDeployments(tx, txScoreThreshold);
    ghost var deployed := tx.Core();
    RemoveDiscountsFrom(tx, txScoreThreshold);
    ghost var undiscounted := tx.Core();
    RemoveAffectedListings(tx, txScoreThreshold);
    RemovalComposes(c, r, txScoreThreshold, u, deployed, premintFromRemoved, undiscounted, tx.Core(), tx.Residue());
    var ok := ReconstructTokenOwnership(tx, txScoreThreshold, premintFromRemoved);
    diff := if ok then Some(statDiffs) else None;
  }

  /** `None` drops the transaction. */
  method ProcessRemovalOn(tx: WriteTransaction, limit: Limit, removedBlocks: seq<Hash>, forcedRollbackBlueScore: Option<u64>)
    returns (diff: Option<Stats>)
    modifies tx
    ensures match ProcessRemoval(old(tx.Tables()), limit, removedBlocks, forcedRollbackBlueScore)
            case None => diff == None
            case Some((db, stats)) => diff == Some(stats) && tx.Tables() == db
    ensures tx.notificationQueue == old(tx.notificationQueue)
  {
    hide Identify, BlocksSince, HashesOf, RollbackScore, Threshold, RemoveAbove, WriteTransaction.Core, WriteTransaction.Residue;
    var minBlueScore := IdentifyReorgBlocksAndDelete(tx, removedBlocks, forcedRollbackBlueScore);
    if minBlueScore.None? {
      return Some(ZERO);
    }
    diff := RemoveFrom(tx, Threshold(limit, minBlueScore.value));
  }

  /** The operations of a mergeset without those whose transaction is already logged. */
  method ScoredOperations(tx: WriteTransaction, limit: Limit, m: Mergeset) returns (xs: seq<ContextOp>)
    ensures xs == Incoming(tx.Core().opScores, limit, m, m.ops)
  {
    xs := [];
    for i := 0 to |m.ops|
      invariant xs == Incoming(tx.txIdToOpscore, limit, m, m.ops[..i])
    {
      assert m.ops[..i + 1][..i] == m.ops[..i];
      var o := m.ops[i];
      if o.op.common.txId !in tx.txIdToOpscore {
        xs := xs + [ContextOp(TxScore(limit, m.blueScore, o.blockIndex, o.txIndex), o.op, m.entropy)];
      }
    }
    assert m.ops[..|m.ops|] == m.ops;
  }

  /** Stores the block unless it is stored already. */
  method InsertBlock(tx: WriteTransaction, m: Mergeset) returns (inserted: bool)
    modifies tx`chainBlockScores, tx`blockhashToScore
    ensures inserted == (BlockKey(m.blueScore, m.hash) !in old(tx.chainBlockScores))
    ensures tx.Tables() == if inserted then WithBlock(old(tx.Tables()), m) else old(tx.Tables())
  {
    var key := BlockKey(m.blueScore, m.hash);
    inserted := key !in tx.chainBlockScores;
    if inserted {
      tx.chainBlockScores := tx.chainBlockScores + {key};
      tx.blockhashToScore := tx.blockhashToScore[m.hash := m.blueScore];
    }
  }

  function WithBlock(db: Db, m: Mergeset): Db {
    db.(blocks := db.blocks + {BlockKey(m.blueScore, m.hash)}, blockScores := db.blockScores[m.hash := m.blueScore])
  }

  method AddOneMergeset(tx: WriteTransaction, limit: Limit, lastAcceptedBlueScore: u64, m: Mergeset) returns (diff: Option<Stats>)
    modifies tx
    ensures match AddMergeset(old(tx.Tables()), limit, lastAcceptedBlueScore, m)
            case None => diff == None
            case Some((db, stats)) => diff == Some(stats) && tx.Tables() == db
    ensures tx.notificationQueue == old(tx.notificationQueue)
  {
    hide ProcessOps, Incoming, WriteTransaction.Core, WriteTransaction.Residue;
    if m.blueScore < lastAcceptedBlueScore {
      return Some(ZERO);
    }
    var inserted := InsertBlock(tx, m);
    if !inserted {
      return Some(ZERO);
    }
    var scoredOperations := ScoredOperations(tx, limit, m);
    diff := ProcessNftOperations(tx, scoredOperations);
  }

  /** The tip is read once, before the first mergeset. */
  method ProcessAdditionsOn(tx: WriteTransaction, limit: Limit, mergesets: seq<Mergeset>) returns (diff: Option<Stats>)
    modifies tx
    ensures match ProcessAdditions(old(tx.Tables()), limit, LastBlueScore(old(tx.chainBlockScores)), mergesets)
            case None => diff == None
            case Some((db, stats)) => diff == Some(stats) && tx.Tables() == db
    ensures tx.notificationQueue == old(tx.notificationQueue)
  {
    hide AddMergeset, Tip, Add;
    ghost var start := tx.Tables();
    var lastAcceptedBlueScore := if tx.chainBlockScores == {} then 0 else Tip(tx.chainBlockScores).blueScore;
    var sum := ZERO;
    for i := 0 to |mergesets|
      invariant ProcessAdditions(start, limit, lastAcceptedBlueScore, mergesets[..i]) == Some((tx.Tables(), sum))
      invariant tx.notificationQueue == old(tx.notificationQueue)
    {
      assert mergesets[..i + 1][..i] == mergesets[..i];
      var one := AddOneMergeset(tx, limit, lastAcceptedBlueScore, mergesets[i]);
      if one.None? {
        AdditionsFailForGood(start, limit, lastAcceptedBlueScore, mergesets, i + 1);
        return None;
      }
      sum := Add(sum, one.value);
    }
    assert mergesets[..|mergesets|] == mergesets;
    diff := Some(sum);
  }

  lemma {:induction false} AdditionsFailForGood(db: Db, limit: Limit, last: u64, mergesets: seq<Mergeset>, n: nat)
    requires n <= |mergesets| && ProcessAdditions(db, limit, last, mergesets[..n]).None?
    ensures ProcessAdditions(db, limit, last, mergesets).None?
    decreases |mergesets| - n
  {
    hide AddMergeset;
    if n < |mergesets| {
      assert mergesets[..n + 1][..n] == mergesets[..n];
      AdditionsFailForGood(db, limit, last, mergesets, n + 1);
    } else {
      assert mergesets[..n] == mergesets;
    }
  }

  method ProcessChainChangesOn(tx: WriteTransaction, limit: Limit, vcc: ChainChange) returns (ok: bool)
    modifies tx
    ensures var r := ProcessChange(old(tx.Tables()), limit, vcc);
            ok == r.Some? && (ok ==> tx.Tables() == r.value)
    ensures tx.notificationQueue == old(tx.notificationQueue)
  {
    hide ProcessRemoval, ProcessAdditions, LastBlueScore, Add, Sub;
    if vcc.removed != [] || vcc.forced.Some? {
      var diff := ProcessRemovalOn(tx, limit, vcc.removed, vcc.forced);
      if diff.None? {
        return false;
      }
      tx.stats := Sub(tx.stats, diff.value);
    }
    if vcc.mergesets != [] {
      var diff := ProcessAdditionsOn(tx, limit, vcc.mergesets);
      if diff.None? {
        return false;
      }
      tx.stats := Add(tx.stats, diff.value);
    }
    ok := true;
  }

  // ---------------------------------------------------------------- the processor

  /** Notifications that wait hold the keys `first .. first + n`, the oldest first. */
  ghost predicate Queued(queue: map<nat, ChainChange>, first: nat, waiting: seq<ChainChange>) {
    && first >= 1
    && (forall k: nat :: k in queue <==> first <= k < first + |waiting|)
    && (forall i :: 0 <= i < |waiting| ==> queue[first + i] == waiting[i])
  }

  class Processor {
    const limit: Limit
    var db: Db
    var notificationQueue: map<nat, ChainChange>
    ghost var waiting: seq<ChainChange>
    ghost var applied: seq<ChainChange>

    /** The queue holds what waits, from key 1 on, and the store is what the changes
        applied so far make of empty tables. */
    ghost predicate Valid()
      reads this
    {
      Queued(notificationQueue, 1, waiting) && |waiting| <= U64_MAX && ProcessAll(EMPTY_DB, limit, applied) == Some(db)
    }

    constructor (limit: Limit)
      ensures Valid() && db == EMPTY_DB && waiting == [] && applied == [] && this.limit == limit
    {
      this.limit := limit;
      db, notificationQueue := EMPTY_DB, map[];
      waiting, applied := [], [];
    }

    /** Applies a notification at once; a failure leaves the store as it was. */
    method ProcessChainChanges(vcc: ChainChange) returns (ok: bool)
      requires Valid()
      modifies `db, `applied
      ensures Valid() && applied == if ok then old(applied) + [vcc] else old(applied)
      ensures var r := ProcessChange(old(db), limit, vcc);
              ok == r.Some? && db == if ok then r.value else old(db)
      ensures ValidRun(limit, old(applied) + [vcc]) ==> ok && Canonical(db, limit, ChainAfter(applied))
    {
      hide ProcessChange, Queued, ValidRun, Canonical, ChainAfter;
      AppliedOneMore(limit, applied, db, vcc);
      var tx := new WriteTransaction(db, notificationQueue);
      ok := ProcessChainChangesOn(tx, limit, vcc);
      if ok {
        db, applied := tx.Tables(), applied + [vcc];
      }
    }

    /** Puts a notification behind those that wait.  The key after the greatest `u64` does
        not exist. */
    method ProcessQueue(vcc: ChainChange)
      requires Valid() && |waiting| < U64_MAX
      modifies `notificationQueue, `waiting
      ensures Valid() && waiting == old(waiting) + [vcc] && applied == old(applied)
    {
      hide Queued;
      var nextKey := (LastQueued(notificationQueue) + 1) % TWO64;
      KeysOfQueue(notificationQueue, waiting);
      QueuePush(notificationQueue, waiting, vcc);
      notificationQueue := notificationQueue[nextKey := vcc];
      waiting := waiting + [vcc];
    }

    /** Drains the queue in one transaction.  The `unwrap` of a missing key cannot
        happen; the store becomes what applying the waiting notifications in their order
        of arrival makes of it, or stays as it was together with the queue. */
    method ProcessQueueApplication() returns (ok: bool)
      requires Valid()
      modifies this
      ensures Valid()
      ensures var r := ProcessAll(old(db), limit, old(waiting));
              && ok == r.Some?
              && db == (if ok then r.value else old(db))
              && waiting == (if ok then [] else old(waiting))
              && applied == (if ok then old(applied) + old(waiting) else old(applied))
      ensures ValidRun(limit, old(applied) + old(waiting)) ==> ok && Canonical(db, limit, ChainAfter(applied))
    {
      hide ProcessChange, Queued, FirstQueued, LastQueued, WriteTransaction.Core, WriteTransaction.Residue, ValidRun, Canonical, ChainAfter,
        ProcessAll;
      NothingApplied(db, limit);
      AppliedMore(limit, applied, db, waiting);
      var firstKey, lastKey := FirstQueued(notificationQueue), LastQueued(notificationQueue);
      KeysOfQueue(notificationQueue, waiting);
      if firstKey * lastKey % TWO64 == 0 {
        assert applied + waiting == applied;
        return true;
      }
      var tx := new WriteTransaction(db, notificationQueue);
      assert waiting[0..] == waiting && waiting[..0] == [];
      for i := firstKey to lastKey + 1
        invariant firstKey <= i <= firstKey + |waiting|
        invariant ProcessAll(db, limit, waiting[..i - firstKey]) == Some(tx.Tables())
        invariant Queued(tx.notificationQueue, i, waiting[i - firstKey..])
        invariant fresh(tx) && unchanged(this)
      {
        OneMoreApplied(db, limit, waiting, i - firstKey, tx.Tables());
        QueuePop(tx.notificationQueue, i, waiting[i - firstKey..]);
        assert waiting[i - firstKey..][1..] == waiting[i + 1 - firstKey..];
        var vcc := tx.notificationQueue[i];
        tx.notificationQueue := tx.notificationQueue - {i};
        ok := ProcessChainChangesOn(tx, limit, vcc);
        if !ok {
          QueueFailsForGood(db, limit, waiting, i + 1 - firstKey);
          return false;
        }
      }
      assert waiting[..|waiting|] == waiting;
      db, notificationQueue := tx.Tables(), tx.notificationQueue;
      EmptyQueue(notificationQueue, lastKey + 1);
      applied, waiting := applied + waiting, [];
      ok := true;
    }
  }

  lemma QueuePush(queue: map<nat, ChainChange>, waiting: seq<ChainChange>, vcc: ChainChange)
    requires Queued(queue, 1, waiting)
    ensures Queued(queue[|waiting| + 1 := vcc], 1, waiting + [vcc])
  {
  }

  lemma EmptyQueue(queue: map<nat, ChainChange>, first: nat)
    requires Queued(queue, first, [])
    ensures Queued(queue, 1, [])
  {
  }

  lemma QueuePop(queue: map<nat, ChainChange>, first: nat, waiting: seq<ChainChange>)
    requires Queued(queue, first, waiting) && waiting != []
    ensures first in queue && queue[first] == waiting[0] && Queued(queue - {first}, first + 1, waiting[1..])
  {
  }

  lemma {:induction false} AppliedInTurn(start: Db, limit: Limit, a: seq<ChainChange>, b: seq<ChainChange>)
    requires ProcessAll(start, limit, a).Some?
    ensures ProcessAll(start, limit, a + b) == ProcessAll(ProcessAll(start, limit, a).value, limit, b)
    decreases |b|
  {
    hide ProcessChange;
    if b == [] {
      assert a + b == a;
    } else {
      AppliedInTurn(start, limit, a, b[..|b| - 1]);
      assert (a + b)[..|a + b| - 1] == a + b[..|b| - 1];
    }
  }

  lemma NothingApplied(db: Db, limit: Limit)
    ensures ProcessAll(db, limit, []) == Some(db)
  {
  }

  lemma OneMoreApplied(db: Db, limit: Limit, changes: seq<ChainChange>, n: nat, before: Db)
    requires n < |changes| && ProcessAll(db, limit, changes[..n]) == Some(before)
    ensures ProcessAll(db, limit, changes[..n + 1]) == ProcessChange(before, limit, changes[n])
  {
    hide ProcessChange;
    assert changes[..n + 1][..n] == changes[..n];
  }

  /** Applying further changes to the store is applying all of them to empty tables. */
  lemma AppliedMore(limit: Limit, applied: seq<ChainChange>, db: Db, more: seq<ChainChange>)
    requires ProcessAll(EMPTY_DB, limit, applied) == Some(db)
    ensures ProcessAll(EMPTY_DB, limit, applied + more) == ProcessAll(db, limit, more)
    ensures ValidRun(limit, applied + more) ==>
              ProcessAll(db, limit, more).Some? && Canonical(ProcessAll(db, limit, more).value, limit, ChainAfter(applied + more))
  {
    hide ProcessAll, ValidRun, Canonical, ChainAfter;
    AppliedInTurn(EMPTY_DB, limit, applied, more);
    if ValidRun(limit, applied + more) {
      RunIsCanonical(limit, applied + more);
    }
  }

  lemma AppliedOneMore(limit: Limit, applied: seq<ChainChange>, db: Db, vcc: ChainChange)
    requires ProcessAll(EMPTY_DB, limit, applied) == Some(db)
    ensures ProcessAll(EMPTY_DB, limit, applied + [vcc]) == ProcessChange(db, limit, vcc)
    ensures ValidRun(limit, applied + [vcc]) ==>
              ProcessChange(db, limit, vcc).Some? && Canonical(ProcessChange(db, limit, vcc).value, limit, ChainAfter(applied + [vcc]))
  {
    hide ProcessChange, ValidRun, Canonical, ChainAfter;
    AppliedMore(limit, applied, db, [vcc]);
    assert [vcc][..0] == [];
    assert ProcessAll(db, limit, []) == Some(db);
  }

  lemma {:induction false} QueueFailsForGood(db: Db, limit: Limit, changes: seq<ChainChange>, n: nat)
    requires n <= |changes| && ProcessAll(db, limit, changes[..n]).None?
    ensures ProcessAll(db, limit, changes).None?
    decreases |changes| - n
  {
    hide ProcessChange;
    if n < |changes| {
      assert changes[..n + 1][..n] == changes[..n];
      QueueFailsForGood(db, limit, changes, n + 1);
    } else {
      assert changes[..n] == changes;
    }
  }

  /** The greatest key of the queue, 0 when it is empty. */
  function LastQueued(queue: map<nat, ChainChange>): nat {
    if queue.Keys == {} then 0 else MaxOf(queue.Keys)
  }

  function FirstQueued(queue: map<nat, ChainChange>): nat {
    if queue.Keys == {} then 0 else MinOf(queue.Keys)
  }

  /** The product of the first and the last key wraps around in 64 bits; as the first key
      is 1 the test for an empty queue is right, and otherwise the scan covers the queue. */
  lemma KeysOfQueue(queue: map<nat, ChainChange>, waiting: seq<ChainChange>)
    requires Queued(queue, 1, waiting) && |waiting| <= U64_MAX
    ensures FirstQueued(queue) * LastQueued(queue) % TWO64 == 0 <==> waiting == []
    ensures LastQueued(queue) == |waiting|
    ensures waiting != [] ==> FirstQueued(queue) == 1
  {
    if waiting == [] {
      assert queue.Keys == {};
    } else {
      assert 1 in queue.Keys && |waiting| in queue.Keys;
    }
  }
}
