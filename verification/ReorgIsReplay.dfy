/** The headline: a rollback to a threshold leaves the ledger exactly as if only the
    operations below the threshold had ever been processed. */
module ReorgIsReplay {
  import opened Model
  import opened Ledger
  import opened Invariants
  import opened Steps
  import opened Filtering
  import opened Rollback
  import opened MarketReorg
  import opened SupplyReorg
  import opened OwnerReorg
  import opened Reorg
  import opened Counters
  import TokenIds

  /** Every discount is in the discount log with its fee; the log may hold more. */
  ghost predicate VipOk(vip: set<VipKey>, discounts: map<DiscountKey, u64>) {
    forall k :: k in vip ==>
      DiscountKey(k.score, k.tick, k.spk) in discounts && discounts[DiscountKey(k.score, k.tick, k.spk)] == k.fee
  }

  // ---------------------------------------------------------------- up to the ownership tables

  /** `d` has the tables of `t`, and the ownership and supply tables of `c`. */
  ghost predicate HalfWay(c: Core, t: Core, d: Core) {
    d == t.(changes := c.changes, history := c.history, mints := c.mints, alloc := c.alloc,
            owners := c.owners, holdings := c.holdings)
  }

  lemma LogIsFiltered(c: Core, t: Core, threshold: nat, scores: seq<nat>)
    requires OpsOk(c.ops, c.opScores) && FilteredLog(c, t, threshold)
    requires forall s :: s in scores <==> s in c.ops && s >= threshold
    ensures Without(c.ops, scores) == t.ops && WithoutTx(c.opScores, scores) == t.opScores
  {
    assert Without(c.ops, scores) == t.ops;
    assert WithoutTx(c.opScores, scores) == t.opScores;
  }

  lemma ScanIsExact(ops: map<nat, CheckedOp>, threshold: nat)
    ensures forall s :: s in Ascending(Scores(ops, threshold)) <==> s in ops && s >= threshold
  {
  }

  lemma RegistryIsFiltered(c: Core, t: Core, threshold: nat)
    requires RegistryOk(c.registry, c.deployments) && FilteredTables(c, t, threshold)
    ensures var (d, premints) := RemoveDeployments(c, threshold);
            && d.registry == t.registry && d.deployments == t.deployments
            && forall u :: u in c.registry ==>
                 PremintOf(d.registry, premints, u) == Some(c.registry[u].info.premint)
  {
    var (d, premints) := RemoveDeployments(c, threshold);
    forall u | u in c.registry ensures u in RemovedTicks(c, threshold) <==> c.registry[u].score >= threshold {
      var k := DeploymentKey(c.registry[u].score, u);
      assert k in c.deployments;
    }
    assert d.registry == t.registry;
    assert d.deployments == t.deployments;
  }

  lemma VipsAreFiltered(c: Core, t: Core, r: Residue, threshold: nat)
    requires VipOk(c.vip, r.discounts) && FilteredTables(c, t, threshold)
    ensures RemoveDiscounts(c, r, threshold).vip == t.vip
  {
    var gone := RemovedVips(r.discounts, threshold);
    forall k | k in c.vip ensures k in gone <==> k.score >= threshold {
      if k.score >= threshold {
        var at := DiscountKey(k.score, k.tick, k.spk);
        assert k == VipKey(at.spk, at.tick, at.score, r.discounts[at]);
      }
    }
    forall k | k in t.vip ensures k in c.vip - gone {
    }
    assert c.vip - gone == t.vip;
  }

  ghost predicate AllOlder(m: map<TokenKey, Listing>, threshold: nat) {
    forall t :: t in m ==> m[t].score < threshold
  }

  lemma RestoreOneIsOld(ops: map<nat, CheckedOp>, opScores: map<TxId, nat>, threshold: nat, m: map<TokenKey, Listing>, s: nat)
    requires AllOlder(m, threshold)
    ensures AllOlder(RestoreOne(ops, opScores, threshold, m, s), threshold)
  {
  }

  lemma {:induction false} RestoredIsOld(ops: map<nat, CheckedOp>, opScores: map<TxId, nat>, threshold: nat, scores: seq<nat>)
    ensures AllOlder(Restored(ops, opScores, threshold, scores), threshold)
  {
    hide RestoreOne;
    if scores != [] {
      var n := |scores| - 1;
      RestoredIsOld(ops, opScores, threshold, scores[..n]);
      RestoreOneIsOld(ops, opScores, threshold, Restored(ops, opScores, threshold, scores[..n]), scores[n]);
    }
  }

  lemma ListingsAreKept(c: Core, threshold: nat, d: Core)
    requires var m := Restored(c.ops, c.opScores, threshold, Ascending(Scores(c.ops, threshold)));
             d.listings == c.listings + m && d.listingsByTick == c.listingsByTick + m.Keys
    requires c.listingsByTick == c.listings.Keys
    ensures var gone := ListedSince(d.listings, threshold);
            && d.listings - gone == Kept(c, threshold)
            && d.listingsByTick - gone == Kept(c, threshold).Keys
  {
    hide Restored, Ascending, Scores;
    var scores := Ascending(Scores(c.ops, threshold));
    RestoredIsOld(c.ops, c.opScores, threshold, scores);
    assert d.listings - ListedSince(d.listings, threshold) == Kept(c, threshold);
  }

  /** The ledger when `process_removal` reaches the ownership tables. */
  function BeforeOwnership(c: Core, r: Residue, threshold: nat): (Core, map<Tick, nat>)
    requires var scores := Ascending(Scores(c.ops, threshold)); Removable(c.ops, scores)
  {
    var u := RemoveOps(Undone(c, r, ZERO), Ascending(Scores(c.ops, threshold)));
    var (deployed, premints) := RemoveDeployments(u.core, threshold);
    (RemoveListings(RemoveDiscounts(deployed, u.residue, threshold), u.residue, threshold).0, premints)
  }

  lemma ReachesHalfWay(c: Core, r: Residue, t: Core, threshold: nat)
    requires OpsOk(c.ops, c.opScores) && SendsOk(c.ops, c.opScores) && RegistryOk(c.registry, c.deployments)
    requires c.listingsByTick == c.listings.Keys && t.listingsByTick == t.listings.Keys
    requires VipOk(c.vip, r.discounts) && FilteredTables(c, t, threshold) && FilteredLog(c, t, threshold)
    requires Kept(c, threshold) == t.listings
    ensures Removable(c.ops, Ascending(Scores(c.ops, threshold)))
    ensures var (d, premints) := BeforeOwnership(c, r, threshold);
            && HalfWay(c, t, d)
            && forall u :: u in c.registry ==> PremintOf(d.registry, premints, u) == Some(c.registry[u].info.premint)
  {
    hide OpsOk, SendsOk, RegistryOk, VipOk, FilteredTables, FilteredLog, Kept, Ascending, Scores, Removable, RemoveOps, RemovedTicks,
      Without, WithoutTx, Restored, RemovedVips;
    var scores := Ascending(Scores(c.ops, threshold));
    assert scores[..|scores|] == scores;
    RemoveOpsIsRemoval(c, r, threshold, |scores|);
    ScanIsExact(c.ops, threshold);
    LogIsFiltered(c, t, threshold, scores);
    RegistryIsFiltered(c, t, threshold);
    VipsAreFiltered(c, t, r, threshold);
    ListingsAreKept(c, threshold, Removal(c, threshold, scores));
    RemovedTicksByDeployments(c, Removal(c, threshold, scores), threshold);
  }

  lemma RemovedTicksByDeployments(c: Core, d: Core, threshold: nat)
    requires c.deployments == d.deployments
    ensures RemovedTicks(c, threshold) == RemovedTicks(d, threshold)
  {
  }

  // ---------------------------------------------------------------- the ownership tables

  lemma DescendingIsNewestFirst(s: set<ChangeKey>)
    ensures NewestFirst(Descending(s), s)
  {
  }

  lemma ChangesAreUnwindable(c: Core, d: Core, premints: map<Tick, nat>, keys: seq<ChangeKey>, threshold: nat)
    requires OwnershipOk(c.changes, c.history, c.owners, c.holdings) && MintsMatchChanges(c.mints, c.changes)
    requires d.history == c.history && d.mints == c.mints
    requires forall k :: k in c.changes && k.seqNo >= 1 ==> k.token.tick in c.registry
    requires forall u :: u in c.registry ==> PremintOf(d.registry, premints, u) == Some(c.registry[u].info.premint)
    requires NewestFirst(keys, ChangesSince(c, threshold))
    ensures Unwindable(d, keys, premints, c.registry)
  {
    hide OwnersAreLatest, HoldingsInvertOwners, PremintOf;
    forall i, j | 0 <= i < j < |keys| ensures At(keys[i]) != At(keys[j]) {
      assert keys[i] in keys && keys[j] in keys;
    }
    assert forall k :: k in keys ==> k in c.changes;
  }

  /** Taking out the rows of the changes since the threshold leaves the filtered tables. */
  lemma UnwoundIsFiltered(c: Core, d: Core, t: Core, keys: seq<ChangeKey>, threshold: nat)
    requires OwnershipOk(c.changes, c.history, c.owners, c.holdings) && MintsMatchChanges(c.mints, c.changes)
    requires FilteredTables(c, t, threshold) && NewestFirst(keys, ChangesSince(c, threshold))
    requires d.history == c.history && d.mints == c.mints && d.changes == c.changes
    ensures var u := Unwound(d, keys, t.alloc); u.history == t.history && u.mints == t.mints && u.changes == t.changes
  {
    hide OwnersAreLatest, HoldingsInvertOwners, NotChangedAt, NotMintOf, ChangesMatchHistory, MintsMatchChanges;
    var u := Unwound(d, keys, t.alloc);
    assert forall k :: k in keys <==> k in c.changes && k.score >= threshold;
    CutHistory(c, keys, threshold);
    CutMints(c, keys, threshold);
    assert u.history == t.history;
    assert u.mints == t.mints;
    assert u.changes == t.changes;
  }

  lemma CutHistory(c: Core, keys: seq<ChangeKey>, threshold: nat)
    requires ChangesMatchHistory(c.changes, c.history)
    requires forall k :: k in keys <==> k in c.changes && k.score >= threshold
    ensures forall h :: h in c.history ==> (NotChangedAt(keys, h) <==> h.score < threshold)
  {
    forall h | h in c.history ensures NotChangedAt(keys, h) <==> h.score < threshold {
      var k :| k in c.changes && k.token == h.token && k.score == h.score;
      assert At(k) == h;
    }
  }

  lemma CutMints(c: Core, keys: seq<ChangeKey>, threshold: nat)
    requires MintsMatchChanges(c.mints, c.changes)
    requires forall k :: k in keys <==> k in c.changes && k.score >= threshold
    ensures forall m :: m in c.mints ==> (NotMintOf(keys, m) <==> m.score < threshold)
  {
    forall m | m in c.mints ensures NotMintOf(keys, m) <==> m.score < threshold {
      var k := ChangeKey(m.score, m.token, m.seqNo);
      assert MintOf(k) == m;
    }
  }

  lemma FirstChangeMadeTheOwner(c: Core, before: Core, keys: seq<ChangeKey>, threshold: nat)
    requires OwnershipOk(c.changes, c.history, c.owners, c.holdings) && before.owners == c.owners
    requires NewestFirst(keys, ChangesSince(c, threshold))
    ensures HoldersMatch(before, keys, HoldersAt(c.history, keys))
  {
    hide HoldingsInvertOwners;
    var holders := HoldersAt(c.history, keys);
    forall i | 0 <= i < |keys| && keys[i].token !in TokensOf(keys[..i]) && keys[i].token in before.owners
      ensures holders[i] == Some(before.owners[keys[i].token].spk)
    {
      var token := keys[i].token;
      assert keys[i] in keys;
      var last := c.owners[token].score;
      var k :| k in c.changes && k.token == token && k.score == last;
      assert At(keys[i]) in c.history && keys[i].score <= last;
      assert k in keys;
      var j :| 0 <= j < |keys| && keys[j] == k;
      NotBefore(keys, i);
      assert keys[i].score == last;
    }
  }

  lemma NotBefore(keys: seq<ChangeKey>, i: nat)
    requires i < |keys| && keys[i].token !in TokensOf(keys[..i])
    ensures forall j :: 0 <= j < i ==> keys[j].token != keys[i].token
  {
    forall j | 0 <= j < i ensures keys[j].token in TokensOf(keys[..i]) {
      assert keys[..i][j] == keys[j];
      assert keys[j] in keys[..i];
    }
  }

  /** A token without changes since the threshold keeps its latest row. */
  lemma HistoryOfFiltered(c: Core, t: Core, threshold: nat)
    requires FilteredTables(c, t, threshold)
    ensures forall h :: h in t.history <==> h in c.history && h.score < threshold
    ensures forall h :: h in t.history ==> t.history[h] == c.history[h]
  {
  }

  lemma UntouchedKeepOwner(c: Core, t: Core, keys: seq<ChangeKey>, threshold: nat, token: TokenKey)
    requires OwnershipOk(c.changes, c.history, c.owners, c.holdings) && FilteredTables(c, t, threshold)
    requires NewestFirst(keys, ChangesSince(c, threshold)) && token !in TokensOf(keys)
    ensures Owned(c.owners, token) == LastOwner(t.history, token)
  {
    hide HoldingsInvertOwners, LastOwner;
    LastOwnerIsLatest(t.history, token);
    HistoryOfFiltered(c, t, threshold);
    hide FilteredTables;
    forall h | h in c.history && h.token == token ensures h in t.history {
      var k :| k in c.changes && k.token == h.token && k.score == h.score;
      assert k in keys ==> token in TokensOf(keys);
      assert k.score < threshold;
    }
    if token in c.owners {
      assert HistoryKey(token, c.owners[token].score) in t.history;
    }
  }

  lemma StartIsRebuilt(before: Core, keys: seq<ChangeKey>)
    requires HoldingsInvertOwners(before.owners, before.holdings)
    ensures Rebuilt(before, before.(owners := before.owners - TokensOf(keys)), {}, TokensOf(keys))
  {
  }

  lemma OwnershipIsReplayed(c: Core, d: Core, t: Core, premints: map<Tick, nat>, threshold: nat)
    requires OwnershipOk(c.changes, c.history, c.owners, c.holdings) && MintsMatchChanges(c.mints, c.changes)
    requires OwnershipOk(t.changes, t.history, t.owners, t.holdings)
    requires FilteredTables(c, t, threshold) && HalfWay(c, t, d)
    requires forall k :: k in c.changes && k.seqNo >= 1 ==> k.token.tick in c.registry
    requires forall u :: u in c.registry ==> PremintOf(d.registry, premints, u) == Some(c.registry[u].info.premint)
    requires UndoKeys(c.alloc, Descending(ChangesSince(c, threshold)), c.registry) == Some(t.alloc)
    ensures ReconstructOwnership(d, threshold, premints) == Some(t)
  {
    hide MintsMatchChanges, FilteredTables, PremintOf, Descending, Unwindable, Unwound, HoldersAt, TokensOf,
      NewestFirst, HoldersMatch, Rebuild, Unwind, OwnershipOk, Rebuilt, UndoKeys;
    var s := ChangesSince(c, threshold);
    var keys := Descending(s);
    assert ChangesSince(d, threshold) == s;
    DescendingIsNewestFirst(s);
    ChangesAreUnwindable(c, d, premints, keys, threshold);
    UnwindTakesOut(d, keys, premints, c.registry);
    UnwoundIsFiltered(c, d, t, keys, threshold);
    var before, holders, affected := Unwound(d, keys, t.alloc), HoldersAt(c.history, keys), TokensOf(keys);
    UnwoundShape(d, keys, t.alloc);
    assert before == t.(owners := c.owners, holdings := c.holdings);
    FirstChangeMadeTheOwner(c, before, keys, threshold);
    assert HoldingsInvertOwners(c.owners, c.holdings) by { OwnershipParts(c); }
    StartIsRebuilt(before, keys);
    KeysHaveTokens(keys);
    var start := before.(owners := before.owners - affected);
    RebuildKeepsGoing(before, start, keys, holders, affected, |keys|);
    HoldersLength(c.history, keys);
    assert keys[..|keys|] == keys && holders[..|keys|] == holders;
    forall token | token !in affected ensures Owned(before.owners, token) == LastOwner(before.history, token) {
      UntouchedKeepOwner(c, t, keys, threshold, token);
    }
    var end := Rebuild(start, keys, holders);
    RebuiltIsLatest(before, end, affected);
    OwnershipParts(t);
    OwnershipIsDetermined(t.history, end.owners, end.holdings, t.owners, t.holdings);
    RebuiltShape(before, end, affected);
  }

  lemma UnwoundShape(d: Core, keys: seq<ChangeKey>, a: TokenIds.Alloc)
    ensures var u := Unwound(d, keys, a); u == d.(history := u.history, changes := u.changes, mints := u.mints, alloc := a)
  {
  }

  lemma OwnershipParts(c: Core)
    requires OwnershipOk(c.changes, c.history, c.owners, c.holdings)
    ensures OwnersAreLatest(c.history, c.owners) && HoldingsInvertOwners(c.owners, c.holdings)
  {
  }

  lemma KeysHaveTokens(keys: seq<ChangeKey>)
    ensures forall k :: k in keys ==> k.token in TokensOf(keys)
  {
  }

  lemma HoldersLength(history: map<HistoryKey, Script>, keys: seq<ChangeKey>)
    ensures |HoldersAt(history, keys)| == |keys|
  {
  }

  lemma RebuiltShape(before: Core, d: Core, affected: set<TokenKey>)
    requires Rebuilt(before, d, affected, affected)
    ensures d == before.(owners := d.owners, holdings := d.holdings)
  {
  }

  // ---------------------------------------------------------------- the theorem

  lemma PartsOfGood(c: Core, bound: nat)
    requires Good(c, bound)
    ensures OwnershipOk(c.changes, c.history, c.owners, c.holdings) && MintsMatchChanges(c.mints, c.changes)
    ensures OpsOk(c.ops, c.opScores) && SendsOk(c.ops, c.opScores) && RegistryOk(c.registry, c.deployments)
    ensures c.listingsByTick == c.listings.Keys
  {
    hide OwnershipOk, MintsMatchChanges, OwnedAreMinted, RegistryOk, SupplyOk, PremintsDone, OpsOk, SendsOk, Backed, Bounded;
  }

  /** For every valid history and every threshold: the rollback does not panic, and the
      thirteen tables it restores are those of replaying the operations below the
      threshold.  The residue only has to know the discounts in force. */
  lemma RollbackIsReplay(h: seq<ContextOp>, r: Residue, threshold: nat)
    requires ValidHistory(h) && VipOk(Run(h).vip, r.discounts)
    ensures RemoveAbove(Run(h), r, threshold).Some?
    ensures RemoveAbove(Run(h), r, threshold).value.core == Run(Below(h, threshold))
  {
    hide ValidHistory, Good, LogsExactly, OwnershipOk, MintsMatchChanges, OpsOk, SendsOk, RegistryOk, VipOk, FilteredTables, FilteredLog,
      Kept, HalfWay, PremintOf, RemoveOps, Removable, RemoveDeployments, RemoveDiscounts, RemoveListings, ReconstructOwnership, UndoKeys,
      Ascending, Descending, Scores, NewestFirst, Run;
    var p := Below(h, threshold);
    var c, t := Run(h), Run(p);
    BelowIsFilter(h, threshold);
    RunIsGood(h);
    RunIsGood(p);
    PartsOfGood(c, NextScore(h));
    PartsOfGood(t, NextScore(p));
    RunIsFiltered(h, threshold);
    KeptIsInForce(h, threshold);
    ReachesHalfWay(c, r, t, threshold);
    MintsOfGood(c, NextScore(h));
    var keys := Descending(ChangesSince(c, threshold));
    DescendingIsNewestFirst(ChangesSince(c, threshold));
    UndoReachesThreshold(h, threshold, keys);
    var (d, premints) := BeforeOwnership(c, r, threshold);
    OwnershipIsReplayed(c, d, t, premints, threshold);
  }
}
