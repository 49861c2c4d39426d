/** A rollback to a threshold leaves the ledger as if only the operations below the
    threshold had ever been processed. */
module Reorg {
  import opened Model
  import opened Ledger
  import opened Invariants
  import opened Rollback
  import opened MarketReorg
  import opened Counters

  // ---------------------------------------------------------------- removing the operations

  function WithoutTx(opScores: map<TxId, nat>, scores: seq<nat>): map<TxId, nat> {
    map x | x in opScores && opScores[x] !in scores :: opScores[x]
  }

  /** The ledger `c` after the operations at `scores` were removed. */
  function Removal(c: Core, threshold: nat, scores: seq<nat>): Core {
    var restored := Restored(c.ops, c.opScores, threshold, scores);
    c.(ops := Without(c.ops, scores),
       opScores := WithoutTx(c.opScores, scores),
       listings := c.listings + restored,
       listingsByTick := c.listingsByTick + restored.Keys)
  }

  /** The seller index after the Sends at `scores` put their listings back. */
  function Reindexed(c: Core, index: map<HoldingKey, nat>, threshold: nat, scores: seq<nat>): map<HoldingKey, nat> {
    if scores == [] then index
    else
      var n := |scores| - 1;
      var before := Reindexed(c, index, threshold, scores[..n]);
      match Consumed(c.ops, c.opScores, threshold, scores[n])
      case None => before
      case Some((token, v)) => before[HoldingKey(v.seller, token) := v.score]
  }

  lemma WithoutTxOneMore(ops: map<nat, CheckedOp>, opScores: map<TxId, nat>, scores: seq<nat>)
    requires OpsOk(ops, opScores) && scores != [] && Removable(ops, scores)
    ensures WithoutTx(opScores, scores)
              == WithoutTx(opScores, scores[..|scores| - 1]) - {ops[scores[|scores| - 1]].op.common.txId}
  {
    var n := |scores| - 1;
    assert forall s :: s in scores <==> s in scores[..n] || s == scores[n];
  }

  /** The first entries of an ascending scan are all that are no larger. */
  lemma ScannedSoFar(ops: map<nat, CheckedOp>, threshold: nat, scores: seq<nat>, n: nat, l: nat)
    requires scores == Ascending(Scores(ops, threshold)) && n < |scores| && l in ops && l < scores[n]
    ensures l in scores[..n + 1] <==> l >= threshold
  {
    AllLogged(ops, threshold);
    if l >= threshold {
      assert l in Scores(ops, threshold);
      assert l in scores;
      var j :| 0 <= j < |scores| && scores[j] == l;
      assert scores[..n + 1][j] == l;
    } else {
      assert forall j :: 0 <= j < n + 1 ==> scores[..n + 1][j] == scores[j];
    }
  }

  /** Within the ascending scan, the List a Send names is still logged exactly when it
      is older than the threshold. */
  lemma ListIsLeft(c: Core, threshold: nat, scores: seq<nat>, n: nat)
    requires OpsOk(c.ops, c.opScores) && SendsOk(c.ops, c.opScores)
    requires scores == Ascending(Scores(c.ops, threshold)) && n < |scores|
    requires scores[n] in c.ops && IsSale(c.ops[scores[n]])
    ensures var x := c.ops[scores[n]].op.info.send.listingTxId;
            && x in c.opScores
            && (x in WithoutTx(c.opScores, scores[..n + 1]) <==> c.opScores[x] < threshold)
            && (c.opScores[x] < threshold ==> c.opScores[x] in Without(c.ops, scores[..n + 1]))
            && ListedAt(c.ops, SentToken(c.ops[scores[n]]), c.opScores[x])
  {
    hide Ascending, Scores;
    ScannedSoFar(c.ops, threshold, scores, n, c.opScores[c.ops[scores[n]].op.info.send.listingTxId]);
  }

  /** One pass of the loop puts back exactly what `RestoreOne` says. */
  lemma RestoreIsRestoreOne(c: Core, r: Residue, threshold: nat, scores: seq<nat>, n: nat, u: Undone, o: CheckedOp)
    requires OpsOk(c.ops, c.opScores) && SendsOk(c.ops, c.opScores)
    requires scores == Ascending(Scores(c.ops, threshold)) && n < |scores| && scores[n] in c.ops
    requires o == c.ops[scores[n]] && IsSale(o)
    requires var m := Restored(c.ops, c.opScores, threshold, scores[..n]);
             u.core == Removal(c, threshold, scores[..n + 1]).(listings := c.listings + m, listingsByTick := c.listingsByTick + m.Keys)
    requires u.residue == r.(sellerIndex := Reindexed(c, r.sellerIndex, threshold, scores[..n]))
    ensures var v := Restore(u, o.op);
            && v.core == Removal(c, threshold, scores[..n + 1])
            && v.residue == r.(sellerIndex := Reindexed(c, r.sellerIndex, threshold, scores[..n + 1])) && v.diff == u.diff
  {
    hide Ascending, Scores, Without, WithoutTx, OpsOk, SendsOk;
    ListIsLeft(c, threshold, scores, n);
    var x := o.op.info.send.listingTxId;
    var l := c.opScores[x];
    assert scores[..n + 1][..n] == scores[..n];
    WithoutAgrees(c, scores[..n + 1]);
    assert c.ops[l].op.common.txId == x by { LogInverse(c, x); }
    var m := Restored(c.ops, c.opScores, threshold, scores[..n]);
    if l < threshold {
      PutInto(c.listings, c.listingsByTick, m, SentToken(o), ListingOf(l, c.ops[l].op.common, c.ops[l].op.info.list));
    }
  }

  lemma PutInto(listings: map<TokenKey, Listing>, listingsByTick: set<TokenKey>, m: map<TokenKey, Listing>, token: TokenKey, v: Listing)
    ensures (listings + m)[token := v] == listings + m[token := v]
    ensures listingsByTick + m.Keys + {token} == listingsByTick + m[token := v].Keys
  {
  }

  lemma LogInverse(c: Core, x: TxId)
    requires OpsOk(c.ops, c.opScores) && x in c.opScores
    ensures c.opScores[x] in c.ops && c.ops[c.opScores[x]].op.common.txId == x
  {
  }

  lemma WithoutAgrees(c: Core, scores: seq<nat>)
    ensures forall s :: s in Without(c.ops, scores) ==> s in c.ops && Without(c.ops, scores)[s] == c.ops[s]
    ensures forall x :: x in WithoutTx(c.opScores, scores) ==> x in c.opScores && WithoutTx(c.opScores, scores)[x] == c.opScores[x]
  {
  }

  lemma LogStep(c: Core, threshold: nat, scores: seq<nat>, n: nat)
    requires OpsOk(c.ops, c.opScores) && scores == Ascending(Scores(c.ops, threshold)) && n < |scores|
    ensures scores[n] in c.ops && scores[..n + 1][..n] == scores[..n]
    ensures Without(c.ops, scores[..n + 1]) == Without(c.ops, scores[..n]) - {scores[n]}
    ensures WithoutTx(c.opScores, scores[..n + 1]) == WithoutTx(c.opScores, scores[..n]) - {c.ops[scores[n]].op.common.txId}
  {
    hide Ascending, Scores, OpsOk, Without, WithoutTx;
    AllLogged(c.ops, threshold);
    PrefixRemovable(c.ops, threshold, n + 1);
    assert scores[..n + 1][..n] == scores[..n];
    WithoutOneMore(c.ops, scores[..n + 1]);
    WithoutTxOneMore(c.ops, c.opScores, scores[..n + 1]);
  }

  lemma NothingPutBack(c: Core, index: map<HoldingKey, nat>, threshold: nat, scores: seq<nat>, s: nat)
    requires s in c.ops && !IsSale(c.ops[s])
    ensures Restored(c.ops, c.opScores, threshold, scores + [s]) == Restored(c.ops, c.opScores, threshold, scores)
    ensures Reindexed(c, index, threshold, scores + [s]) == Reindexed(c, index, threshold, scores)
  {
    assert (scores + [s])[..|scores|] == scores;
  }

  lemma RemoveOpStep(c: Core, r: Residue, threshold: nat, scores: seq<nat>, n: nat, u: Undone)
    requires OpsOk(c.ops, c.opScores) && SendsOk(c.ops, c.opScores)
    requires scores == Ascending(Scores(c.ops, threshold)) && n < |scores|
    requires u.core == Removal(c, threshold, scores[..n]) && scores[n] in u.core.ops
    requires u.residue == r.(sellerIndex := Reindexed(c, r.sellerIndex, threshold, scores[..n]))
    ensures RemoveOp(u, scores[n]).core == Removal(c, threshold, scores[..n + 1])
    ensures RemoveOp(u, scores[n]).residue == r.(sellerIndex := Reindexed(c, r.sellerIndex, threshold, scores[..n + 1]))
  {
    hide Ascending, Scores, OpsOk, SendsOk, Restore, Plus, Removed, Without, WithoutTx, Restored, Reindexed;
    LogStep(c, threshold, scores, n);
    WithoutAgrees(c, scores[..n]);
    var o := c.ops[scores[n]];
    var v := u.(core := u.core.(ops := u.core.ops - {scores[n]}, opScores := u.core.opScores - {o.op.common.txId}));
    if IsSale(o) {
      RestoreIsRestoreOne(c, r, threshold, scores, n, v, o);
    } else {
      NothingPutBack(c, r.sellerIndex, threshold, scores[..n], scores[n]);
      assert scores[..n + 1] == scores[..n] + [scores[n]];
    }
  }

  lemma PrefixRemovable(ops: map<nat, CheckedOp>, threshold: nat, n: nat)
    requires n <= |Ascending(Scores(ops, threshold))|
    ensures Removable(ops, Ascending(Scores(ops, threshold))[..n])
  {
    AllLogged(ops, threshold);
  }

  lemma {:induction false} RemoveOpsIsRemoval(c: Core, r: Residue, threshold: nat, n: nat)
    requires OpsOk(c.ops, c.opScores) && SendsOk(c.ops, c.opScores)
    requires n <= |Ascending(Scores(c.ops, threshold))|
    ensures var scores := Ascending(Scores(c.ops, threshold))[..n];
            && Removable(c.ops, scores)
            && RemoveOps(Undone(c, r, ZERO), scores).core == Removal(c, threshold, scores)
            && RemoveOps(Undone(c, r, ZERO), scores).residue == r.(sellerIndex := Reindexed(c, r.sellerIndex, threshold, scores))
  {
    hide Ascending, OpsOk, SendsOk, RemoveOp, Removal, Removable, Without;
    var scores := Ascending(Scores(c.ops, threshold));
    PrefixRemovable(c.ops, threshold, n);
    if n == 0 {
      assert scores[..0] == [];
      RemovalOfNone(c, threshold);
    } else {
      RemoveOpsIsRemoval(c, r, threshold, n - 1);
      assert scores[..n][..n - 1] == scores[..n - 1];
      LastIsLeft(c.ops, scores[..n]);
      RemoveOpStep(c, r, threshold, scores, n - 1, RemoveOps(Undone(c, r, ZERO), scores[..n - 1]));
    }
  }

  lemma RemovalOfNone(c: Core, threshold: nat)
    ensures Removal(c, threshold, []) == c
  {
    assert Without(c.ops, []) == c.ops;
    assert WithoutTx(c.opScores, []) == c.opScores;
    assert c.listings + map[] == c.listings;
  }
}
