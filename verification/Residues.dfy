/** The two indexes a rollback does not restore: the discount log and the seller
    index.  What still holds of them, and exactly when the seller index is exact. */
module Residues {
  import opened Model
  import opened Ledger
  import opened Invariants
  import opened Steps
  import opened Filtering
  import opened Rollback
  import opened MarketReorg
  import opened Reorg
  import opened ReorgIsReplay

  /** Every listing has its seller-index row. */
  ghost predicate SellersIndexed(listings: map<TokenKey, Listing>, index: map<HoldingKey, nat>) {
    forall t :: t in listings ==>
      HoldingKey(listings[t].seller, t) in index && index[HoldingKey(listings[t].seller, t)] == listings[t].score
  }

  /** There is a row for every listing and no other row. */
  ghost predicate SellersExact(listings: map<TokenKey, Listing>, index: map<HoldingKey, nat>) {
    && SellersIndexed(listings, index)
    && forall k :: k in index ==> k.token in listings && listings[k.token].seller == k.spk
  }

  ghost predicate ResidueOk(c: Core, r: Residue) {
    VipOk(c.vip, r.discounts) && SellersIndexed(c.listings, r.sellerIndex)
  }

  // ---------------------------------------------------------------- forwards

  lemma DiscountLogKeeps(vip: set<VipKey>, discounts: map<DiscountKey, u64>, k: VipKey)
    requires VipOk(vip, discounts) && forall l :: l in vip ==> l.score < k.score
    ensures VipOk(vip + {k}, discounts[DiscountKey(k.score, k.tick, k.spk) := k.fee])
  {
  }

  /** What an accepted operation does to the discounts in force. */
  lemma EffectOnVip(c: Core, x: ContextOp)
    requires RegistryOk(c.registry, c.deployments)
    ensures var e := EffectOf(c, x);
            e.Effect? ==>
              e.core.vip == if e.error.None? && x.op.info.DiscountOp?
                            then c.vip + {VipKey(x.op.info.discount.to, x.op.common.tick, x.score, x.op.info.discount.fee)}
                            else c.vip
  {
    hide Mint, Deploy, Transfer, Discount, List, Send, RegistryOk;
    match x.op.info
    case DeployOp(d) => DeployKeepsVip(c, x.score, x.op.common, d);
    case MintOp(m) => MintShape(c, x.entropy, x.score, x.op.common, m, false);
    case TransferOp(i) => TransferKeepsVip(c, x.score, x.op.common, i);
    case DiscountOp(i) => DiscountAddsVip(c, x.score, x.op.common, i);
    case ListOp(i) => ListKeepsVip(c, x.score, x.op.common, i);
    case SendOp(i) => SendKeepsVip(c, x.score, x.op.common, i);
  }

  lemma {:induction false} PremintsKeepVip(c: Core, score: nat, common: Common, d: DeployInfo, n: nat)
    ensures var r := Premints(c, score, common, d, n); r.Applied? ==> r.core.vip == c.vip
  {
    hide Mint;
    if n > 0 {
      PremintsKeepVip(c, score, common, d, n - 1);
      var before := Premints(c, score, common, d, n - 1);
      if before.Applied? {
        MintShape(before.core, 0, score, common, MintInfo(0, d.deployer, None), true);
      }
    }
  }

  lemma DeployKeepsVip(c: Core, score: nat, common: Common, d: DeployInfo)
    ensures var r := Deploy(c, score, common, d); r.Applied? ==> r.core.vip == c.vip
  {
    hide Premints;
    PremintsKeepVip(Register(c, score, common, d), score, common, d, d.premint);
  }

  lemma TransferKeepsVip(c: Core, score: nat, common: Common, i: TransferInfo)
    ensures Transfer(c, score, common, i).core.vip == c.vip
  {
  }

  lemma ListKeepsVip(c: Core, score: nat, common: Common, i: ListInfo)
    ensures List(c, score, common, i).core.vip == c.vip
  {
  }

  lemma SendKeepsVip(c: Core, score: nat, common: Common, i: SendInfo)
    ensures Send(c, score, common, i).core.vip == c.vip
  {
  }

  lemma DiscountAddsVip(c: Core, score: u64, common: Common, i: DiscountInfo)
    ensures var r := Discount(c, score, common, i);
            r.core.vip == if r.error.None? then c.vip + {VipKey(i.to, common.tick, score, i.fee)} else c.vip
  {
  }

  lemma ApplyKeepsVip(c: Core, d: Core, x: ContextOp, r: Residue)
    requires OneStep(c, d, x) && VipOk(c.vip, r.discounts)
    ensures VipOk(d.vip, ApplyResidue(r, c, x, Apply(c, x).logged.error).discounts)
  {
    hide Good, AddsOnly, EffectOf, VipOk;
    RegistryOfGood(c, x.score);
    EffectOnVip(c, x);
    var error := Apply(c, x).logged.error;
    if error.None? && x.op.info.DiscountOp? {
      VipBounded(c, x.score);
      DiscountLogKeeps(c.vip, r.discounts, VipKey(x.op.info.discount.to, x.op.common.tick, x.score, x.op.info.discount.fee));
    }
  }

  lemma VipBounded(c: Core, bound: nat)
    requires Good(c, bound)
    ensures forall k :: k in c.vip ==> k.score < bound
  {
    hide TablesOk, SupplyOk, PremintsDone;
  }

  lemma ListedIndexKeeps(listings: map<TokenKey, Listing>, index: map<HoldingKey, nat>, token: TokenKey, v: Listing)
    requires token !in listings
    ensures SellersIndexed(listings, index) ==>
              SellersIndexed(listings[token := v], index[HoldingKey(v.seller, token) := v.score])
    ensures SellersExact(listings, index) ==>
              SellersExact(listings[token := v], index[HoldingKey(v.seller, token) := v.score])
  {
  }

  lemma SoldIndexKeeps(listings: map<TokenKey, Listing>, index: map<HoldingKey, nat>, token: TokenKey)
    requires token in listings
    ensures SellersIndexed(listings, index) ==>
              SellersIndexed(listings - {token}, index - {HoldingKey(listings[token].seller, token)})
    ensures SellersExact(listings, index) ==>
              SellersExact(listings - {token}, index - {HoldingKey(listings[token].seller, token)})
  {
  }

  /** Without reorganisations the seller index stays exact. */
  lemma ApplyKeepsSellers(c: Core, d: Core, x: ContextOp, r: Residue)
    requires OneStep(c, d, x)
    ensures var index := ApplyResidue(r, c, x, Apply(c, x).logged.error).sellerIndex;
            && (SellersIndexed(c.listings, r.sellerIndex) ==> SellersIndexed(d.listings, index))
            && (SellersExact(c.listings, r.sellerIndex) ==> SellersExact(d.listings, index))
  {
    hide Good, AddsOnly, Apply, SellersIndexed, SellersExact;
    StepIsMarketStep(c, d, x);
    if Apply(c, x).logged.error.None? {
      match x.op.info
      case ListOp(i) =>
        ListedIndexKeeps(c.listings, r.sellerIndex, TokenKey(x.op.common.tick, i.tokenId), ListingOf(x.score, x.op.common, i));
      case SendOp(i) =>
        SoldIndexKeeps(c.listings, r.sellerIndex, TokenKey(x.op.common.tick, i.tokenId));
      case _ =>
    }
  }

  // ---------------------------------------------------------------- across a rollback

  lemma IndexOne(m: map<TokenKey, Listing>, index: map<HoldingKey, nat>, token: TokenKey, v: Listing)
    requires SellersIndexed(m, index)
    ensures SellersIndexed(m[token := v], index[HoldingKey(v.seller, token) := v.score])
  {
  }

  /** The loop that puts listings back indexes them as it goes. */
  lemma {:induction false} LoopIndexes(c: Core, index: map<HoldingKey, nat>, threshold: nat, scores: seq<nat>)
    requires SellersIndexed(c.listings, index)
    ensures SellersIndexed(c.listings + Restored(c.ops, c.opScores, threshold, scores), Reindexed(c, index, threshold, scores))
  {
    hide SellersIndexed, Consumed;
    if scores == [] {
      assert c.listings + map[] == c.listings;
    } else {
      var n := |scores| - 1;
      LoopIndexes(c, index, threshold, scores[..n]);
      var m := Restored(c.ops, c.opScores, threshold, scores[..n]);
      match Consumed(c.ops, c.opScores, threshold, scores[n])
      case None =>
      case Some((token, v)) =>
        IndexOne(c.listings + m, Reindexed(c, index, threshold, scores[..n]), token, v);
        PutInto(c.listings, {}, m, token, v);
    }
  }

  lemma DroppedIndexKeeps(listings: map<TokenKey, Listing>, index: map<HoldingKey, nat>, gone: set<TokenKey>)
    requires SellersIndexed(listings, index)
    ensures SellersIndexed(listings - gone, index - SellerKeys(listings, gone))
  {
  }

  /** The seller index after a rollback. */
  lemma IndexAfterRollback(h: seq<ContextOp>, r: Residue, threshold: nat)
    requires ValidHistory(h) && VipOk(Run(h).vip, r.discounts)
    ensures RemoveAbove(Run(h), r, threshold).Some?
    ensures var c := Run(h);
            var scores := Ascending(Scores(c.ops, threshold));
            var put := c.listings + Restored(c.ops, c.opScores, threshold, scores);
            RemoveAbove(c, r, threshold).value.residue
              == r.(sellerIndex := Reindexed(c, r.sellerIndex, threshold, scores) - SellerKeys(put, ListedSince(put, threshold)))
  {
    hide ValidHistory, Good, LogsExactly, VipOk, Run, OpsOk, SendsOk, RegistryOk, OwnershipOk, MintsMatchChanges, Ascending, Scores,
      RemoveOps, Removable, Reindexed, Restored, ReconstructOwnership;
    var c := Run(h);
    RollbackIsReplay(h, r, threshold);
    RunIsGood(h);
    PartsOfGood(c, NextScore(h));
    var scores := Ascending(Scores(c.ops, threshold));
    assert scores[..|scores|] == scores;
    RemoveOpsIsRemoval(c, r, threshold, |scores|);
  }

  /** Across any rollback every listing keeps its seller-index row, and every discount
      in force keeps its log row. */
  lemma RollbackKeepsResidue(h: seq<ContextOp>, r: Residue, threshold: nat)
    requires ValidHistory(h) && ResidueOk(Run(h), r)
    ensures RemoveAbove(Run(h), r, threshold).Some?
    ensures var u := RemoveAbove(Run(h), r, threshold).value; ResidueOk(u.core, u.residue)
  {
    hide ValidHistory, SellersIndexed, RemoveAbove, Run, Ascending, Scores, Kept, Good, LogsExactly, OwnershipOk, MintsMatchChanges,
      OpsOk, SendsOk, RegistryOk, FilteredTables, FilteredLog;
    var c := Run(h);
    var scores := Ascending(Scores(c.ops, threshold));
    RollbackIsReplay(h, r, threshold);
    IndexAfterRollback(h, r, threshold);
    LoopIndexes(c, r.sellerIndex, threshold, scores);
    var put := c.listings + Restored(c.ops, c.opScores, threshold, scores);
    DroppedIndexKeeps(put, Reindexed(c, r.sellerIndex, threshold, scores), ListedSince(put, threshold));
    RunIsGood(h);
    PartsOfGood(c, NextScore(h));
    ListingsAreKept(c, threshold, Removal(c, threshold, scores));
    KeptIsInForce(h, threshold);
    RunIsFiltered(h, threshold);
    FilteredVips(c, Run(Below(h, threshold)), threshold, r.discounts);
  }

  lemma FilteredVips(c: Core, t: Core, threshold: nat, discounts: map<DiscountKey, u64>)
    requires FilteredTables(c, t, threshold) && VipOk(c.vip, discounts)
    ensures VipOk(t.vip, discounts)
  {
  }

  // ---------------------------------------------------------------- when the seller index is exact

  lemma ConsumedGrows(c: Core, d: Core, x: ContextOp, threshold: nat, s: nat)
    requires OneStep(c, d, x) && s in c.ops
    ensures Consumed(d.ops, d.opScores, threshold, s) == Consumed(c.ops, c.opScores, threshold, s)
  {
    hide Good, AddsOnly, Apply, ListingsOk;
    TablesOfGood(c, x.score);
  }

  /** A listing put back is the one in force at the threshold. */
  lemma {:induction false} PutBackIsInForce(h: seq<ContextOp>, threshold: nat, s: nat)
    requires ValidHistory(h) && s in Scores(Run(h).ops, threshold)
    ensures match Consumed(Run(h).ops, Run(h).opScores, threshold, s)
            case None => true
            case Some((t, v)) => t in Run(Below(h, threshold)).listings && Run(Below(h, threshold)).listings[t] == v
    decreases |h|
  {
    hide ValidHistory, OneStep, Good, LogsExactly, Consumed, Bounded, TablesOk;
    RunIsGood(h);
    BoundedOfGood(Run(h), NextScore(h));
    BoundedOps(Run(h), NextScore(h));
    if h != [] && h[|h| - 1].score >= threshold {
      var c, d, x := Run(h[..|h| - 1]), Run(h), h[|h| - 1];
      PrefixIsValid(h);
      RunStep(h);
      StepLog(c, d, x);
      if s in c.ops {
        ConsumedGrows(c, d, x, threshold, s);
        PutBackIsInForce(h[..|h| - 1], threshold, s);
      } else {
        LastPutsBack(h[..|h| - 1], c, d, x, threshold);
      }
    }
  }

  lemma StepLog(c: Core, d: Core, x: ContextOp)
    requires OneStep(c, d, x)
    ensures forall s :: s in d.ops <==> s in c.ops || s == x.score
  {
    hide Good, AddsOnly, Apply;
  }

  lemma LastPutsBack(prefix: seq<ContextOp>, c: Core, d: Core, x: ContextOp, threshold: nat)
    requires ValidHistory(prefix) && c == Run(prefix) && OneStep(c, d, x)
    ensures match Consumed(d.ops, d.opScores, threshold, x.score)
            case None => true
            case Some((t, v)) => t in Run(Below(prefix, threshold)).listings && Run(Below(prefix, threshold)).listings[t] == v
  {
    hide ValidHistory, Good, AddsOnly, Apply, Run, Below;
    StepIsMarketStep(c, d, x);
    if Apply(c, x).logged.error.None? && x.op.info.SendOp? {
      var token := TokenKey(x.op.common.tick, x.op.info.send.tokenId);
      BackedBefore(c, d, x, token);
      if c.listings[token].score < threshold {
        StandingWasInForce(prefix, threshold, token);
      }
    }
  }

  /** A row of the seller index after the loop was there before it, or belongs to a listing put back. */
  lemma {:induction false} LoopAddsOnly(c: Core, index: map<HoldingKey, nat>, threshold: nat, scores: seq<nat>, k: HoldingKey)
    requires k in Reindexed(c, index, threshold, scores)
    ensures k in index ||
            exists i :: 0 <= i < |scores| && PutBackBy(c, threshold, scores[i], k)
  {
    if scores != [] {
      var n := |scores| - 1;
      if PutBackBy(c, threshold, scores[n], k) {
      } else {
        LoopAddsOnly(c, index, threshold, scores[..n], k);
        if k !in index {
          var i :| 0 <= i < |scores[..n]| && PutBackBy(c, threshold, scores[..n][i], k);
          assert PutBackBy(c, threshold, scores[i], k);
        }
      }
    }
  }

  predicate PutBackBy(c: Core, threshold: nat, s: nat, k: HoldingKey) {
    match Consumed(c.ops, c.opScores, threshold, s)
    case None => false
    case Some((token, v)) => k == HoldingKey(v.seller, token)
  }

  lemma {:induction false} LoopKeepsRows(c: Core, index: map<HoldingKey, nat>, threshold: nat, scores: seq<nat>)
    ensures forall k :: k in index ==> k in Reindexed(c, index, threshold, scores)
  {
    if scores != [] {
      LoopKeepsRows(c, index, threshold, scores[..|scores| - 1]);
    }
  }

  /** The listings a rollback puts back. */
  function PutBack(c: Core, threshold: nat): map<TokenKey, Listing> {
    Restored(c.ops, c.opScores, threshold, Ascending(Scores(c.ops, threshold)))
  }

  /** No token is listed by another seller than the one whose listing comes back. */
  ghost predicate SameSellers(c: Core, threshold: nat) {
    forall t :: t in c.listings && t in PutBack(c, threshold) ==> c.listings[t].seller == PutBack(c, threshold)[t].seller
  }

  /** The set algebra of the two directions below. */
  lemma ExactAfterDrop(listings: map<TokenKey, Listing>, m: map<TokenKey, Listing>, index: map<HoldingKey, nat>,
                       looped: map<HoldingKey, nat>, threshold: nat)
    requires SellersExact(listings, index) && AllOlder(m, threshold)
    requires forall k :: k in index ==> k in looped
    requires forall k :: k in looped ==> k in index || (k.token in listings + m - ListedSince(listings + m, threshold)
                                                        && (listings + m)[k.token].seller == k.spk)
    requires SellersIndexed(listings + m - ListedSince(listings + m, threshold),
                            looped - SellerKeys(listings + m, ListedSince(listings + m, threshold)))
    ensures SellersExact(listings + m - ListedSince(listings + m, threshold),
                         looped - SellerKeys(listings + m, ListedSince(listings + m, threshold)))
            <==> forall t :: t in listings && t in m ==> listings[t].seller == m[t].seller
  {
    var put := listings + m;
    var gone := ListedSince(put, threshold);
    var left, rows := put - gone, looped - SellerKeys(put, gone);
    if SellersExact(left, rows) {
      forall t | t in listings && t in m ensures listings[t].seller == m[t].seller {
        var k := HoldingKey(listings[t].seller, t);
        assert k in rows;
      }
    }
    if forall t :: t in listings && t in m ==> listings[t].seller == m[t].seller {
      forall k | k in rows ensures k.token in left && left[k.token].seller == k.spk {
        assert k == HoldingKey(k.spk, k.token);
      }
    }
  }

  /** A rollback keeps the seller index exact if and only if no token whose sale it
      undoes is at present listed by somebody other than the seller it goes back to. */
  lemma SellerIndexExactIff(h: seq<ContextOp>, r: Residue, threshold: nat)
    requires ValidHistory(h) && VipOk(Run(h).vip, r.discounts) && SellersExact(Run(h).listings, r.sellerIndex)
    ensures RemoveAbove(Run(h), r, threshold).Some?
    ensures var u := RemoveAbove(Run(h), r, threshold).value;
            SellersExact(u.core.listings, u.residue.sellerIndex) <==> SameSellers(Run(h), threshold)
  {
    hide ValidHistory, SellersIndexed, RemoveAbove, Run, Ascending, Scores, Kept, Good, LogsExactly, OwnershipOk, MintsMatchChanges,
      OpsOk, SendsOk, RegistryOk, FilteredTables, FilteredLog, VipOk, Reindexed, Restored, PutBackBy, AllOlder;
    var c := Run(h);
    var scores := Ascending(Scores(c.ops, threshold));
    RollbackIsReplay(h, r, threshold);
    IndexAfterRollback(h, r, threshold);
    LoopIndexes(c, r.sellerIndex, threshold, scores);
    LoopKeepsRows(c, r.sellerIndex, threshold, scores);
    RestoredIsOld(c.ops, c.opScores, threshold, scores);
    var m := Restored(c.ops, c.opScores, threshold, scores);
    var looped := Reindexed(c, r.sellerIndex, threshold, scores);
    DroppedIndexKeeps(c.listings + m, looped, ListedSince(c.listings + m, threshold));
    RunIsGood(h);
    PartsOfGood(c, NextScore(h));
    ListingsAreKept(c, threshold, Removal(c, threshold, scores));
    KeptIsInForce(h, threshold);
    forall k | k in looped && k !in r.sellerIndex
      ensures k.token in c.listings + m - ListedSince(c.listings + m, threshold) && (c.listings + m)[k.token].seller == k.spk
    {
      NewRowIsInForce(h, r, threshold, k);
    }
    ExactAfterDrop(c.listings, m, r.sellerIndex, looped, threshold);
  }

  lemma NewRowIsInForce(h: seq<ContextOp>, r: Residue, threshold: nat, k: HoldingKey)
    requires ValidHistory(h) && k !in r.sellerIndex
    requires k in Reindexed(Run(h), r.sellerIndex, threshold, Ascending(Scores(Run(h).ops, threshold)))
    ensures k.token in Run(Below(h, threshold)).listings && Run(Below(h, threshold)).listings[k.token].seller == k.spk
  {
    hide ValidHistory, Run, Reindexed, Scores, Below;
    var c := Run(h);
    var scores := Ascending(Scores(c.ops, threshold));
    LoopAddsOnly(c, r.sellerIndex, threshold, scores, k);
    var i :| 0 <= i < |scores| && PutBackBy(c, threshold, scores[i], k);
    assert scores[i] in scores;
    PutBackIsInForce(h, threshold, scores[i]);
  }
}
