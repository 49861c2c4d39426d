/** The rows of the seller index and of the discount log that no reorganisation took out:
    exactly which ones there are after any run of chain changes. */
module StaleRows {
  import opened Model
  import opened Ledger
  import opened Invariants
  import opened Steps
  import opened Filtering
  import opened Rollback
  import opened MarketReorg
  import opened Reorg
  import opened ReorgIsReplay
  import opened Residues
  import opened Counters
  import opened Score
  import opened Chain
  import opened ChainReplay
  import opened ChainTheorem
  import opened ChainCounters
  import opened ChainIndexes

  /** Rows without a listing, and rows without a discount in force. */
  datatype Stale = Stale(sellers: set<HoldingKey>, discounts: set<DiscountKey>)

  predicate ListedBy(listings: map<TokenKey, Listing>, k: HoldingKey) {
    k.token in listings && listings[k.token].seller == k.spk
  }

  /** The seller index has a row for every listing, the rows of `stale`, and no other row. */
  ghost predicate SellersBut(listings: map<TokenKey, Listing>, index: map<HoldingKey, nat>, stale: set<HoldingKey>) {
    && SellersIndexed(listings, index)
    && (forall k :: k in index <==> ListedBy(listings, k) || k in stale)
    && (forall k :: k in stale ==> !ListedBy(listings, k))
  }

  function VipOf(discounts: map<DiscountKey, u64>, k: DiscountKey): VipKey
    requires k in discounts
  {
    VipKey(k.spk, k.tick, k.score, discounts[k])
  }

  /** The log has a row for every discount in force, the rows of `stale`, and no other row. */
  ghost predicate DiscountsBut(vip: set<VipKey>, discounts: map<DiscountKey, u64>, stale: set<DiscountKey>) {
    && (forall v :: v in vip ==> DiscountKey(v.score, v.tick, v.spk) in discounts && discounts[DiscountKey(v.score, v.tick, v.spk)] == v.fee)
    && (forall k :: k in stale ==> k in discounts && VipOf(discounts, k) !in vip)
    && (forall k :: k in discounts && k !in stale ==> VipOf(discounts, k) in vip)
  }

  ghost predicate ExactBut(c: Core, r: Residue, stale: Stale) {
    SellersBut(c.listings, r.sellerIndex, stale.sellers) && DiscountsBut(c.vip, r.discounts, stale.discounts)
  }

  lemma NoneStaleIsExact(c: Core, r: Residue, stale: Stale)
    requires ExactBut(c, r, stale)
    ensures SellersExact(c.listings, r.sellerIndex) <==> stale.sellers == {}
    ensures DiscountLogExact(c.vip, r.discounts) <==> stale.discounts == {}
  {
    if k :| k in stale.sellers {
      assert k in r.sellerIndex && !ListedBy(c.listings, k);
    }
    if k :| k in stale.discounts {
      assert VipOf(r.discounts, k) !in c.vip;
    }
  }

  // ---------------------------------------------------------------- forwards

  function ListedKey(o: CheckedOp): HoldingKey
    requires o.op.info.ListOp?
  {
    HoldingKey(o.op.common.sender, TokenKey(o.op.common.tick, o.op.info.list.tokenId))
  }

  function GrantedKey(s: u64, o: CheckedOp): DiscountKey
    requires o.op.info.DiscountOp?
  {
    DiscountKey(s, o.op.common.tick, o.op.info.discount.to)
  }

  /** A new List of the same token by the same seller, and a new discount at the same
      score, for the same tick and script, write over a stale row. */
  function Renewed(s: u64, o: CheckedOp): Stale {
    if o.error.Some? then Stale({}, {})
    else
      match o.op.info
      case ListOp(_) => Stale({ListedKey(o)}, {})
      case DiscountOp(_) => Stale({}, {GrantedKey(s, o)})
      case _ => Stale({}, {})
  }

  function Minus(a: Stale, b: Stale): Stale {
    Stale(a.sellers - b.sellers, a.discounts - b.discounts)
  }

  function Join(a: Stale, b: Stale): Stale {
    Stale(a.sellers + b.sellers, a.discounts + b.discounts)
  }

  predicate AcceptedSince(before: map<nat, CheckedOp>, after: map<nat, CheckedOp>, s: nat) {
    s in after && s !in before && after[s].error.None?
  }

  /** What the operations logged between two states wrote over. */
  function RenewedSince(before: map<nat, CheckedOp>, after: map<nat, CheckedOp>): Stale {
    Stale(set s | s in after && AcceptedSince(before, after, s) && after[s].op.info.ListOp? :: ListedKey(after[s]),
          set s | s in after && AcceptedSince(before, after, s) && after[s].op.info.DiscountOp? && s <= U64_MAX :: GrantedKey(s, after[s]))
  }

  ghost predicate Grows(a: map<nat, CheckedOp>, b: map<nat, CheckedOp>) {
    forall s :: s in a ==> s in b && b[s] == a[s]
  }

  lemma NothingRenewed(ops: map<nat, CheckedOp>, stale: Stale)
    ensures Grows(ops, ops) && Minus(stale, RenewedSince(ops, ops)) == stale
  {
  }

  lemma RenewedOneMore(before: map<nat, CheckedOp>, ops: map<nat, CheckedOp>, s: u64, o: CheckedOp)
    requires Grows(before, ops) && s !in ops
    ensures Grows(before, ops[s := o]) && RenewedSince(before, ops[s := o]) == Join(RenewedSince(before, ops), Renewed(s, o))
  {
    var was, now := RenewedSince(before, ops), RenewedSince(before, ops[s := o]);
    forall k ensures k in now.sellers <==> k in was.sellers || k in Renewed(s, o).sellers {
      if k in was.sellers {
        var r :| r in ops && AcceptedSince(before, ops, r) && ops[r].op.info.ListOp? && ListedKey(ops[r]) == k;
        assert AcceptedSince(before, ops[s := o], r);
      }
      if k in Renewed(s, o).sellers { assert AcceptedSince(before, ops[s := o], s); }
    }
    forall k ensures k in now.discounts <==> k in was.discounts || k in Renewed(s, o).discounts {
      if k in was.discounts {
        var r :| r in ops && AcceptedSince(before, ops, r) && ops[r].op.info.DiscountOp? && r <= U64_MAX && GrantedKey(r, ops[r]) == k;
        assert AcceptedSince(before, ops[s := o], r);
      }
      if k in Renewed(s, o).discounts { assert AcceptedSince(before, ops[s := o], s); }
    }
  }

  lemma MinusTwice(s: Stale, a: Stale, b: Stale)
    ensures Minus(Minus(s, a), b) == Minus(s, Join(a, b))
  {
  }

  lemma RenewedInTurn(a: map<nat, CheckedOp>, b: map<nat, CheckedOp>, c: map<nat, CheckedOp>)
    requires Grows(a, b) && Grows(b, c)
    ensures Grows(a, c) && RenewedSince(a, c) == Join(RenewedSince(a, b), RenewedSince(b, c))
  {
    var x, y, z := RenewedSince(a, b), RenewedSince(b, c), RenewedSince(a, c);
    forall k ensures k in z.sellers <==> k in x.sellers || k in y.sellers {
      if k in x.sellers {
        var r :| r in b && AcceptedSince(a, b, r) && b[r].op.info.ListOp? && ListedKey(b[r]) == k;
        assert AcceptedSince(a, c, r);
      }
      if k in y.sellers {
        var r :| r in c && AcceptedSince(b, c, r) && c[r].op.info.ListOp? && ListedKey(c[r]) == k;
        assert AcceptedSince(a, c, r);
      }
      if k in z.sellers {
        var r :| r in c && AcceptedSince(a, c, r) && c[r].op.info.ListOp? && ListedKey(c[r]) == k;
        assert AcceptedSince(a, b, r) || AcceptedSince(b, c, r);
      }
    }
    forall k ensures k in z.discounts <==> k in x.discounts || k in y.discounts {
      if k in x.discounts {
        var r :| r in b && AcceptedSince(a, b, r) && b[r].op.info.DiscountOp? && r <= U64_MAX && GrantedKey(r, b[r]) == k;
        assert AcceptedSince(a, c, r);
      }
      if k in y.discounts {
        var r :| r in c && AcceptedSince(b, c, r) && c[r].op.info.DiscountOp? && r <= U64_MAX && GrantedKey(r, c[r]) == k;
        assert AcceptedSince(a, c, r);
      }
      if k in z.discounts {
        var r :| r in c && AcceptedSince(a, c, r) && c[r].op.info.DiscountOp? && r <= U64_MAX && GrantedKey(r, c[r]) == k;
        assert AcceptedSince(a, b, r) || AcceptedSince(b, c, r);
      }
    }
  }

  lemma ListedAnew(listings: map<TokenKey, Listing>, index: map<HoldingKey, nat>, stale: set<HoldingKey>, token: TokenKey, v: Listing)
    requires token !in listings && SellersBut(listings, index, stale)
    ensures var k := HoldingKey(v.seller, token); SellersBut(listings[token := v], index[k := v.score], stale - {k})
  {
  }

  lemma SoldOff(listings: map<TokenKey, Listing>, index: map<HoldingKey, nat>, stale: set<HoldingKey>, token: TokenKey)
    requires token in listings && SellersBut(listings, index, stale)
    ensures SellersBut(listings - {token}, index - {HoldingKey(listings[token].seller, token)}, stale)
  {
  }

  lemma GrantedAnew(vip: set<VipKey>, discounts: map<DiscountKey, u64>, stale: set<DiscountKey>, v: VipKey)
    requires DiscountsBut(vip, discounts, stale) && forall l :: l in vip ==> l.score < v.score
    ensures var k := DiscountKey(v.score, v.tick, v.spk); DiscountsBut(vip + {v}, discounts[k := v.fee], stale - {k})
  {
  }

  lemma StepSellers(c: Core, d: Core, x: ContextOp, r: Residue, stale: Stale)
    requires OneStep(c, d, x) && SellersBut(c.listings, r.sellerIndex, stale.sellers)
    ensures var o := Apply(c, x).logged;
            SellersBut(d.listings, ApplyResidue(r, c, x, o.error).sellerIndex, Minus(stale, Renewed(x.score, o)).sellers)
  {
    hide Good, AddsOnly, Apply, SellersBut;
    StepIsMarketStep(c, d, x);
    RecordedKind(c, x);
    assert stale.sellers - {} == stale.sellers;
    if Apply(c, x).logged.error.None? {
      match x.op.info
      case ListOp(i) =>
        ListedAnew(c.listings, r.sellerIndex, stale.sellers, TokenKey(x.op.common.tick, i.tokenId), ListingOf(x.score, x.op.common, i));
      case SendOp(i) =>
        SoldOff(c.listings, r.sellerIndex, stale.sellers, TokenKey(x.op.common.tick, i.tokenId));
      case _ =>
    }
  }

  lemma RecordedKind(c: Core, x: ContextOp)
    requires Apply(c, x).Stepped?
    ensures var o := Apply(c, x).logged; if x.op.info.MintOp? then o.op.info.MintOp? else o.op == x.op
  {
    hide Mint, Deploy, Transfer, Discount, List, Send;
  }

  lemma StepDiscounts(c: Core, d: Core, x: ContextOp, r: Residue, stale: Stale)
    requires OneStep(c, d, x) && DiscountsBut(c.vip, r.discounts, stale.discounts)
    ensures var o := Apply(c, x).logged;
            DiscountsBut(d.vip, ApplyResidue(r, c, x, o.error).discounts, Minus(stale, Renewed(x.score, o)).discounts)
  {
    hide Good, AddsOnly, EffectOf, DiscountsBut;
    RecordedKind(c, x);
    assert stale.discounts - {} == stale.discounts;
    RegistryOfGood(c, x.score);
    EffectOnVip(c, x);
    if Apply(c, x).logged.error.None? && x.op.info.DiscountOp? {
      VipBounded(c, x.score);
      GrantedAnew(c.vip, r.discounts, stale.discounts, VipKey(x.op.info.discount.to, x.op.common.tick, x.score, x.op.info.discount.fee));
    }
  }

  lemma {:induction false} OpsRenew(h: seq<ContextOp>, r: Residue, xs: seq<ContextOp>, stale: Stale)
    requires ValidHistory(h + xs) && ExactBut(Run(h), r, stale)
    ensures ProcessOps(Processed(Run(h), r, ZERO), xs).Some?
    ensures var p := ProcessOps(Processed(Run(h), r, ZERO), xs).value;
            && p.core == Run(h + xs) && Grows(Run(h).ops, p.core.ops)
            && ExactBut(p.core, p.residue, Minus(stale, RenewedSince(Run(h).ops, p.core.ops)))
    decreases |xs|
  {
    hide ValidHistory, OneStep, Apply, SellersBut, DiscountsBut, Minus, RenewedSince, Renewed, Grows, Join;
    if xs == [] {
      assert h + xs == h;
      NothingRenewed(Run(h).ops, stale);
    } else {
      var n := |xs| - 1;
      assert (h + xs)[..|h + xs| - 1] == h + xs[..n];
      PrefixIsValid(h + xs);
      OpsRenew(h, r, xs[..n], stale);
      var p := ProcessOps(Processed(Run(h), r, ZERO), xs[..n]).value;
      RunStep(h + xs);
      StepApplies(p.core, Run(h + xs), xs[n]);
      StepLogsOne(p.core, Run(h + xs), xs[n]);
      var renewed, o := RenewedSince(Run(h).ops, p.core.ops), Apply(p.core, xs[n]).logged;
      RenewedOneMore(Run(h).ops, p.core.ops, xs[n].score, o);
      MinusTwice(stale, renewed, Renewed(xs[n].score, o));
      StepSellers(p.core, Run(h + xs), xs[n], p.residue, Minus(stale, renewed));
      StepDiscounts(p.core, Run(h + xs), xs[n], p.residue, Minus(stale, renewed));
    }
  }

  lemma StepLogsOne(c: Core, d: Core, x: ContextOp)
    requires OneStep(c, d, x)
    ensures x.score !in c.ops && d.ops == c.ops[x.score := Apply(c, x).logged]
  {
    hide Good, AddsOnly, Apply, TablesOk, Bounded;
    BoundedOfGood(c, x.score);
    BoundedOps(c, x.score);
  }

  lemma AddRenews(db: Db, limit: Limit, last: nat, ms: seq<Mergeset>, m: Mergeset, stale: Stale)
    requires Canonical(db, limit, ms) && ValidChain(limit, ms + [m]) && m.blueScore >= last && ExactBut(db.core, db.residue, stale)
    ensures AddMergeset(db, limit, last, m).Some?
    ensures var after := AddMergeset(db, limit, last, m).value.0;
            Grows(db.core.ops, after.core.ops) && ExactBut(after.core, after.residue, Minus(stale, RenewedSince(db.core.ops, after.core.ops)))
  {
    hide ValidChain, Run, ExactBut, ResidueOk, ProcessOps, Incoming, BlockOps, ValidHistory, Minus, RenewedSince, Grows;
    NewTxIds(limit, ms, m);
    AllIncoming(db.core.opScores, limit, m, |m.ops|);
    assert m.ops[..|m.ops|] == m.ops && BlockOps(limit, m)[..|m.ops|] == BlockOps(limit, m) by { BlockLength(limit, m); }
    OpsRenew(OpsOf(limit, ms), db.residue, BlockOps(limit, m), stale);
    NewKey(limit, ms, m);
  }

  lemma {:induction false} AdditionsRenew(db: Db, limit: Limit, last: nat, ms: seq<Mergeset>, more: seq<Mergeset>, stale: Stale)
    requires Canonical(db, limit, ms) && ValidChain(limit, ms + more) && ExactBut(db.core, db.residue, stale)
    requires forall i :: 0 <= i < |more| ==> more[i].blueScore >= last
    ensures ProcessAdditions(db, limit, last, more).Some?
    ensures var after := ProcessAdditions(db, limit, last, more).value.0;
            Grows(db.core.ops, after.core.ops) && ExactBut(after.core, after.residue, Minus(stale, RenewedSince(db.core.ops, after.core.ops)))
    decreases |more|
  {
    hide ValidChain, Canonical, AddMergeset, ExactBut, Minus, RenewedSince, Grows, Join;
    if more == [] {
      NothingRenewed(db.core.ops, stale);
    } else {
      var n := |more| - 1;
      assert (ms + more)[..|ms| + n] == ms + more[..n];
      PrefixChainIsValid(limit, ms + more, |ms| + n);
      AdditionsRenew(db, limit, last, ms, more[..n], stale);
      AdditionsAreCanonical(db, limit, last, ms, more[..n]);
      assert ms + more == ms + more[..n] + [more[n]];
      var before := ProcessAdditions(db, limit, last, more[..n]).value.0;
      var renewed := RenewedSince(db.core.ops, before.core.ops);
      AddRenews(before, limit, last, ms + more[..n], more[n], Minus(stale, renewed));
      var after := AddMergeset(before, limit, last, more[n]).value.0;
      RenewedInTurn(db.core.ops, before.core.ops, after.core.ops);
      MinusTwice(stale, renewed, RenewedSince(before.core.ops, after.core.ops));
    }
  }

  lemma ExtendRenews(db: Db, limit: Limit, ms: seq<Mergeset>, more: seq<Mergeset>, stale: Stale)
    requires Canonical(db, limit, ms) && ValidChain(limit, ms + NewsFor(ms, more)) && ExactBut(db.core, db.residue, stale)
    ensures Extend(db, limit, more).Some?
    ensures var after := Extend(db, limit, more).value;
            ExactBut(after.core, after.residue, Minus(stale, RenewedSince(db.core.ops, after.core.ops)))
  {
    hide Canonical, ProcessAdditions, ValidChain, BlocksOf, ExactBut, Minus, RenewedSince, Grows;
    if more == [] {
      NothingRenewed(db.core.ops, stale);
    } else {
      assert db.blocks == BlocksOf(ms) by { CanonicalBlocks(db, limit, ms); }
      var last := LastBlueScore(db.blocks);
      OnlyNewsCount(db, limit, last, more);
      NewsAreHigh(db.blocks, last, more);
      AdditionsRenew(db, limit, last, ms, NewsFor(ms, more), stale);
    }
  }

  // ---------------------------------------------------------------- across a rollback

  /** The tokens that are listed by another seller than the one a rollback gives them back to. */
  function Displaced(listings: map<TokenKey, Listing>, back: map<TokenKey, Listing>): set<HoldingKey> {
    set t | t in listings && t in back && listings[t].seller != back[t].seller :: HoldingKey(listings[t].seller, t)
  }

  function SellersOf(listings: map<TokenKey, Listing>): set<HoldingKey> {
    set t | t in listings :: HoldingKey(listings[t].seller, t)
  }

  /** The discounts a rollback takes out of force, which stay in the log. */
  function OutOfForce(vip: set<VipKey>, threshold: nat): set<DiscountKey> {
    set v | v in vip && v.score >= threshold :: DiscountKey(v.score, v.tick, v.spk)
  }

  function RolledBack(c: Core, threshold: nat, stale: Stale): Stale {
    Stale(stale.sellers + Displaced(c.listings, PutBack(c, threshold)) - SellersOf(PutBack(c, threshold)),
          stale.discounts + OutOfForce(c.vip, threshold))
  }

  lemma OneDisplaced(listings: map<TokenKey, Listing>, back: map<TokenKey, Listing>, k: HoldingKey)
    ensures k in Displaced(listings, back) <==> ListedBy(listings, k) && k.token in back && back[k.token].seller != k.spk
    ensures k in SellersOf(back) <==> ListedBy(back, k)
  {
  }

  lemma OneDropped(put: map<TokenKey, Listing>, threshold: nat, k: HoldingKey)
    ensures k in SellerKeys(put, ListedSince(put, threshold)) <==> ListedBy(put, k) && put[k.token].score >= threshold
  {
  }

  /** The set algebra of a rollback: `looped` is the index after the listings of `back` were
      indexed. */
  lemma RowsAfterDrop(listings: map<TokenKey, Listing>, back: map<TokenKey, Listing>, index: map<HoldingKey, nat>,
                      looped: map<HoldingKey, nat>, threshold: nat, stale: set<HoldingKey>)
    requires SellersBut(listings, index, stale) && AllOlder(back, threshold)
    requires var put := listings + back; var gone := ListedSince(put, threshold);
             && (forall k :: k in index ==> k in looped)
             && (forall k :: k in looped ==> k in index || ListedBy(put - gone, k))
             && SellersIndexed(put - gone, looped - SellerKeys(put, gone))
    ensures var put := listings + back; var gone := ListedSince(put, threshold);
            SellersBut(put - gone, looped - SellerKeys(put, gone), stale + Displaced(listings, back) - SellersOf(back))
  {
    hide Displaced, SellersOf, SellerKeys;
    var put := listings + back;
    var gone := ListedSince(put, threshold);
    var left, rows, after := put - gone, looped - SellerKeys(put, gone), stale + Displaced(listings, back) - SellersOf(back);
    forall k ensures (k in rows <==> ListedBy(left, k) || k in after) && (k in after ==> !ListedBy(left, k)) {
      OneDisplaced(listings, back, k);
      OneDropped(put, threshold, k);
      if ListedBy(left, k) {
        assert HoldingKey(left[k.token].seller, k.token) == k;
      }
    }
  }

  lemma RollbackSellers(h: seq<ContextOp>, r: Residue, threshold: nat, stale: Stale)
    requires ValidHistory(h) && VipOk(Run(h).vip, r.discounts) && SellersBut(Run(h).listings, r.sellerIndex, stale.sellers)
    ensures RemoveAbove(Run(h), r, threshold).Some?
    ensures var u := RemoveAbove(Run(h), r, threshold).value;
            SellersBut(u.core.listings, u.residue.sellerIndex, RolledBack(Run(h), threshold, stale).sellers)
  {
    hide ValidHistory, SellersIndexed, RemoveAbove, Run, Ascending, Scores, Kept, Good, LogsExactly, OwnershipOk, MintsMatchChanges,
      OpsOk, SendsOk, RegistryOk, FilteredTables, FilteredLog, VipOk, Reindexed, Restored, PutBackBy, AllOlder, SellersBut, Displaced,
      SellersOf, SellerKeys, ListedSince;
    var c := Run(h);
    var scores := Ascending(Scores(c.ops, threshold));
    RollbackIsReplay(h, r, threshold);
    IndexAfterRollback(h, r, threshold);
    IndexedIn(c.listings, r.sellerIndex, stale.sellers);
    LoopIndexes(c, r.sellerIndex, threshold, scores);
    LoopKeepsRows(c, r.sellerIndex, threshold, scores);
    RestoredIsOld(c.ops, c.opScores, threshold, scores);
    var m, looped := Restored(c.ops, c.opScores, threshold, scores), Reindexed(c, r.sellerIndex, threshold, scores);
    DroppedIndexKeeps(c.listings + m, looped, ListedSince(c.listings + m, threshold));
    RunIsGood(h);
    PartsOfGood(c, NextScore(h));
    ListingsAreKept(c, threshold, Removal(c, threshold, scores));
    KeptIsInForce(h, threshold);
    forall k | k in looped && k !in r.sellerIndex ensures ListedBy(c.listings + m - ListedSince(c.listings + m, threshold), k) {
      NewRowIsInForce(h, r, threshold, k);
    }
    RowsAfterDrop(c.listings, m, r.sellerIndex, looped, threshold, stale.sellers);
  }

  lemma IndexedIn(listings: map<TokenKey, Listing>, index: map<HoldingKey, nat>, stale: set<HoldingKey>)
    requires SellersBut(listings, index, stale)
    ensures SellersIndexed(listings, index)
  {
  }

  lemma DiscountsCut(vip: set<VipKey>, kept: set<VipKey>, discounts: map<DiscountKey, u64>, threshold: nat, stale: set<DiscountKey>)
    requires DiscountsBut(vip, discounts, stale) && forall v :: v in kept <==> v in vip && v.score < threshold
    ensures DiscountsBut(kept, discounts, stale + OutOfForce(vip, threshold))
  {
    forall k | k in OutOfForce(vip, threshold) ensures k in discounts && VipOf(discounts, k) !in kept {
      var v :| v in vip && v.score >= threshold && k == DiscountKey(v.score, v.tick, v.spk);
    }
    forall k | k in discounts && k !in stale && k !in OutOfForce(vip, threshold) ensures VipOf(discounts, k) in kept {
      var v := VipOf(discounts, k);
      assert k == DiscountKey(v.score, v.tick, v.spk);
    }
  }

  /** A rollback adds the displaced rows and the discounts it takes out of force, and gives
      the rows of the listings it puts back their listing again. */
  lemma RollbackLeaves(h: seq<ContextOp>, r: Residue, threshold: nat, stale: Stale)
    requires ValidHistory(h) && ExactBut(Run(h), r, stale)
    ensures RemoveAbove(Run(h), r, threshold).Some?
    ensures var u := RemoveAbove(Run(h), r, threshold).value; ExactBut(u.core, u.residue, RolledBack(Run(h), threshold, stale))
  {
    hide ValidHistory, Run, RemoveAbove, SellersBut, Below, Displaced, SellersOf, PutBack, OutOfForce;
    assert VipOk(Run(h).vip, r.discounts);
    hide DiscountsBut;
    RollbackSellers(h, r, threshold, stale);
    RollbackIsReplay(h, r, threshold);
    IndexAfterRollback(h, r, threshold);
    RunIsFiltered(h, threshold);
    DiscountsCut(Run(h).vip, Run(Below(h, threshold)).vip, r.discounts, threshold, stale.discounts);
  }

  // ---------------------------------------------------------------- whole runs

  function StaleAfterRemoval(db: Db, limit: Limit, change: ChainChange, stale: Stale): Stale {
    var (_, least) := Identify(db.blocks, db.blockScores, change.removed);
    match RollbackScore(least, change.forced)
    case None => stale
    case Some(b) => RolledBack(db.core, Threshold(limit, b), stale)
  }

  /** The rows that are stale after a change. */
  function StaleAfterChange(db: Db, limit: Limit, change: ChainChange, stale: Stale): Stale {
    match Remove(db, limit, change)
    case None => stale
    case Some(removed) =>
      match Extend(removed, limit, change.mergesets)
      case None => stale
      case Some(after) => Minus(StaleAfterRemoval(db, limit, change, stale), RenewedSince(removed.core.ops, after.core.ops))
  }

  /** The rows that are stale after a run of changes. */
  function StaleAfter(limit: Limit, changes: seq<ChainChange>): Stale {
    if changes == [] then Stale({}, {})
    else
      var before := changes[..|changes| - 1];
      match ProcessAll(EMPTY_DB, limit, before)
      case None => Stale({}, {})
      case Some(db) => StaleAfterChange(db, limit, changes[|changes| - 1], StaleAfter(limit, before))
  }

  lemma RemovalLeaves(db: Db, limit: Limit, ms: seq<Mergeset>, change: ChainChange, stale: Stale)
    requires Canonical(db, limit, ms) && (change.forced.Some? ==> Fits(limit, change.forced.value)) && ExactBut(db.core, db.residue, stale)
    ensures Remove(db, limit, change).Some?
    ensures var after := Remove(db, limit, change).value; ExactBut(after.core, after.residue, StaleAfterRemoval(db, limit, change, stale))
  {
    hide ValidChain, Run, RemoveAbove, Fits, ResidueOk, Threshold, Sub, Identify, ExactBut, RolledBack;
    RemoveIsCanonical(db, limit, ms, change);
    if change.removed == [] && change.forced.None? {
      assert Identify(db.blocks, db.blockScores, []).1.None? by { NothingIdentified(db.blocks, db.blockScores); }
    } else {
      ChainIsHistory(limit, ms);
      var (scores, least) := Identify(db.blocks, db.blockScores, change.removed);
      match RollbackScore(least, change.forced)
      case None =>
      case Some(b) =>
        RollbackLeaves(OpsOf(limit, ms), db.residue, Threshold(limit, b), stale);
    }
  }

  /** After any run of changes the seller index holds a row for every listing and the
      discount log a row for every discount in force, and beyond these exactly the stale
      rows: those displaced or taken out of force by a reorganisation and not written
      again or given back since.  Each table is exact if and only if it has none. */
  lemma {:induction false} StaleRowsAreKnown(limit: Limit, changes: seq<ChainChange>)
    requires ValidRun(limit, changes)
    ensures ProcessAll(EMPTY_DB, limit, changes).Some?
    ensures var db, stale := ProcessAll(EMPTY_DB, limit, changes).value, StaleAfter(limit, changes);
            && ExactBut(db.core, db.residue, stale)
            && (SellersExact(db.core.listings, db.residue.sellerIndex) <==> stale.sellers == {})
            && (DiscountLogExact(db.core.vip, db.residue.discounts) <==> stale.discounts == {})
    decreases |changes|
  {
    hide Canonical, ValidChain, Fits, Remove, Extend, ExactBut, Survivors, SellersExact, DiscountLogExact, StaleAfterRemoval, Minus, RenewedSince,
      NewsFor;
    RunIsCanonical(limit, changes);
    if changes == [] {
      NothingStale();
    } else {
      var before, change := changes[..|changes| - 1], changes[|changes| - 1];
      StaleRowsAreKnown(limit, before);
      RunIsCanonical(limit, before);
      ChangeLeaves(ProcessAll(EMPTY_DB, limit, before).value, limit, ChainAfter(before), change, StaleAfter(limit, before));
    }
    var db := ProcessAll(EMPTY_DB, limit, changes).value;
    NoneStaleIsExact(db.core, db.residue, StaleAfter(limit, changes));
  }

  lemma ChangeLeaves(db: Db, limit: Limit, ms: seq<Mergeset>, change: ChainChange, stale: Stale)
    requires Canonical(db, limit, ms) && ValidChange(limit, ms, change) && ExactBut(db.core, db.residue, stale)
    ensures ProcessChange(db, limit, change).Some?
    ensures var after := ProcessChange(db, limit, change).value; ExactBut(after.core, after.residue, StaleAfterChange(db, limit, change, stale))
  {
    hide Canonical, ValidChain, Fits, Remove, Extend, ExactBut, StaleAfterRemoval, Minus, RenewedSince, NewsFor;
    RemoveIsCanonical(db, limit, ms, change);
    RemovalLeaves(db, limit, ms, change, stale);
    ExtendRenews(Remove(db, limit, change).value, limit, CutAt(ms, change.removed, change.forced), change.mergesets,
                 StaleAfterRemoval(db, limit, change, stale));
  }

  lemma NothingStale()
    ensures ExactBut(EMPTY, Residue(map[], map[]), Stale({}, {}))
  {
  }
}
