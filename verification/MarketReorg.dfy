/** Listings across a rollback: the standing listings below the threshold and the
    ones put back by rolled-back Sends are together the listings in force at the
    threshold, for any interleaving of List, Send, cancel and List again. */
module MarketReorg {
  import opened Model
  import opened Ledger
  import opened Invariants
  import opened Steps
  import opened Filtering
  import opened Rollback

  // ---------------------------------------------------------------- one operation

  /** A successful Send takes out the listing it names, a successful List puts one in,
      and nothing else touches the listings. */
  ghost predicate MarketStep(c: Core, d: Core, x: ContextOp, error: Option<OpError>) {
    var common := x.op.common;
    if error.None? && x.op.info.SendOp? then
      var token := TokenKey(common.tick, x.op.info.send.tokenId);
      token in c.listings && c.listings[token].txId == x.op.info.send.listingTxId && d.listings == c.listings - {token}
    else if error.None? && x.op.info.ListOp? then
      var token := TokenKey(common.tick, x.op.info.list.tokenId);
      token !in c.listings && d.listings == c.listings[token := ListingOf(x.score, common, x.op.info.list)]
    else
      d.listings == c.listings
  }

  lemma EffectIsMarketStep(c: Core, x: ContextOp)
    requires RegistryOk(c.registry, c.deployments)
    ensures var e := EffectOf(c, x); e.Effect? ==> MarketStep(c, e.core, x, e.error)
  {
    hide Mint, Deploy, Transfer, Discount, List, Send, AddsOnly, RegistryOk;
    match x.op.info
    case DeployOp(d) => DeployAddsOnly(c, x.score, x.op.common, d);
    case MintOp(m) => MintAddsOnly(c, x.entropy, x.score, x.op.common, m, false);
    case TransferOp(i) => TransferLeavesListings(c, x.score, x.op.common, i);
    case DiscountOp(i) => DiscountLeavesListings(c, x.score, x.op.common, i);
    case ListOp(i) => ListPutsIn(c, x.score, x.op.common, i);
    case SendOp(i) => SendTakesOut(c, x.score, x.op.common, i);
  }

  lemma TransferLeavesListings(c: Core, score: nat, common: Common, i: TransferInfo)
    ensures Transfer(c, score, common, i).core.listings == c.listings
  {
  }

  lemma DiscountLeavesListings(c: Core, score: u64, common: Common, i: DiscountInfo)
    ensures Discount(c, score, common, i).core.listings == c.listings
  {
  }

  lemma ListPutsIn(c: Core, score: nat, common: Common, i: ListInfo)
    ensures var r := List(c, score, common, i); var token := TokenKey(common.tick, i.tokenId);
            if r.error.None? then token !in c.listings && r.core.listings == c.listings[token := ListingOf(score, common, i)]
            else r.core.listings == c.listings
  {
  }

  lemma SendTakesOut(c: Core, score: nat, common: Common, i: SendInfo)
    ensures var r := Send(c, score, common, i); var token := TokenKey(common.tick, i.tokenId);
            if r.error.None? then
              token in c.listings && c.listings[token].txId == i.listingTxId && r.core.listings == c.listings - {token}
            else r.core.listings == c.listings
  {
  }

  lemma StepIsMarketStep(c: Core, d: Core, x: ContextOp)
    requires OneStep(c, d, x)
    ensures Apply(c, x).Stepped? && MarketStep(c, d, x, Apply(c, x).logged.error)
    ensures var o := Apply(c, x).logged;
            (o.op.info.SendOp? <==> x.op.info.SendOp?) && (o.op.info.SendOp? ==> o.op == x.op)
            && (o.op.info.ListOp? ==> o.op == x.op)
  {
    hide Good, AddsOnly, MarketStep, RegistryOk, Mint, Deploy, Transfer, Discount, List, Send;
    RegistryOfGood(c, x.score);
    EffectIsMarketStep(c, x);
    var e := EffectOf(c, x).core;
    MarketStepByListings(c, e, d, x, Apply(c, x).logged.error);
  }

  lemma MarketStepByListings(c: Core, d: Core, d': Core, x: ContextOp, error: Option<OpError>)
    requires MarketStep(c, d, x, error) && d.listings == d'.listings
    ensures MarketStep(c, d', x, error)
  {
  }

  // ---------------------------------------------------------------- the listings put back

  /** The listing the Send at `s` consumed, if its List is older than the threshold. */
  function Consumed(ops: map<nat, CheckedOp>, opScores: map<TxId, nat>, threshold: nat, s: nat): Option<(TokenKey, Listing)> {
    if s !in ops || !IsSale(ops[s]) then None else
    var listTxId := ops[s].op.info.send.listingTxId;
    if listTxId !in opScores || opScores[listTxId] >= threshold then None else
    var l := opScores[listTxId];
    if l !in ops || !ops[l].op.info.ListOp? then None else
    Some((SentToken(ops[s]), ListingOf(l, ops[l].op.common, ops[l].op.info.list)))
  }

  function RestoreOne(ops: map<nat, CheckedOp>, opScores: map<TxId, nat>, threshold: nat,
                      before: map<TokenKey, Listing>, s: nat): map<TokenKey, Listing>
  {
    match Consumed(ops, opScores, threshold, s)
    case None => before
    case Some((token, v)) => before[token := v]
  }

  /** The listings the rolled-back Sends at `scores` put back. */
  function Restored(ops: map<nat, CheckedOp>, opScores: map<TxId, nat>, threshold: nat, scores: seq<nat>): map<TokenKey, Listing> {
    if scores == [] then map[]
    else
      var n := |scores| - 1;
      RestoreOne(ops, opScores, threshold, Restored(ops, opScores, threshold, scores[..n]), scores[n])
  }

  /** The standing listings that are older than the threshold. */
  function Standing(listings: map<TokenKey, Listing>, threshold: nat): map<TokenKey, Listing> {
    map t | t in listings && listings[t].score < threshold :: listings[t]
  }

  lemma {:induction false} RestoredGrows(ops: map<nat, CheckedOp>, opScores: map<TxId, nat>, threshold: nat, scores: seq<nat>,
                                         s: nat, o: CheckedOp)
    requires s !in ops && o.op.common.txId !in opScores
    requires OpsOk(ops, opScores) && SendsOk(ops, opScores)
    requires forall i :: 0 <= i < |scores| ==> scores[i] in ops
    ensures Restored(ops[s := o], opScores[o.op.common.txId := s], threshold, scores) == Restored(ops, opScores, threshold, scores)
  {
    if scores != [] {
      RestoredGrows(ops, opScores, threshold, scores[..|scores| - 1], s, o);
    }
  }

  lemma {:induction false} AscendingAppends(a: set<nat>, x: nat)
    requires forall y :: y in a ==> y < x
    ensures Ascending(a + {x}) == Ascending(a) + [x]
  {
    assert MaxOf(a + {x}) == x;
    assert a + {x} - {x} == a;
  }

  /** A listing older than the threshold was already in force at it. */
  lemma {:induction false} StandingWasInForce(h: seq<ContextOp>, threshold: nat, t: TokenKey)
    requires ValidHistory(h) && t in Run(h).listings && Run(h).listings[t].score < threshold
    ensures t in Run(Below(h, threshold)).listings && Run(Below(h, threshold)).listings[t] == Run(h).listings[t]
    decreases |h|
  {
    hide ValidHistory, OneStep;
    if h != [] && h[|h| - 1].score >= threshold {
      var x := h[|h| - 1];
      PrefixIsValid(h);
      RunStep(h);
      StepIsMarketStep(Run(h[..|h| - 1]), Run(h), x);
      StandingWasInForce(h[..|h| - 1], threshold, t);
    }
  }

  /** The listings a rollback leaves, as a function of the ledger before it. */
  function Kept(c: Core, threshold: nat): map<TokenKey, Listing> {
    Standing(c.listings, threshold) + Restored(c.ops, c.opScores, threshold, Ascending(Scores(c.ops, threshold)))
  }

  lemma ScoresOneMore(ops: map<nat, CheckedOp>, s: nat, o: CheckedOp, threshold: nat)
    requires s >= threshold && forall r :: r in ops ==> r < s
    ensures Ascending(Scores(ops[s := o], threshold)) == Ascending(Scores(ops, threshold)) + [s]
  {
    hide Ascending;
    assert Scores(ops[s := o], threshold) == Scores(ops, threshold) + {s};
    AscendingAppends(Scores(ops, threshold), s);
  }

  lemma RestoredOneMore(c: Core, d: Core, x: ContextOp, threshold: nat)
    requires OneStep(c, d, x) && x.score >= threshold
    ensures var scores := Ascending(Scores(c.ops, threshold));
            && Ascending(Scores(d.ops, threshold)) == scores + [x.score]
            && Restored(d.ops, d.opScores, threshold, scores) == Restored(c.ops, c.opScores, threshold, scores)
            && (scores + [x.score])[..|scores|] == scores
  {
    hide Good, AddsOnly, Apply, OpsOk, SendsOk, ListingsOk, Restored, Ascending;
    TablesOfGood(c, x.score);
    var scores, o := Ascending(Scores(c.ops, threshold)), Apply(c, x).logged;
    ScoresOneMore(c.ops, x.score, o, threshold);
    AllLogged(c.ops, threshold);
    RecordedKeeps(c, x);
    RestoredGrows(c.ops, c.opScores, threshold, scores, x.score, o);
  }

  lemma AllLogged(ops: map<nat, CheckedOp>, threshold: nat)
    ensures var scores := Ascending(Scores(ops, threshold)); forall i :: 0 <= i < |scores| ==> scores[i] in ops && scores[i] >= threshold
  {
    var scores := Ascending(Scores(ops, threshold));
    forall i | 0 <= i < |scores| ensures scores[i] in Scores(ops, threshold) {
      assert scores[i] in scores;
    }
  }

  lemma RecordedKeeps(c: Core, x: ContextOp)
    requires Apply(c, x).Stepped?
    ensures Apply(c, x).logged.op.common == x.op.common
  {
    hide EffectOf;
    RecordedKeepsTxId(c, x);
  }

  lemma TablesOfGood(c: Core, bound: nat)
    requires Good(c, bound)
    ensures OpsOk(c.ops, c.opScores) && SendsOk(c.ops, c.opScores)
    ensures ListingsOk(c.listings, c.listingsByTick, c.owners, c.ops)
    ensures forall s :: s in c.ops ==> s < bound
  {
    hide OwnershipOk, MintsMatchChanges, OwnedAreMinted, RegistryOk, SupplyOk, PremintsDone, OpsOk, SendsOk, ListingsOk;
  }

  lemma RestoredSnoc(c: Core, d: Core, x: ContextOp, threshold: nat)
    requires OneStep(c, d, x) && x.score >= threshold
    ensures var m := Restored(c.ops, c.opScores, threshold, Ascending(Scores(c.ops, threshold)));
            Restored(d.ops, d.opScores, threshold, Ascending(Scores(d.ops, threshold)))
              == RestoreOne(d.ops, d.opScores, threshold, m, x.score)
  {
    hide OneStep, RestoreOne;
    RestoredOneMore(c, d, x, threshold);
  }

  /** The log behind a standing listing after one more operation. */
  lemma BackedBefore(c: Core, d: Core, x: ContextOp, token: TokenKey)
    requires OneStep(c, d, x) && token in c.listings
    ensures var v := c.listings[token];
            && v.score < x.score && v.txId in d.opScores && d.opScores[v.txId] == v.score
            && v.score in d.ops && d.ops[v.score].op.info.ListOp?
            && v == ListingOf(v.score, d.ops[v.score].op.common, d.ops[v.score].op.info.list)
  {
    hide Good, AddsOnly, Apply, SendsOk;
    TablesOfGood(c, x.score);
    assert Backed(c.ops, token, c.listings[token]);
  }

  lemma SaleRestores(c: Core, d: Core, x: ContextOp, threshold: nat, token: TokenKey, m: map<TokenKey, Listing>)
    requires OneStep(c, d, x) && Apply(c, x).logged.error.None? && x.op.info.SendOp?
    requires token == TokenKey(x.op.common.tick, x.op.info.send.tokenId) && token in c.listings
    requires c.listings[token].txId == x.op.info.send.listingTxId
    ensures RestoreOne(d.ops, d.opScores, threshold, m, x.score)
              == if c.listings[token].score < threshold then m[token := c.listings[token]] else m
  {
    hide Good, AddsOnly, Apply;
    StepIsMarketStep(c, d, x);
    BackedBefore(c, d, x, token);
  }

  lemma OthersRestoreNothing(c: Core, d: Core, x: ContextOp, threshold: nat, m: map<TokenKey, Listing>)
    requires OneStep(c, d, x) && !(Apply(c, x).logged.error.None? && x.op.info.SendOp?)
    ensures RestoreOne(d.ops, d.opScores, threshold, m, x.score) == m
  {
    hide Good, AddsOnly, Apply;
    StepIsMarketStep(c, d, x);
  }

  /** Taking `v` out and putting it back, if it is old, is no change. */
  lemma SaleAndBack(listings: map<TokenKey, Listing>, token: TokenKey, threshold: nat, m: map<TokenKey, Listing>)
    requires token in listings
    requires listings[token].score < threshold ==>
               token in Standing(listings, threshold) + m && (Standing(listings, threshold) + m)[token] == listings[token]
    ensures Standing(listings - {token}, threshold) + (if listings[token].score < threshold then m[token := listings[token]] else m)
              == Standing(listings, threshold) + m
  {
  }

  lemma NewListingIsDropped(listings: map<TokenKey, Listing>, token: TokenKey, v: Listing, threshold: nat)
    requires token !in listings && v.score >= threshold
    ensures Standing(listings[token := v], threshold) == Standing(listings, threshold)
  {
  }

  lemma KeptStep(c: Core, d: Core, x: ContextOp, threshold: nat, inForce: map<TokenKey, Listing>)
    requires OneStep(c, d, x) && x.score >= threshold && Kept(c, threshold) == inForce
    requires forall t :: t in c.listings && c.listings[t].score < threshold ==> t in inForce && inForce[t] == c.listings[t]
    ensures Kept(d, threshold) == inForce
  {
    hide OneStep, Apply, Standing, Restored, RestoreOne;
    StepIsMarketStep(c, d, x);
    RestoredSnoc(c, d, x, threshold);
    var m := Restored(c.ops, c.opScores, threshold, Ascending(Scores(c.ops, threshold)));
    if Apply(c, x).logged.error.None? && x.op.info.SendOp? {
      var token := TokenKey(x.op.common.tick, x.op.info.send.tokenId);
      SaleRestores(c, d, x, threshold, token, m);
      SaleAndBack(c.listings, token, threshold, m);
    } else {
      OthersRestoreNothing(c, d, x, threshold, m);
      if Apply(c, x).logged.error.None? && x.op.info.ListOp? {
        NewListingIsDropped(c.listings, TokenKey(x.op.common.tick, x.op.info.list.tokenId),
                            ListingOf(x.score, x.op.common, x.op.info.list), threshold);
      }
    }
  }

  lemma ListingScores(c: Core, bound: nat)
    requires Good(c, bound)
    ensures forall t :: t in c.listings ==> c.listings[t].score < bound
    ensures forall s :: s in c.ops ==> s < bound
  {
    hide Good, OpsOk, SendsOk;
    TablesOfGood(c, bound);
    forall t | t in c.listings ensures c.listings[t].score < bound {
      assert Backed(c.ops, t, c.listings[t]);
    }
  }

  lemma NothingRestored(c: Core, bound: nat, threshold: nat)
    requires Good(c, bound) && bound <= threshold
    ensures Kept(c, threshold) == c.listings
  {
    hide Good;
    ListingScores(c, bound);
    assert Scores(c.ops, threshold) == {};
    assert Standing(c.listings, threshold) == c.listings;
  }

  /** What a rollback keeps and puts back is exactly what was in force at the threshold. */
  lemma {:induction false} KeptIsInForce(h: seq<ContextOp>, threshold: nat)
    requires ValidHistory(h)
    ensures Kept(Run(h), threshold) == Run(Below(h, threshold)).listings
    decreases |h|
  {
    hide ValidHistory, OneStep, Good, Kept, LogsExactly;
    if h == [] || h[|h| - 1].score < threshold {
      RunIsGood(h);
      NothingRestored(Run(h), NextScore(h), threshold);
    } else {
      var prefix := h[..|h| - 1];
      PrefixIsValid(h);
      KeptIsInForce(prefix, threshold);
      RunStep(h);
      forall t | t in Run(prefix).listings && Run(prefix).listings[t].score < threshold
        ensures t in Run(Below(h, threshold)).listings && Run(Below(h, threshold)).listings[t] == Run(prefix).listings[t]
      {
        StandingWasInForce(prefix, threshold, t);
      }
      KeptStep(Run(prefix), Run(h), h[|h| - 1], threshold, Run(Below(h, threshold)).listings);
    }
  }
}
