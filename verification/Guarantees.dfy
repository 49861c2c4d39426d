/** What every reachable state promises: supply, marketplace and chain indexes. */
module Guarantees {
  import opened Model
  import opened Ledger
  import opened Invariants
  import opened Preservation
  import opened Steps
  import opened Filtering
  import opened Rollback
  import opened MarketReorg
  import opened ReorgIsReplay
  import opened Residues
  import opened Score
  import opened Chain
  import opened ChainReplay
  import opened ChainTheorem
  import opened Protocol
  import TokenIds

  // ---------------------------------------------------------------- supply

  function MintedIds(mints: set<MintKey>, t: Tick): set<nat> {
    set k | k in mints && k.token.tick == t :: k.token.tokenId
  }

  function OwnedIds(owners: map<TokenKey, Holding>, t: Tick): set<nat> {
    set k | k in owners && k.tick == t :: k.tokenId
  }

  /** With `n` mints the sequence numbers are 1 ..= n, the ids are `n` different ones of
      1 ..= max with all premints among them, they are the owned tokens, and a finished
      collection has used every id. */
  ghost predicate Supply(c: Core, t: Tick)
    requires t in c.registry
  {
    var d, n, ids := c.registry[t].info, |MintsOf(c.mints, t)|, MintedIds(c.mints, t);
    && d.premint <= n <= d.max
    && MintSeqs(c.mints, t) == TokenIds.Span(0, n)
    && (forall k, l :: k in MintsOf(c.mints, t) && l in MintsOf(c.mints, t) && (k.seqNo == l.seqNo || k.token == l.token) ==> k == l)
    && |ids| == n
    && TokenIds.Span(0, d.premint) <= ids <= TokenIds.Span(0, d.max)
    && ids == OwnedIds(c.owners, t)
    && (n == d.max ==> ids == TokenIds.Span(0, d.max))
  }

  lemma {:induction false} DistinctIds(keys: set<MintKey>, t: Tick)
    requires forall k :: k in keys ==> k.token.tick == t
    requires forall k, l :: k in keys && l in keys && k.token == l.token ==> k == l
    ensures |MintedIds(keys, t)| == |keys|
  {
    if keys == {} {
      assert MintedIds(keys, t) == {};
    } else {
      var k :| k in keys;
      DistinctIds(keys - {k}, t);
      assert MintedIds(keys, t) == MintedIds(keys - {k}, t) + {k.token.tokenId};
      forall l | l in keys - {k} ensures l.token.tokenId != k.token.tokenId {
        assert l.token != k.token;
      }
    }
  }

  lemma SequenceNumbers(mints: set<MintKey>, t: Tick)
    requires Numbered(mints, t)
    ensures var n := |MintsOf(mints, t)|;
            && n == LastMint(mints, t)
            && MintSeqs(mints, t) == TokenIds.Span(0, n)
            && (forall k, l :: k in MintsOf(mints, t) && l in MintsOf(mints, t) && (k.seqNo == l.seqNo || k.token == l.token) ==> k == l)
            && |MintedIds(mints, t)| == n
  {
    hide LastMint;
    CountIsLast(mints, t);
    DistinctIds(MintsOf(mints, t), t);
    assert MintedIds(mints, t) == MintedIds(MintsOf(mints, t), t);
  }

  lemma MintedAreOwned(c: Core, t: Tick)
    requires TablesOk(c)
    ensures MintedIds(c.mints, t) == OwnedIds(c.owners, t)
  {
    hide TablesOk, IsMinted;
    forall id | id in MintedIds(c.mints, t) ensures id in OwnedIds(c.owners, t) {
      var k :| k in c.mints && k.token.tick == t && k.token.tokenId == id;
      MintIsOwned(c, k);
      assert k.token in c.owners;
    }
    forall id | id in OwnedIds(c.owners, t) ensures id in MintedIds(c.mints, t) {
      var token :| token in c.owners && token.tick == t && token.tokenId == id;
      OwnedIsMinted(c, token);
    }
  }

  lemma OwnedIsMinted(c: Core, token: TokenKey)
    requires TablesOk(c) && token in c.owners
    ensures token.tokenId in MintedIds(c.mints, token.tick)
  {
    hide OwnershipOk, RegistryOk, ListingsOk, SendsOk, OpsOk;
    assert IsMinted(c.mints, token);
    var k :| k in c.mints && k.token == token;
    assert k.token.tokenId == token.tokenId;
  }

  lemma MintIsOwned(c: Core, k: MintKey)
    requires TablesOk(c) && k in c.mints
    ensures k.token in c.owners
  {
    hide RegistryOk, ListingsOk, SendsOk, OpsOk, HoldingsInvertOwners;
    assert ChangeKey(k.score, k.token, k.seqNo) in c.changes;
    assert HistoryKey(k.token, k.score) in c.history;
  }

  lemma IdsInRange(mints: set<MintKey>, alloc: TokenIds.Alloc, t: Tick, premint: nat, max: nat)
    requires CollectionOk(mints, alloc, t, premint, max) && premint <= LastMint(mints, t)
    ensures TokenIds.Span(0, premint) <= MintedIds(mints, t) <= TokenIds.Span(0, max)
  {
    hide LastMint, TokenIds.WellFormed, TokenIds.Generated;
    forall id | id in TokenIds.Span(0, premint) ensures id in MintedIds(mints, t) {
      assert id in MintSeqs(mints, t);
      var k :| k in mints && k.token.tick == t && k.seqNo == id;
      assert k.token.tokenId == id;
    }
    forall id | id in MintedIds(mints, t) ensures id in TokenIds.Span(0, max) {
      var k :| k in mints && k.token.tick == t && k.token.tokenId == id;
      assert k.seqNo in MintSeqs(mints, t);
    }
  }

  lemma PartsForSupply(c: Core, bound: nat, t: Tick)
    requires Good(c, bound) && t in c.registry
    ensures var d := c.registry[t].info;
            TablesOk(c) && CollectionOk(c.mints, c.alloc, t, d.premint, d.max) && d.premint <= LastMint(c.mints, t)
  {
    hide TablesOk, CollectionOk, Bounded, LastMint;
    assert TickOk(c.registry, c.mints, c.alloc, t);
  }

  lemma SupplyOfGood(c: Core, bound: nat, t: Tick)
    requires Good(c, bound) && t in c.registry
    ensures Supply(c, t)
  {
    hide TablesOk, Good, LastMint, IdsOk, TokenIds.WellFormed, TokenIds.Generated, MintsOf, MintedIds, OwnedIds, Numbered;
    var d := c.registry[t].info;
    PartsForSupply(c, bound, t);
    SequenceNumbers(c.mints, t);
    IdsInRange(c.mints, c.alloc, t, d.premint, d.max);
    MintedAreOwned(c, t);
    TokenIds.SubsetSize(MintedIds(c.mints, t), TokenIds.Span(0, d.max));
  }

  /** In every reachable state, whatever reorganisations led to it. */
  lemma SupplyHolds(limit: Limit, changes: seq<ChainChange>, t: Tick)
    requires ValidRun(limit, changes)
    ensures ProcessAll(EMPTY_DB, limit, changes).Some?
    ensures var c := ProcessAll(EMPTY_DB, limit, changes).value.core; t in c.registry ==> Supply(c, t)
  {
    hide ValidRun, ProcessAll, Good, Supply, ValidChain, Run, ResidueOk;
    ReachableIsGood(limit, changes);
    var c := ProcessAll(EMPTY_DB, limit, changes).value.core;
    if t in c.registry {
      SupplyOfGood(c, NextScore(OpsOf(limit, ChainAfter(changes))), t);
    }
  }

  lemma ReachableIsGood(limit: Limit, changes: seq<ChainChange>)
    requires ValidRun(limit, changes)
    ensures ProcessAll(EMPTY_DB, limit, changes).Some?
    ensures var h := OpsOf(limit, ChainAfter(changes));
            ValidHistory(h) && ProcessAll(EMPTY_DB, limit, changes).value.core == Run(h) && Good(Run(h), NextScore(h))
  {
    hide ValidRun, ProcessAll, Good, ValidChain, Run, ResidueOk, LogsExactly, ValidHistory;
    RunIsCanonical(limit, changes);
    ChainIsHistory(limit, ChainAfter(changes));
    RunIsGood(OpsOf(limit, ChainAfter(changes)));
  }

  // ---------------------------------------------------------------- ownership

  /** In every reachable state, whatever reorganisations led to it: ownership changes and
      ownership history match one to one, the current owner is the latest history row of
      its token, and the address index is the exact inverse with the same scores. */
  lemma OwnershipIndexesAgree(limit: Limit, changes: seq<ChainChange>)
    requires ValidRun(limit, changes)
    ensures ProcessAll(EMPTY_DB, limit, changes).Some?
    ensures var c := ProcessAll(EMPTY_DB, limit, changes).value.core;
            && OwnershipOk(c.changes, c.history, c.owners, c.holdings)
            && (forall t :: t in c.owners ==> LastOwner(c.history, t) == Some(c.owners[t]))
            && (forall t :: LastOwner(c.history, t).Some? ==> t in c.owners)
  {
    hide ValidRun, ProcessAll, Good, Run, OwnershipOk, LastOwner, ValidHistory;
    ReachableIsGood(limit, changes);
    var h := OpsOf(limit, ChainAfter(changes));
    PartsOfGood(Run(h), NextScore(h));
    OwnersAreLastOwners(Run(h));
  }

  lemma OwnersAreLastOwners(c: Core)
    requires OwnershipOk(c.changes, c.history, c.owners, c.holdings)
    ensures forall t :: t in c.owners ==> LastOwner(c.history, t) == Some(c.owners[t])
    ensures forall t :: LastOwner(c.history, t).Some? ==> t in c.owners
  {
    forall t | t in c.owners ensures LastOwner(c.history, t) == Some(c.owners[t]) {
      assert HistoryKey(t, c.owners[t].score) in c.history;
      assert c.owners[t].score in HistoryScores(c.history, t);
      assert MaxOf(HistoryScores(c.history, t)) == c.owners[t].score;
    }
  }

  // ---------------------------------------------------------------- marketplace

  /** A listing is backed by the surviving List that wrote it, its seller owns the token,
      and the token did not change hands since. */
  ghost predicate SafeListing(c: Core, token: TokenKey)
    requires token in c.listings
  {
    var v := c.listings[token];
    && v.score in c.ops && c.ops[v.score].error.None? && c.ops[v.score].op.info.ListOp?
    && var common, i := c.ops[v.score].op.common, c.ops[v.score].op.info.list;
    && token == TokenKey(common.tick, i.tokenId)
    && v.seller == common.sender && v.txId == common.txId
    && v.utxoAddress == i.utxoAddress && v.redeemScript == i.redeemScript
    && token in c.listingsByTick
    && token in c.owners && c.owners[token].spk == v.seller
    && (forall k :: k in c.changes && k.token == token ==> k.score < v.score)
  }

  ghost predicate NotMovedSince(changes: set<ChangeKey>, listings: map<TokenKey, Listing>) {
    forall k :: k in changes && k.token in listings ==> k.score < listings[k.token].score
  }

  ghost predicate NewChangesOf(c: Core, d: Core, t: Tick) {
    forall k :: k in d.changes && k !in c.changes ==> k.token.tick == t
  }

  lemma {:induction false} PremintsChangeOwnTick(c: Core, score: nat, common: Common, d: DeployInfo, n: nat)
    ensures var r := Premints(c, score, common, d, n); r.Applied? ==> NewChangesOf(c, r.core, common.tick)
  {
    hide Mint;
    if n > 0 {
      PremintsChangeOwnTick(c, score, common, d, n - 1);
      var before := Premints(c, score, common, d, n - 1);
      if before.Applied? && before.error.None? {
        MintShape(before.core, 0, score, common, MintInfo(0, d.deployer, None), true);
      }
    }
  }

  lemma UndeployedIsUnlisted(c: Core, bound: nat, t: Tick)
    requires Good(c, bound) && t !in c.registry
    ensures forall token :: token in c.listings ==> token.tick != t
  {
    hide OwnershipOk, RegistryOk, SendsOk, OpsOk, PremintsDone, Bounded, MintsMatchChanges, TickOk, TokenIds.Untouched, Backed;
    forall token | token in c.listings ensures token.tick != t {
      assert IsMinted(c.mints, token);
    }
  }

  ghost predicate NewChangesUnlisted(c: Core, d: Core) {
    forall k :: k in d.changes && k !in c.changes ==> k.token !in d.listings
  }

  lemma MintUnlisted(c: Core, x: ContextOp)
    requires Good(c, x.score) && x.op.info.MintOp?
    ensures var e := EffectOf(c, x); e.Effect? ==> NewChangesUnlisted(c, e.core)
  {
    hide Mint, Bounded, PremintsDone, TablesOk, SupplyOk, IsMinted;
    var m := x.op.info.mint;
    MintKeeps(c, x.entropy, x.score, x.op.common, m, false);
    MintShape(c, x.entropy, x.score, x.op.common, m, false);
    var r := Mint(c, x.entropy, x.score, x.op.common, m, false);
    if r.Minted? {
      var token := TokenKey(x.op.common.tick, r.tokenId);
      UnmintedIsUnowned(c, token);
      ListedAreOwned(c);
    }
  }

  lemma ListedAreOwned(c: Core)
    requires TablesOk(c)
    ensures forall token :: token in c.listings ==> token in c.owners
  {
    hide OwnershipOk, RegistryOk, SendsOk, OpsOk, Backed;
  }

  lemma DeployUnlisted(c: Core, x: ContextOp)
    requires Good(c, x.score) && x.op.info.DeployOp?
    ensures var e := EffectOf(c, x); e.Effect? ==> NewChangesUnlisted(c, e.core)
  {
    hide Premints, Good, RegistryOk;
    var common, d := x.op.common, x.op.info.deploy;
    if common.tick !in c.registry {
      PremintsChangeOwnTick(Register(c, x.score, common, d), x.score, common, d, d.premint);
      PremintsAddOnly(Register(c, x.score, common, d), x.score, common, d, d.premint);
      UndeployedIsUnlisted(c, x.score, common.tick);
    }
  }

  /** No operation moves a token and leaves it listed. */
  lemma EffectUnlisted(c: Core, x: ContextOp)
    requires Good(c, x.score)
    ensures var e := EffectOf(c, x); e.Effect? ==> NewChangesUnlisted(c, e.core)
  {
    hide EffectOf, Good, NewChangesUnlisted;
    match x.op.info
    case MintOp(_) => MintUnlisted(c, x);
    case DeployOp(_) => DeployUnlisted(c, x);
    case _ => OtherUnlisted(c, x);
  }

  lemma OtherUnlisted(c: Core, x: ContextOp)
    requires !x.op.info.MintOp? && !x.op.info.DeployOp?
    ensures var e := EffectOf(c, x); e.Effect? ==> NewChangesUnlisted(c, e.core)
  {
    hide Mint, Deploy, Transfer, Send, List, Discount, NewChangesUnlisted;
    match x.op.info
    case TransferOp(i) => TransferUnlisted(c, x.score, x.op.common, i);
    case SendOp(i) => SendUnlisted(c, x.score, x.op.common, i);
    case ListOp(i) => ListUnlisted(c, x.score, x.op.common, i);
    case DiscountOp(i) => DiscountUnlisted(c, x.score, x.op.common, i);
  }

  lemma TransferUnlisted(c: Core, score: nat, common: Common, i: TransferInfo)
    ensures NewChangesUnlisted(c, Transfer(c, score, common, i).core)
  {
  }

  lemma SendUnlisted(c: Core, score: nat, common: Common, i: SendInfo)
    ensures NewChangesUnlisted(c, Send(c, score, common, i).core)
  {
  }

  lemma ListUnlisted(c: Core, score: nat, common: Common, i: ListInfo)
    ensures NewChangesUnlisted(c, List(c, score, common, i).core)
  {
  }

  lemma DiscountUnlisted(c: Core, score: u64, common: Common, i: DiscountInfo)
    ensures NewChangesUnlisted(c, Discount(c, score, common, i).core)
  {
  }

  lemma StaysUnmoved(c: Core, d: Core, x: ContextOp, error: Option<OpError>)
    requires NotMovedSince(c.changes, c.listings) && NewChangesUnlisted(c, d) && MarketStep(c, d, x, error)
    requires forall k :: k in c.changes ==> k.score < x.score
    ensures NotMovedSince(d.changes, d.listings)
  {
  }

  lemma {:induction false} ListedTokensStay(h: seq<ContextOp>)
    requires ValidHistory(h)
    ensures NotMovedSince(Run(h).changes, Run(h).listings)
    decreases |h|
  {
    hide ValidHistory, OneStep, MarketStep, Apply;
    if h != [] {
      var c, x, d := Run(h[..|h| - 1]), h[|h| - 1], Run(h);
      PrefixIsValid(h);
      ListedTokensStay(h[..|h| - 1]);
      RunStep(h);
      StepIsMarketStep(c, d, x);
      StepUnlisted(c, d, x);
      StaysUnmoved(c, d, x, Apply(c, x).logged.error);
    }
  }

  lemma StepUnlisted(c: Core, d: Core, x: ContextOp)
    requires OneStep(c, d, x)
    ensures NewChangesUnlisted(c, d) && forall k :: k in c.changes ==> k.score < x.score
  {
    hide Good, AddsOnly, EffectOf, TablesOk;
    EffectUnlisted(c, x);
    BoundedOfGood(c, x.score);
  }

  lemma ListingOfGood(c: Core, bound: nat, token: TokenKey)
    requires Good(c, bound) && token in c.listings && NotMovedSince(c.changes, c.listings)
    ensures SafeListing(c, token)
  {
    hide OwnershipOk, RegistryOk, SendsOk, PremintsDone, Bounded, SupplyOk, MintsMatchChanges, OwnedAreMinted;
  }

  /** In every reachable state, whatever reorganisations led to it. */
  lemma ListingsAreSafe(limit: Limit, changes: seq<ChainChange>, token: TokenKey)
    requires ValidRun(limit, changes)
    ensures ProcessAll(EMPTY_DB, limit, changes).Some?
    ensures var c := ProcessAll(EMPTY_DB, limit, changes).value.core; token in c.listings ==> SafeListing(c, token)
  {
    hide ValidRun, ProcessAll, Good, SafeListing, Run, NotMovedSince, ValidHistory;
    ReachableIsGood(limit, changes);
    var h := OpsOf(limit, ChainAfter(changes));
    ListedTokensStay(h);
    if token in Run(h).listings {
      ListingOfGood(Run(h), NextScore(h), token);
    }
  }

  /** The Send of `token` that names the transaction of its listing. */
  ghost predicate NamedSend(c: Core, x: ContextOp, token: TokenKey)
    requires token in c.listings
  {
    && x.op.info.SendOp?
    && token == TokenKey(x.op.common.tick, x.op.info.send.tokenId)
    && x.op.info.send.listingTxId == c.listings[token].txId
  }

  function OwnerIn(w: World, token: TokenKey): Option<Script> {
    if token in w.owner then Some(w.owner[token]) else None
  }

  /** By the rules alone: an owned, offered token changes hands only by the Send that
      names the transaction of its offer. */
  lemma RulesProtectOffers(w: World, x: ContextOp, recorded: Operation, v: World, token: TokenKey)
    requires token in w.offers && token.tick in w.collections && token in w.owner
    requires RecordedAs(x.op, recorded) && Refusal(w, x).None? && Play(w, recorded, v)
    ensures var sold := x.op.info.SendOp? && token == TokenKey(x.op.common.tick, x.op.info.send.tokenId);
            && (sold ==> w.offers[token].txId == x.op.info.send.listingTxId)
            && OwnerIn(v, token) == if sold && x.op.info.send.buyer.Some? then x.op.info.send.buyer else OwnerIn(w, token)
  {
  }

  lemma ListedShows(c: Core, bound: nat, token: TokenKey)
    requires Good(c, bound) && token in c.listings
    ensures var w := View(c);
            && token in w.offers && w.offers[token].txId == c.listings[token].txId
            && token.tick in w.collections && token in w.owner
  {
    hide OwnershipOk, RegistryOk, SendsOk, OpsOk, PremintsDone, Bounded, MintsMatchChanges, TickOk, TokenIds.Untouched, Backed, FeesOf, MintsOf;
    assert IsMinted(c.mints, token);
  }

  lemma NamedIsNotRefused(c: Core, x: ContextOp, token: TokenKey)
    requires token in c.listings && NamedSend(c, x, token)
    ensures Refusal(View(c), x).None?
  {
    hide CollectionsOf, FeesOf, OwnersOf;
  }

  lemma OwnersStay(c: Core, d: Core, score: nat, op: Operation, error: Option<OpError>)
    requires d == Log(c, score, op, error)
    ensures View(d) == View(c) && d.listings == c.listings
  {
    hide CollectionsOf, FeesOf, OwnersOf, OffersOf;
  }

  /** While a listing stands, exactly the Send that names its transaction ends it; that
      Send is accepted, the token then belongs to its buyer, and no other operation
      gives the token another owner. */
  lemma OnlyTheNamedSendEndsAListing(h: seq<ContextOp>, token: TokenKey)
    requires h != [] && ValidHistory(h) && token in Run(h[..|h| - 1]).listings
    ensures var c, x, d := Run(h[..|h| - 1]), h[|h| - 1], Run(h);
            && x.score in d.ops
            && (token !in d.listings <==> NamedSend(c, x, token))
            && (token in d.listings ==> d.listings[token] == c.listings[token])
            && (NamedSend(c, x, token) ==> d.ops[x.score].error.None?)
            && OwnerIn(View(d), token) == if NamedSend(c, x, token) && x.op.info.send.buyer.Some? then x.op.info.send.buyer
                                          else OwnerIn(View(c), token)
  {
    hide ValidHistory, OneStep, Good, EffectOf, View, Refusal, Play, MarketStep, RecordedAs, OwnerIn, NamedSend;
    var c, x, d := Run(h[..|h| - 1]), h[|h| - 1], Run(h);
    PrefixIsValid(h);
    RunIsGood(h[..|h| - 1]);
    ListedShows(c, NextScore(h[..|h| - 1]), token);
    RunStep(h);
    OperationsFollowTheRules(h);
    StepIsMarketStep(c, d, x);
    LoggedByStep(c, d, x);
    if Refusal(View(c), x).None? {
      RulesProtectOffers(View(c), x, d.ops[x.score].op, View(d), token);
    } else {
      OwnersStay(c, d, x.score, x.op, Refusal(View(c), x));
    }
    if NamedSend(c, x, token) {
      NamedIsNotRefused(c, x, token);
    }
    ListingEnds(c, d, x, d.ops[x.score].error, token);
  }

  lemma LoggedByStep(c: Core, d: Core, x: ContextOp)
    requires OneStep(c, d, x)
    ensures Apply(c, x).Stepped? && x.score in d.ops && d.ops[x.score] == Apply(c, x).logged
  {
    hide Good, AddsOnly, Apply;
  }

  lemma ListingEnds(c: Core, d: Core, x: ContextOp, error: Option<OpError>, token: TokenKey)
    requires token in c.listings && MarketStep(c, d, x, error)
    ensures token in d.listings ==> d.listings[token] == c.listings[token]
    ensures token !in d.listings <==> error.None? && x.op.info.SendOp? && token == TokenKey(x.op.common.tick, x.op.info.send.tokenId)
    ensures token !in d.listings ==> NamedSend(c, x, token)
    ensures NamedSend(c, x, token) ==> x.op.info.SendOp? && token == TokenKey(x.op.common.tick, x.op.info.send.tokenId)
  {
  }
}
