/** The token rules, stated without the tables, and the proof that the indexer follows
    them: it accepts an operation exactly when the rules do, reports the rule that was
    broken, changes what the rules say, and leaves everything as it was otherwise. */
module Protocol {
  import opened Model
  import opened Ledger
  import opened Invariants
  import opened Preservation
  import opened Steps
  import opened Filtering
  import opened FeeKeys
  import opened FeeScan
  import TokenIds

  datatype Collection = Collection(info: DeployInfo, minted: nat)
  datatype Offer = Offer(seller: Script, txId: TxId)
  datatype Invitee = Invitee(spk: Script, tick: Tick)

  /** What a holder of tokens can observe. */
  datatype World = World(
    collections: map<Tick, Collection>,
    owner: map<TokenKey, Script>,
    offers: map<TokenKey, Offer>,
    fees: map<Invitee, nat>)

  // ---------------------------------------------------------------- the rules

  /** The royalty asked of `to`: the latest discount, or the fee of the collection. */
  function FeeFor(w: World, to: Script, t: Tick, royalty: Royalty): nat {
    if Invitee(to, t) in w.fees then w.fees[Invitee(to, t)] else royalty.fee
  }

  predicate Owns(w: World, who: Script, token: TokenKey) {
    token in w.owner && w.owner[token] == who
  }

  /** The rule `x` breaks, if any. */
  function Refusal(w: World, x: ContextOp): Option<OpError> {
    var common, t := x.op.common, x.op.common.tick;
    match x.op.info
    case DeployOp(d) =>
      if t in w.collections then Some(TickExists) else None
    case MintOp(m) =>
      if t !in w.collections then Some(TickNotFound) else
      var d, minted := w.collections[t].info, w.collections[t].minted;
      if common.daaScore < d.mintStartDaa then Some(MintingNotStarted(common.daaScore, d.mintStartDaa))
      else if d.max == 0 then Some(MintingFinished)
      else if d.royalty.Some? && m.royalty.None? then Some(MissingRoyaltyMintFee)
      else if d.royalty.Some? && m.royalty.value.fee < FeeFor(w, m.to, t, d.royalty.value) then Some(InsufficientRoyaltyFee)
      else if d.royalty.Some? && m.royalty.value.beneficiary != d.royalty.value.beneficiary then Some(InvalidBeneficiaryForRoyaltyMintFee)
      else if minted == d.max then Some(MintingFinished)
      else None
    case TransferOp(i) =>
      var token := TokenKey(t, i.tokenId);
      if token !in w.owner then Some(TokenNotFound)
      else if !Owns(w, common.sender, token) then Some(WrongOwner)
      else if token in w.offers then Some(TokenIsListed)
      else None
    case DiscountOp(i) =>
      if t !in w.collections then Some(TickNotFound)
      else if common.sender != w.collections[t].info.deployer then Some(WrongDeployer)
      else if w.collections[t].info.royalty.None? || i.fee >= w.collections[t].info.royalty.value.fee then Some(DiscountFeeOverflow)
      else None
    case ListOp(i) =>
      var token := TokenKey(t, i.tokenId);
      if i.p2shScript != i.utxoAddress then Some(InvalidListingP2sh)
      else if t !in w.collections then Some(TickNotFound)
      else if token !in w.owner then Some(TokenNotFound)
      else if !Owns(w, common.sender, token) then Some(WrongOwner)
      else if token in w.offers then Some(TokenAlreadyListed)
      else None
    case SendOp(i) =>
      var token := TokenKey(t, i.tokenId);
      if token !in w.offers then Some(ListingNotFound)
      else if w.offers[token].txId != i.listingTxId then Some(WrongListingUtxo)
      else None
  }

  function FirstTokens(t: Tick, n: nat): set<TokenKey> {
    set id | id in TokenIds.Span(0, n) :: TokenKey(t, id)
  }

  /** The tokens a deployment hands to the deployer. */
  function Premint(t: Tick, d: DeployInfo, n: nat): map<TokenKey, Script> {
    map k | k in FirstTokens(t, n) :: d.deployer
  }

  /** What an accepted operation changes; a mint is recorded with the id it drew. */
  ghost predicate Play(w: World, op: Operation, v: World) {
    var common, t := op.common, op.common.tick;
    match op.info
    case DeployOp(d) =>
      v == w.(collections := w.collections[t := Collection(d, d.premint)], owner := w.owner + Premint(t, d, d.premint))
    case MintOp(m) =>
      && t in w.collections
      && w.collections[t].info.premint < m.tokenId <= w.collections[t].info.max
      && TokenKey(t, m.tokenId) !in w.owner
      && v == w.(collections := w.collections[t := Collection(w.collections[t].info, w.collections[t].minted + 1)],
                 owner := w.owner[TokenKey(t, m.tokenId) := m.to])
    case TransferOp(i) =>
      v == w.(owner := w.owner[TokenKey(t, i.tokenId) := i.to])
    case DiscountOp(i) =>
      v == w.(fees := w.fees[Invitee(i.to, t) := i.fee])
    case ListOp(i) =>
      v == w.(offers := w.offers[TokenKey(t, i.tokenId) := Offer(common.sender, common.txId)])
    case SendOp(i) =>
      var token := TokenKey(t, i.tokenId);
      v == w.(offers := w.offers - {token}, owner := if i.buyer.Some? then w.owner[token := i.buyer.value] else w.owner)
  }

  // ---------------------------------------------------------------- what the tables show

  function MintsOf(mints: set<MintKey>, t: Tick): set<MintKey> {
    set k | k in mints && k.token.tick == t
  }

  function CollectionsOf(registry: map<Tick, Deployment>, mints: set<MintKey>): map<Tick, Collection> {
    map t | t in registry :: Collection(registry[t].info, |MintsOf(mints, t)|)
  }

  function OwnersOf(owners: map<TokenKey, Holding>): map<TokenKey, Script> {
    map t | t in owners :: owners[t].spk
  }

  function OffersOf(listings: map<TokenKey, Listing>): map<TokenKey, Offer> {
    map t | t in listings :: Offer(listings[t].seller, listings[t].txId)
  }

  function FeesOf(vip: set<VipKey>): map<Invitee, nat> {
    map i | i in (set k | k in vip :: Invitee(k.spk, k.tick)) :: LastFee(vip, i.spk, i.tick).GetOr(0)
  }

  function View(c: Core): World {
    World(CollectionsOf(c.registry, c.mints), OwnersOf(c.owners), OffersOf(c.listings), FeesOf(c.vip))
  }

  // ---------------------------------------------------------------- discounts

  lemma FeeInForce(vip: set<VipKey>, spk: Script, t: Tick)
    ensures Invitee(spk, t) in FeesOf(vip) <==> LastFee(vip, spk, t).Some?
    ensures Invitee(spk, t) in FeesOf(vip) ==> LastFee(vip, spk, t) == Some(FeesOf(vip)[Invitee(spk, t)])
  {
    if k :| k in vip && k.spk == spk && k.tick == t {
      assert Invitee(k.spk, k.tick) in FeesOf(vip);
      assert k.score in DiscountScores(vip, spk, t);
    } else {
      assert DiscountScores(vip, spk, t) == {};
    }
  }

  /** A discount is in force as soon as it is accepted, whatever came before it. */
  lemma LatestFee(vip: set<VipKey>, k: VipKey)
    requires forall l :: l in vip ==> l.score < k.score
    ensures LastFee(vip + {k}, k.spk, k.tick) == Some(k.fee)
  {
    assert k in vip + {k};
    assert k.score in DiscountScores(vip + {k}, k.spk, k.tick);
    assert MaxOf(DiscountScores(vip + {k}, k.spk, k.tick)) == k.score;
    assert FeesAt(vip + {k}, k.spk, k.tick, k.score) == {k.fee};
  }

  lemma OtherFee(vip: set<VipKey>, k: VipKey, spk: Script, t: Tick)
    requires k.spk != spk || k.tick != t
    ensures LastFee(vip + {k}, spk, t) == LastFee(vip, spk, t)
  {
    assert DiscountScores(vip + {k}, spk, t) == DiscountScores(vip, spk, t);
    forall s: nat ensures FeesAt(vip + {k}, spk, t, s) == FeesAt(vip, spk, t, s) {
    }
  }

  lemma NewFee(vip: set<VipKey>, k: VipKey)
    requires forall l :: l in vip ==> l.score < k.score
    ensures FeesOf(vip + {k}) == FeesOf(vip)[Invitee(k.spk, k.tick) := k.fee]
  {
    hide LastFee, FeesOf;
    var after := FeesOf(vip + {k});
    LatestFee(vip, k);
    forall i: Invitee ensures i in after <==> i in FeesOf(vip) || i == Invitee(k.spk, k.tick)
      ensures i in after ==> after[i] == if i == Invitee(k.spk, k.tick) then k.fee else FeesOf(vip)[i]
    {
      FeeInForce(vip, i.spk, i.tick);
      FeeInForce(vip + {k}, i.spk, i.tick);
      if i != Invitee(k.spk, k.tick) {
        OtherFee(vip, k, i.spk, i.tick);
      }
    }
  }

  // ---------------------------------------------------------------- counting mints

  lemma {:induction false} SeqNosOf(keys: set<MintKey>) returns (seqs: set<nat>)
    requires forall k, l :: k in keys && l in keys && k.seqNo == l.seqNo ==> k == l
    ensures |seqs| == |keys| && forall n :: n in seqs <==> exists k :: k in keys && k.seqNo == n
  {
    if keys == {} {
      seqs := {};
    } else {
      var k :| k in keys;
      var rest := SeqNosOf(keys - {k});
      assert k.seqNo !in rest;
      seqs := rest + {k.seqNo};
      forall n ensures n in seqs <==> exists l :: l in keys && l.seqNo == n {
        if n in rest {
          var l :| l in keys - {k} && l.seqNo == n;
          assert l in keys;
        }
        if l :| l in keys && l.seqNo == n && l != k {
          assert l in keys - {k};
        }
      }
    }
  }

  /** The greatest sequence number is the number of mints. */
  lemma CountIsLast(mints: set<MintKey>, t: Tick)
    requires Numbered(mints, t)
    ensures |MintsOf(mints, t)| == LastMint(mints, t)
  {
    hide LastMint;
    var seqs := SeqNosOf(MintsOf(mints, t));
    forall n: nat ensures n in seqs <==> n in TokenIds.Span(0, LastMint(mints, t)) {
      assert n in MintSeqs(mints, t) <==> 1 <= n <= LastMint(mints, t);
      if n in MintSeqs(mints, t) {
        var k :| k in mints && k.token.tick == t && k.seqNo == n;
        assert k in MintsOf(mints, t);
      }
    }
    assert seqs == TokenIds.Span(0, LastMint(mints, t));
  }

  lemma OneMoreMint(registry: map<Tick, Deployment>, mints: set<MintKey>, k: MintKey)
    requires k !in mints && k.token.tick in registry
    ensures var t := k.token.tick;
            CollectionsOf(registry, mints + {k})
              == CollectionsOf(registry, mints)[t := Collection(registry[t].info, |MintsOf(mints, t)| + 1)]
  {
    hide MintsOf;
    MintsOneMore(mints, k);
  }

  // ---------------------------------------------------------------- the operations follow the rules

  /** The effect of `x` on the tables against the rules. */
  ghost predicate Follows(c: Core, x: ContextOp) {
    var e := EffectOf(c, x);
    && e.Effect?
    && e.error == Refusal(View(c), x)
    && (e.error.Some? ==> e.core == c && e.recorded == x.op)
    && (e.error.None? ==> Play(View(c), e.recorded, View(e.core)))
  }

  lemma TransferFollows(c: Core, x: ContextOp)
    requires x.op.info.TransferOp?
    ensures Follows(c, x)
  {
    hide FeesOf, CollectionsOf;
    var token := TokenKey(x.op.common.tick, x.op.info.transfer.tokenId);
    assert OwnersOf(c.owners[token := Holding(x.op.info.transfer.to, x.score)]) == OwnersOf(c.owners)[token := x.op.info.transfer.to];
  }

  lemma DiscountFollows(c: Core, x: ContextOp)
    requires x.op.info.DiscountOp? && forall l :: l in c.vip ==> l.score < x.score
    ensures Follows(c, x)
  {
    hide FeesOf, OwnersOf, OffersOf;
    NewFee(c.vip, VipKey(x.op.info.discount.to, x.op.common.tick, x.score, x.op.info.discount.fee));
  }

  lemma ListFollows(c: Core, x: ContextOp)
    requires x.op.info.ListOp?
    ensures Follows(c, x)
  {
    hide FeesOf;
    var token := TokenKey(x.op.common.tick, x.op.info.list.tokenId);
    var v := ListingOf(x.score, x.op.common, x.op.info.list);
    assert OffersOf(c.listings[token := v]) == OffersOf(c.listings)[token := Offer(v.seller, v.txId)];
  }

  lemma SendFollows(c: Core, x: ContextOp)
    requires x.op.info.SendOp?
    ensures Follows(c, x)
  {
    hide FeesOf, CollectionsOf, OffersOf, OwnersOf;
    var i := x.op.info.send;
    var token := TokenKey(x.op.common.tick, i.tokenId);
    OffersShow(c.listings, token);
    if i.buyer.Some? {
      OwnersOneMore(c.owners, token, Holding(i.buyer.value, x.score));
    }
  }

  lemma OffersShow(listings: map<TokenKey, Listing>, token: TokenKey)
    ensures token in OffersOf(listings) <==> token in listings
    ensures token in listings ==> OffersOf(listings)[token] == Offer(listings[token].seller, listings[token].txId)
    ensures OffersOf(listings - {token}) == OffersOf(listings) - {token}
  {
  }

  lemma RoyaltyRule(c: Core, t: Tick, asked: Option<Royalty>, to: Script, paid: Option<Royalty>)
    requires ScannedFee(c.vip, to, t) == LastFee(c.vip, to, t)
    ensures RoyaltyError(c.vip, t, asked, to, paid)
              == if asked.None? then None
                 else if paid.None? then Some(MissingRoyaltyMintFee)
                 else if paid.value.fee < FeeFor(View(c), to, t, asked.value) then Some(InsufficientRoyaltyFee)
                 else if paid.value.beneficiary != asked.value.beneficiary then Some(InvalidBeneficiaryForRoyaltyMintFee)
                 else None
  {
    hide FeesOf, LastFee, ScannedFee, CollectionsOf, OwnersOf, OffersOf;
    FeeInForce(c.vip, to, t);
  }

  /** The fee the scan finds for a mint is the one of the latest discount. */
  ghost predicate ChargesLatest(c: Core, x: ContextOp) {
    x.op.info.MintOp? ==> ScannedFee(c.vip, x.op.info.mint.to, x.op.common.tick) == LastFee(c.vip, x.op.info.mint.to, x.op.common.tick)
  }

  lemma MintDoesNotFault(c: Core, x: ContextOp)
    requires x.op.info.MintOp? && SupplyOk(c.registry, c.mints, c.alloc)
    ensures !Mint(c, x.entropy, x.score, x.op.common, x.op.info.mint, false).MintFault?
  {
    hide Mint, SupplyOk, LastMint, NextId;
    var t, m := x.op.common.tick, x.op.info.mint;
    if t !in c.registry || LastMint(c.mints, t) >= c.registry[t].info.max {
      MintRejectsEarly(c, x.entropy, x.score, x.op.common, m, false);
    } else {
      NextIdKeepsSupply(c, t, x.entropy, x.score);
      MintTakesNextId(c, x.entropy, x.score, x.op.common, m, false);
    }
  }

  /** In a collection whose premints are done, a mint is refused by the rules or writes
      the next sequence number. */
  lemma MintVerdict(c: Core, x: ContextOp)
    requires x.op.info.MintOp? && SupplyOk(c.registry, c.mints, c.alloc) && PremintsDone(c.registry, c.mints) && ChargesLatest(c, x)
    ensures var r := Mint(c, x.entropy, x.score, x.op.common, x.op.info.mint, false);
            match Refusal(View(c), x)
            case Some(e) => r == MintRejected(e)
            case None => r.Minted?
  {
    hide RoyaltyError, LastMint, Numbered, IdsOk, FeeFor, TokenIds.Generate, TokenIds.WellFormed, TokenIds.Generated, ScannedFee, LastFee;
    var t, m := x.op.common.tick, x.op.info.mint;
    MintDoesNotFault(c, x);
    if t in c.registry {
      var d := c.registry[t].info;
      assert TickOk(c.registry, c.mints, c.alloc, t);
      CountIsLast(c.mints, t);
      RoyaltyRule(c, t, d.royalty, m.to, m.royalty);
    }
  }

  lemma MintFollows(c: Core, x: ContextOp)
    requires x.op.info.MintOp? && Inv(c) && PremintsDone(c.registry, c.mints) && ChargesLatest(c, x)
    ensures Follows(c, x)
  {
    hide ChargesLatest, Mint, TablesOk, SupplyOk, PremintsDone, Refusal, RecordMint, IsMinted, CollectionsOf, OwnersOf, FeesOf, OffersOf;
    MintVerdict(c, x);
    var t, m := x.op.common.tick, x.op.info.mint;
    MintKeeps(c, x.entropy, x.score, x.op.common, m, false);
    var r := Mint(c, x.entropy, x.score, x.op.common, m, false);
    if r.Minted? {
      MintWrites(c, x, r.core, r.tokenId);
    }
  }

  lemma MintWrites(c: Core, x: ContextOp, d: Core, id: nat)
    requires x.op.info.MintOp? && Inv(c) && PremintsDone(c.registry, c.mints)
    requires Mint(c, x.entropy, x.score, x.op.common, x.op.info.mint, false) == Minted(d, id)
    ensures Play(View(c), x.op.(info := MintOp(x.op.info.mint.(tokenId := id))), View(d))
  {
    hide Mint, TablesOk, SupplyOk, LastMint, FeesOf, OffersOf, OwnersOf, IsMinted, CollectionsOf;
    var t, to := x.op.common.tick, x.op.info.mint.to;
    MintKeeps(c, x.entropy, x.score, x.op.common, x.op.info.mint, false);
    MintShape(c, x.entropy, x.score, x.op.common, x.op.info.mint, false);
    var k := MintKey(TokenKey(t, id), LastMint(c.mints, t) + 1, x.score);
    UnmintedIsUnowned(c, k.token);
    assert k.token !in OwnersOf(c.owners) by { SameTokens(c.owners); }
    NewKeyIn(c.mints, k);
    OneMoreMint(c.registry, c.mints, k);
    IdInRange(c, d, k);
    OwnersShow(c, x, d, id);
    CollectionsShow(c, d, t);
  }

  lemma NewKeyIn(mints: set<MintKey>, k: MintKey)
    requires !IsMinted(mints, k.token)
    ensures k !in mints
  {
  }

  lemma IdInRange(c: Core, d: Core, k: MintKey)
    requires SupplyOk(d.registry, d.mints, d.alloc) && PremintsDone(c.registry, c.mints) && d.registry == c.registry
    requires k in d.mints && k.token.tick in c.registry && k.seqNo == LastMint(c.mints, k.token.tick) + 1
    ensures c.registry[k.token.tick].info.premint < k.token.tokenId <= c.registry[k.token.tick].info.max
  {
    hide LastMint, Numbered, TokenIds.WellFormed, TokenIds.Generated;
    assert TickOk(d.registry, d.mints, d.alloc, k.token.tick);
  }

  lemma OwnersShow(c: Core, x: ContextOp, d: Core, id: nat)
    requires x.op.info.MintOp? && Mint(c, x.entropy, x.score, x.op.common, x.op.info.mint, false) == Minted(d, id)
    ensures OwnersOf(d.owners) == OwnersOf(c.owners)[TokenKey(x.op.common.tick, id) := x.op.info.mint.to]
    ensures d.registry == c.registry && d.listings == c.listings && d.vip == c.vip
  {
    hide Mint, LastMint;
    MintShape(c, x.entropy, x.score, x.op.common, x.op.info.mint, false);
  }

  lemma SameTokens(owners: map<TokenKey, Holding>)
    ensures OwnersOf(owners).Keys == owners.Keys
  {
  }

  lemma CollectionsShow(c: Core, d: Core, t: Tick)
    requires t in c.registry
    ensures t in CollectionsOf(c.registry, c.mints)
    ensures CollectionsOf(c.registry, c.mints)[t] == Collection(c.registry[t].info, |MintsOf(c.mints, t)|)
  {
  }

  // ---------------------------------------------------------------- deployments

  /** The first `n` premints hand out 1 ..= n and nothing else. */
  ghost predicate HandsOut(c: Core, d: Core, t: Tick, info: DeployInfo, n: nat) {
    && d.registry == c.registry && d.listings == c.listings && d.vip == c.vip
    && OwnersOf(d.owners) == OwnersOf(c.owners) + Premint(t, info, n)
    && |MintsOf(d.mints, t)| == n
    && (forall u :: u != t ==> MintsOf(d.mints, u) == MintsOf(c.mints, u))
  }

  lemma HandsOutOneMore(b: Core, c: Core, t: Tick, info: DeployInfo, n: nat, score: nat)
    requires HandsOut(b, c, t, info, n) && !IsMinted(c.mints, TokenKey(t, n + 1))
    ensures HandsOut(b, RecordMint(c, score, TokenKey(t, n + 1), n + 1, info.deployer), t, info, n + 1)
  {
    hide MintsOf, OwnersOf, Premint, IsMinted;
    var d := RecordMint(c, score, TokenKey(t, n + 1), n + 1, info.deployer);
    var k := MintKey(TokenKey(t, n + 1), n + 1, score);
    NewKeyIn(c.mints, k);
    MintsOneMore(c.mints, k);
    OwnersOneMore(c.owners, k.token, Holding(info.deployer, score));
    PremintOneMore(t, info, n);
    Joined(OwnersOf(b.owners), Premint(t, info, n), k.token, info.deployer);
  }

  lemma Joined(m: map<TokenKey, Script>, p: map<TokenKey, Script>, token: TokenKey, to: Script)
    ensures (m + p)[token := to] == m + p[token := to]
  {
  }

  lemma MintsOneMore(mints: set<MintKey>, k: MintKey)
    requires k !in mints
    ensures |MintsOf(mints + {k}, k.token.tick)| == |MintsOf(mints, k.token.tick)| + 1
    ensures forall u :: u != k.token.tick ==> MintsOf(mints + {k}, u) == MintsOf(mints, u)
  {
    assert MintsOf(mints + {k}, k.token.tick) == MintsOf(mints, k.token.tick) + {k};
  }

  lemma OwnersOneMore(owners: map<TokenKey, Holding>, token: TokenKey, h: Holding)
    ensures OwnersOf(owners[token := h]) == OwnersOf(owners)[token := h.spk]
  {
  }

  lemma PremintOneMore(t: Tick, d: DeployInfo, n: nat)
    ensures Premint(t, d, n + 1) == Premint(t, d, n)[TokenKey(t, n + 1) := d.deployer]
  {
    assert TokenIds.Span(0, n + 1) == TokenIds.Span(0, n) + {n + 1};
  }

  lemma NothingHandedOut(c: Core, t: Tick, info: DeployInfo)
    requires LastMint(c.mints, t) == 0 && Numbered(c.mints, t)
    ensures HandsOut(c, c, t, info, 0)
  {
    CountIsLast(c.mints, t);
    assert Premint(t, info, 0) == map[];
  }

  lemma {:induction false} PremintsFollow(c: Core, score: nat, common: Common, d: DeployInfo, n: nat)
    requires Inv(c) && common.tick in c.registry && c.registry[common.tick].info == d
    requires LastMint(c.mints, common.tick) == 0 && n <= d.premint <= d.max
    ensures var r := Premints(c, score, common, d, n);
            r.Applied? && r.error.None? && HandsOut(c, r.core, common.tick, d, n)
  {
    hide TablesOk, SupplyOk, HandsOut, Mint, RecordMint, LastMint, IsMinted;
    var t := common.tick;
    if n == 0 {
      assert Numbered(c.mints, t) by { NumberedOfSupply(c, t); }
      NothingHandedOut(c, t, d);
    } else {
      PremintsFollow(c, score, common, d, n - 1);
      PremintsKeep(c, score, common, d, n - 1);
      var before := Premints(c, score, common, d, n - 1).core;
      PremintWrites(before, score, common, d);
      MintKeeps(before, 0, score, common, MintInfo(0, d.deployer, None), true);
      HandsOutOneMore(c, before, t, d, n - 1, score);
    }
  }

  lemma NumberedOfSupply(c: Core, t: Tick)
    requires SupplyOk(c.registry, c.mints, c.alloc) && t in c.registry
    ensures Numbered(c.mints, t)
  {
    hide Numbered, IdsOk, LastMint, TokenIds.WellFormed;
    assert TickOk(c.registry, c.mints, c.alloc, t);
  }

  lemma DeployFollows(c: Core, x: ContextOp)
    requires x.op.info.DeployOp? && Good(c, x.score) && ValidOp(x.op)
    ensures Follows(c, x)
  {
    hide Premints, TablesOk, SupplyOk, Bounded, PremintsDone, LastMint, FeesOf, OffersOf, OwnersOf, MintsOf, CollectionsOf, HandsOut, Premint;
    var common, d := x.op.common, x.op.info.deploy;
    RegistryIsBounded(c, x.score);
    SameTicks(c.registry, c.mints);
    if common.tick !in c.registry {
      var registered := Register(c, x.score, common, d);
      RegisterKeepsTables(c, x.score, common, d);
      RegisterKeepsSupply(c, x.score, common, d);
      PremintsFollow(registered, x.score, common, d, d.premint);
      HandedOutShows(c, Premints(registered, x.score, common, d, d.premint).core, x.score, common, d);
    }
  }

  lemma SameTicks(registry: map<Tick, Deployment>, mints: set<MintKey>)
    ensures CollectionsOf(registry, mints).Keys == registry.Keys
  {
  }

  /** The view of a ledger in which a new collection was handed out. */
  lemma HandedOutShows(c: Core, e: Core, score: nat, common: Common, d: DeployInfo)
    requires HandsOut(Register(c, score, common, d), e, common.tick, d, d.premint)
    ensures var w, t := View(c), common.tick;
            View(e) == w.(collections := w.collections[t := Collection(d, d.premint)], owner := w.owner + Premint(t, d, d.premint))
  {
    hide FeesOf, OffersOf, OwnersOf, MintsOf, Premint;
    var t := common.tick;
    assert CollectionsOf(e.registry, e.mints) == CollectionsOf(c.registry, c.mints)[t := Collection(d, d.premint)];
  }

  // ---------------------------------------------------------------- every operation

  lemma EffectFollows(c: Core, x: ContextOp)
    requires Good(c, x.score) && ValidOp(x.op) && ChargesLatest(c, x)
    ensures Follows(c, x)
  {
    hide ChargesLatest, Follows, TablesOk, SupplyOk, PremintsDone;
    match x.op.info
    case DeployOp(_) => DeployFollows(c, x);
    case MintOp(_) => MintFollows(c, x);
    case TransferOp(_) => TransferFollows(c, x);
    case DiscountOp(_) => DiscountFollows(c, x);
    case ListOp(_) => ListFollows(c, x);
    case SendOp(_) => SendFollows(c, x);
  }

  /** The log holds the operation itself; of a mint, with the id it drew. */
  predicate RecordedAs(op: Operation, recorded: Operation) {
    && recorded.common == op.common
    && (if op.info.MintOp? then recorded.info.MintOp? && recorded.info.mint == op.info.mint.(tokenId := recorded.info.mint.tokenId)
        else recorded == op)
  }

  lemma RecordsIt(c: Core, x: ContextOp)
    ensures var e := EffectOf(c, x); e.Effect? ==> RecordedAs(x.op, e.recorded)
  {
    hide Mint, Deploy, Transfer, Discount, List, Send;
  }

  lemma ReceiverIsAddress(op: Operation)
    requires ValidOp(op)
    ensures op.info.MintOp? ==> AddressScript(op.info.mint.to)
  {
  }

  /** After any valid history a mint is charged by the scan as the rules say. */
  lemma ChargesLatestAfter(h: seq<ContextOp>, x: ContextOp)
    requires ValidHistory(h) && ValidOp(x.op)
    ensures ChargesLatest(Run(h), x)
  {
    hide ValidHistory, ValidOp, AddressScript, Run, ScannedFee, LastFee;
    ReceiverIsAddress(x.op);
    if x.op.info.MintOp? {
      FeeScanIsRight(h, x.op.info.mint.to, x.op.common.tick);
    }
  }

  /** In every state a valid history reaches, the next operation is accepted exactly when
      no rule is broken and otherwise logged with the rule it breaks; an accepted one
      changes the world as the rules say, and a refused one changes no table but the log. */
  lemma OperationsFollowTheRules(h: seq<ContextOp>)
    requires h != [] && ValidHistory(h)
    ensures var c, x, d := Run(h[..|h| - 1]), h[|h| - 1], Run(h);
            && x.score in d.ops
            && RecordedAs(x.op, d.ops[x.score].op)
            && d.ops[x.score].error == Refusal(View(c), x)
            && (Refusal(View(c), x).None? ==> Play(View(c), d.ops[x.score].op, View(d)))
            && (Refusal(View(c), x).Some? ==> d == Log(c, x.score, x.op, Refusal(View(c), x)))
  {
    hide Good, AddsOnly, EffectOf, ValidHistory, Refusal, Play, ValidOp, RecordedAs, CollectionsOf, OwnersOf, OffersOf, FeesOf, ScannedFee,
      LastFee, ChargesLatest;
    RecordsIt(Run(h[..|h| - 1]), h[|h| - 1]);
    RunStep(h);
    PrefixIsValid(h);
    ChargesLatestAfter(h[..|h| - 1], h[|h| - 1]);
    EffectFollows(Run(h[..|h| - 1]), h[|h| - 1]);
  }
}
