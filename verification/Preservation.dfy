/** Every operation keeps the invariants and never aborts. */
module Preservation {
  import opened Model
  import opened Ledger
  import opened Invariants
  import TokenIds

  // ---------------------------------------------------------------- other collections

  lemma OthersStayWellFormed(a: TokenIds.Alloc, b: TokenIds.Alloc, t: Tick, u: Tick, premint: nat, max: nat)
    requires TokenIds.SameForOthers(a, b, t) && u != t
    ensures TokenIds.WellFormed(a, u, premint, max) ==> TokenIds.WellFormed(b, u, premint, max)
    ensures TokenIds.Untouched(a, u) ==> TokenIds.Untouched(b, u)
    ensures TokenIds.Generated(a, u) == TokenIds.Generated(b, u)
  {
    TokenIds.GeneratedMembers(a, u);
    TokenIds.GeneratedMembers(b, u);
    assert forall i: nat :: RangeKey(u, i) in a.ranges <==> RangeKey(u, i) in b.ranges;
    assert TokenIds.Length(a, u) == TokenIds.Length(b, u);
    forall id: nat ensures TokenIds.Free(a, u, id) <==> TokenIds.Free(b, u, id) {
      assert forall i: nat :: RangeKey(u, i) in a.ranges ==> a.ranges[RangeKey(u, i)] == b.ranges[RangeKey(u, i)];
    }
  }

  lemma LastMintOfOthers(mints: set<MintKey>, k: MintKey, u: Tick)
    requires u != k.token.tick
    ensures MintSeqs(mints + {k}, u) == MintSeqs(mints, u)
    ensures LastMint(mints + {k}, u) == LastMint(mints, u)
  {
    assert MintSeqs(mints + {k}, u) == MintSeqs(mints, u);
  }

  lemma NextMint(mints: set<MintKey>, k: MintKey)
    requires Numbered(mints, k.token.tick) && k.seqNo == LastMint(mints, k.token.tick) + 1
    requires !IsMinted(mints, k.token)
    ensures LastMint(mints + {k}, k.token.tick) == k.seqNo
    ensures Numbered(mints + {k}, k.token.tick)
  {
    var t := k.token.tick;
    assert MintSeqs(mints + {k}, t) == MintSeqs(mints, t) + {k.seqNo};
    forall l | l in mints && l.token.tick == t ensures l.seqNo != k.seqNo && l.token != k.token {
      assert l.seqNo in MintSeqs(mints, t);
    }
  }

  lemma OthersStayOk(mints: set<MintKey>, k: MintKey, a: TokenIds.Alloc, b: TokenIds.Alloc, u: Tick, premint: nat, max: nat)
    requires u != k.token.tick && TokenIds.SameForOthers(a, b, k.token.tick)
    requires CollectionOk(mints, a, u, premint, max)
    ensures CollectionOk(mints + {k}, b, u, premint, max)
  {
    LastMintOfOthers(mints, k, u);
    OthersStayWellFormed(a, b, k.token.tick, u, premint, max);
    forall token | token in b.meta && token.tick == u ensures IsMinted(mints + {k}, token) {
      assert IsMinted(mints, token);
      var l :| l in mints && l.token == token;
      assert l in mints + {k};
    }
  }

  // ---------------------------------------------------------------- mint

  /** The id of the mint `k` is the next premint, or one drawn from `a`, which leaves `b`. */
  ghost predicate TakesId(mints: set<MintKey>, k: MintKey, a: TokenIds.Alloc, b: TokenIds.Alloc, premint: nat, max: nat) {
    && k.seqNo == LastMint(mints, k.token.tick) + 1
    && !IsMinted(mints, k.token)
    && (if k.seqNo <= premint then b == a && k.token.tokenId == k.seqNo
        else
          && premint < k.token.tokenId <= max && k.token !in a.meta
          && TokenIds.Generated(b, k.token.tick) == TokenIds.Generated(a, k.token.tick) + {k.token.tokenId})
  }

  lemma MetaAfterMint(k: MintKey, a: TokenIds.Alloc, b: TokenIds.Alloc)
    requires var t := k.token.tick; TokenIds.Generated(b, t) == TokenIds.Generated(a, t) + {k.token.tokenId}
    ensures forall token: TokenKey :: token.tick == k.token.tick ==> (token in b.meta <==> token in a.meta || token == k.token)
  {
    hide TokenIds.Generated;
    var t := k.token.tick;
    TokenIds.GeneratedMembers(a, t);
    TokenIds.GeneratedMembers(b, t);
    forall token: TokenKey | token.tick == t ensures token in b.meta <==> token in a.meta || token == k.token {
      assert token == TokenKey(t, token.tokenId);
    }
  }

  lemma OneMoreIsMinted(mints: set<MintKey>, k: MintKey, token: TokenKey)
    ensures IsMinted(mints + {k}, token) <==> IsMinted(mints, token) || token == k.token
  {
    if IsMinted(mints, token) {
      var l :| l in mints && l.token == token;
      assert l in mints + {k};
    }
    assert k in mints + {k};
  }

  lemma IdsAfterMint(mints: set<MintKey>, k: MintKey, a: TokenIds.Alloc, b: TokenIds.Alloc, premint: nat, max: nat)
    requires IdsOk(mints, a, k.token.tick, premint, max) && TakesId(mints, k, a, b, premint, max)
    ensures IdsOk(mints + {k}, b, k.token.tick, premint, max)
  {
    hide IsMinted, LastMint, TokenIds.Generated;
    if k.seqNo > premint { MetaAfterMint(k, a, b); }
    forall token: TokenKey ensures IsMinted(mints + {k}, token) <==> IsMinted(mints, token) || token == k.token {
      OneMoreIsMinted(mints, k, token);
    }
  }

  lemma CountAfterMint(mints: set<MintKey>, k: MintKey, a: TokenIds.Alloc, b: TokenIds.Alloc, premint: nat, max: nat)
    requires TakesId(mints, k, a, b, premint, max)
    requires |TokenIds.Generated(a, k.token.tick)| == DrawnCount(k.seqNo - 1, premint)
    ensures |TokenIds.Generated(b, k.token.tick)| == DrawnCount(k.seqNo, premint)
  {
    hide IsMinted, LastMint, TokenIds.Generated;
    TokenIds.GeneratedMembers(a, k.token.tick);
    if k.seqNo > premint {
      assert k.token == TokenKey(k.token.tick, k.token.tokenId);
    }
  }

  /** The mint `k` leaves its collection in order, whether its id was the next premint or drawn. */
  lemma CollectionAfterMint(mints: set<MintKey>, k: MintKey, a: TokenIds.Alloc, b: TokenIds.Alloc, premint: nat, max: nat)
    requires CollectionOk(mints, a, k.token.tick, premint, max) && TakesId(mints, k, a, b, premint, max)
    requires k.seqNo <= max && (k.seqNo > premint ==> TokenIds.WellFormed(b, k.token.tick, premint, max))
    ensures CollectionOk(mints + {k}, b, k.token.tick, premint, max)
  {
    hide LastMint, Numbered, IdsOk, IsMinted, TokenIds.WellFormed, TokenIds.Generated, DrawnCount;
    NextMint(mints, k);
    IdsAfterMint(mints, k, a, b, premint, max);
    CountAfterMint(mints, k, a, b, premint, max);
  }

  /** An id not yet minted: the next premint, or one the allocator has not drawn. */
  lemma NextIdIsNew(mints: set<MintKey>, a: TokenIds.Alloc, t: Tick, premint: nat, max: nat, id: nat)
    requires CollectionOk(mints, a, t, premint, max)
    requires (id == LastMint(mints, t) + 1 <= premint) || (premint < id && TokenKey(t, id) !in a.meta)
    ensures !IsMinted(mints, TokenKey(t, id))
  {
    forall k | k in mints ensures k.token != TokenKey(t, id) {
      if k.token.tick == t { assert k.seqNo in MintSeqs(mints, t); }
    }
  }

  /** What `Mint` does to the collection: the draw succeeds and gives a new id. */
  lemma DrawForMint(c: Core, t: Tick, entropy: nat)
    requires SupplyOk(c.registry, c.mints, c.alloc) && t in c.registry
    requires var d := c.registry[t].info; d.premint <= LastMint(c.mints, t) < d.max
    ensures var d := c.registry[t].info;
            var draw := TokenIds.Generate(c.alloc, t, entropy, d.max, d.premint);
            && draw.Drawn?
            && d.premint < draw.tokenId <= d.max
            && TokenKey(t, draw.tokenId) !in c.alloc.meta
            && TokenIds.Moved(c.alloc, draw.alloc, t, draw.tokenId, d.premint, d.max)
            && TokenIds.Undo(draw.alloc, t, draw.tokenId) == Some(c.alloc)
  {
    var d := c.registry[t].info;
    assert TickOk(c.registry, c.mints, c.alloc, t);
    TokenIds.RoomByCount(c.alloc, t, d.premint, d.max);
    TokenIds.UndoRevertsGenerate(c.alloc, t, entropy, d.max, d.premint);
    TokenIds.GenerateKeepsPartition(c.alloc, t, entropy, d.max, d.premint);
  }

  lemma SupplyAfterMint(registry: map<Tick, Deployment>, mints: set<MintKey>, k: MintKey, a: TokenIds.Alloc, b: TokenIds.Alloc)
    requires SupplyOk(registry, mints, a) && k.token.tick in registry
    requires TokenIds.SameForOthers(a, b, k.token.tick)
    requires TickOk(registry, mints + {k}, b, k.token.tick)
    ensures SupplyOk(registry, mints + {k}, b)
  {
    forall u | u in registry ensures TickOk(registry, mints + {k}, b, u) {
      if u != k.token.tick {
        assert TickOk(registry, mints, a, u);
        OthersStayOk(mints, k, a, b, u, registry[u].info.premint, registry[u].info.max);
      }
    }
    forall u | u !in registry ensures TokenIds.Untouched(b, u) {
      OthersStayWellFormed(a, b, k.token.tick, u, 0, 0);
    }
  }

  lemma MintedGrows(mints: set<MintKey>, k: MintKey, owners: map<TokenKey, Holding>, to: Holding)
    requires OwnedAreMinted(owners, mints)
    ensures OwnedAreMinted(owners[k.token := to], mints + {k})
  {
    forall t | t in owners[k.token := to] ensures IsMinted(mints + {k}, t) {
      if t == k.token {
        assert k in mints + {k};
      } else {
        assert IsMinted(mints, t);
        var l :| l in mints && l.token == t;
        assert l in mints + {k};
      }
    }
  }

  lemma UnmintedIsUnowned(c: Core, token: TokenKey)
    requires TablesOk(c) && !IsMinted(c.mints, token)
    ensures token !in c.owners && forall h :: h in c.history ==> h.token != token
  {
  }

  /** The token a mint is about to write is new, so recording it keeps everything. */
  lemma RecordMintKeeps(c: Core, b: TokenIds.Alloc, score: nat, token: TokenKey, seqNo: nat, to: Script)
    requires TablesOk(c) && !IsMinted(c.mints, token) && seqNo >= 1
    ensures TablesOk(RecordMint(c.(alloc := b), score, token, seqNo, to))
  {
    var k := ChangeKey(score, token, seqNo);
    UnmintedIsUnowned(c, token);
    NewOwnerKeepsOwnership(c.changes, c.history, c.owners, c.holdings, k, to);
    MintedGrows(c.mints, MintKey(token, seqNo, score), c.owners, Holding(to, score));
    NewMintMatches(c.mints, c.changes, k);
    ListingsIgnoreNewToken(c.listings, c.listingsByTick, c.owners, c.ops, token, Holding(to, score));
  }

  lemma NewMintMatches(mints: set<MintKey>, changes: set<ChangeKey>, k: ChangeKey)
    requires MintsMatchChanges(mints, changes) && k.seqNo >= 1
    ensures MintsMatchChanges(mints + {MintKey(k.token, k.seqNo, k.score)}, changes + {k})
  {
  }

  lemma ListingsIgnoreNewToken(listings: map<TokenKey, Listing>, listingsByTick: set<TokenKey>,
                               owners: map<TokenKey, Holding>, ops: map<nat, CheckedOp>, token: TokenKey, to: Holding)
    requires ListingsOk(listings, listingsByTick, owners, ops) && token !in listings
    ensures ListingsOk(listings, listingsByTick, owners[token := to], ops)
  {
  }

  /** The id the next mint of `t` gets and the allocator after it. */
  function NextId(c: Core, t: Tick, entropy: nat): Option<(nat, TokenIds.Alloc)>
    requires t in c.registry
  {
    var d := c.registry[t].info;
    var last := LastMint(c.mints, t);
    if last < d.premint || d.premint >= d.max then Some((last + 1, c.alloc))
    else
      match TokenIds.Generate(c.alloc, t, entropy, d.max, d.premint)
      case Drawn(alloc, id) => Some((id, alloc))
      case Panicked => None
  }

  lemma NextIdKeepsSupply(c: Core, t: Tick, entropy: nat, score: nat)
    requires SupplyOk(c.registry, c.mints, c.alloc) && t in c.registry
    requires LastMint(c.mints, t) < c.registry[t].info.max
    ensures NextId(c, t, entropy).Some?
    ensures var (id, b) := NextId(c, t, entropy).value;
            var k := MintKey(TokenKey(t, id), LastMint(c.mints, t) + 1, score);
            && !IsMinted(c.mints, k.token)
            && SupplyOk(c.registry, c.mints + {k}, b)
            && LastMint(c.mints + {k}, t) == LastMint(c.mints, t) + 1
  {
    hide LastMint, Numbered, IdsOk, IsMinted, TokenIds.WellFormed, TokenIds.Generated, TokenIds.Untouched, TokenIds.Generate;
    var d := c.registry[t].info;
    var seqNo := LastMint(c.mints, t) + 1;
    assert TickOk(c.registry, c.mints, c.alloc, t);
    if d.premint < seqNo {
      DrawForMint(c, t, entropy);
    }
    var (id, b) := NextId(c, t, entropy).value;
    var k := MintKey(TokenKey(t, id), seqNo, score);
    NextIdIsNew(c.mints, c.alloc, t, d.premint, d.max, id);
    NextMint(c.mints, k);
    CollectionAfterMint(c.mints, k, c.alloc, b, d.premint, d.max);
    SupplyAfterMint(c.registry, c.mints, k, c.alloc, b);
  }

  lemma MintTakesNextId(c: Core, entropy: nat, score: nat, common: Common, m: MintInfo, isDeployment: bool)
    requires common.tick in c.registry && NextId(c, common.tick, entropy).Some?
    ensures var r := Mint(c, entropy, score, common, m, isDeployment);
            var (id, b) := NextId(c, common.tick, entropy).value;
            var seqNo := LastMint(c.mints, common.tick) + 1;
            && !r.MintFault?
            && (r.Minted? ==>
                  && seqNo <= c.registry[common.tick].info.max
                  && r == Minted(RecordMint(c.(alloc := b), score, TokenKey(common.tick, id), seqNo, m.to), id))
  {
  }

  lemma MintRejectsEarly(c: Core, entropy: nat, score: nat, common: Common, m: MintInfo, isDeployment: bool)
    requires common.tick !in c.registry || LastMint(c.mints, common.tick) >= c.registry[common.tick].info.max
    ensures Mint(c, entropy, score, common, m, isDeployment).MintRejected?
  {
  }

  /** What an accepted mint leaves behind. */
  ghost predicate MintedOk(c: Core, score: nat, t: Tick, after: Core, id: nat) {
    && TablesOk(after)
    && SupplyOk(after.registry, after.mints, after.alloc)
    && !IsMinted(c.mints, TokenKey(t, id))
    && after.mints == c.mints + {MintKey(TokenKey(t, id), LastMint(c.mints, t) + 1, score)}
    && LastMint(after.mints, t) == LastMint(c.mints, t) + 1
  }

  lemma NextIdIsOk(c: Core, t: Tick, entropy: nat, score: nat, to: Script)
    requires Inv(c) && t in c.registry && LastMint(c.mints, t) < c.registry[t].info.max
    ensures NextId(c, t, entropy).Some?
    ensures var (id, b) := NextId(c, t, entropy).value;
            MintedOk(c, score, t, RecordMint(c.(alloc := b), score, TokenKey(t, id), LastMint(c.mints, t) + 1, to), id)
  {
    NextIdKeepsSupply(c, t, entropy, score);
    var (id, b) := NextId(c, t, entropy).value;
    RecordMintKeeps(c, b, score, TokenKey(t, id), LastMint(c.mints, t) + 1, to);
  }

  /** A mint never aborts; an accepted one takes the next sequence number and a new id. */
  lemma MintKeeps(c: Core, entropy: nat, score: nat, common: Common, m: MintInfo, isDeployment: bool)
    requires Inv(c)
    ensures var r := Mint(c, entropy, score, common, m, isDeployment);
            && !r.MintFault?
            && (r.Minted? ==> common.tick in c.registry && MintedOk(c, score, common.tick, r.core, r.tokenId))
  {
    var t := common.tick;
    if t !in c.registry || LastMint(c.mints, t) >= c.registry[t].info.max {
      MintRejectsEarly(c, entropy, score, common, m, isDeployment);
    } else {
      NextIdIsOk(c, t, entropy, score, m.to);
      MintTakesNextId(c, entropy, score, common, m, isDeployment);
    }
  }

  // ---------------------------------------------------------------- deploy

  lemma RegisterKeepsTables(c: Core, score: nat, common: Common, d: DeployInfo)
    requires TablesOk(c) && common.tick !in c.registry
    ensures TablesOk(Register(c, score, common, d))
  {
    hide OwnershipOk, SendsOk, OpsOk, ListingsOk, MintsMatchChanges, OwnedAreMinted;
  }

  lemma RegisterKeepsSupply(c: Core, score: nat, common: Common, d: DeployInfo)
    requires SupplyOk(c.registry, c.mints, c.alloc) && common.tick !in c.registry && d.premint <= d.max
    ensures var r := Register(c, score, common, d); SupplyOk(r.registry, r.mints, r.alloc)
    ensures LastMint(c.mints, common.tick) == 0
  {
    var t := common.tick;
    var r := Register(c, score, common, d);
    assert MintSeqs(c.mints, t) == {};
    assert TokenIds.Untouched(c.alloc, t);
    TokenIds.GeneratedMembers(c.alloc, t);
    assert TokenIds.Generated(c.alloc, t) == {};
    forall u | u in r.registry ensures TickOk(r.registry, r.mints, r.alloc, u) {
      if u != t { assert TickOk(c.registry, c.mints, c.alloc, u); }
    }
    forall u | u !in r.registry ensures TokenIds.Untouched(r.alloc, u) {
      assert u !in c.registry;
    }
  }

  /** A premint takes its sequence number as id and draws nothing. */
  lemma PremintWrites(c: Core, score: nat, common: Common, d: DeployInfo)
    requires common.tick in c.registry && c.registry[common.tick].info == d
    requires LastMint(c.mints, common.tick) < d.premint <= d.max
    ensures var n := LastMint(c.mints, common.tick) + 1;
            Mint(c, 0, score, common, MintInfo(0, d.deployer, None), true)
              == Minted(RecordMint(c, score, TokenKey(common.tick, n), n, d.deployer), n)
  {
    hide LastMint, TokenIds.Generate, RoyaltyError;
  }

  /** What the first `n` premints of a deployment leave behind. */
  ghost predicate PremintedOk(c: Core, t: Tick, n: nat, r: Outcome) {
    && r.Applied? && r.error.None?
    && TablesOk(r.core)
    && SupplyOk(r.core.registry, r.core.mints, r.core.alloc)
    && LastMint(r.core.mints, t) == n
    && (forall u :: u != t ==> LastMint(r.core.mints, u) == LastMint(c.mints, u))
    && r.core.registry == c.registry
  }

  lemma {:induction false} PremintsKeep(c: Core, score: nat, common: Common, d: DeployInfo, n: nat)
    requires Inv(c) && common.tick in c.registry && c.registry[common.tick].info == d
    requires LastMint(c.mints, common.tick) == 0 && n <= d.premint <= d.max
    ensures PremintedOk(c, common.tick, n, Premints(c, score, common, d, n))
  {
    hide TablesOk, SupplyOk;
    if n > 0 {
      PremintsKeep(c, score, common, d, n - 1);
      var before := Premints(c, score, common, d, n - 1).core;
      var m := MintInfo(0, d.deployer, None);
      PremintWrites(before, score, common, d);
      MintKeeps(before, 0, score, common, m, true);
      var r := Mint(before, 0, score, common, m, true);
      forall u | u != common.tick ensures LastMint(r.core.mints, u) == LastMint(before.mints, u) {
        LastMintOfOthers(before.mints, MintKey(TokenKey(common.tick, r.tokenId), n, score), u);
      }
    }
  }

  // ---------------------------------------------------------------- transfer, discount and send

  lemma MovedTokenKeeps(c: Core, score: nat, token: TokenKey, to: Script)
    requires TablesOk(c) && token in c.owners && token !in c.listings
    requires forall k :: k in c.changes ==> k.score < score
    ensures TablesOk(RecordOwner(c, score, token, 0, to).(
                       holdings := Vacated(c.owners, c.holdings, token)[HoldingKey(to, token) := score]))
  {
    hide OwnershipOk, SendsOk, OpsOk, RegistryOk, ListingsOk, Vacated, MintsMatchChanges, OwnedAreMinted;
    var k := ChangeKey(score, token, 0);
    HistoryIsBounded(c, score);
    NewOwnerKeepsOwnership(c.changes, c.history, c.owners, c.holdings, k, to);
    ListingsIgnoreNewToken(c.listings, c.listingsByTick, c.owners, c.ops, token, Holding(to, score));
    TransferIsNoMint(c.mints, c.changes, c.owners, k, Holding(to, score));
  }

  lemma TransferIsNoMint(mints: set<MintKey>, changes: set<ChangeKey>, owners: map<TokenKey, Holding>, k: ChangeKey, to: Holding)
    requires MintsMatchChanges(mints, changes) && OwnedAreMinted(owners, mints) && k.seqNo == 0 && k.token in owners
    ensures MintsMatchChanges(mints, changes + {k}) && OwnedAreMinted(owners[k.token := to], mints)
  {
  }

  lemma HistoryIsBounded(c: Core, score: nat)
    requires TablesOk(c) && forall k :: k in c.changes ==> k.score < score
    ensures forall h :: h in c.history ==> h.score < score
  {
    forall h | h in c.history ensures h.score < score {
      var k :| k in c.changes && k.token == h.token && k.score == h.score;
    }
  }

  function Delisted(c: Core, token: TokenKey): Core {
    c.(listings := c.listings - {token}, listingsByTick := c.listingsByTick - {token})
  }

  lemma DelistedKeeps(c: Core, token: TokenKey)
    requires TablesOk(c)
    ensures TablesOk(Delisted(c, token))
  {
    hide OwnershipOk, SendsOk, OpsOk, RegistryOk, MintsMatchChanges, OwnedAreMinted, Backed;
  }

  lemma ListedIsOwned(c: Core, token: TokenKey)
    requires TablesOk(c) && token in c.listings
    ensures token in c.owners && c.owners[token].spk == c.listings[token].seller
  {
  }

  lemma TransferKeeps(c: Core, score: nat, common: Common, info: TransferInfo)
    requires TablesOk(c) && forall k :: k in c.changes ==> k.score < score
    ensures Transfer(c, score, common, info).Applied?
    ensures TablesOk(Transfer(c, score, common, info).core)
  {
    hide TablesOk;
    if Transfer(c, score, common, info).error.None? {
      MovedTokenKeeps(c, score, TokenKey(common.tick, info.tokenId), info.to);
    }
  }

  lemma SendKeeps(c: Core, score: nat, common: Common, info: SendInfo)
    requires TablesOk(c) && forall k :: k in c.changes ==> k.score < score
    ensures Send(c, score, common, info).Applied?
    ensures TablesOk(Send(c, score, common, info).core)
  {
    hide TablesOk;
    var token := TokenKey(common.tick, info.tokenId);
    if Send(c, score, common, info).error.None? {
      DelistedKeeps(c, token);
      ListedIsOwned(c, token);
      if info.buyer.Some? {
        MovedTokenKeeps(Delisted(c, token), score, token, info.buyer.value);
      }
    }
  }
}
