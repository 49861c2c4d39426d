/** What holds of the ledger tables in every state a valid history reaches. */
module Invariants {
  import opened Model
  import opened Ledger
  import TokenIds

  // ---------------------------------------------------------------- ownership

  /** `changes` and `history` hold the same changes of owner, one row each. */
  ghost predicate ChangesMatchHistory(changes: set<ChangeKey>, history: map<HistoryKey, Script>) {
    && (forall c :: c in changes ==> HistoryKey(c.token, c.score) in history)
    && (forall h :: h in history ==> exists c :: c in changes && c.token == h.token && c.score == h.score)
    && (forall c, d :: c in changes && d in changes && c.token == d.token && c.score == d.score ==> c == d)
  }

  /** `owners` holds the newest history row of every token. */
  ghost predicate OwnersAreLatest(history: map<HistoryKey, Script>, owners: map<TokenKey, Holding>) {
    && (forall h :: h in history ==> h.token in owners && h.score <= owners[h.token].score)
    && (forall t :: t in owners ==>
          HistoryKey(t, owners[t].score) in history && history[HistoryKey(t, owners[t].score)] == owners[t].spk)
  }

  /** `holdings` is the inverse of `owners`, with the same scores. */
  ghost predicate HoldingsInvertOwners(owners: map<TokenKey, Holding>, holdings: map<HoldingKey, nat>) {
    && (forall t :: t in owners ==>
          HoldingKey(owners[t].spk, t) in holdings && holdings[HoldingKey(owners[t].spk, t)] == owners[t].score)
    && (forall k :: k in holdings ==> k.token in owners && owners[k.token].spk == k.spk)
  }

  ghost predicate OwnershipOk(changes: set<ChangeKey>, history: map<HistoryKey, Script>,
                              owners: map<TokenKey, Holding>, holdings: map<HoldingKey, nat>)
  {
    && ChangesMatchHistory(changes, history)
    && OwnersAreLatest(history, owners)
    && HoldingsInvertOwners(owners, holdings)
  }

  /** The history fixes the owners and, through them, the address index. */
  lemma OwnershipIsDetermined(history: map<HistoryKey, Script>,
                              owners: map<TokenKey, Holding>, holdings: map<HoldingKey, nat>,
                              owners': map<TokenKey, Holding>, holdings': map<HoldingKey, nat>)
    requires OwnersAreLatest(history, owners) && HoldingsInvertOwners(owners, holdings)
    requires OwnersAreLatest(history, owners') && HoldingsInvertOwners(owners', holdings')
    ensures owners == owners' && holdings == holdings'
  {
    forall t | t in owners ensures t in owners' && owners'[t] == owners[t] {
      assert HistoryKey(t, owners[t].score) in history;
      assert HistoryKey(t, owners'[t].score) in history;
    }
    forall t | t in owners' ensures t in owners {
      assert HistoryKey(t, owners'[t].score) in history;
    }
    assert owners == owners';
    forall k | k in holdings ensures k in holdings' && holdings'[k] == holdings[k] {
      assert k == HoldingKey(owners[k.token].spk, k.token);
    }
    forall k | k in holdings' ensures k in holdings {
      assert k == HoldingKey(owners[k.token].spk, k.token);
    }
  }

  lemma NewChangeKeepsMatch(changes: set<ChangeKey>, history: map<HistoryKey, Script>, k: ChangeKey, to: Script)
    requires ChangesMatchHistory(changes, history) && HistoryKey(k.token, k.score) !in history
    ensures ChangesMatchHistory(changes + {k}, history[HistoryKey(k.token, k.score) := to])
  {
    var history' := history[HistoryKey(k.token, k.score) := to];
    forall h | h in history' ensures exists l :: l in changes + {k} && l.token == h.token && l.score == h.score {
      if h == HistoryKey(k.token, k.score) {
        assert k in changes + {k};
      } else {
        var l :| l in changes && l.token == h.token && l.score == h.score;
        assert l in changes + {k};
      }
    }
  }

  lemma NewOwnerIsLatest(history: map<HistoryKey, Script>, owners: map<TokenKey, Holding>, k: ChangeKey, to: Script)
    requires OwnersAreLatest(history, owners)
    requires forall h :: h in history && h.token == k.token ==> h.score < k.score
    ensures OwnersAreLatest(history[HistoryKey(k.token, k.score) := to], owners[k.token := Holding(to, k.score)])
  {
  }

  function Vacated(owners: map<TokenKey, Holding>, holdings: map<HoldingKey, nat>, token: TokenKey): map<HoldingKey, nat> {
    if token in owners then holdings - {HoldingKey(owners[token].spk, token)} else holdings
  }

  lemma MovedHoldingInverts(owners: map<TokenKey, Holding>, holdings: map<HoldingKey, nat>, token: TokenKey, to: Script, score: nat)
    requires HoldingsInvertOwners(owners, holdings)
    ensures HoldingsInvertOwners(owners[token := Holding(to, score)],
                                 Vacated(owners, holdings, token)[HoldingKey(to, token) := score])
  {
  }

  /** Recording a new owner at a score above the token's history keeps the three
      ownership indexes in step, if the address row moves along. */
  lemma NewOwnerKeepsOwnership(changes: set<ChangeKey>, history: map<HistoryKey, Script>,
                               owners: map<TokenKey, Holding>, holdings: map<HoldingKey, nat>,
                               k: ChangeKey, to: Script)
    requires OwnershipOk(changes, history, owners, holdings)
    requires forall h :: h in history && h.token == k.token ==> h.score < k.score
    ensures OwnershipOk(changes + {k}, history[HistoryKey(k.token, k.score) := to],
                        owners[k.token := Holding(to, k.score)],
                        Vacated(owners, holdings, k.token)[HoldingKey(to, k.token) := k.score])
  {
    assert HistoryKey(k.token, k.score) !in history;
    NewChangeKeepsMatch(changes, history, k, to);
    NewOwnerIsLatest(history, owners, k, to);
    MovedHoldingInverts(owners, holdings, k.token, to, k.score);
  }

  // ---------------------------------------------------------------- supply

  ghost predicate IsMinted(mints: set<MintKey>, token: TokenKey) {
    exists k :: k in mints && k.token == token
  }

  /** The mints are the changes of owner that carry a sequence number. */
  ghost predicate MintsMatchChanges(mints: set<MintKey>, changes: set<ChangeKey>) {
    && (forall k :: k in mints ==> k.seqNo >= 1 && ChangeKey(k.score, k.token, k.seqNo) in changes)
    && (forall c :: c in changes && c.seqNo >= 1 ==> MintKey(c.token, c.seqNo, c.score) in mints)
  }

  /** The sequence numbers of `t` are 1 ..= last, one mint each, with distinct ids. */
  ghost predicate Numbered(mints: set<MintKey>, t: Tick) {
    && (forall j: nat :: j in MintSeqs(mints, t) <==> 1 <= j <= LastMint(mints, t))
    && (forall k, l :: (k in mints && l in mints && k.token.tick == t && l.token.tick == t &&
                        (k.seqNo == l.seqNo || k.token == l.token)) ==> k == l)
  }

  /** How many ids a collection with `minted` mints has drawn at random. */
  function DrawnCount(minted: nat, premint: nat): nat {
    if minted > premint then minted - premint else 0
  }

  /** Premints carry their sequence number as id; every later mint carries a drawn id. */
  ghost predicate IdsOk(mints: set<MintKey>, alloc: TokenIds.Alloc, t: Tick, premint: nat, max: nat) {
    && (forall k :: k in mints && k.token.tick == t ==>
          if k.seqNo <= premint then k.token.tokenId == k.seqNo
          else premint < k.token.tokenId <= max && k.token in alloc.meta)
    && (forall token :: token in alloc.meta && token.tick == t ==> IsMinted(mints, token))
  }

  ghost predicate CollectionOk(mints: set<MintKey>, alloc: TokenIds.Alloc, t: Tick, premint: nat, max: nat) {
    && premint <= max
    && Numbered(mints, t)
    && LastMint(mints, t) <= max
    && TokenIds.WellFormed(alloc, t, premint, max)
    && |TokenIds.Generated(alloc, t)| == DrawnCount(LastMint(mints, t), premint)
    && IdsOk(mints, alloc, t, premint, max)
  }

  ghost predicate TickOk(registry: map<Tick, Deployment>, mints: set<MintKey>, alloc: TokenIds.Alloc, t: Tick)
    requires t in registry
  {
    CollectionOk(mints, alloc, t, registry[t].info.premint, registry[t].info.max)
  }

  ghost predicate SupplyOk(registry: map<Tick, Deployment>, mints: set<MintKey>, alloc: TokenIds.Alloc) {
    && (forall t {:trigger TickOk(registry, mints, alloc, t)} :: t in registry ==> TickOk(registry, mints, alloc, t))
    && (forall t {:trigger TokenIds.Untouched(alloc, t)} :: t !in registry ==> TokenIds.Untouched(alloc, t))
    && (forall k :: k in mints ==> k.token.tick in registry)
  }

  ghost predicate OwnedAreMinted(owners: map<TokenKey, Holding>, mints: set<MintKey>) {
    forall t :: t in owners ==> IsMinted(mints, t)
  }

  /** Deployments are atomic: every registered collection has all its premints. */
  ghost predicate PremintsDone(registry: map<Tick, Deployment>, mints: set<MintKey>) {
    forall t :: t in registry ==> registry[t].info.premint <= LastMint(mints, t)
  }

  ghost predicate RegistryOk(registry: map<Tick, Deployment>, deployments: map<DeploymentKey, Deployment>) {
    && (forall t :: t in registry ==>
          && DeploymentKey(registry[t].score, t) in deployments
          && deployments[DeploymentKey(registry[t].score, t)] == registry[t])
    && (forall k :: k in deployments ==> k.tick in registry && registry[k.tick].score == k.score)
  }

  // ---------------------------------------------------------------- log and market

  /** `opScores` is the inverse of the log. */
  ghost predicate OpsOk(ops: map<nat, CheckedOp>, opScores: map<TxId, nat>) {
    && (forall s :: s in ops ==> ops[s].op.common.txId in opScores && opScores[ops[s].op.common.txId] == s)
    && (forall x :: x in opScores ==> opScores[x] in ops && ops[opScores[x]].op.common.txId == x)
  }

  /** The log holds at `score` a successful List of `token`. */
  ghost predicate ListedAt(ops: map<nat, CheckedOp>, token: TokenKey, score: nat) {
    && score in ops
    && ops[score].error.None?
    && ops[score].op.info.ListOp?
    && token == TokenKey(ops[score].op.common.tick, ops[score].op.info.list.tokenId)
  }

  /** `v` is what the List logged at its score wrote for `token`. */
  ghost predicate Backed(ops: map<nat, CheckedOp>, token: TokenKey, v: Listing) {
    && ListedAt(ops, token, v.score)
    && v == ListingOf(v.score, ops[v.score].op.common, ops[v.score].op.info.list)
  }

  /** Every listing is backed by a logged List, and its seller owns the token. */
  ghost predicate ListingsOk(listings: map<TokenKey, Listing>, listingsByTick: set<TokenKey>,
                             owners: map<TokenKey, Holding>, ops: map<nat, CheckedOp>)
  {
    && listingsByTick == listings.Keys
    && (forall t :: t in listings ==>
          && Backed(ops, t, listings[t])
          && t in owners && owners[t].spk == listings[t].seller)
  }

  predicate IsSale(o: CheckedOp) {
    o.error.None? && o.op.info.SendOp?
  }

  function SentToken(o: CheckedOp): TokenKey
    requires o.op.info.SendOp?
  {
    TokenKey(o.op.common.tick, o.op.info.send.tokenId)
  }

  /** Every successful Send names an earlier successful List of the same token. */
  ghost predicate SendsOk(ops: map<nat, CheckedOp>, opScores: map<TxId, nat>) {
    forall s :: s in ops && IsSale(ops[s]) ==>
      && ops[s].op.info.send.listingTxId in opScores
      && opScores[ops[s].op.info.send.listingTxId] < s
      && ListedAt(ops, SentToken(ops[s]), opScores[ops[s].op.info.send.listingTxId])
  }

  /** Every row was written by an operation below `bound`. */
  ghost predicate Bounded(c: Core, bound: nat) {
    && (forall s :: s in c.ops ==> s < bound)
    && (forall k :: k in c.changes ==> k.score < bound)
    && (forall k :: k in c.deployments ==> k.score < bound)
    && (forall k :: k in c.vip ==> k.score < bound)
  }

  ghost predicate TablesOk(c: Core) {
    && OwnershipOk(c.changes, c.history, c.owners, c.holdings)
    && MintsMatchChanges(c.mints, c.changes)
    && OwnedAreMinted(c.owners, c.mints)
    && RegistryOk(c.registry, c.deployments)
    && OpsOk(c.ops, c.opScores)
    && ListingsOk(c.listings, c.listingsByTick, c.owners, c.ops)
    && SendsOk(c.ops, c.opScores)
  }

  ghost predicate Inv(c: Core) {
    TablesOk(c) && SupplyOk(c.registry, c.mints, c.alloc)
  }

  /** The state between two operations: everything is below `bound`. */
  ghost predicate Good(c: Core, bound: nat) {
    Inv(c) && PremintsDone(c.registry, c.mints) && Bounded(c, bound)
  }
}
