/** Whole operations: what they add, that they never abort, and that they keep
    the invariants.  `RunIsGood` carries this to every valid history. */
module Steps {
  import opened Model
  import opened Ledger
  import opened Invariants
  import opened Preservation
  import TokenIds

  // ---------------------------------------------------------------- operations only add

  /** `d` has all rows of `c` in the append-only tables; its new rows carry score `s`. */
  ghost predicate AddsOnly(c: Core, d: Core, s: nat) {
    && (forall k :: k in c.changes ==> k in d.changes)
    && (forall k :: k in d.changes && k !in c.changes ==> k.score == s)
    && (forall k :: k in c.mints ==> k in d.mints)
    && (forall k :: k in d.mints && k !in c.mints ==> k.score == s)
    && (forall k :: k in c.history ==> k in d.history)
    && (forall k :: k in d.history && k.score != s ==> k in c.history && d.history[k] == c.history[k])
    && (forall k :: k in c.vip ==> k in d.vip)
    && (forall k :: k in d.vip && k !in c.vip ==> k.score == s)
    && (forall t :: t in c.registry ==> t in d.registry && d.registry[t] == c.registry[t])
    && (forall t :: t in d.registry && t !in c.registry ==> d.registry[t].score == s)
    && (forall k :: k in c.deployments ==> k in d.deployments && d.deployments[k] == c.deployments[k])
    && (forall k :: k in d.deployments && k !in c.deployments ==> k.score == s)
  }

  lemma AddsOnlyTransitive(b: Core, c: Core, d: Core, s: nat)
    requires AddsOnly(b, c, s) && AddsOnly(c, d, s)
    ensures AddsOnly(b, d, s)
  {
  }

  lemma RecordAddsOnly(c: Core, score: nat, token: TokenKey, seqNo: nat, to: Script)
    ensures AddsOnly(c, RecordOwner(c, score, token, seqNo, to), score)
    ensures AddsOnly(c, RecordMint(c, score, token, seqNo, to), score)
  {
  }

  /** `AddsOnly` looks at the append-only tables only. */
  lemma AddsOnlyByTables(c: Core, d: Core, c': Core, d': Core, s: nat)
    requires AddsOnly(c, d, s)
    requires c.changes == c'.changes && c.mints == c'.mints && c.history == c'.history && c.vip == c'.vip
    requires c.registry == c'.registry && c.deployments == c'.deployments
    requires d.changes == d'.changes && d.mints == d'.mints && d.history == d'.history && d.vip == d'.vip
    requires d.registry == d'.registry && d.deployments == d'.deployments
    ensures AddsOnly(c', d', s)
  {
  }

  /** An accepted mint is `RecordMint` on top of a new allocator state. */
  lemma MintShape(c: Core, entropy: nat, score: nat, common: Common, m: MintInfo, isDeployment: bool)
    ensures var r := Mint(c, entropy, score, common, m, isDeployment);
            r.Minted? ==>
              r.core == RecordMint(c, score, TokenKey(common.tick, r.tokenId), LastMint(c.mints, common.tick) + 1, m.to).(alloc := r.core.alloc)
  {
    hide LastMint, RoyaltyError, TokenIds.Generate;
  }

  lemma MintAddsOnly(c: Core, entropy: nat, score: nat, common: Common, m: MintInfo, isDeployment: bool)
    ensures var r := Mint(c, entropy, score, common, m, isDeployment);
            r.Minted? ==> AddsOnly(c, r.core, score) && SameMarket(c, r.core)
  {
    hide AddsOnly, Mint, LastMint;
    MintShape(c, entropy, score, common, m, isDeployment);
    var r := Mint(c, entropy, score, common, m, isDeployment);
    if r.Minted? {
      var token, seqNo := TokenKey(common.tick, r.tokenId), LastMint(c.mints, common.tick) + 1;
      RecordAddsOnly(c, score, token, seqNo, m.to);
      AddsOnlyByTables(c, RecordMint(c, score, token, seqNo, m.to), c, r.core, score);
    }
  }

  /** Listings and the log are the same. */
  ghost predicate SameMarket(c: Core, d: Core) {
    c.listings == d.listings && c.listingsByTick == d.listingsByTick && c.ops == d.ops && c.opScores == d.opScores
  }

  lemma {:induction false} PremintsAddOnly(c: Core, score: nat, common: Common, d: DeployInfo, n: nat)
    ensures var r := Premints(c, score, common, d, n);
            r.Applied? ==> AddsOnly(c, r.core, score) && SameMarket(c, r.core)
  {
    hide Mint, AddsOnly;
    if n == 0 {
      AddsOnlyReflexive(c, score);
    } else {
      PremintsAddOnly(c, score, common, d, n - 1);
      var before := Premints(c, score, common, d, n - 1);
      if before.Applied? && before.error.None? {
        var m := MintInfo(0, d.deployer, None);
        MintAddsOnly(before.core, 0, score, common, m, true);
        var r := Mint(before.core, 0, score, common, m, true);
        if r.Minted? {
          AddsOnlyTransitive(c, before.core, r.core, score);
        }
      }
    }
  }

  lemma AddsOnlyReflexive(c: Core, s: nat)
    ensures AddsOnly(c, c, s)
  {
  }

  /** Registering a tick that has no deployment yet adds rows of its own score. */
  lemma DeployAddsOnly(c: Core, score: nat, common: Common, d: DeployInfo)
    requires RegistryOk(c.registry, c.deployments)
    ensures var r := Deploy(c, score, common, d);
            r.Applied? ==> AddsOnly(c, r.core, score) && SameMarket(c, r.core)
  {
    hide Premints;
    if common.tick !in c.registry {
      var registered := Register(c, score, common, d);
      assert AddsOnly(c, registered, score);
      PremintsAddOnly(registered, score, common, d, d.premint);
      var r := Premints(registered, score, common, d, d.premint);
      if r.Applied? {
        hide AddsOnly;
        AddsOnlyTransitive(c, registered, r.core, score);
      }
    }
  }

  lemma MoveAddsOnly(c: Core, score: nat, token: TokenKey, to: Script, d: Core)
    requires var r := RecordOwner(c, score, token, 0, to);
             d == r.(holdings := d.holdings, listings := d.listings, listingsByTick := d.listingsByTick)
    ensures AddsOnly(c, d, score) && d.ops == c.ops && d.opScores == c.opScores
  {
    hide AddsOnly;
    RecordAddsOnly(c, score, token, 0, to);
    AddsOnlyByTables(c, RecordOwner(c, score, token, 0, to), c, d, score);
  }

  ghost predicate LogKept(c: Core, d: Core) {
    c.ops == d.ops && c.opScores == d.opScores
  }

  lemma TransferAddsOnly(c: Core, score: nat, common: Common, i: TransferInfo)
    ensures var r := Transfer(c, score, common, i); AddsOnly(c, r.core, score) && LogKept(c, r.core)
  {
    hide AddsOnly;
    AddsOnlyReflexive(c, score);
    var r := Transfer(c, score, common, i);
    if r.error.None? {
      MoveAddsOnly(c, score, TokenKey(common.tick, i.tokenId), i.to, r.core);
    }
  }

  lemma SendAddsOnly(c: Core, score: nat, common: Common, i: SendInfo)
    ensures var r := Send(c, score, common, i); AddsOnly(c, r.core, score) && LogKept(c, r.core)
  {
    hide AddsOnly;
    AddsOnlyReflexive(c, score);
    var r := Send(c, score, common, i);
    if r.error.None? {
      if i.buyer.Some? {
        MoveAddsOnly(c, score, TokenKey(common.tick, i.tokenId), i.buyer.value, r.core);
      } else {
        AddsOnlyByTables(c, c, c, r.core, score);
      }
    }
  }

  lemma ListAddsOnly(c: Core, score: nat, common: Common, i: ListInfo)
    ensures var r := List(c, score, common, i); AddsOnly(c, r.core, score) && LogKept(c, r.core)
  {
    hide AddsOnly, LogKept;
    var token := TokenKey(common.tick, i.tokenId);
    MarketAddsOnly(c, c.listings, c.listingsByTick, score);
    MarketAddsOnly(c, c.listings[token := ListingOf(score, common, i)], c.listingsByTick + {token}, score);
  }

  lemma MarketAddsOnly(c: Core, listings: map<TokenKey, Listing>, listingsByTick: set<TokenKey>, score: nat)
    ensures var d := c.(listings := listings, listingsByTick := listingsByTick); AddsOnly(c, d, score) && LogKept(c, d)
  {
  }

  lemma DiscountAddsOnly(c: Core, score: u64, common: Common, i: DiscountInfo)
    ensures var r := Discount(c, score, common, i); AddsOnly(c, r.core, score) && LogKept(c, r.core)
  {
    hide AddsOnly;
    AddsOnlyReflexive(c, score);
    VipAddsOnly(c, VipKey(i.to, common.tick, score, i.fee));
  }

  lemma VipAddsOnly(c: Core, k: VipKey)
    ensures AddsOnly(c, c.(vip := c.vip + {k}), k.score)
  {
  }

  lemma EffectAddsOnly(c: Core, x: ContextOp)
    requires RegistryOk(c.registry, c.deployments)
    ensures var e := EffectOf(c, x); e.Effect? ==> AddsOnly(c, e.core, x.score) && LogKept(c, e.core)
  {
    hide Mint, Deploy, Transfer, Discount, List, Send, AddsOnly, RegistryOk;
    AddsOnlyReflexive(c, x.score);
    match x.op.info
    case DeployOp(d) => DeployAddsOnly(c, x.score, x.op.common, d);
    case MintOp(m) => MintAddsOnly(c, x.entropy, x.score, x.op.common, m, false);
    case TransferOp(i) => TransferAddsOnly(c, x.score, x.op.common, i);
    case DiscountOp(i) => DiscountAddsOnly(c, x.score, x.op.common, i);
    case ListOp(i) => ListAddsOnly(c, x.score, x.op.common, i);
    case SendOp(i) => SendAddsOnly(c, x.score, x.op.common, i);
  }

  lemma BoundedAfter(c: Core, d: Core, s: nat, op: Operation, error: Option<OpError>)
    requires Bounded(c, s) && AddsOnly(c, d, s) && d.ops == c.ops
    ensures Bounded(Log(d, s, op, error), s + 1)
  {
  }

  // ---------------------------------------------------------------- operations keep the invariants

  ghost predicate SupplyKept(d: Core) {
    SupplyOk(d.registry, d.mints, d.alloc) && PremintsDone(d.registry, d.mints)
  }

  lemma SupplyKeptByTables(c: Core, d: Core)
    requires SupplyKept(c) && c.registry == d.registry && c.mints == d.mints && c.alloc == d.alloc
    ensures SupplyKept(d)
  {
    hide SupplyOk;
  }

  lemma MintedKeepsPremints(c: Core, score: nat, t: Tick, d: Core, id: nat)
    requires PremintsDone(c.registry, c.mints) && MintedOk(c, score, t, d, id) && d.registry == c.registry
    ensures SupplyKept(d)
  {
    hide SupplyOk, LastMint, TablesOk;
    forall u | u in d.registry ensures d.registry[u].info.premint <= LastMint(d.mints, u) {
      if u != t {
        LastMintOfOthers(c.mints, MintKey(TokenKey(t, id), LastMint(c.mints, t) + 1, score), u);
      }
    }
  }

  lemma MintEffect(c: Core, x: ContextOp)
    requires Good(c, x.score) && x.op.info.MintOp?
    ensures var e := EffectOf(c, x); e.Effect? && TablesOk(e.core) && SupplyKept(e.core)
  {
    hide Mint, TablesOk, SupplyOk, Bounded, PremintsDone, LastMint;
    MintKeeps(c, x.entropy, x.score, x.op.common, x.op.info.mint, false);
    MintShape(c, x.entropy, x.score, x.op.common, x.op.info.mint, false);
    var r := Mint(c, x.entropy, x.score, x.op.common, x.op.info.mint, false);
    if r.Minted? {
      MintedKeepsPremints(c, x.score, x.op.common.tick, r.core, r.tokenId);
    }
  }

  lemma RegistryIsBounded(c: Core, bound: nat)
    requires TablesOk(c) && Bounded(c, bound)
    ensures forall t :: t in c.registry ==> c.registry[t].score < bound
  {
  }

  lemma PremintedIsKept(c: Core, t: Tick, d: DeployInfo, r: Outcome, before: Core)
    requires PremintedOk(c, t, d.premint, r) && t in c.registry && c.registry[t].info == d
    requires PremintsDone(before.registry, before.mints) && before.mints == c.mints
    requires forall u :: u in c.registry && u != t ==> u in before.registry && before.registry[u] == c.registry[u]
    ensures SupplyKept(r.core)
  {
    hide SupplyOk, LastMint, TablesOk;
  }

  lemma DeployEffect(c: Core, x: ContextOp)
    requires Good(c, x.score) && x.op.info.DeployOp? && ValidOp(x.op)
    ensures var e := EffectOf(c, x); e.Effect? && TablesOk(e.core) && SupplyKept(e.core)
  {
    hide Mint, TablesOk, SupplyOk, Bounded, PremintsDone, LastMint;
    var common, d := x.op.common, x.op.info.deploy;
    RegistryIsBounded(c, x.score);
    if common.tick !in c.registry {
      var registered := Register(c, x.score, common, d);
      RegisterKeepsTables(c, x.score, common, d);
      RegisterKeepsSupply(c, x.score, common, d);
      PremintsKeep(registered, x.score, common, d, d.premint);
      PremintedIsKept(registered, common.tick, d, Deploy(c, x.score, common, d), c);
    }
  }

  lemma BoundedChanges(c: Core, bound: nat)
    requires Bounded(c, bound)
    ensures forall k :: k in c.changes ==> k.score < bound
  {
  }

  /** Every operation but List leaves the tables in order before it is logged. */
  lemma EffectKeeps(c: Core, x: ContextOp)
    requires Good(c, x.score) && ValidOp(x.op)
    ensures var e := EffectOf(c, x); e.Effect? && (!x.op.info.ListOp? ==> TablesOk(e.core)) && SupplyKept(e.core)
  {
    hide TablesOk, SupplyKept, Bounded, Deploy, Mint, Transfer, Send;
    BoundedChanges(c, x.score);
    assert SupplyKept(c) by { KeptIfGood(c, x.score); }
    match x.op.info
    case DeployOp(d) => DeployEffect(c, x);
    case MintOp(m) => MintEffect(c, x);
    case TransferOp(i) =>
      TransferKeeps(c, x.score, x.op.common, i);
      MoveKeepsSupply(c, x);
    case DiscountOp(i) =>
      DiscountKeeps(c, x.score, x.op.common, i);
      MoveKeepsSupply(c, x);
    case ListOp(i) =>
      MoveKeepsSupply(c, x);
    case SendOp(i) =>
      SendKeeps(c, x.score, x.op.common, i);
      MoveKeepsSupply(c, x);
  }

  lemma KeptIfGood(c: Core, bound: nat)
    requires Good(c, bound)
    ensures SupplyKept(c)
  {
    hide SupplyOk, PremintsDone, TablesOk, Bounded;
  }

  lemma DiscountKeeps(c: Core, score: u64, common: Common, info: DiscountInfo)
    requires TablesOk(c)
    ensures TablesOk(Discount(c, score, common, info).core)
  {
    hide OwnershipOk, SendsOk, OpsOk, RegistryOk, ListingsOk, MintsMatchChanges, OwnedAreMinted;
  }

  /** The other operations leave the supply tables alone. */
  ghost predicate SupplyUntouched(c: Core, d: Core) {
    c.registry == d.registry && c.mints == d.mints && c.alloc == d.alloc
  }

  lemma TransferLeavesSupply(c: Core, score: nat, common: Common, i: TransferInfo)
    ensures var r := Transfer(c, score, common, i); r.Applied? && SupplyUntouched(c, r.core)
  {
  }

  lemma DiscountLeavesSupply(c: Core, score: u64, common: Common, i: DiscountInfo)
    ensures var r := Discount(c, score, common, i); r.Applied? && SupplyUntouched(c, r.core)
  {
  }

  lemma ListLeavesSupply(c: Core, score: nat, common: Common, i: ListInfo)
    ensures var r := List(c, score, common, i); r.Applied? && SupplyUntouched(c, r.core)
  {
  }

  lemma SendLeavesSupply(c: Core, score: nat, common: Common, i: SendInfo)
    ensures var r := Send(c, score, common, i); r.Applied? && SupplyUntouched(c, r.core)
  {
  }

  lemma OthersLeaveSupply(c: Core, x: ContextOp)
    requires !x.op.info.MintOp? && !x.op.info.DeployOp?
    ensures var e := EffectOf(c, x); e.Effect? && SupplyUntouched(c, e.core)
  {
    hide Mint, Deploy, Transfer, Discount, List, Send, SupplyUntouched;
    match x.op.info
    case TransferOp(i) => TransferLeavesSupply(c, x.score, x.op.common, i);
    case DiscountOp(i) => DiscountLeavesSupply(c, x.score, x.op.common, i);
    case ListOp(i) => ListLeavesSupply(c, x.score, x.op.common, i);
    case SendOp(i) => SendLeavesSupply(c, x.score, x.op.common, i);
  }

  lemma MoveKeepsSupply(c: Core, x: ContextOp)
    requires SupplyKept(c) && !x.op.info.MintOp? && !x.op.info.DeployOp?
    ensures SupplyKept(EffectOf(c, x).core)
  {
    hide SupplyKept, EffectOf;
    OthersLeaveSupply(c, x);
    SupplyKeptByTables(c, EffectOf(c, x).core);
  }

  // ---------------------------------------------------------------- the log

  lemma {:induction false} BackedGrows(ops: map<nat, CheckedOp>, s: nat, o: CheckedOp, token: TokenKey, v: Listing)
    requires Backed(ops, token, v) && s !in ops
    ensures Backed(ops[s := o], token, v)
  {
  }

  lemma LoggedListings(listings: map<TokenKey, Listing>, listingsByTick: set<TokenKey>, owners: map<TokenKey, Holding>,
                       ops: map<nat, CheckedOp>, s: nat, o: CheckedOp)
    requires ListingsOk(listings, listingsByTick, owners, ops) && s !in ops
    ensures ListingsOk(listings, listingsByTick, owners, ops[s := o])
  {
    hide Backed;
    forall t | t in listings ensures Backed(ops[s := o], t, listings[t]) {
      BackedGrows(ops, s, o, t, listings[t]);
    }
  }

  /** The Send about to be logged names a logged List of its token. */
  ghost predicate NamesList(c: Core, op: Operation) {
    op.info.SendOp? ==>
      && op.info.send.listingTxId in c.opScores
      && ListedAt(c.ops, TokenKey(op.common.tick, op.info.send.tokenId), c.opScores[op.info.send.listingTxId])
  }

  lemma LoggedSends(c: Core, s: nat, op: Operation, error: Option<OpError>)
    requires SendsOk(c.ops, c.opScores) && (forall r :: r in c.ops ==> r < s) && op.common.txId !in c.opScores
    requires error.None? ==> NamesList(c, op)
    ensures SendsOk(c.ops[s := CheckedOp(op, error)], c.opScores[op.common.txId := s])
  {
  }

  lemma LoggedOps(c: Core, s: nat, op: Operation, error: Option<OpError>)
    requires OpsOk(c.ops, c.opScores) && s !in c.ops && op.common.txId !in c.opScores
    ensures OpsOk(c.ops[s := CheckedOp(op, error)], c.opScores[op.common.txId := s])
  {
  }

  lemma LogKeeps(c: Core, s: nat, op: Operation, error: Option<OpError>)
    requires TablesOk(c) && (forall r :: r in c.ops ==> r < s) && op.common.txId !in c.opScores
    requires error.None? ==> NamesList(c, op)
    ensures TablesOk(Log(c, s, op, error))
  {
    hide OwnershipOk, SendsOk, OpsOk, RegistryOk, ListingsOk, MintsMatchChanges, OwnedAreMinted, NamesList;
    LoggedOps(c, s, op, error);
    LoggedSends(c, s, op, error);
    LoggedListings(c.listings, c.listingsByTick, c.owners, c.ops, s, CheckedOp(op, error));
  }

  lemma NewListingKeeps(c: Core, token: TokenKey, v: Listing)
    requires TablesOk(c) && Backed(c.ops, token, v) && token in c.owners && c.owners[token].spk == v.seller
    ensures TablesOk(c.(listings := c.listings[token := v], listingsByTick := c.listingsByTick + {token}))
  {
    hide OwnershipOk, SendsOk, OpsOk, RegistryOk, MintsMatchChanges, OwnedAreMinted, Backed;
  }

  lemma LoggedListKeeps(c: Core, x: ContextOp)
    requires Good(c, x.score) && x.op.info.ListOp? && x.op.common.txId !in c.opScores
    ensures var e := EffectOf(c, x); e.Effect? && TablesOk(Log(e.core, x.score, e.recorded, e.error))
  {
    hide TablesOk, SupplyOk, PremintsDone;
    var i, common := x.op.info.list, x.op.common;
    var e := EffectOf(c, x);
    LogKeeps(c, x.score, x.op, e.error);
    if e.error.None? {
      NewListingKeeps(Log(c, x.score, x.op, e.error), TokenKey(common.tick, i.tokenId), ListingOf(x.score, common, i));
    }
  }

  lemma SendNamesList(c: Core, x: ContextOp)
    requires TablesOk(c)
    ensures var e := EffectOf(c, x); e.Effect? && e.error.None? ==> NamesList(c, e.recorded)
  {
    hide OwnershipOk, SendsOk, RegistryOk, MintsMatchChanges, OwnedAreMinted, Mint, Deploy;
  }

  lemma NamesListByLog(c: Core, d: Core, op: Operation)
    requires NamesList(c, op) && LogKept(c, d)
    ensures NamesList(d, op)
  {
  }

  /** An operation with a higher score and a new transaction id never aborts and
      keeps the ledger in order. */
  lemma ApplyKeeps(c: Core, x: ContextOp)
    requires Good(c, x.score) && ValidOp(x.op) && x.op.common.txId !in c.opScores
    ensures Apply(c, x).Stepped? && Good(Apply(c, x).core, x.score + 1)
  {
    hide TablesOk, SupplyKept, Bounded, EffectOf, NamesList, SupplyOk, PremintsDone;
    var e := EffectOf(c, x);
    EffectKeeps(c, x);
    RegistryOfGood(c, x.score);
    EffectAddsOnly(c, x);
    BoundedAfter(c, e.core, x.score, e.recorded, e.error);
    BoundedOps(c, x.score);
    RecordedKeepsTxId(c, x);
    if x.op.info.ListOp? {
      LoggedListKeeps(c, x);
    } else {
      SendNamesList(c, x);
      if e.error.None? { NamesListByLog(c, e.core, e.recorded); }
      LogKeeps(e.core, x.score, e.recorded, e.error);
    }
    KeptIsGood(e.core, Log(e.core, x.score, e.recorded, e.error), x.score + 1);
  }

  lemma RecordedKeepsTxId(c: Core, x: ContextOp)
    ensures EffectOf(c, x).Effect? ==> EffectOf(c, x).recorded.common == x.op.common
  {
    hide Mint, Deploy;
  }

  lemma RegistryOfGood(c: Core, bound: nat)
    requires Good(c, bound)
    ensures RegistryOk(c.registry, c.deployments)
  {
    hide SupplyOk, OwnershipOk, SendsOk, RegistryOk, MintsMatchChanges, OwnedAreMinted, ListingsOk, OpsOk, Bounded, PremintsDone;
  }

  lemma BoundedOps(c: Core, bound: nat)
    requires Bounded(c, bound)
    ensures forall r :: r in c.ops ==> r < bound
  {
  }

  lemma KeptIsGood(c: Core, d: Core, bound: nat)
    requires SupplyKept(c) && c.registry == d.registry && c.mints == d.mints && c.alloc == d.alloc
    requires TablesOk(d) && Bounded(d, bound)
    ensures Good(d, bound)
  {
    hide TablesOk, SupplyOk, PremintsDone, Bounded;
  }

  // ---------------------------------------------------------------- every valid history

  /** One past the last score. */
  function NextScore(h: seq<ContextOp>): nat {
    if h == [] then 0 else h[|h| - 1].score + 1
  }

  ghost predicate LogsExactly(c: Core, h: seq<ContextOp>) {
    && (forall i :: 0 <= i < |h| ==> h[i].op.common.txId in c.opScores && c.opScores[h[i].op.common.txId] == h[i].score)
    && (forall x :: x in c.opScores ==> exists i :: 0 <= i < |h| && h[i].op.common.txId == x)
  }

  lemma WiderBound(c: Core, low: nat, high: nat)
    requires Good(c, low) && low <= high
    ensures Good(c, high)
  {
    hide TablesOk, SupplyOk, PremintsDone;
  }

  lemma ApplyLogs(c: Core, x: ContextOp)
    requires Apply(c, x).Stepped? && Good(c, x.score)
    ensures Apply(c, x).core.opScores == c.opScores[x.op.common.txId := x.score]
  {
    hide EffectOf, Good, RegistryOk, AddsOnly;
    RegistryOfGood(c, x.score);
    EffectAddsOnly(c, x);
    RecordedKeepsTxId(c, x);
  }

  lemma LogsOneMore(c: Core, h: seq<ContextOp>, d: Core)
    requires h != [] && ValidHistory(h) && LogsExactly(c, h[..|h| - 1])
    requires d.opScores == c.opScores[h[|h| - 1].op.common.txId := h[|h| - 1].score]
    ensures LogsExactly(d, h)
  {
    var prefix := h[..|h| - 1];
    forall x | x in d.opScores ensures exists i :: 0 <= i < |h| && h[i].op.common.txId == x {
      if x != h[|h| - 1].op.common.txId {
        var i :| 0 <= i < |prefix| && prefix[i].op.common.txId == x;
        assert h[i].op.common.txId == x;
      }
    }
  }

  /** No operation of a valid history aborts, and the ledger it reaches is in order:
      the four-way agreement of the ownership tables, the partition of every
      supply, the log and its inverse, and a logged List behind every listing. */
  lemma {:induction false} RunIsGood(h: seq<ContextOp>)
    requires ValidHistory(h)
    ensures Good(Run(h), NextScore(h)) && LogsExactly(Run(h), h)
    ensures h != [] ==> Apply(Run(h[..|h| - 1]), h[|h| - 1]).Stepped?
    decreases |h|
  {
    hide Good, Apply, ValidHistory, LogsExactly;
    if h == [] {
      EmptyIsGood();
    } else {
      var prefix, x := h[..|h| - 1], h[|h| - 1];
      PrefixIsValid(h);
      RunIsGood(prefix);
      WiderBound(Run(prefix), NextScore(prefix), x.score);
      NewTxId(Run(prefix), h);
      ApplyKeeps(Run(prefix), x);
      ApplyLogs(Run(prefix), x);
      LogsOneMore(Run(prefix), h, Run(h));
    }
  }

  lemma PrefixIsValid(h: seq<ContextOp>)
    requires h != [] && ValidHistory(h)
    ensures ValidHistory(h[..|h| - 1]) && NextScore(h[..|h| - 1]) <= h[|h| - 1].score && ValidOp(h[|h| - 1].op)
  {
  }

  lemma NewTxId(c: Core, h: seq<ContextOp>)
    requires h != [] && ValidHistory(h) && LogsExactly(c, h[..|h| - 1])
    ensures h[|h| - 1].op.common.txId !in c.opScores
  {
  }

  lemma EmptyIsGood()
    ensures Good(EMPTY, 0) && LogsExactly(EMPTY, [])
  {
  }
}
