/** What a reorganisation leaves behind: the seller index, the discount log and the mint
    counter are exact as long as the chain only grows, and a reorganisation can spoil each
    of the three.  The exact conditions are `SellerIndexExactIff`, `DiscountLogExactIff`
    and `CountersConserve`; here are runs from an empty store that fail them. */
module Leftovers {
  import opened Model
  import opened Ledger
  import opened Invariants
  import opened Steps
  import opened Filtering
  import opened Rollback
  import opened MarketReorg
  import opened ReorgIsReplay
  import opened Residues
  import opened Counters
  import opened Score
  import opened Chain
  import opened ChainReplay
  import opened ChainTheorem
  import opened Conservation
  import opened ChainCounters
  import opened ChainIndexes
  import opened Protocol
  import opened StaleRows
  import TokenIds

  ghost predicate ResidueExact(c: Core, r: Residue) {
    SellersExact(c.listings, r.sellerIndex) && DiscountLogExact(c.vip, r.discounts)
  }

  // ---------------------------------------------------------------- a chain that only grows

  ghost predicate OnlyGrows(changes: seq<ChainChange>) {
    forall i :: 0 <= i < |changes| ==> changes[i].removed == [] && changes[i].forced == None
  }

  /** As long as no block is removed the seller index and the discount log are exact, and
      no premint is counted without its mint. */
  lemma {:induction false} GrowingChainIsExact(limit: Limit, changes: seq<ChainChange>)
    requires ValidRun(limit, changes) && OnlyGrows(changes)
    ensures ProcessAll(EMPTY_DB, limit, changes).Some?
    ensures var db := ProcessAll(EMPTY_DB, limit, changes).value; ResidueExact(db.core, db.residue)
    ensures Leaked(limit, changes) == 0
  {
    hide ValidRun, ProcessAll, SellersExact, DiscountLogExact, ExactBut;
    StaleRowsAreKnown(limit, changes);
    NothingIsLeft(limit, changes);
  }

  lemma {:induction false} NothingIsLeft(limit: Limit, changes: seq<ChainChange>)
    requires OnlyGrows(changes)
    ensures StaleAfter(limit, changes) == Stale({}, {}) && Leaked(limit, changes) == 0
    decreases |changes|
  {
    hide ProcessAll, Remove, Extend, Identify, RenewedSince, RolledBack;
    if changes != [] {
      var before, change := changes[..|changes| - 1], changes[|changes| - 1];
      assert forall i :: 0 <= i < |before| ==> before[i] == changes[i];
      NothingIsLeft(limit, before);
      var r := ProcessAll(EMPTY_DB, limit, before);
      if r.Some? {
        NothingIdentified(r.value.blocks, r.value.blockScores);
      }
    }
  }

  // ---------------------------------------------------------------- a forgotten deployment

  function Deployed(m: Mergeset): ChainChange {
    ChainChange([], None, [m])
  }

  function Forgotten(m: Mergeset): ChainChange {
    ChainChange([m.hash], None, [])
  }

  /** A block that holds one deployment and nothing else. */
  ghost predicate DeploysOnce(limit: Limit, m: Mergeset) {
    && OrderedBlock(limit, m)
    && |m.ops| == 1 && m.ops[0].op.info.DeployOp?
  }

  lemma OneBlock(limit: Limit, m: Mergeset)
    requires OrderedBlock(limit, m) && |m.ops| == 1
    ensures OpsOf(limit, [m]) == [OpOf(limit, m, 0)] && ValidChain(limit, [m]) && ValidChain(limit, [])
  {
    assert [m][..0] == [];
    assert OpsOf(limit, []) == [];
  }

  lemma CutChain(ms: seq<Mergeset>, removed: seq<Hash>, b: u64)
    requires LeastOf(ScoresOf(ms), removed) == Some(b)
    ensures Survivors(ms, ChainChange(removed, None, [])) == BelowBlue(ms, b)
  {
    hide LeastOf, ScoresOf, BelowBlue, LastBlueScore, BlocksOf;
    assert BelowBlue(ms, b) + [] == BelowBlue(ms, b);
  }

  lemma OneBlockGoes(m: Mergeset)
    ensures LeastOf(ScoresOf([m]), [m.hash]) == Some(m.blueScore)
    ensures Survivors([m], Forgotten(m)) == []
  {
    hide Survivors;
    assert [m][..0] == [] && [m.hash][..0] == [];
    assert ScoresOf([m]) == map[m.hash := m.blueScore];
    assert LeastOf(map[m.hash := m.blueScore], []) == None;
    CutChain([m], [m.hash], m.blueScore);
  }

  lemma TwoChanges(limit: Limit, a: ChainChange, b: ChainChange)
    requires ValidChange(limit, [], a) && ValidChange(limit, Survivors([], a), b)
    ensures ValidRun(limit, [a]) && ChainAfter([a]) == Survivors([], a)
    ensures ValidRun(limit, [a, b]) && ChainAfter([a, b]) == Survivors(Survivors([], a), b)
  {
    hide ValidChange, Survivors;
    assert [a][..0] == [] && [a, b][..1] == [a];
    assert ChainAfter([]) == [] && ValidRun(limit, []);
  }

  lemma DeploymentsRun(limit: Limit, m: Mergeset)
    requires DeploysOnce(limit, m)
    ensures ValidRun(limit, [Deployed(m)]) && ChainAfter([Deployed(m)]) == [m]
    ensures ValidRun(limit, [Deployed(m), Forgotten(m)]) && ChainAfter([Deployed(m), Forgotten(m)]) == []
  {
    hide ValidChain, Survivors, Fits;
    OneBlock(limit, m);
    FirstBlocks(limit, [m]);
    OneBlockGoes(m);
    TwoChanges(limit, Deployed(m), Forgotten(m));
  }

  lemma FirstBlocks(limit: Limit, ms: seq<Mergeset>)
    requires ValidChain(limit, ms)
    ensures Survivors([], ChainChange([], None, ms)) == ms
  {
    hide ValidChain, News, LastBlueScore, BlocksOf;
    NoCut([]);
    assert [] + ms == ms && ms[..|ms|] == ms;
    ExtensionsAreNews(limit, [], ms, |ms|);
  }

  /** The log of one accepted deployment counts it with its premints. */
  lemma OneDeploymentLogged(limit: Limit, m: Mergeset)
    requires DeploysOnce(limit, m)
    ensures var x := OpOf(limit, m, 0);
            Run(OpsOf(limit, [m])).ops == map[x.score := CheckedOp(x.op, None)] && ValidHistory([x])
  {
    hide ValidChain, View, Play;
    OneBlock(limit, m);
    var x := OpOf(limit, m, 0);
    ChainIsHistory(limit, [m]);
    assert [x][..0] == [];
    OperationsFollowTheRules([x]);
    NoCollections();
    RunStep([x]);
    assert Run([]) == EMPTY;
  }

  lemma NoCollections()
    ensures View(EMPTY).collections == map[]
  {
  }

  lemma OneEntry(s: nat, o: CheckedOp, t: nat)
    requires o.error.None? && o.op.info.DeployOp? && t <= s
    ensures Total(map[s := o]) == Added(o.op)
    ensures PremintsAt(map[s := o], Ascending(Scores(map[s := o], t))) == o.op.info.deploy.premint
  {
    var ops := map[s := o];
    assert ops.Keys == {s} && Scores(ops, t) == {s};
    assert Ascending({s}) == [s] by { OneInOrder(s); }
    assert [s][..0] == [];
    assert Tally(ops, []) == ZERO && PremintsAt(ops, []) == 0;
  }

  lemma OneInOrder(s: nat)
    ensures Ascending({s}) == [s]
  {
    assert {s} - {s} == {};
    assert Ascending({}) == [];
  }

  /** The database after the deployment. */
  lemma AfterDeployment(limit: Limit, m: Mergeset) returns (db: Db)
    requires DeploysOnce(limit, m)
    ensures ProcessAll(EMPTY_DB, limit, [Deployed(m)]) == Some(db) && Leaked(limit, [Deployed(m)]) == 0
    ensures Total(db.core.ops) == Added(m.ops[0].op)
    ensures LeakOf(db, limit, Forgotten(m)) == m.ops[0].op.info.deploy.premint
  {
    hide ValidChain, Survivors, Fits, ProcessAll, Total, PremintsAt, Ascending, Identify, LeastOf, Run, ResidueOk, Leaked, Added, Threshold, TxScore;
    DeploymentsRun(limit, m);
    RunIsCanonical(limit, [Deployed(m)]);
    GrowingChainIsExact(limit, [Deployed(m)]);
    db := ProcessAll(EMPTY_DB, limit, [Deployed(m)]).value;
    OneDeploymentLogged(limit, m);
    BlocksIndexed(limit, [m]);
    IdentifyIsLeast(db.blocks, db.blockScores, [m.hash]);
    OneBlockGoes(m);
    OrderedFits(limit, m);
    BlockSide(limit, m, m.blueScore);
    var x := OpOf(limit, m, 0);
    assert BlockOps(limit, m)[0] == x;
    OneEntry(x.score, CheckedOp(x.op, None), Threshold(limit, m.blueScore));
  }

  /** The counters of a run of two changes. */
  lemma TwoCounted(limit: Limit, a: ChainChange, b: ChainChange, one: Db, two: Db)
    requires ProcessAll(EMPTY_DB, limit, [a]) == Some(one) && ProcessAll(EMPTY_DB, limit, [a, b]) == Some(two)
    requires ValidRun(limit, [a, b]) && Leaked(limit, [a]) == 0
    requires FitsU64(Total(one.core.ops)) && FitsU64(WithLeak(Total(two.core.ops), LeakOf(one, limit, b)))
    ensures two.stats == WithLeak(Total(two.core.ops), LeakOf(one, limit, b))
  {
    hide ProcessAll, LeakOf, Total, ValidRun, FitsU64;
    assert [a, b][..1] == [a] && [a][..0] == [];
    assert Leaked(limit, [a, b]) == LeakOf(one, limit, b);
    assert WithLeak(Total(one.core.ops), 0) == Total(one.core.ops);
    assert NeverSaturates(limit, []);
    assert NeverSaturates(limit, [a]);
    CountersConserve(limit, [a, b]);
  }

  /** A deployment whose block is reorganised away leaves an empty ledger, and its premints
      in the mint counter: the counter is right if and only if there were none. */
  lemma PremintsStayCounted(limit: Limit, m: Mergeset)
    requires DeploysOnce(limit, m)
    ensures var run := [Deployed(m), Forgotten(m)];
            && ValidRun(limit, run)
            && ProcessAll(EMPTY_DB, limit, run).Some?
            && var db := ProcessAll(EMPTY_DB, limit, run).value;
               db.core == EMPTY && db.stats == ZERO.(mints := m.ops[0].op.info.deploy.premint)
  {
    hide ValidChain, Survivors, Fits, ProcessAll, Total, LeakOf, ResidueOk, LastMint;
    var run := [Deployed(m), Forgotten(m)];
    DeploymentsRun(limit, m);
    var db := AfterDeployment(limit, m);
    RunIsCanonical(limit, run);
    assert OpsOf(limit, []) == [] && Run([]) == EMPTY;
    EmptyTotal();
    DeploymentIsCounted(m.ops[0].op);
    assert ValidOp(m.ops[0].op);
    TwoCounted(limit, Deployed(m), Forgotten(m), db, ProcessAll(EMPTY_DB, limit, run).value);
  }

  lemma DeploymentIsCounted(op: Operation)
    requires op.info.DeployOp? && ValidOp(op)
    ensures FitsU64(Added(op))
  {
  }

  // ---------------------------------------------------------------- a sale and a discount taken back

  function OpAt(ms: seq<Mergeset>, i: nat): Operation
    requires i < |ms| && |ms[i].ops| == 1
  {
    ms[i].ops[0].op
  }

  predicate Offers(op: Operation, seller: Script, id: nat) {
    op.common.sender == seller && op.info.ListOp? && op.info.list.tokenId == id && op.info.list.p2shScript == op.info.list.utxoAddress
  }

  /** Any five blocks in which `a` deploys a collection with a royalty and lists the premint
      `id`, `b` buys and lists it, and `a` grants a discount. */
  ghost predicate Resale(limit: Limit, ms: seq<Mergeset>, t: Tick, id: nat, a: Script, b: Script) {
    && ValidChain(limit, ms) && |ms| == 5 && a != b
    && (forall i :: 0 <= i < 5 ==> |ms[i].ops| == 1 && OpAt(ms, i).common.tick == t)
    && Deploys(OpAt(ms, 0), a, id)
    && Offers(OpAt(ms, 1), a, id)
    && OpAt(ms, 2).info == SendOp(SendInfo(id, Some(b), OpAt(ms, 1).common.txId))
    && Offers(OpAt(ms, 3), b, id)
    && Grants(OpAt(ms, 4), a, OpAt(ms, 0))
  }

  predicate Deploys(op: Operation, a: Script, id: nat) {
    op.info.DeployOp? && op.info.deploy.deployer == a && 1 <= id <= op.info.deploy.premint && op.info.deploy.royalty.Some?
  }

  predicate Grants(op: Operation, a: Script, deployment: Operation)
    requires deployment.info.DeployOp? && deployment.info.deploy.royalty.Some?
  {
    op.common.sender == a && op.info.DiscountOp? && op.info.discount.fee < deployment.info.deploy.royalty.value.fee
  }

  /** What matters of the ledger in between. */
  ghost predicate Stands(c: Core, t: Tick, d: DeployInfo, id: nat, owner: Script, offer: map<TokenKey, Listing>) {
    && t in c.registry && c.registry[t].info == d
    && TokenKey(t, id) in c.owners && c.owners[TokenKey(t, id)].spk == owner
    && c.listings == offer
  }

  function StepAt(limit: Limit, ms: seq<Mergeset>, n: nat): ContextOp
    requires n < |ms| && |ms[n].ops| == 1
  {
    OpOf(limit, ms[n], 0)
  }

  function LedgerAfter(limit: Limit, ms: seq<Mergeset>, n: nat): Core
    requires n <= |ms|
  {
    Run(OpsOf(limit, ms[..n]))
  }

  lemma Advance(limit: Limit, ms: seq<Mergeset>, n: nat)
    requires ValidChain(limit, ms) && n < |ms| && |ms[n].ops| == 1
    ensures ValidHistory(OpsOf(limit, ms[..n + 1])) && OpsOf(limit, ms[..n + 1]) == OpsOf(limit, ms[..n]) + [StepAt(limit, ms, n)]
    ensures var c, x := LedgerAfter(limit, ms, n), StepAt(limit, ms, n);
            Apply(c, x).Stepped? && LedgerAfter(limit, ms, n + 1) == Apply(c, x).core
  {
    hide Run, Apply, Good, AddsOnly, ValidChain, ValidHistory, TxScore;
    PrefixChainIsValid(limit, ms, n + 1);
    ChainIsHistory(limit, ms[..n + 1]);
    assert ms[..n + 1][..n] == ms[..n];
    assert BlockOps(limit, ms[n]) == [StepAt(limit, ms, n)];
    var h := OpsOf(limit, ms[..n + 1]);
    assert h[..|h| - 1] == OpsOf(limit, ms[..n]);
    RunStep(h);
  }

  lemma NoBlocksYet(limit: Limit, ms: seq<Mergeset>)
    ensures LedgerAfter(limit, ms, 0) == EMPTY && OpsOf(limit, ms[..0]) == []
  {
  }

  /** By the rules: the premints go to the deployer, and nothing is offered. */
  lemma DeployStep(x: ContextOp, t: Tick, id: nat, a: Script)
    requires ValidHistory([x]) && x.op.common.tick == t && Deploys(x.op, a, id)
    ensures Stands(Run([x]), t, x.op.info.deploy, id, a, map[])
  {
    hide ValidHistory, Refusal, CollectionsOf, OwnersOf, OffersOf;
    assert [x][..0] == [] && Run([]) == EMPTY;
    OperationsFollowTheRules([x]);
    NothingDeployed(x);
    var c, d := Run([x]), x.op.info.deploy;
    ViewShows(c, t, TokenKey(t, id));
    assert id in TokenIds.Span(0, d.premint);
    assert TokenKey(t, id) in FirstTokens(t, d.premint);
  }

  lemma NothingDeployed(x: ContextOp)
    requires x.op.info.DeployOp?
    ensures Refusal(View(EMPTY), x) == None && OffersOf(EMPTY.listings) == map[]
  {
  }

  lemma ViewShows(c: Core, t: Tick, token: TokenKey)
    ensures t in CollectionsOf(c.registry, c.mints) ==> t in c.registry && CollectionsOf(c.registry, c.mints)[t].info == c.registry[t].info
    ensures token in OwnersOf(c.owners) ==> token in c.owners && OwnersOf(c.owners)[token] == c.owners[token].spk
    ensures OffersOf(c.listings) == map[] ==> c.listings == map[]
  {
    forall k | k in c.listings ensures k in OffersOf(c.listings) {
    }
  }

  /** The one listing a List writes. */
  function OfferOf(x: ContextOp): map<TokenKey, Listing>
    requires x.op.info.ListOp?
  {
    map[TokenKey(x.op.common.tick, x.op.info.list.tokenId) := ListingOf(x.score, x.op.common, x.op.info.list)]
  }

  lemma ListStep(c: Core, x: ContextOp, t: Tick, d: DeployInfo, id: nat, seller: Script)
    requires Stands(c, t, d, id, seller, map[]) && x.op.common.tick == t && Offers(x.op, seller, id)
    ensures Apply(c, x).Stepped?
    ensures Stands(Apply(c, x).core, t, d, id, seller, OfferOf(x))
  {
  }

  lemma SaleStep(c: Core, x: ContextOp, t: Tick, d: DeployInfo, id: nat, a: Script, b: Script, v: Listing)
    requires Stands(c, t, d, id, a, map[TokenKey(t, id) := v]) && x.op.common.tick == t
    requires x.op.info == SendOp(SendInfo(id, Some(b), v.txId))
    ensures Apply(c, x).Stepped? && Stands(Apply(c, x).core, t, d, id, b, map[])
  {
  }

  lemma DiscountStep(c: Core, x: ContextOp, t: Tick, d: DeployInfo, id: nat, owner: Script, offer: map<TokenKey, Listing>)
    requires Stands(c, t, d, id, owner, offer) && x.op.common.tick == t && x.op.common.sender == d.deployer
    requires x.op.info.DiscountOp? && d.royalty.Some? && x.op.info.discount.fee < d.royalty.value.fee
    ensures Apply(c, x).Stepped? && Stands(Apply(c, x).core, t, d, id, owner, offer)
    ensures VipKey(x.op.info.discount.to, t, x.score, x.op.info.discount.fee) in Apply(c, x).core.vip
  {
  }

  lemma LedgersOfResale(limit: Limit, ms: seq<Mergeset>, t: Tick, id: nat, a: Script, b: Script)
    requires Resale(limit, ms, t, id, a, b)
    ensures Stands(LedgerAfter(limit, ms, 2), t, OpAt(ms, 0).info.deploy, id, a, OfferOf(StepAt(limit, ms, 1)))
    ensures Stands(LedgerAfter(limit, ms, 5), t, OpAt(ms, 0).info.deploy, id, b, OfferOf(StepAt(limit, ms, 3)))
    ensures var x := StepAt(limit, ms, 4);
            VipKey(x.op.info.discount.to, t, x.score, x.op.info.discount.fee) in LedgerAfter(limit, ms, 5).vip
  {
    hide ValidChain, LedgerAfter, Apply, Stands, ValidHistory, OpsOf;
    Advance(limit, ms, 1);
    Advance(limit, ms, 2);
    Advance(limit, ms, 3);
    Advance(limit, ms, 4);
    var d, first, second := OpAt(ms, 0).info.deploy, StepAt(limit, ms, 1), StepAt(limit, ms, 3);
    FirstLedger(limit, ms, t, id, a);
    ListStep(LedgerAfter(limit, ms, 1), first, t, d, id, a);
    SaleStep(LedgerAfter(limit, ms, 2), StepAt(limit, ms, 2), t, d, id, a, b, ListingOf(first.score, first.op.common, first.op.info.list));
    ListStep(LedgerAfter(limit, ms, 3), second, t, d, id, b);
    DiscountStep(LedgerAfter(limit, ms, 4), StepAt(limit, ms, 4), t, d, id, b, OfferOf(second));
  }

  lemma FirstLedger(limit: Limit, ms: seq<Mergeset>, t: Tick, id: nat, a: Script)
    requires ValidChain(limit, ms) && ms != [] && |ms[0].ops| == 1
    requires OpAt(ms, 0).common.tick == t && Deploys(OpAt(ms, 0), a, id)
    ensures Stands(LedgerAfter(limit, ms, 1), t, OpAt(ms, 0).info.deploy, id, a, map[])
  {
    hide ValidChain, ValidHistory, OpsOf, Run, Apply;
    Advance(limit, ms, 0);
    NoBlocksYet(limit, ms);
    assert [] + [StepAt(limit, ms, 0)] == [StepAt(limit, ms, 0)];
    DeployStep(StepAt(limit, ms, 0), t, id, a);
  }

  /** The reorganisation that takes back the sale and everything after it. */
  function TakenBack(ms: seq<Mergeset>): ChainChange
    requires |ms| == 5
  {
    ChainChange([ms[2].hash, ms[3].hash, ms[4].hash], None, [])
  }

  function Delivered(ms: seq<Mergeset>): ChainChange {
    ChainChange([], None, ms)
  }

  lemma SaleIsFirst(limit: Limit, ms: seq<Mergeset>)
    requires ValidChain(limit, ms) && |ms| == 5
    ensures LeastOf(ScoresOf(ms), TakenBack(ms).removed) == Some(ms[2].blueScore)
    ensures BelowBlue(ms, ms[2].blueScore) == ms[..2]
  {
    hide ScoresOf, ValidChain;
    HashesDiffer(limit, ms);
    ScoresMembers(ms);
    BlueScoresRise(limit, ms);
    forall i | 0 <= i < 5 ensures ms[i].hash in ScoresOf(ms) && ScoresOf(ms)[ms[i].hash] == ms[i].blueScore {
      assert ms[i] in ms;
    }
    var two, three := [ms[2].hash], [ms[2].hash, ms[3].hash];
    assert TakenBack(ms).removed[..2] == three && three[..1] == two && two[..0] == [];
    assert LeastOf(ScoresOf(ms), []) == None;
    assert LeastOf(ScoresOf(ms), two) == Some(ms[2].blueScore);
    assert LeastOf(ScoresOf(ms), three) == Some(ms[2].blueScore);
    var low := BelowBlue(ms, ms[2].blueScore);
    assert |low| < 5 ==> ms[|low|].blueScore >= ms[2].blueScore;
    assert low != [] ==> ms[|low| - 1].blueScore < ms[2].blueScore;
  }

  lemma BlueScoresRise(limit: Limit, ms: seq<Mergeset>)
    requires ValidChain(limit, ms)
    ensures forall i, j :: 0 <= i < j < |ms| ==> ms[i].blueScore < ms[j].blueScore
  {
  }

  lemma ResaleRuns(limit: Limit, ms: seq<Mergeset>)
    requires ValidChain(limit, ms) && |ms| == 5
    ensures var run := [Delivered(ms), TakenBack(ms)];
            && OnlyGrows(run[..1]) && ValidRun(limit, run[..1]) && ChainAfter(run[..1]) == ms
            && ValidRun(limit, run) && ChainAfter(run) == ms[..2]
  {
    hide ValidChain, Survivors, Fits;
    var run := [Delivered(ms), TakenBack(ms)];
    assert run[..1] == [Delivered(ms)];
    PrefixChainIsValid(limit, ms, 2);
    FirstBlocks(limit, ms);
    SaleIsFirst(limit, ms);
    CutChain(ms, TakenBack(ms).removed, ms[2].blueScore);
    TwoChanges(limit, Delivered(ms), TakenBack(ms));
  }

  /** The residue after the reorganisation is that of a rollback to the sale. */
  lemma TakesBack(limit: Limit, ms: seq<Mergeset>, db: Db)
    requires Canonical(db, limit, ms) && |ms| == 5
    ensures RemoveAbove(db.core, db.residue, Threshold(limit, ms[2].blueScore)).Some?
    ensures ProcessChange(db, limit, TakenBack(ms)).Some?
    ensures var u, after := RemoveAbove(db.core, db.residue, Threshold(limit, ms[2].blueScore)).value, ProcessChange(db, limit, TakenBack(ms)).value;
            after.core == u.core && after.residue == u.residue
  {
    hide ValidChain, Fits, RemoveAbove, Run, LeastOf, Identify, VipOk, SellersIndexed, Threshold, ScoresOf, BlocksOf, BlocksSince, HashesOf, Sub;
    ChainIsHistory(limit, ms);
    RollbackKeepsResidue(OpsOf(limit, ms), db.residue, Threshold(limit, ms[2].blueScore));
    SaleIsFirst(limit, ms);
    BlocksIndexed(limit, ms);
    IdentifyIsLeast(db.blocks, db.blockScores, TakenBack(ms).removed);
  }

  lemma LaterThanSale(limit: Limit, ms: seq<Mergeset>, i: nat)
    requires ValidChain(limit, ms) && |ms| == 5 && 2 <= i < 5 && |ms[i].ops| == 1
    ensures Fits(limit, ms[2].blueScore) && StepAt(limit, ms, i).score >= Threshold(limit, ms[2].blueScore)
  {
    hide Threshold, TxScore, Fits;
    OrderedFits(limit, ms[2]);
    BlockSide(limit, ms[i], ms[2].blueScore);
    assert BlockOps(limit, ms[i])[0] == StepAt(limit, ms, i);
  }

  lemma SellersDiffer(limit: Limit, ms: seq<Mergeset>, t: Tick, id: nat, a: Script, b: Script)
    requires Resale(limit, ms, t, id, a, b)
    ensures !SameSellers(Run(OpsOf(limit, ms)), Threshold(limit, ms[2].blueScore))
  {
    hide ValidChain, Threshold, Kept, PutBack, Run, OpsOf, ValidHistory, Fits;
    var threshold := Threshold(limit, ms[2].blueScore);
    ChainIsHistory(limit, ms);
    LedgersOfResale(limit, ms, t, id, a, b);
    LaterThanSale(limit, ms, 3);
    CutOps(limit, ms, ms[2].blueScore);
    SaleIsFirst(limit, ms);
    KeptIsInForce(OpsOf(limit, ms), threshold);
    assert ms[..5] == ms;
    OldIsPutBack(LedgerAfter(limit, ms, 5), threshold, TokenKey(t, id));
  }

  lemma OldIsPutBack(c: Core, threshold: nat, t: TokenKey)
    requires t in Kept(c, threshold) && t in c.listings && c.listings[t].score >= threshold
    ensures t in PutBack(c, threshold) && PutBack(c, threshold)[t] == Kept(c, threshold)[t]
  {
  }

  /** The chain grows by the five blocks and both indexes are exact; then the sale and what
      followed it are reorganised away, and neither index is.  The seller index still says
      that `b` offers the token, and the log still holds the discount. */
  lemma ReorganisationLeavesRows(limit: Limit, ms: seq<Mergeset>, t: Tick, id: nat, a: Script, b: Script)
    requires Resale(limit, ms, t, id, a, b)
    ensures var run := [Delivered(ms), TakenBack(ms)];
            && ValidRun(limit, run)
            && ProcessAll(EMPTY_DB, limit, run[..1]).Some? && ProcessAll(EMPTY_DB, limit, run).Some?
            && var before, after := ProcessAll(EMPTY_DB, limit, run[..1]).value, ProcessAll(EMPTY_DB, limit, run).value;
               && ResidueExact(before.core, before.residue)
               && !SellersExact(after.core.listings, after.residue.sellerIndex)
               && !DiscountLogExact(after.core.vip, after.residue.discounts)
  {
    hide Fits, ValidChain, SellersExact, SameSellers, RemoveAbove, Threshold, ProcessChange, Run, ValidRun, ChainAfter, ResidueOk, BlocksOf,
      ScoresOf, OpsOf, OnlyGrows, ValidHistory;
    var run, threshold := [Delivered(ms), TakenBack(ms)], Threshold(limit, ms[2].blueScore);
    ResaleRuns(limit, ms);
    GrowingChainIsExact(limit, run[..1]);
    RunIsCanonical(limit, run[..1]);
    var before := ProcessAll(EMPTY_DB, limit, run[..1]).value;
    TakesBack(limit, ms, before);
    SellersDiffer(limit, ms, t, id, a, b);
    LogIsExact(before.core, before.residue);
    ChainIsHistory(limit, ms);
    SellerIndexExactIff(OpsOf(limit, ms), before.residue, threshold);
    DiscountLogExactIff(OpsOf(limit, ms), before.residue, threshold);
    LedgersOfResale(limit, ms, t, id, a, b);
    LaterThanSale(limit, ms, 4);
    var x := StepAt(limit, ms, 4);
    assert ms[..5] == ms;
    assert DiscountKey(x.score, t, x.op.info.discount.to) in before.residue.discounts by {
      assert VipKey(x.op.info.discount.to, t, x.score, x.op.info.discount.fee) in before.core.vip;
    }
  }

  lemma LogIsExact(c: Core, r: Residue)
    requires DiscountLogExact(c.vip, r.discounts)
    ensures VipOk(c.vip, r.discounts)
  {
  }

  // ---------------------------------------------------------------- such a sale passes the analyzer

  const SOMPI_PER_KASPA: nat := 100_000_000
  const FEE_DEPLOY: nat := 1_000 * SOMPI_PER_KASPA
  const FEE_MINT: nat := 10 * SOMPI_PER_KASPA
  const MIN_ROYALTY_FEE: nat := SOMPI_PER_KASPA / 10
  const MAX_ROYALTY_FEE: nat := 10_000_000 * SOMPI_PER_KASPA

  /** The fee bounds of the analyzer, and a listing script that hashes a redeem script. */
  predicate PassesAnalyzer(op: Operation) {
    && ValidOp(op)
    && match op.info
       case DeployOp(d) =>
         && op.common.fee >= FEE_DEPLOY + d.premint * FEE_MINT
         && (d.royalty.Some? ==> MIN_ROYALTY_FEE <= d.royalty.value.fee <= MAX_ROYALTY_FEE)
       case MintOp(_) => op.common.fee >= FEE_MINT
       case ListOp(l) => l.redeemScript != [] && AddressScript(l.p2shScript)
       case _ => true
  }

  function KeyScript(key: nat): Script {
    Script(0, [0x20] + seq(32, _ => key) + [0xAC])
  }

  function HashScript(hash: nat): Script {
    Script(0, [0xAA, 0x20] + seq(32, _ => hash) + [0x87])
  }

  function ListingBy(seller: nat): ListInfo {
    ListInfo(1, HashScript(seller), seq(34, _ => seller), HashScript(seller))
  }

  /** The script of key 1 deploys one token for 1010 KAS with a royalty of one KAS. */
  function DealOf(t: Tick, i: nat): Operation
    requires i < 5
  {
    var a, b := KeyScript(1), KeyScript(2);
    var common := Common(t, i + 1, 0, if i == 3 then b else a, FEE_DEPLOY + FEE_MINT, 0);
    match i
    case 0 => Operation(common, DeployOp(DeployInfo(1, a, Some(Royalty(a, SOMPI_PER_KASPA)), 0, 1)))
    case 1 => Operation(common, ListOp(ListingBy(1)))
    case 2 => Operation(common, SendOp(SendInfo(1, Some(b), 2)))
    case 3 => Operation(common, ListOp(ListingBy(2)))
    case _ => Operation(common, DiscountOp(DiscountInfo(b, MIN_ROYALTY_FEE)))
  }

  function DealBlocks(t: Tick, blue: u64, n: nat): (ms: seq<Mergeset>)
    requires n <= 5 && blue + 5 <= U64_MAX
    ensures |ms| == n && forall i :: 0 <= i < n ==> ms[i] == Mergeset([MergesetOp(0, 0, DealOf(t, i))], 0, blue + i, i + 1)
  {
    if n == 0 then [] else DealBlocks(t, blue, n - 1) + [Mergeset([MergesetOp(0, 0, DealOf(t, n - 1))], 0, blue + n - 1, n)]
  }

  lemma {:induction false} DealTxIds(limit: Limit, t: Tick, blue: u64, n: nat)
    requires n <= 5 && blue + 5 <= U64_MAX
    ensures |OpsOf(limit, DealBlocks(t, blue, n))| == n
    ensures forall i :: 0 <= i < n ==> OpsOf(limit, DealBlocks(t, blue, n))[i].op.common.txId == i + 1
  {
    hide TxScore, DealOf, DealBlocks;
    var ms := DealBlocks(t, blue, n);
    if n > 0 {
      DealTxIds(limit, t, blue, n - 1);
      assert ms[..n - 1] == DealBlocks(t, blue, n - 1);
      assert BlockOps(limit, ms[n - 1]) == [StepAt(limit, ms, n - 1)];
      DealTxId(t, n - 1);
    } else {
      assert OpsOf(limit, []) == [];
    }
  }

  lemma DealTxId(t: Tick, i: nat)
    requires i < 5
    ensures DealOf(t, i).common.txId == i + 1
  {
  }

  lemma DealsPass(t: Tick, i: nat)
    requires i < 5
    ensures PassesAnalyzer(DealOf(t, i)) && DealOf(t, i).common.tick == t
  {
    assert KeyScript(2).bytes[33] == 0xAC;
    assert HashScript(1).bytes[34] == 0x87 && HashScript(2).bytes[34] == 0x87;
  }

  /** For every tick and every first blue score there is such a sale that the analyzer lets
      through. */
  lemma ResaleIsReceivable(limit: Limit, t: Tick, blue: u64) returns (ms: seq<Mergeset>)
    requires Fits(limit, blue + 4) && blue + 5 <= U64_MAX
    ensures Resale(limit, ms, t, 1, KeyScript(1), KeyScript(2)) && ms[0].blueScore == blue
    ensures forall i :: 0 <= i < 5 ==> PassesAnalyzer(OpAt(ms, i))
  {
    hide Fits, OpsOf, PassesAnalyzer, KeyScript, HashScript;
    ms := DealBlocks(t, blue, 5);
    DealTxIds(limit, t, blue, 5);
    forall i | 0 <= i < 5 ensures OrderedBlock(limit, ms[i]) && PassesAnalyzer(OpAt(ms, i)) {
      SmallerBlueFits(limit, blue + i, blue + 4);
      DealsPass(t, i);
      PassingIsValid(OpAt(ms, i));
    }
    KeysDiffer();
  }

  lemma PassingIsValid(op: Operation)
    requires PassesAnalyzer(op)
    ensures ValidOp(op)
  {
  }

  lemma KeysDiffer()
    ensures KeyScript(1) != KeyScript(2)
  {
    assert KeyScript(1).bytes[1] == 1 && KeyScript(2).bytes[1] == 2;
  }
}
