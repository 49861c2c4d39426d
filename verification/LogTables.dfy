/** The registry against the log: every collection is what one accepted, still logged
    deployment said, and every such deployment has its collection. */
module LogTables {
  import opened Model
  import opened Ledger
  import opened Invariants
  import opened Steps
  import opened Filtering
  import opened Score
  import opened Chain
  import opened ChainReplay
  import opened ChainTheorem
  import opened Guarantees
  import opened Protocol

  ghost predicate RegistryIsLogged(registry: map<Tick, Deployment>, ops: map<nat, CheckedOp>) {
    && (forall t :: t in registry ==>
          var r := registry[t];
          && r.score in ops && ops[r.score].error.None?
          && r.common.tick == t && ops[r.score].op == Operation(r.common, DeployOp(r.info)))
    && (forall s :: s in ops && ops[s].error.None? && ops[s].op.info.DeployOp? ==>
          ops[s].op.common.tick in registry && registry[ops[s].op.common.tick].score == s)
  }

  /** An accepted deployment adds its collection; nothing else changes the registry. */
  ghost predicate Registers(c: Core, x: ContextOp) {
    var e := EffectOf(c, x);
    e.Effect? ==>
      if e.error.None? && x.op.info.DeployOp? then
        x.op.common.tick !in c.registry &&
        e.core.registry == c.registry[x.op.common.tick := Deployment(x.score, x.op.info.deploy, x.op.common)]
      else e.core.registry == c.registry
  }

  lemma {:induction false} PremintsKeepRegistry(c: Core, score: nat, common: Common, d: DeployInfo, n: nat)
    ensures var r := Premints(c, score, common, d, n); r.Applied? ==> r.core.registry == c.registry
  {
    hide Mint;
    if n > 0 {
      PremintsKeepRegistry(c, score, common, d, n - 1);
      var before := Premints(c, score, common, d, n - 1);
      if before.Applied? {
        MintShape(before.core, 0, score, common, MintInfo(0, d.deployer, None), true);
      }
    }
  }

  lemma DeployRegisters(c: Core, x: ContextOp)
    requires x.op.info.DeployOp? && Good(c, x.score) && ValidOp(x.op)
    ensures Registers(c, x)
  {
    hide Premints, TablesOk, SupplyOk, Bounded, PremintsDone, LastMint, FeesOf, OffersOf, OwnersOf, MintsOf, CollectionsOf, Play;
    var d := x.op.info.deploy;
    DeployFollows(c, x);
    SameTicks(c.registry, c.mints);
    PremintsKeepRegistry(Register(c, x.score, x.op.common, d), x.score, x.op.common, d, d.premint);
  }

  lemma OthersKeepRegistry(c: Core, x: ContextOp)
    requires !x.op.info.DeployOp?
    ensures Registers(c, x)
  {
    hide Mint, Transfer, Discount, List, Send;
    match x.op.info
    case MintOp(m) => MintShape(c, x.entropy, x.score, x.op.common, m, false);
    case TransferOp(i) => TransferKeeps(c, x.score, x.op.common, i);
    case DiscountOp(i) => DiscountLeavesSupply(c, x.score, x.op.common, i);
    case ListOp(i) => ListLeavesSupply(c, x.score, x.op.common, i);
    case SendOp(i) => SendLeavesSupply(c, x.score, x.op.common, i);
  }

  lemma TransferKeeps(c: Core, score: nat, common: Common, i: TransferInfo)
    ensures Transfer(c, score, common, i).core.registry == c.registry
  {
  }

  lemma OneMoreLogged(registry: map<Tick, Deployment>, after: map<Tick, Deployment>, ops: map<nat, CheckedOp>, s: nat, o: CheckedOp)
    requires RegistryIsLogged(registry, ops) && s !in ops
    requires if o.error.None? && o.op.info.DeployOp? then
               o.op.common.tick !in registry && after == registry[o.op.common.tick := Deployment(s, o.op.info.deploy, o.op.common)]
             else after == registry
    ensures RegistryIsLogged(after, ops[s := o])
  {
  }

  lemma StepKeepsLogged(c: Core, d: Core, x: ContextOp)
    requires OneStep(c, d, x) && RegistryIsLogged(c.registry, c.ops)
    ensures RegistryIsLogged(d.registry, d.ops)
  {
    hide Good, AddsOnly, EffectOf, RegistryIsLogged, ValidOp;
    if x.op.info.DeployOp? { DeployRegisters(c, x); } else { OthersKeepRegistry(c, x); }
    RecordsIt(c, x);
    BoundedOfGood(c, x.score);
    BoundedOps(c, x.score);
    OneMoreLogged(c.registry, EffectOf(c, x).core.registry, c.ops, x.score, Apply(c, x).logged);
  }

  lemma {:induction false} RunKeepsLogged(h: seq<ContextOp>)
    requires ValidHistory(h)
    ensures RegistryIsLogged(Run(h).registry, Run(h).ops)
    decreases |h|
  {
    hide ValidHistory, OneStep, RegistryIsLogged, Apply;
    if h == [] {
      NothingRegistered();
    } else {
      PrefixIsValid(h);
      RunKeepsLogged(h[..|h| - 1]);
      RunStep(h);
      StepKeepsLogged(Run(h[..|h| - 1]), Run(h), h[|h| - 1]);
    }
  }

  lemma NothingRegistered()
    ensures RegistryIsLogged(map[], map[])
  {
  }

  /** In every reachable state the registry is what the surviving accepted deployments say:
      score, transaction, sender, fee, supply, royalty, start and premint. */
  lemma CollectionsAreLogged(limit: Limit, changes: seq<ChainChange>)
    requires ValidRun(limit, changes)
    ensures ProcessAll(EMPTY_DB, limit, changes).Some?
    ensures var c := ProcessAll(EMPTY_DB, limit, changes).value.core; RegistryIsLogged(c.registry, c.ops)
  {
    hide ValidRun, ProcessAll, Good, Run, ValidHistory, RegistryIsLogged;
    ReachableIsGood(limit, changes);
    RunKeepsLogged(OpsOf(limit, ChainAfter(changes)));
  }
}
