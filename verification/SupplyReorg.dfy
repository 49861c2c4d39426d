/** The allocator across a rollback: undoing the rolled-back mints, newest first,
    gives the free ranges there were at the threshold. */
module SupplyReorg {
  import opened Model
  import opened Ledger
  import opened Invariants
  import opened Preservation
  import opened Steps
  import opened Filtering
  import opened Rollback
  import TokenIds

  // ---------------------------------------------------------------- newest first

  /** `keys` lists the members of `s` once each, by falling score. */
  ghost predicate NewestFirst(keys: seq<ChangeKey>, s: set<ChangeKey>) {
    && |keys| == |s|
    && (forall k :: k in keys <==> k in s)
    && (forall i, j :: 0 <= i < j < |keys| ==> keys[i].score >= keys[j].score && keys[i] != keys[j])
  }

  /** The keys below a score, in the same order. */
  function Older(keys: seq<ChangeKey>, s: nat): seq<ChangeKey> {
    if keys == [] then [] else (if keys[0].score < s then [keys[0]] else []) + Older(keys[1..], s)
  }

  function OlderSet(s: set<ChangeKey>, score: nat): set<ChangeKey> {
    set k | k in s && k.score < score
  }

  lemma OlderCons(k: ChangeKey, rest: seq<ChangeKey>, all: set<ChangeKey>, s: nat)
    requires k !in all && (forall l :: l in all ==> l.score <= k.score)
    requires NewestFirst(Older(rest, s), OlderSet(all, s))
    ensures NewestFirst(Older([k] + rest, s), OlderSet(all + {k}, s))
  {
    hide NewestFirst, Older, OlderSet;
    OlderUnfolds(k, rest, s);
    OlderSetGrows(k, all, s);
    if k.score < s {
      NewestFirstCons(k, Older(rest, s), OlderSet(all, s));
    }
  }

  lemma OlderUnfolds(k: ChangeKey, rest: seq<ChangeKey>, s: nat)
    ensures Older([k] + rest, s) == if k.score < s then [k] + Older(rest, s) else Older(rest, s)
  {
    assert ([k] + rest)[1..] == rest;
    assert [] + Older(rest, s) == Older(rest, s);
  }

  lemma OlderSetGrows(k: ChangeKey, all: set<ChangeKey>, s: nat)
    requires k !in all && forall l :: l in all ==> l.score <= k.score
    ensures OlderSet(all + {k}, s) == if k.score < s then OlderSet(all, s) + {k} else OlderSet(all, s)
    ensures k !in OlderSet(all, s) && forall l :: l in OlderSet(all, s) ==> l.score <= k.score
  {
  }

  lemma NothingOlder(all: set<ChangeKey>, s: nat)
    requires NewestFirst([], all)
    ensures NewestFirst(Older([], s), OlderSet(all, s))
  {
    assert all == {} && OlderSet(all, s) == {};
  }

  /** In a falling list the keys below a score are a suffix. */
  lemma {:induction false} OlderIsNewestFirst(keys: seq<ChangeKey>, all: set<ChangeKey>, s: nat)
    requires NewestFirst(keys, all)
    ensures NewestFirst(Older(keys, s), OlderSet(all, s))
    decreases |keys|
  {
    hide NewestFirst, Older, OlderSet;
    if keys == [] {
      NothingOlder(all, s);
    } else {
      HeadsBound(keys, all);
      TailIsNewestFirst(keys, all);
      OlderIsNewestFirst(keys[1..], all - {keys[0]}, s);
      OlderCons(keys[0], keys[1..], all - {keys[0]}, s);
      assert [keys[0]] + keys[1..] == keys && all - {keys[0]} + {keys[0]} == all;
    }
  }

  lemma HeadsBound(keys: seq<ChangeKey>, all: set<ChangeKey>)
    requires NewestFirst(keys, all) && keys != []
    ensures keys[0] in all && forall k :: k in all ==> k.score <= keys[0].score
  {
    assert keys[0] in keys;
    assert forall k :: k in all ==> k in keys;
  }

  lemma NewestFirstCons(k: ChangeKey, keys: seq<ChangeKey>, s: set<ChangeKey>)
    requires NewestFirst(keys, s) && k !in s && forall l :: l in s ==> l.score <= k.score
    ensures NewestFirst([k] + keys, s + {k})
  {
    assert forall i :: 0 <= i < |keys| ==> keys[i] in keys;
  }

  lemma TailIsNewestFirst(keys: seq<ChangeKey>, all: set<ChangeKey>)
    requires NewestFirst(keys, all) && keys != []
    ensures NewestFirst(keys[1..], all - {keys[0]})
  {
  }

  // ---------------------------------------------------------------- undoing a list of changes

  /** Whether rolling the change back undoes a draw. */
  predicate IsDraw(registry: map<Tick, Deployment>, k: ChangeKey) {
    k.seqNo >= 1 && k.token.tick in registry && k.token.tokenId > registry[k.token.tick].info.premint
  }

  function UndoKeys(a: TokenIds.Alloc, keys: seq<ChangeKey>, registry: map<Tick, Deployment>): Option<TokenIds.Alloc>
    decreases |keys|
  {
    if keys == [] then Some(a)
    else if !IsDraw(registry, keys[0]) then UndoKeys(a, keys[1..], registry)
    else
      match TokenIds.Undo(a, keys[0].token.tick, keys[0].token.tokenId)
      case None => None
      case Some(b) => UndoKeys(b, keys[1..], registry)
  }

  lemma {:induction false} UndoSkipsInert(a: TokenIds.Alloc, keys: seq<ChangeKey>, registry: map<Tick, Deployment>, s: nat)
    requires forall i :: 0 <= i < |keys| && keys[i].score >= s ==> !IsDraw(registry, keys[i])
    ensures UndoKeys(a, keys, registry) == UndoKeys(a, Older(keys, s), registry)
    decreases |keys|
  {
    if keys != [] {
      assert forall i :: 0 <= i < |keys[1..]| ==> keys[1..][i] == keys[i + 1];
      if keys[0].score < s {
        assert ([keys[0]] + Older(keys[1..], s))[1..] == Older(keys[1..], s);
        if IsDraw(registry, keys[0]) {
          var b := TokenIds.Undo(a, keys[0].token.tick, keys[0].token.tokenId);
          if b.Some? { UndoSkipsInert(b.value, keys[1..], registry, s); }
        } else {
          UndoSkipsInert(a, keys[1..], registry, s);
        }
      } else {
        assert Older(keys, s) == Older(keys[1..], s);
        UndoSkipsInert(a, keys[1..], registry, s);
      }
    }
  }

  /** Later deployments do not change what undoing older mints does. */
  lemma {:induction false} UndoIgnoresLater(a: TokenIds.Alloc, keys: seq<ChangeKey>, registry: map<Tick, Deployment>, later: map<Tick, Deployment>)
    requires forall i :: 0 <= i < |keys| ==> (IsDraw(registry, keys[i]) <==> IsDraw(later, keys[i]))
    ensures UndoKeys(a, keys, registry) == UndoKeys(a, keys, later)
    decreases |keys|
  {
    if keys != [] {
      assert forall i :: 0 <= i < |keys[1..]| ==> keys[1..][i] == keys[i + 1];
      if IsDraw(registry, keys[0]) {
        var b := TokenIds.Undo(a, keys[0].token.tick, keys[0].token.tokenId);
        if b.Some? { UndoIgnoresLater(b.value, keys[1..], registry, later); }
      } else {
        UndoIgnoresLater(a, keys[1..], registry, later);
      }
    }
  }

  // ---------------------------------------------------------------- what one operation draws

  /** The new changes of owner in `d` are none of them draws. */
  ghost predicate DrawsNothing(c: Core, d: Core) {
    c.alloc == d.alloc && forall k :: k in d.changes && k !in c.changes ==> !IsDraw(d.registry, k)
  }

  /** `d` has one new change of owner, the draw `k`, and undoing it restores the allocator. */
  ghost predicate DrawsOne(c: Core, d: Core, k: ChangeKey) {
    && k !in c.changes && d.changes == c.changes + {k}
    && IsDraw(d.registry, k)
    && TokenIds.Undo(d.alloc, k.token.tick, k.token.tokenId) == Some(c.alloc)
  }

  lemma OthersDrawNothing(c: Core, d: Core)
    requires MintsMatchChanges(d.mints, d.changes) && MintsMatchChanges(c.mints, c.changes)
    requires c.alloc == d.alloc && c.mints == d.mints
    ensures DrawsNothing(c, d)
  {
  }

  lemma {:induction false} PremintsDrawNothing(c: Core, score: nat, common: Common, d: DeployInfo, n: nat)
    requires Inv(c) && common.tick in c.registry && c.registry[common.tick].info == d
    requires LastMint(c.mints, common.tick) == 0 && n <= d.premint <= d.max
    ensures Premints(c, score, common, d, n).Applied?
    ensures var r := Premints(c, score, common, d, n).core; DrawsNothing(c, r) && r.registry == c.registry
  {
    hide Inv, LastMint, Mint, RecordMint;
    if n > 0 {
      PremintsDrawNothing(c, score, common, d, n - 1);
      PremintsKeep(c, score, common, d, n - 1);
      var before := Premints(c, score, common, d, n - 1).core;
      PremintWrites(before, score, common, d);
      RecordedPremint(before, score, TokenKey(common.tick, n), n, d.deployer);
    }
  }

  lemma RecordedPremint(c: Core, score: nat, token: TokenKey, n: nat, to: Script)
    ensures var d := RecordMint(c, score, token, n, to);
            d.alloc == c.alloc && d.registry == c.registry && d.changes == c.changes + {ChangeKey(score, token, n)}
  {
  }

  lemma DeployDrawsNothing(c: Core, x: ContextOp)
    requires Good(c, x.score) && ValidOp(x.op) && x.op.info.DeployOp?
    ensures var e := EffectOf(c, x); e.Effect? && DrawsNothing(c, e.core)
  {
    hide Inv, LastMint, Mint, PremintsDone, Bounded, TablesOk, SupplyOk, Premints;
    var common, d := x.op.common, x.op.info.deploy;
    InvParts(c);
    RegistryIsBounded(c, x.score);
    if common.tick !in c.registry {
      var registered := Register(c, x.score, common, d);
      RegisterKeepsTables(c, x.score, common, d);
      RegisterKeepsSupply(c, x.score, common, d);
      InvParts(registered);
      PremintsDrawNothing(registered, x.score, common, d, d.premint);
    }
  }

  lemma InvParts(c: Core)
    ensures Inv(c) <==> TablesOk(c) && SupplyOk(c.registry, c.mints, c.alloc)
  {
  }

  lemma MintDraws(c: Core, x: ContextOp)
    requires Good(c, x.score) && x.op.info.MintOp?
    ensures var e := EffectOf(c, x);
            e.Effect? && (DrawsNothing(c, e.core) || exists k: ChangeKey :: k.score == x.score && DrawsOne(c, e.core, k))
  {
    hide TablesOk, SupplyOk, Bounded, LastMint, TokenIds.Undo, TokenIds.Generate, TokenIds.Moved;
    var t := x.op.common.tick;
    var e := EffectOf(c, x);
    if t in c.registry && LastMint(c.mints, t) < c.registry[t].info.max {
      var d := c.registry[t].info;
      DrawForMint(c, t, x.entropy);
      var draw := TokenIds.Generate(c.alloc, t, x.entropy, d.max, d.premint);
      var k := ChangeKey(x.score, TokenKey(t, draw.tokenId), LastMint(c.mints, t) + 1);
      if e.error.None? {
        ChangesAreBounded(c, x.score);
        assert DrawsOne(c, e.core, k);
      }
    } else {
      MintRejectsEarly(c, x.entropy, x.score, x.op.common, x.op.info.mint, false);
    }
  }

  lemma ChangesAreBounded(c: Core, bound: nat)
    requires Good(c, bound)
    ensures forall k :: k in c.changes ==> k.score < bound
  {
    hide TablesOk, SupplyOk, PremintsDone;
  }

  lemma StepDraws(c: Core, d: Core, x: ContextOp)
    requires OneStep(c, d, x)
    ensures DrawsNothing(c, d) || exists k: ChangeKey :: k.score == x.score && DrawsOne(c, d, k)
  {
    hide Good, AddsOnly, EffectOf, DrawsNothing, DrawsOne;
    var e := EffectOf(c, x).core;
    if x.op.info.MintOp? {
      MintDraws(c, x);
    } else if x.op.info.DeployOp? {
      DeployDrawsNothing(c, x);
    } else {
      OthersLeaveSupply(c, x);
      MintsOfGood(c, x.score);
      MintsOfGood(d, x.score + 1);
      OthersDrawNothing(c, d);
    }
    DrawsByTables(c, e, d);
  }

  lemma DrawsByTables(c: Core, e: Core, d: Core)
    requires e.alloc == d.alloc && e.changes == d.changes && e.registry == d.registry
    ensures DrawsNothing(c, e) ==> DrawsNothing(c, d)
    ensures forall k :: DrawsOne(c, e, k) ==> DrawsOne(c, d, k)
  {
  }

  lemma MintsOfGood(c: Core, bound: nat)
    requires Good(c, bound)
    ensures MintsMatchChanges(c.mints, c.changes)
    ensures forall k :: k in c.changes && k.seqNo >= 1 ==> k.token.tick in c.registry
  {
    hide OwnershipOk, OwnedAreMinted, RegistryOk, PremintsDone, OpsOk, SendsOk, ListingsOk, TickOk, TokenIds.Untouched;
  }

  // ---------------------------------------------------------------- the whole list

  lemma SameDraws(c: Core, d: Core, x: ContextOp, keys: seq<ChangeKey>)
    requires OneStep(c, d, x) && forall k :: k in keys ==> k in c.changes
    ensures forall i :: 0 <= i < |keys| ==> (IsDraw(c.registry, keys[i]) <==> IsDraw(d.registry, keys[i]))
  {
    hide Good, Apply;
    MintsOfGood(c, x.score);
    assert forall i :: 0 <= i < |keys| ==> keys[i] in keys;
  }

  lemma OlderChanges(c: Core, d: Core, x: ContextOp, keys: seq<ChangeKey>, threshold: nat)
    requires OneStep(c, d, x) && x.score >= threshold && NewestFirst(keys, ChangesSince(d, threshold))
    ensures NewestFirst(Older(keys, x.score), ChangesSince(c, threshold))
  {
    hide Good, Apply, Older, NewestFirst;
    OlderIsNewestFirst(keys, ChangesSince(d, threshold), x.score);
    ChangesAreBounded(c, x.score);
    assert ChangesSince(c, threshold) == OlderSet(ChangesSince(d, threshold), x.score);
  }

  /** One more operation: undoing its own changes gives the allocator before it. */
  lemma UndoStep(c: Core, d: Core, x: ContextOp, keys: seq<ChangeKey>, threshold: nat)
    requires OneStep(c, d, x) && x.score >= threshold && NewestFirst(keys, ChangesSince(d, threshold))
    ensures UndoKeys(d.alloc, keys, d.registry) == UndoKeys(c.alloc, Older(keys, x.score), c.registry)
  {
    hide Good, Apply, TokenIds.Undo, AddsOnly, OneStep;
    StepDraws(c, d, x);
    OlderChanges(c, d, x, keys, threshold);
    var older := Older(keys, x.score);
    SameDraws(c, d, x, older);
    UndoIgnoresLater(c.alloc, older, c.registry, d.registry);
    ChangesOfStep(c, d, x);
    if DrawsNothing(c, d) {
      InertSince(c, d, x, keys, threshold);
      UndoSkipsInert(d.alloc, keys, d.registry, x.score);
    } else {
      var k: ChangeKey :| k.score == x.score && DrawsOne(c, d, k);
      NewestIs(c, d, x, keys, threshold, k);
      UndoSkipsInert(c.alloc, keys[1..], d.registry, x.score);
    }
  }

  lemma ChangesOfStep(c: Core, d: Core, x: ContextOp)
    requires OneStep(c, d, x)
    ensures forall k :: k in c.changes ==> k.score < x.score
    ensures forall k :: k in d.changes && k.score >= x.score ==> k !in c.changes
  {
    hide Good, Apply;
    ChangesAreBounded(c, x.score);
  }

  lemma InertSince(c: Core, d: Core, x: ContextOp, keys: seq<ChangeKey>, threshold: nat)
    requires DrawsNothing(c, d) && NewestFirst(keys, ChangesSince(d, threshold))
    requires forall k :: k in d.changes && k.score >= x.score ==> k !in c.changes
    ensures forall i :: 0 <= i < |keys| && keys[i].score >= x.score ==> !IsDraw(d.registry, keys[i])
  {
    assert forall i :: 0 <= i < |keys| ==> keys[i] in keys;
  }

  lemma NewestIs(c: Core, d: Core, x: ContextOp, keys: seq<ChangeKey>, threshold: nat, k: ChangeKey)
    requires DrawsOne(c, d, k) && k.score == x.score >= threshold && NewestFirst(keys, ChangesSince(d, threshold))
    requires forall l :: l in c.changes ==> l.score < x.score
    ensures keys != [] && keys[0] == k && Older(keys, x.score) == Older(keys[1..], x.score)
    ensures forall i :: 0 <= i < |keys[1..]| && keys[1..][i].score >= x.score ==> !IsDraw(d.registry, keys[1..][i])
  {
    assert k in keys;
    var i :| 0 <= i < |keys| && keys[i] == k;
    assert keys[0] in keys;
    assert forall j :: 0 <= j < |keys| ==> keys[j] in keys;
    assert i == 0;
    assert forall j :: 0 <= j < |keys[1..]| ==> keys[1..][j] == keys[j + 1];
  }

  /** Undoing the changes since the threshold, newest first, gives the allocator the
      operations below the threshold had left; no undo fails. */
  lemma {:induction false} UndoReachesThreshold(h: seq<ContextOp>, threshold: nat, keys: seq<ChangeKey>)
    requires ValidHistory(h) && NewestFirst(keys, ChangesSince(Run(h), threshold))
    ensures UndoKeys(Run(h).alloc, keys, Run(h).registry) == Some(Run(Below(h, threshold)).alloc)
    decreases |h|
  {
    hide ValidHistory, OneStep, Good, LogsExactly, NewestFirst;
    if h == [] || h[|h| - 1].score < threshold {
      RunIsGood(h);
      ChangesAreBounded(Run(h), NextScore(h));
      NoneNewer(keys, Run(h), threshold);
    } else {
      PrefixIsValid(h);
      RunStep(h);
      var c, d, x := Run(h[..|h| - 1]), Run(h), h[|h| - 1];
      OlderChanges(c, d, x, keys, threshold);
      UndoReachesThreshold(h[..|h| - 1], threshold, Older(keys, x.score));
      UndoStep(c, d, x, keys, threshold);
    }
  }

  lemma NoneNewer(keys: seq<ChangeKey>, c: Core, threshold: nat)
    requires NewestFirst(keys, ChangesSince(c, threshold)) && forall k :: k in c.changes ==> k.score < threshold
    ensures keys == []
  {
    assert ChangesSince(c, threshold) == {};
  }
}
