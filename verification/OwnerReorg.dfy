/** Ownership across a rollback: unwinding the changes newest first and rebuilding
    the owners from what is left of the history. */
module OwnerReorg {
  import opened Model
  import opened Ledger
  import opened Invariants
  import opened Rollback
  import opened SupplyReorg
  import TokenIds

  // ---------------------------------------------------------------- unwinding

  function At(k: ChangeKey): HistoryKey {
    HistoryKey(k.token, k.score)
  }

  function MintOf(k: ChangeKey): MintKey {
    MintKey(k.token, k.seqNo, k.score)
  }

  /** The change is in the tables, and the premint of its collection can still be
      looked up, with the value of `registry`. */
  ghost predicate UnwindableAt(c: Core, k: ChangeKey, premints: map<Tick, nat>, registry: map<Tick, Deployment>) {
    && At(k) in c.history
    && (k.seqNo >= 1 <==> MintOf(k) in c.mints)
    && (k.seqNo >= 1 ==>
          && k.token.tick in registry
          && PremintOf(c.registry, premints, k.token.tick) == Some(registry[k.token.tick].info.premint))
  }

  ghost predicate Unwindable(c: Core, keys: seq<ChangeKey>, premints: map<Tick, nat>, registry: map<Tick, Deployment>) {
    && (forall k :: k in keys ==> UnwindableAt(c, k, premints, registry))
    && (forall i, j :: 0 <= i < j < |keys| ==> At(keys[i]) != At(keys[j]))
  }

  /** `c` without the rows of the changes in `keys`. */
  function Unwound(c: Core, keys: seq<ChangeKey>, alloc: TokenIds.Alloc): Core {
    c.(history := (map h | h in c.history && NotChangedAt(keys, h) :: c.history[h]),
       changes := (set k | k in c.changes && k !in keys),
       mints := (set k | k in c.mints && NotMintOf(keys, k)),
       alloc := alloc)
  }

  predicate NotChangedAt(keys: seq<ChangeKey>, h: HistoryKey) {
    forall k :: k in keys ==> At(k) != h
  }

  predicate NotMintOf(keys: seq<ChangeKey>, m: MintKey) {
    forall k :: k in keys ==> MintOf(k) != m
  }

  function HoldersAt(history: map<HistoryKey, Script>, keys: seq<ChangeKey>): seq<Option<Script>> {
    seq(|keys|, i requires 0 <= i < |keys| => if At(keys[i]) in history then Some(history[At(keys[i])]) else None)
  }

  lemma UnwindOneStep(c: Core, k: ChangeKey, premints: map<Tick, nat>, registry: map<Tick, Deployment>)
    requires Unwindable(c, [k], premints, registry)
    ensures At(k) in c.history
    ensures var a := UndoKeys(c.alloc, [k], registry);
            a.Some? ==> UnwindOne(c, k, premints) == Some((Unwound(c, [k], a.value), Some(c.history[At(k)])))
  {
    assert [k][0] == k && k in [k] && [k][1..] == [];
    var a := UndoKeys(c.alloc, [k], registry);
    if a.Some? {
      var u := Unwound(c, [k], a.value);
      assert u.history == c.history - {At(k)};
      assert u.changes == c.changes - {k};
      assert u.mints == if k.seqNo >= 1 then c.mints - {MintOf(k)} else c.mints;
    }
  }

  lemma UndoKeysCons(a: TokenIds.Alloc, k: ChangeKey, rest: seq<ChangeKey>, registry: map<Tick, Deployment>)
    ensures var b := UndoKeys(a, [k], registry);
            UndoKeys(a, [k] + rest, registry) == if b.None? then None else UndoKeys(b.value, rest, registry)
  {
    assert ([k] + rest)[1..] == rest && [k][1..] == [];
  }

  lemma UnwindableHead(c: Core, k: ChangeKey, rest: seq<ChangeKey>, premints: map<Tick, nat>, registry: map<Tick, Deployment>)
    requires Unwindable(c, [k] + rest, premints, registry)
    ensures Unwindable(c, [k], premints, registry)
    ensures At(k) in c.history
    ensures forall l :: l in rest ==> At(l) != At(k)
  {
    assert ([k] + rest)[0] == k;
    assert forall i :: 0 <= i < |rest| ==> rest[i] == ([k] + rest)[i + 1];
    assert k in [k] + rest;
  }

  lemma UnwindableAfterOne(c: Core, k: ChangeKey, l: ChangeKey, a: TokenIds.Alloc, premints: map<Tick, nat>, registry: map<Tick, Deployment>)
    requires UnwindableAt(c, l, premints, registry) && At(l) != At(k)
    ensures UnwindableAt(Unwound(c, [k], a), l, premints, registry)
  {
  }

  lemma UnwindableTail(c: Core, k: ChangeKey, rest: seq<ChangeKey>, a: TokenIds.Alloc, premints: map<Tick, nat>, registry: map<Tick, Deployment>)
    requires Unwindable(c, [k] + rest, premints, registry)
    ensures Unwindable(Unwound(c, [k], a), rest, premints, registry)
  {
    hide Unwound, UnwindableAt;
    UnwindableHead(c, k, rest, premints, registry);
    assert forall i :: 0 <= i < |rest| ==> rest[i] == ([k] + rest)[i + 1];
    forall l | l in rest ensures UnwindableAt(Unwound(c, [k], a), l, premints, registry) {
      assert l in [k] + rest;
      UnwindableAfterOne(c, k, l, a, premints, registry);
    }
  }

  lemma HoldersTail(c: Core, k: ChangeKey, rest: seq<ChangeKey>, a: TokenIds.Alloc)
    requires At(k) in c.history && forall l :: l in rest ==> At(l) != At(k)
    ensures HoldersAt(c.history, [k] + rest) == [Some(c.history[At(k)])] + HoldersAt(Unwound(c, [k], a).history, rest)
  {
    assert forall i :: 0 <= i < |rest| ==> rest[i] in rest;
    assert forall i :: 0 < i <= |rest| ==> ([k] + rest)[i] == rest[i - 1];
  }

  lemma UnwoundTwice(c: Core, k: ChangeKey, rest: seq<ChangeKey>, a: TokenIds.Alloc, b: TokenIds.Alloc)
    ensures Unwound(Unwound(c, [k], a), rest, b) == Unwound(c, [k] + rest, b)
  {
    assert forall l :: l in [k] + rest <==> l == k || l in rest;
  }

  /** Unwinding succeeds when undoing the draws does, and takes out exactly the rows of
      the changes. */
  lemma {:induction false} UnwindTakesOut(c: Core, keys: seq<ChangeKey>, premints: map<Tick, nat>, registry: map<Tick, Deployment>)
    requires Unwindable(c, keys, premints, registry) && UndoKeys(c.alloc, keys, registry).Some?
    ensures Unwind(c, keys, premints)
              == Some((Unwound(c, keys, UndoKeys(c.alloc, keys, registry).value), HoldersAt(c.history, keys)))
    decreases |keys|
  {
    if keys == [] {
      var u := Unwound(c, [], c.alloc);
      assert u.history == c.history && u.changes == c.changes && u.mints == c.mints;
      assert HoldersAt(c.history, []) == [];
    } else {
      hide Unwindable, Unwound, HoldersAt, UnwindOne, UndoKeys;
      var k, rest := keys[0], keys[1..];
      assert keys == [k] + rest;
      UndoKeysCons(c.alloc, k, rest, registry);
      var a := UndoKeys(c.alloc, [k], registry).value;
      UnwindableHead(c, k, rest, premints, registry);
      UnwindableTail(c, k, rest, a, premints, registry);
      HoldersTail(c, k, rest, a);
      UnwindOneStep(c, k, premints, registry);
      var d := Unwound(c, [k], a);
      assert d.alloc == a by { UnwoundAlloc(c, [k], a); }
      UnwindTakesOut(d, rest, premints, registry);
      UnwoundTwice(c, k, rest, a, UndoKeys(a, rest, registry).value);
    }
  }

  lemma UnwoundAlloc(c: Core, keys: seq<ChangeKey>, a: TokenIds.Alloc)
    ensures Unwound(c, keys, a).alloc == a
  {
  }

  // ---------------------------------------------------------------- rebuilding

  lemma LastOwnerIsLatest(history: map<HistoryKey, Script>, token: TokenKey)
    ensures var last := LastOwner(history, token);
            && (last.None? <==> forall h :: h in history ==> h.token != token)
            && (last.Some? ==>
                  && HistoryKey(token, last.value.score) in history
                  && history[HistoryKey(token, last.value.score)] == last.value.spk
                  && forall h :: h in history && h.token == token ==> h.score <= last.value.score)
  {
    var scores := HistoryScores(history, token);
    forall h | h in history && h.token == token ensures h.score in scores {
    }
  }

  /** What the address index and the owners hold for one token. */
  ghost predicate TokenOk(owners: map<TokenKey, Holding>, holdings: map<HoldingKey, nat>, token: TokenKey, want: Option<Holding>) {
    && (token in owners <==> want.Some?)
    && (want.Some? ==> owners[token] == want.value)
    && HeldBy(holdings, token, want)
  }

  ghost predicate HeldBy(holdings: map<HoldingKey, nat>, token: TokenKey, want: Option<Holding>) {
    && (forall k :: k in holdings && k.token == token ==> want.Some? && k.spk == want.value.spk && holdings[k] == want.value.score)
    && (want.Some? ==> HoldingKey(want.value.spk, token) in holdings)
  }

  function Owned(owners: map<TokenKey, Holding>, t: TokenKey): Option<Holding> {
    if t in owners then Some(owners[t]) else None
  }

  /** Half-way through the rebuild: the tokens in `done` are rebuilt, the other affected
      tokens have lost their owner row, the rest are as they were. */
  ghost predicate Rebuilt(before: Core, d: Core, done: set<TokenKey>, affected: set<TokenKey>) {
    && d == before.(owners := d.owners, holdings := d.holdings)
    && (forall t :: t in done ==> TokenOk(d.owners, d.holdings, t, LastOwner(before.history, t)))
    && (forall t :: t !in done ==> HeldBy(d.holdings, t, Owned(before.owners, t)))
    && (forall t :: t !in done && t in affected ==> t !in d.owners)
    && (forall t :: t !in done && t !in affected ==> Owned(d.owners, t) == Owned(before.owners, t))
  }

  lemma RebuildLeavesOwner(c: Core, token: TokenKey, holder: Option<Script>, t: TokenKey)
    requires t != token
    ensures Owned(RebuildOne(c, token, holder).owners, t) == Owned(c.owners, t)
  {
    hide LastOwner;
    var last := LastOwner(c.history, token);
    assert RebuildOne(c, token, holder).owners == if last.Some? then c.owners[token := last.value] else c.owners;
  }

  lemma RebuildOther(c: Core, token: TokenKey, holder: Option<Script>, t: TokenKey, want: Option<Holding>)
    requires t != token && HeldBy(c.holdings, t, want)
    ensures HeldBy(RebuildOne(c, token, holder).holdings, t, want)
  {
    hide LastOwner, HeldBy;
    var held := if holder.Some? then c.holdings - {HoldingKey(holder.value, token)} else c.holdings;
    if holder.Some? { HeldByOther(c.holdings, t, want, HoldingKey(holder.value, token), 0); }
    var last := LastOwner(c.history, token);
    if last.Some? { HeldByOther(held, t, want, HoldingKey(last.value.spk, token), last.value.score); }
  }

  lemma HeldByOther(holdings: map<HoldingKey, nat>, t: TokenKey, want: Option<Holding>, k: HoldingKey, score: nat)
    requires HeldBy(holdings, t, want) && k.token != t
    ensures HeldBy(holdings - {k}, t, want) && HeldBy(holdings[k := score], t, want)
  {
  }

  lemma RebuildSame(c: Core, token: TokenKey, holder: Option<Script>, had: Option<Holding>)
    requires HeldBy(c.holdings, token, had)
    requires had.Some? ==> holder == Some(had.value.spk) || had == LastOwner(c.history, token)
    requires LastOwner(c.history, token).None? ==> token !in c.owners
    ensures var d := RebuildOne(c, token, holder); TokenOk(d.owners, d.holdings, token, LastOwner(c.history, token))
  {
    hide LastOwner, HeldBy;
    HeldAnew(c.holdings, token, holder, had, LastOwner(c.history, token));
  }

  lemma HeldAnew(holdings: map<HoldingKey, nat>, token: TokenKey, holder: Option<Script>, had: Option<Holding>, last: Option<Holding>)
    requires HeldBy(holdings, token, had)
    requires had.Some? ==> holder == Some(had.value.spk) || had == last
    ensures var held := if holder.Some? then holdings - {HoldingKey(holder.value, token)} else holdings;
            HeldBy(if last.Some? then held[HoldingKey(last.value.spk, token) := last.value.score] else held, token, last)
  {
  }

  /** Rebuilding one change: on the first, newest change of a token the holder is the
      owner there was; on a later one the token is already rebuilt. */
  lemma RebuildStep(before: Core, d: Core, done: set<TokenKey>, affected: set<TokenKey>, token: TokenKey, holder: Option<Script>)
    requires Rebuilt(before, d, done, affected) && token in affected
    requires token !in done && token in before.owners ==> holder == Some(before.owners[token].spk)
    ensures Rebuilt(before, RebuildOne(d, token, holder), done + {token}, affected)
  {
    hide LastOwner, HeldBy, RebuildOne, TokenOk;
    var e := RebuildOne(d, token, holder);
    assert e == before.(owners := e.owners, holdings := e.holdings) by { RebuildTouches(d, token, holder); }
    var had := if token in done then LastOwner(before.history, token) else Owned(before.owners, token);
    TokenParts(d.owners, d.holdings, token, had, token in done);
    RebuildSame(d, token, holder, had);
    forall t | t != token
      ensures t in done ==> TokenOk(e.owners, e.holdings, t, LastOwner(before.history, t))
      ensures t !in done ==> HeldBy(e.holdings, t, Owned(before.owners, t))
      ensures Owned(e.owners, t) == Owned(d.owners, t)
    {
      var want := if t in done then LastOwner(before.history, t) else Owned(before.owners, t);
      TokenParts(d.owners, d.holdings, t, want, t in done);
      RebuildOther(d, token, holder, t, want);
      RebuildLeavesOwner(d, token, holder, t);
      TokenParts(e.owners, e.holdings, t, want, t in done);
    }
  }

  lemma RebuildTouches(c: Core, token: TokenKey, holder: Option<Script>)
    ensures var d := RebuildOne(c, token, holder); d == c.(owners := d.owners, holdings := d.holdings)
  {
    hide LastOwner;
    var last := LastOwner(c.history, token);
    if last.None? {
      assert RebuildOne(c, token, holder).owners == c.owners;
    }
  }

  lemma TokenParts(owners: map<TokenKey, Holding>, holdings: map<HoldingKey, nat>, token: TokenKey, want: Option<Holding>, whole: bool)
    ensures TokenOk(owners, holdings, token, want) <==> Owned(owners, token) == want && HeldBy(holdings, token, want)
    ensures token !in owners <==> Owned(owners, token).None?
  {
  }

  /** The first change of a token in the list is the one that made its owner. */
  ghost predicate HoldersMatch(before: Core, keys: seq<ChangeKey>, holders: seq<Option<Script>>) {
    && |keys| == |holders|
    && forall i :: 0 <= i < |keys| && keys[i].token !in TokensOf(keys[..i]) && keys[i].token in before.owners ==>
         holders[i] == Some(before.owners[keys[i].token].spk)
  }

  lemma {:induction false} RebuildKeepsGoing(before: Core, start: Core, keys: seq<ChangeKey>, holders: seq<Option<Script>>, affected: set<TokenKey>, n: nat)
    requires HoldersMatch(before, keys, holders) && n <= |keys|
    requires forall k :: k in keys ==> k.token in affected
    requires Rebuilt(before, start, {}, affected)
    ensures Rebuilt(before, Rebuild(start, keys[..n], holders[..n]), TokensOf(keys[..n]), affected)
  {
    hide Rebuilt, RebuildOne;
    if n == 0 {
      assert TokensOf(keys[..0]) == {};
    } else {
      RebuildKeepsGoing(before, start, keys, holders, affected, n - 1);
      assert keys[..n][..n - 1] == keys[..n - 1] && holders[..n][..n - 1] == holders[..n - 1];
      assert keys[n - 1] in keys;
      TokensOneMore(keys, n);
      RebuildStep(before, Rebuild(start, keys[..n - 1], holders[..n - 1]), TokensOf(keys[..n - 1]), affected,
                  keys[n - 1].token, holders[n - 1]);
    }
  }

  lemma TokensOneMore(keys: seq<ChangeKey>, n: nat)
    requires 0 < n <= |keys|
    ensures TokensOf(keys[..n]) == TokensOf(keys[..n - 1]) + {keys[n - 1].token}
  {
    assert keys[..n] == keys[..n - 1] + [keys[n - 1]];
    assert forall k :: k in keys[..n] <==> k in keys[..n - 1] || k == keys[n - 1];
  }

  // ---------------------------------------------------------------- both together

  /** When every token with a removed row is rebuilt, the owners are the latest of what
      is left and the address index is their inverse. */
  lemma RebuiltIsLatest(before: Core, d: Core, affected: set<TokenKey>)
    requires Rebuilt(before, d, affected, affected)
    requires forall t :: t !in affected ==> Owned(before.owners, t) == LastOwner(before.history, t)
    ensures OwnersAreLatest(before.history, d.owners) && HoldingsInvertOwners(d.owners, d.holdings)
  {
    forall t ensures TokenOk(d.owners, d.holdings, t, LastOwner(before.history, t)) {
      TokenParts(d.owners, d.holdings, t, LastOwner(before.history, t), true);
    }
    AllTokensOk(before.history, d.owners, d.holdings);
  }

  lemma AllTokensOk(history: map<HistoryKey, Script>, owners: map<TokenKey, Holding>, holdings: map<HoldingKey, nat>)
    requires forall t :: TokenOk(owners, holdings, t, LastOwner(history, t))
    ensures OwnersAreLatest(history, owners) && HoldingsInvertOwners(owners, holdings)
  {
    hide LastOwner;
    forall h | h in history ensures h.token in owners && h.score <= owners[h.token].score {
      LastOwnerIsLatest(history, h.token);
      assert TokenOk(owners, holdings, h.token, LastOwner(history, h.token));
    }
    forall t | t in owners
      ensures HistoryKey(t, owners[t].score) in history && history[HistoryKey(t, owners[t].score)] == owners[t].spk
    {
      LastOwnerIsLatest(history, t);
      assert TokenOk(owners, holdings, t, LastOwner(history, t));
    }
    forall t | t in owners
      ensures HoldingKey(owners[t].spk, t) in holdings && holdings[HoldingKey(owners[t].spk, t)] == owners[t].score
    {
      assert TokenOk(owners, holdings, t, LastOwner(history, t));
    }
    forall k | k in holdings ensures k.token in owners && owners[k.token].spk == k.spk {
      assert TokenOk(owners, holdings, k.token, LastOwner(history, k.token));
    }
  }
}
