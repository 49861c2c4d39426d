/** The byte keys of every reachable ledger: all fields fit their width, so each scan
    over byte keys finds what the ledger's specification says it finds. */
module Scans {
  import opened Model
  import opened Ledger
  import opened Invariants
  import opened Steps
  import opened Rollback
  import opened ReorgIsReplay
  import opened Score
  import opened Chain
  import opened ChainReplay
  import opened ChainTheorem
  import opened Keys
  import opened RowKeys
  import opened Guarantees
  import opened ChainIndexes
  import opened TokenHistory
  import opened Protocol
  import opened FreeRanges
  import opened Residues
  import opened StaleRows
  import opened ScriptKeys

  // ---------------------------------------------------------------- all fields fit

  ghost predicate AllFit(c: Core) {
    && (forall k :: k in c.mints ==> MintFits(k))
    && (forall k :: k in c.history ==> HistoryFits(k))
    && (forall k :: k in c.changes ==> ChangeFits(k))
    && (forall t :: t in c.owners ==> Fits8(t.tokenId))
    && (forall s :: s in c.ops ==> Fits8(s))
  }

  /** The numbers of a mint are at most the maximal supply. */
  lemma MintNumbersFit(c: Core, k: MintKey)
    requires SupplyOk(c.registry, c.mints, c.alloc) && k in c.mints && c.registry[k.token.tick].info.max < U64_MAX
    ensures Fits8(k.seqNo) && Fits8(k.token.tokenId)
  {
    hide LastMint;
    var t := k.token.tick;
    assert TickOk(c.registry, c.mints, c.alloc, t);
    assert k.seqNo in MintSeqs(c.mints, t);
  }

  lemma MintsFit(h: seq<ContextOp>)
    requires ValidHistory(h)
    ensures forall k :: k in Run(h).mints ==> Fits8(k.seqNo) && Fits8(k.token.tokenId)
  {
    hide ValidHistory, Run, View, SupplyOk, TablesOk, PremintsDone, Bounded, LogsExactly;
    var c := Run(h);
    RunIsGood(h);
    CollectionsAreValid(h);
    forall k | k in c.mints ensures Fits8(k.seqNo) && Fits8(k.token.tokenId) {
      MintedIsRegistered(c, k);
      CollectionShown(c, k.token.tick);
      MintNumbersFit(c, k);
    }
  }

  lemma MintedIsRegistered(c: Core, k: MintKey)
    requires SupplyOk(c.registry, c.mints, c.alloc) && k in c.mints
    ensures k.token.tick in c.registry
  {
    hide TickOk, TokenIds.Untouched;
  }

  lemma LoggedFits(h: seq<ContextOp>)
    requires ValidHistory(h)
    ensures forall s :: s in Run(h).ops ==> Fits8(s)
  {
    hide ValidHistory, Run;
    forall s | s in Run(h).ops ensures Fits8(s) {
      LoggedIsInHistory(h, s);
      var i :| 0 <= i < |h| && h[i].score == s;
    }
  }

  lemma OwnedFits(c: Core)
    requires OwnedAreMinted(c.owners, c.mints) && forall k :: k in c.mints ==> Fits8(k.token.tokenId)
    ensures forall t :: t in c.owners ==> Fits8(t.tokenId)
  {
    forall t | t in c.owners ensures Fits8(t.tokenId) {
      var k :| k in c.mints && k.token == t;
    }
  }

  lemma RowsFit(c: Core)
    requires OwnershipOk(c.changes, c.history, c.owners, c.holdings) && MintsMatchChanges(c.mints, c.changes)
    requires HistoryIsLogged(c.history, c.ops) && forall s :: s in c.ops ==> Fits8(s)
    requires forall t :: t in c.owners ==> Fits8(t.tokenId)
    requires forall k :: k in c.mints ==> Fits8(k.seqNo) && Fits8(k.token.tokenId)
    ensures AllFit(c)
  {
    hide Receiver, HoldingsInvertOwners;
    forall k | k in c.changes ensures ChangeFits(k) && k.score in c.ops {
      assert HistoryKey(k.token, k.score) in c.history;
      if k.seqNo >= 1 {
        assert MintKey(k.token, k.seqNo, k.score) in c.mints;
      }
    }
    forall k | k in c.mints ensures MintFits(k) {
      assert ChangeKey(k.score, k.token, k.seqNo) in c.changes;
    }
  }

  lemma RunFits(h: seq<ContextOp>)
    requires ValidHistory(h)
    ensures AllFit(Run(h))
  {
    hide ValidHistory, Run, Good, LogsExactly, HistoryIsLogged, OwnershipOk, MintsMatchChanges, OpsOk, SendsOk, RegistryOk, OwnedAreMinted, AllFit;
    RunIsGood(h);
    PartsOfGood(Run(h), NextScore(h));
    OwnersOfGood(Run(h), NextScore(h));
    RunIsTold(h);
    LoggedFits(h);
    MintsFit(h);
    OwnedFits(Run(h));
    RowsFit(Run(h));
  }

  lemma OwnersOfGood(c: Core, bound: nat)
    requires Good(c, bound)
    ensures OwnedAreMinted(c.owners, c.mints)
  {
    hide SupplyOk, PremintsDone, Bounded, OwnershipOk, MintsMatchChanges, OpsOk, SendsOk, RegistryOk, ListingsOk;
  }

  // ---------------------------------------------------------------- so the scans are right

  /** The first mint key of a tick holds the last sequence number. */
  ghost predicate MintScan(c: Core, t: Tick)
    requires AllFit(c)
  {
    var table, prefix := MintTable(c.mints), Pack(TICK, [t]);
    && (forall b :: FirstHit(table, prefix, b) ==> MintFromBytes(b).seqNo == LastMint(c.mints, t))
    && ((forall b :: b in table ==> !(prefix <= b)) ==> LastMint(c.mints, t) == 0)
  }

  /** The first history key of a token is the one of its owner. */
  ghost predicate OwnerScan(c: Core, token: TokenKey)
    requires AllFit(c)
  {
    var table, prefix := HistoryTable(c.history), Pack(TOKEN, [token.tick, token.tokenId]);
    && (forall b :: FirstHit(table, prefix, b) ==>
          var k := HistoryFromBytes(b);
          && k in c.history && k.token == token
          && token in c.owners && c.owners[token] == Holding(c.history[k], k.score))
    && ((forall b :: b in table ==> !(prefix <= b)) ==> token !in c.owners)
  }

  /** The scan that unwinds changes of owner meets exactly the ones from the threshold on,
      and its byte order is the order of unwinding. */
  ghost predicate ChangeScan(c: Core)
    requires AllFit(c)
  {
    && (forall k, l :: k in c.changes && l in c.changes ==> (KeyLe(k, l) <==> !LexLess(ChangeBytes(l), ChangeBytes(k))))
    && (forall k, t: u64 :: k in c.changes ==>
          (!LexLess(ChangeBytes(k), Pack(CHANGE_KEY, [t, TICK_MIN, 0, 0])) <==> k in ChangesSince(c, t)))
  }

  lemma MintIsScanned(c: Core, t: Tick)
    requires AllFit(c)
    ensures MintScan(c, t)
  {
    hide Pack, LexLess, MintFromBytes, MintTable, MintFits, LastMint, FirstHit, HistoryFits, ChangeFits, Fits8;
    FirstMintIsLatest(c.mints, t);
  }

  lemma OwnerIsScanned(c: Core, token: TokenKey)
    requires AllFit(c) && OwnershipOk(c.changes, c.history, c.owners, c.holdings) && Fits8(token.tokenId)
    ensures OwnerScan(c, token)
  {
    hide Pack, LexLess, HistoryFromBytes, HistoryTable, OwnershipOk, MintFits, LastOwner, FirstHit, HistoryFits, ChangeFits, Fits8;
    FirstOwnerIsLatest(c.history, token);
    OwnersAreLastOwners(c);
  }

  lemma ChangesAreScanned(c: Core)
    requires AllFit(c)
    ensures ChangeScan(c)
  {
    hide Pack, LexLess, ChangeBytes, MintFits, HistoryFits, ChangeFits, Fits8, KeyLe;
    forall k, l | k in c.changes && l in c.changes ensures KeyLe(k, l) <==> !LexLess(ChangeBytes(l), ChangeBytes(k)) {
      ChangeOrder(k, l);
    }
    forall k, t: u64 | k in c.changes
      ensures !LexLess(ChangeBytes(k), Pack(CHANGE_KEY, [t, TICK_MIN, 0, 0])) <==> k in ChangesSince(c, t)
    {
      ChangesFromThreshold(k, t);
    }
  }

  /** In every reachable state: the mint scan finds the last sequence number of any tick,
      the history scan the owner of any token, and the scan of changes the ones to unwind
      in their order. */
  lemma ScansAreRight(limit: Limit, changes: seq<ChainChange>)
    requires ValidRun(limit, changes)
    ensures ProcessAll(EMPTY_DB, limit, changes).Some?
    ensures var c := ProcessAll(EMPTY_DB, limit, changes).value.core;
            && AllFit(c)
            && (forall t :: MintScan(c, t))
            && (forall t: Tick, id: u64 :: OwnerScan(c, TokenKey(t, id)))
            && ChangeScan(c)
  {
    hide ValidRun, ProcessAll, Good, Run, ValidHistory, AllFit, MintScan, OwnerScan, ChangeScan, OwnershipOk, MintsMatchChanges, OpsOk, SendsOk,
      RegistryOk;
    ReachableIsGood(limit, changes);
    var h := OpsOf(limit, ChainAfter(changes));
    RunFits(h);
    PartsOfGood(Run(h), NextScore(h));
    forall t ensures MintScan(Run(h), t) {
      MintIsScanned(Run(h), t);
    }
    forall t: Tick, id: u64 ensures OwnerScan(Run(h), TokenKey(t, id)) {
      OwnerIsScanned(Run(h), TokenKey(t, id));
    }
    ChangesAreScanned(Run(h));
  }

  // ---------------------------------------------------------------- keys with scripts

  ghost predicate IdsFit(keys: set<HoldingKey>) {
    forall k :: k in keys ==> Fits8(k.token.tokenId)
  }

  /** Listed tokens are owned. */
  lemma ListedFit(c: Core, bound: nat)
    requires Good(c, bound) && AllFit(c)
    ensures forall t :: t in c.listings ==> Fits8(t.tokenId)
    ensures IdsFit(c.holdings.Keys)
  {
    hide SupplyOk, PremintsDone, Bounded, ChangesMatchHistory, OwnersAreLatest, MintsMatchChanges, OpsOk, SendsOk, RegistryOk, OwnedAreMinted,
      Backed, MintFits, HistoryFits, ChangeFits, Fits8;
  }

  lemma RolledBackFit(c: Core, threshold: nat, stale: Stale)
    requires IdsFit(stale.sellers) && forall t :: t in c.listings ==> Fits8(t.tokenId)
    ensures IdsFit(RolledBack(c, threshold, stale).sellers)
  {
    hide PutBack, SellersOf, Fits8;
  }

  lemma {:induction false} StaleFit(limit: Limit, changes: seq<ChainChange>)
    requires ValidRun(limit, changes)
    ensures IdsFit(StaleAfter(limit, changes).sellers)
    decreases |changes|
  {
    hide ProcessAll, ValidChange, Remove, Extend, Identify, RenewedSince, RolledBack, Run, Good, AllFit, IdsFit, Fits8, ValidHistory;
    if changes == [] {
      assert IdsFit({}) by { NoIds(); }
    } else {
      var before, change := changes[..|changes| - 1], changes[|changes| - 1];
      StaleFit(limit, before);
      ReachableIsGood(limit, before);
      var h, db, stale := OpsOf(limit, ChainAfter(before)), ProcessAll(EMPTY_DB, limit, before).value, StaleAfter(limit, before);
      RunFits(h);
      ListedFit(Run(h), NextScore(h));
      var (_, least) := Identify(db.blocks, db.blockScores, change.removed);
      var b := RollbackScore(least, change.forced);
      if b.Some? {
        RolledBackFit(db.core, Threshold(limit, b.value), stale);
      }
      StaleOfChangeFit(db, limit, change, stale);
    }
  }

  lemma NoIds()
    ensures IdsFit({})
  {
  }

  lemma StaleOfChangeFit(db: Db, limit: Limit, change: ChainChange, stale: Stale)
    requires IdsFit(stale.sellers) && IdsFit(StaleAfterRemoval(db, limit, change, stale).sellers)
    ensures IdsFit(StaleAfterChange(db, limit, change, stale).sellers)
  {
    hide Remove, Extend, StaleAfterRemoval, RenewedSince, Fits8;
  }

  /** In every reachable state no two rows of the address index, the seller index or the
      discount log share a key, although their scripts have no fixed width. */
  lemma ScriptKeysAreApart(limit: Limit, changes: seq<ChainChange>)
    requires ValidRun(limit, changes)
    ensures ProcessAll(EMPTY_DB, limit, changes).Some?
    ensures var db := ProcessAll(EMPTY_DB, limit, changes).value;
            && (forall k, l :: k in db.core.holdings && l in db.core.holdings && HoldingBytes(k) == HoldingBytes(l) ==> k == l)
            && (forall k, l :: k in db.residue.sellerIndex && l in db.residue.sellerIndex && HoldingBytes(k) == HoldingBytes(l) ==> k == l)
            && (forall k, l :: k in db.residue.discounts && l in db.residue.discounts && DiscountBytes(k) == DiscountBytes(l) ==> k == l)
  {
    hide ValidRun, ProcessAll, Good, Run, ValidHistory, AllFit, HoldingBytes, DiscountBytes, IdsFit, SellersExact, DiscountLogExact, StaleAfter,
      ExactBut;
    ReachableIsGood(limit, changes);
    var h, db := OpsOf(limit, ChainAfter(changes)), ProcessAll(EMPTY_DB, limit, changes).value;
    RunFits(h);
    ListedFit(Run(h), NextScore(h));
    StaleRowsAreKnown(limit, changes);
    StaleFit(limit, changes);
    SellersFit(db.core, db.residue, StaleAfter(limit, changes));
    ApartIfTheyFit(db.core.holdings.Keys);
    ApartIfTheyFit(db.residue.sellerIndex.Keys);
    forall k, l | DiscountBytes(k) == DiscountBytes(l) ensures k == l {
      DiscountsAreApart(k, l);
    }
  }

  lemma SellersFit(c: Core, r: Residue, stale: Stale)
    requires ExactBut(c, r, stale) && IdsFit(stale.sellers) && forall t :: t in c.listings ==> Fits8(t.tokenId)
    ensures IdsFit(r.sellerIndex.Keys)
  {
    hide DiscountsBut, Fits8, SellersIndexed;
  }

  lemma ApartIfTheyFit(keys: set<HoldingKey>)
    requires IdsFit(keys)
    ensures forall k, l :: k in keys && l in keys && HoldingBytes(k) == HoldingBytes(l) ==> k == l
  {
    hide HoldingBytes;
    forall k, l | k in keys && l in keys && HoldingBytes(k) == HoldingBytes(l) ensures k == l {
      HoldingsAreApart(k, l);
    }
  }
}
