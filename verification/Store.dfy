/** The store as a write transaction sees it (database/src/database.rs): one field for
    each partition.  A transaction starts from the committed tables; it is committed as
    a whole or dropped. */
module Store {
  import opened Model
  import opened Ledger
  import opened Counters
  import opened Chain
  import TokenIds

  class WriteTransaction {
    var collectionRegistry: map<Tick, Deployment>
    var collectionDeployments: map<DeploymentKey, Deployment>
    var mintHistory: set<MintKey>
    var ownershipChanges: set<ChangeKey>
    var ownershipHistory: map<HistoryKey, Script>
    var currentOwnership: map<TokenKey, Holding>
    var addressHoldings: map<HoldingKey, nat>
    var vip: set<VipKey>
    var availableRanges: map<RangeKey, Range>
    var rangeLengths: map<Tick, nat>
    var tokenIdMeta: map<TokenKey, PreModRange>
    var listings: map<TokenKey, Listing>
    var listingsByTick: set<TokenKey>
    var operationHistory: map<nat, CheckedOp>
    var txIdToOpscore: map<TxId, nat>
    var scoreToDiscount: map<DiscountKey, u64>
    var addressListings: map<HoldingKey, nat>
    var chainBlockScores: set<BlockKey>
    var blockhashToScore: map<Hash, u64>
    var stats: Stats
    var notificationQueue: map<nat, ChainChange>

    function Alloc(): TokenIds.Alloc
      reads `availableRanges, `rangeLengths, `tokenIdMeta
    {
      TokenIds.Alloc(availableRanges, rangeLengths, tokenIdMeta)
    }

    function Core(): Core
      reads `collectionRegistry, `collectionDeployments, `mintHistory, `ownershipChanges, `ownershipHistory, `currentOwnership,
        `addressHoldings, `vip, `availableRanges, `rangeLengths, `tokenIdMeta, `listings, `listingsByTick, `operationHistory, `txIdToOpscore
    {
      Ledger.Core(collectionRegistry, collectionDeployments, mintHistory, ownershipChanges, ownershipHistory,
                  currentOwnership, addressHoldings, vip, Alloc(), listings, listingsByTick, operationHistory, txIdToOpscore)
    }

    function Residue(): Residue
      reads `scoreToDiscount, `addressListings
    {
      Ledger.Residue(scoreToDiscount, addressListings)
    }

    function Tables(): Db
      reads this
    {
      Db(Core(), Residue(), stats, chainBlockScores, blockhashToScore)
    }

    constructor (db: Db, queue: map<nat, ChainChange>)
      ensures Tables() == db && notificationQueue == queue
    {
      collectionRegistry := db.core.registry;
      collectionDeployments := db.core.deployments;
      mintHistory := db.core.mints;
      ownershipChanges := db.core.changes;
      ownershipHistory := db.core.history;
      currentOwnership := db.core.owners;
      addressHoldings := db.core.holdings;
      vip := db.core.vip;
      availableRanges := db.core.alloc.ranges;
      rangeLengths := db.core.alloc.lengths;
      tokenIdMeta := db.core.alloc.meta;
      listings := db.core.listings;
      listingsByTick := db.core.listingsByTick;
      operationHistory := db.core.ops;
      txIdToOpscore := db.core.opScores;
      scoreToDiscount := db.residue.discounts;
      addressListings := db.residue.sellerIndex;
      chainBlockScores := db.blocks;
      blockhashToScore := db.blockScores;
      stats := db.stats;
      notificationQueue := queue;
    }
  }
}
