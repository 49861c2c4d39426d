/** A reorganisation as it works on the store (nexus/src/processor.rs,
    `process_removal` and its helpers); `Rollback` is the specification. */
module Removal {
  import opened Model
  import opened Ledger
  import opened Counters
  import opened Rollback
  import opened Chain
  import opened Store
  import opened TokenIdSteps
  import TokenIds

  // ---------------------------------------------------------------- operations

  method RestoreListingForReorgedSend(tx: WriteTransaction, common: Common, send: SendInfo)
    modifies tx`listings, tx`listingsByTick, tx`addressListings
    ensures forall diff: Stats ::
              Undone(tx.Core(), tx.Residue(), diff) == Restore(Undone(old(tx.Core()), old(tx.Residue()), diff), Operation(common, SendOp(send)))
  {
    var listTxId := send.listingTxId;
    if listTxId !in tx.txIdToOpscore {
      return;
    }
    var listOpScore := tx.txIdToOpscore[listTxId];
    if listOpScore !in tx.operationHistory {
      return;
    }
    var checked := tx.operationHistory[listOpScore];
    if checked.error.Some? || !checked.op.info.ListOp? {
      return;
    }
    var info, seller := checked.op.info.list, checked.op.common.sender;
    var token := TokenKey(common.tick, send.tokenId);
    tx.listings := tx.listings[token := Listing(seller, listTxId, info.utxoAddress, info.redeemScript, listOpScore)];
    tx.listingsByTick := tx.listingsByTick + {token};
    tx.addressListings := tx.addressListings[HoldingKey(seller, token) := listOpScore];
  }

  /** The counters a removed operation takes off. */
  method CountRemoved(op: Operation, diff: Stats) returns (r: Stats)
    requires FitsU64(diff)
    ensures r == Wrapped(Plus(diff, Removed(op)))
  {
    hide Wrap;
    WrapLeaves(diff);
    r := diff.(securityFees := Wrap(diff.securityFees + op.common.fee));
    match op.info {
      case DeployOp(d) =>
        r := r.(deployments := Wrap(r.deployments + 1));
        r := r.(royaltyFees := Wrap(r.royaltyFees + (if d.royalty.Some? then d.royalty.value.fee else 0)));
      case MintOp(m) =>
        r := r.(mints := Wrap(r.mints + 1));
        r := r.(royaltyFees := Wrap(r.royaltyFees + (if m.royalty.Some? then m.royalty.value.fee else 0)));
      case TransferOp(_) => r := r.(transfers := Wrap(r.transfers + 1));
      case DiscountOp(_) =>
      case ListOp(_) => r := r.(listings := Wrap(r.listings + 1));
      case SendOp(_) => r := r.(sends := Wrap(r.sends + 1));
    }
  }

  /** One pass of the loop in `RemoveAffectedOperations`. */
  method RemoveOperation(tx: WriteTransaction, score: nat, sum: Stats, ghost total: Stats) returns (diff: Stats)
    requires score in tx.operationHistory && sum == Wrapped(total)
    modifies tx`operationHistory, tx`txIdToOpscore, tx`listings, tx`listingsByTick, tx`addressListings
    ensures var u := RemoveOp(Undone(old(tx.Core()), old(tx.Residue()), total), score);
            tx.Core() == u.core && tx.Residue() == u.residue && diff == Wrapped(u.diff)
  {
    hide Restore, Plus, Removed, Wrapped, FitsU64;
    var checked := tx.operationHistory[score];
    tx.txIdToOpscore := tx.txIdToOpscore - {checked.op.common.txId};
    tx.operationHistory := tx.operationHistory - {score};
    diff := sum;
    if checked.error.None? {
      if checked.op.info.SendOp? {
        ghost var v := Undone(tx.Core(), tx.Residue(), total);
        RestoreListingForReorgedSend(tx, checked.op.common, checked.op.info.send);
        assert Undone(tx.Core(), tx.Residue(), total) == Restore(v, checked.op);
      }
      WrappedSum(total, Removed(checked.op));
      diff := CountRemoved(checked.op, diff);
    }
  }

  lemma ScanIsRemovable(ops: map<nat, CheckedOp>, threshold: nat)
    ensures forall n :: 0 <= n <= |Ascending(Scores(ops, threshold))| ==> Removable(ops, Ascending(Scores(ops, threshold))[..n])
  {
    var scores := Ascending(Scores(ops, threshold));
    forall i | 0 <= i < |scores| ensures scores[i] in ops {
      assert scores[i] in scores;
    }
  }

  method RemoveAffectedOperations(tx: WriteTransaction, scoreThreshold: nat) returns (diff: Stats)
    modifies tx`operationHistory, tx`txIdToOpscore, tx`listings, tx`listingsByTick, tx`addressListings
    ensures var scores := Ascending(Scores(old(tx.operationHistory), scoreThreshold));
            && Removable(old(tx.operationHistory), scores)
            && var u := RemoveOps(Undone(old(tx.Core()), old(tx.Residue()), ZERO), scores);
               tx.Core() == u.core && tx.Residue() == u.residue && diff == Wrapped(u.diff)
  {
    hide Ascending, Scores, RemoveOp, Removable, Without, Wrapped;
    var opsToRemove := Ascending(Scores(tx.operationHistory, scoreThreshold));
    ScanIsRemovable(tx.operationHistory, scoreThreshold);
    ghost var start := Undone(tx.Core(), tx.Residue(), ZERO);
    assert opsToRemove[..|opsToRemove|] == opsToRemove;
    diff := ZERO;
    ghost var total := ZERO;
    NothingWrapped();
    for i := 0 to |opsToRemove|
      invariant Removable(start.core.ops, opsToRemove[..i])
      invariant Undone(tx.Core(), tx.Residue(), total) == RemoveOps(start, opsToRemove[..i]) && diff == Wrapped(total)
    {
      assert opsToRemove[..i + 1][..i] == opsToRemove[..i];
      assert Removable(start.core.ops, opsToRemove[..i + 1]);
      LastIsLeft(start.core.ops, opsToRemove[..i + 1]);
      diff := RemoveOperation(tx, opsToRemove[i], diff, total);
      total := RemoveOps(start, opsToRemove[..i + 1]).diff;
    }
  }

  // ---------------------------------------------------------------- deployments, discounts, listings

  /** The scan gives the keys in some order; the outcome does not depend on it. */
  method RemoveAffectedDeployments(tx: WriteTransaction, scoreThreshold: nat) returns (premintCount: map<Tick, nat>)
    modifies tx`collectionDeployments, tx`collectionRegistry
    ensures (tx.Core(), premintCount) == RemoveDeployments(old(tx.Core()), scoreThreshold)
  {
    var registry, deployments := tx.collectionRegistry, tx.collectionDeployments;
    ghost var all := set k | k in deployments && k.score >= scoreThreshold;
    var toDelete := set k | k in tx.collectionDeployments && k.score >= scoreThreshold;
    premintCount := map[];
    while toDelete != {}
      invariant toDelete <= all
      invariant tx.collectionDeployments == deployments - (all - toDelete)
      invariant tx.collectionRegistry == registry - TicksOf(all - toDelete)
      invariant premintCount == PremintsOf(registry, all - toDelete)
    {
      var key :| key in toDelete;
      ghost var done := all - toDelete;
      tx.collectionDeployments := tx.collectionDeployments - {key};
      if key.tick in tx.collectionRegistry {
        premintCount := premintCount[key.tick := tx.collectionRegistry[key.tick].info.premint];
        tx.collectionRegistry := tx.collectionRegistry - {key.tick};
      }
      toDelete := toDelete - {key};
      assert all - toDelete == done + {key};
      OneDeploymentMore(registry, deployments, done, key);
    }
    assert all - toDelete == all;
    WholeScan(registry, deployments, scoreThreshold);
  }

  function TicksOf(keys: set<DeploymentKey>): set<Tick> {
    set k | k in keys :: k.tick
  }

  function PremintsOf(registry: map<Tick, Deployment>, keys: set<DeploymentKey>): map<Tick, nat> {
    map t | t in TicksOf(keys) && t in registry :: registry[t].info.premint
  }

  lemma OneDeploymentMore(registry: map<Tick, Deployment>, deployments: map<DeploymentKey, Deployment>,
                          done: set<DeploymentKey>, key: DeploymentKey)
    ensures TicksOf(done + {key}) == TicksOf(done) + {key.tick}
    ensures registry - TicksOf(done + {key}) == registry - TicksOf(done) - {key.tick}
    ensures key.tick in registry - TicksOf(done) ==>
              PremintsOf(registry, done + {key}) == PremintsOf(registry, done)[key.tick := registry[key.tick].info.premint]
    ensures key.tick !in registry - TicksOf(done) ==>
              PremintsOf(registry, done + {key}) == PremintsOf(registry, done) && registry - TicksOf(done + {key}) == registry - TicksOf(done)
    ensures deployments - (done + {key}) == deployments - done - {key}
  {
    assert key in done + {key};
    assert forall t :: t in TicksOf(done + {key}) <==> t in TicksOf(done) || t == key.tick;
  }

  lemma WholeScan(registry: map<Tick, Deployment>, deployments: map<DeploymentKey, Deployment>, threshold: nat)
    ensures var all := set k | k in deployments && k.score >= threshold;
            && deployments - all == (map k | k in deployments && k.score < threshold :: deployments[k])
            && TicksOf(all) == (set k | k in deployments && k.score >= threshold :: k.tick)
  {
  }

  method RemoveDiscountsFrom(tx: WriteTransaction, scoreThreshold: nat)
    modifies tx`vip
    ensures tx.Core() == RemoveDiscounts(old(tx.Core()), tx.Residue(), scoreThreshold)
  {
    var discounts, vip := tx.scoreToDiscount, tx.vip;
    ghost var all := set k | k in discounts && k.score >= scoreThreshold;
    var left := set k | k in discounts && k.score >= scoreThreshold;
    while left != {}
      invariant left <= all
      invariant tx.vip == vip - VipsOf(discounts, all - left)
    {
      var key :| key in left;
      ghost var done := all - left;
      tx.vip := tx.vip - {VipKey(key.spk, key.tick, key.score, discounts[key])};
      left := left - {key};
      assert all - left == done + {key};
      OneDiscountMore(discounts, done, key);
    }
    assert all - left == all;
    assert VipsOf(discounts, all) == RemovedVips(discounts, scoreThreshold);
  }

  function VipsOf(discounts: map<DiscountKey, u64>, keys: set<DiscountKey>): set<VipKey> {
    set k | k in keys && k in discounts :: VipKey(k.spk, k.tick, k.score, discounts[k])
  }

  lemma OneDiscountMore(discounts: map<DiscountKey, u64>, done: set<DiscountKey>, key: DiscountKey)
    requires key in discounts
    ensures VipsOf(discounts, done + {key}) == VipsOf(discounts, done) + {VipKey(key.spk, key.tick, key.score, discounts[key])}
  {
  }

  method RemoveAffectedListings(tx: WriteTransaction, scoreThreshold: nat)
    modifies tx`listings, tx`listingsByTick, tx`addressListings
    ensures (tx.Core(), tx.Residue()) == RemoveListings(old(tx.Core()), old(tx.Residue()), scoreThreshold)
  {
    var listings := tx.listings;
    ghost var byTick, index := tx.listingsByTick, tx.addressListings;
    ghost var all := ListedSince(listings, scoreThreshold);
    var allListings := ListedSince(tx.listings, scoreThreshold);
    while allListings != {}
      invariant allListings <= all
      invariant tx.listings == listings - (all - allListings)
      invariant tx.listingsByTick == byTick - (all - allListings)
      invariant tx.addressListings == index - SellerKeys(listings, all - allListings)
    {
      var key :| key in allListings;
      ghost var done := all - allListings;
      tx.listings := tx.listings - {key};
      tx.listingsByTick := tx.listingsByTick - {key};
      tx.addressListings := tx.addressListings - {HoldingKey(listings[key].seller, key)};
      allListings := allListings - {key};
      assert all - allListings == done + {key};
      assert SellerKeys(listings, done + {key}) == SellerKeys(listings, done) + {HoldingKey(listings[key].seller, key)};
    }
    assert all - allListings == all;
  }

  // ---------------------------------------------------------------- ownership

  /** Undoes the draw of an id above the premint; without a deployment it panics. */
  method RevertDraw(tx: WriteTransaction, token: TokenKey, premintFromRemoved: map<Tick, nat>) returns (ok: bool)
    modifies tx`availableRanges, tx`rangeLengths, tx`tokenIdMeta
    ensures match PremintOf(tx.collectionRegistry, premintFromRemoved, token.tick)
            case None => !ok
            case Some(premint) =>
              if token.tokenId <= premint then ok && tx.Alloc() == old(tx.Alloc())
              else
                var r := TokenIds.Undo(old(tx.Alloc()), token.tick, token.tokenId);
                ok == r.Some? && (ok ==> tx.Alloc() == r.value)
  {
    hide TokenIds.Undo;
    var premint := PremintOf(tx.collectionRegistry, premintFromRemoved, token.tick);
    if premint.None? {
      return false;
    }
    ok := true;
    if token.tokenId > premint.value {
      ok := RollbackTokenGeneration(tx, token.tick, token.tokenId);
    }
  }

  /** Removes the rows of a change of owner: the owner it had set, and whether it was a mint. */
  method RemoveChange(tx: WriteTransaction, k: ChangeKey) returns (holder: Option<Script>, wasMint: bool)
    modifies tx`ownershipHistory, tx`ownershipChanges, tx`mintHistory
    ensures var c, at, mint := old(tx.Core()), HistoryKey(k.token, k.score), MintKey(k.token, k.seqNo, k.score);
            && holder == (if at in c.history then Some(c.history[at]) else None)
            && wasMint == (mint in c.mints)
            && tx.Core() == c.(history := c.history - {at}, changes := c.changes - {k},
                               mints := if wasMint then c.mints - {mint} else c.mints)
  {
    var at := HistoryKey(k.token, k.score);
    holder := if at in tx.ownershipHistory then Some(tx.ownershipHistory[at]) else None;
    tx.ownershipHistory := tx.ownershipHistory - {at};
    tx.ownershipChanges := tx.ownershipChanges - {k};
    var mint := MintKey(k.token, k.seqNo, k.score);
    wasMint := mint in tx.mintHistory;
    if wasMint {
      tx.mintHistory := tx.mintHistory - {mint};
    }
  }

  /** Takes one change of owner out of the history tables and, for a drawn id, undoes
      the draw. */
  method UnwindChange(tx: WriteTransaction, k: ChangeKey, premintFromRemoved: map<Tick, nat>) returns (ok: bool, holder: Option<Script>)
    modifies tx`ownershipHistory, tx`ownershipChanges, tx`mintHistory, tx`availableRanges, tx`rangeLengths, tx`tokenIdMeta
    ensures var r := UnwindOne(old(tx.Core()), k, premintFromRemoved);
            ok == r.Some? && (ok ==> r.value == (tx.Core(), holder))
  {
    hide TokenIds.Undo;
    var wasMint;
    holder, wasMint := RemoveChange(tx, k);
    ok := true;
    if wasMint {
      ok := RevertDraw(tx, k.token, premintFromRemoved);
    }
  }

  /** What is left of an unwinding after the holders of the first changes are known. */
  ghost predicate UnwindGoesOn(start: Core, keys: seq<ChangeKey>, premints: map<Tick, nat>, now: Core, holders: seq<Option<Script>>)
    requires |holders| <= |keys|
  {
    match Unwind(now, keys[|holders|..], premints)
    case None => Unwind(start, keys, premints) == None
    case Some((end, rest)) => Unwind(start, keys, premints) == Some((end, holders + rest))
  }

  lemma UnwindsOneMore(start: Core, keys: seq<ChangeKey>, premints: map<Tick, nat>, now: Core, holders: seq<Option<Script>>)
    requires |holders| < |keys| && UnwindGoesOn(start, keys, premints, now, holders)
    ensures match UnwindOne(now, keys[|holders|], premints)
            case None => Unwind(start, keys, premints).None?
            case Some((after, holder)) => UnwindGoesOn(start, keys, premints, after, holders + [holder])
  {
    hide UnwindOne;
    var rest := keys[|holders|..];
    assert rest[1..] == keys[|holders| + 1..] && rest[0] == keys[|holders|];
    match UnwindOne(now, rest[0], premints)
    case None =>
    case Some((after, holder)) =>
      match Unwind(after, rest[1..], premints)
      case None =>
      case Some((end, more)) => assert holders + ([holder] + more) == holders + [holder] + more;
  }

  method GetAffectedTokenOperations(tx: WriteTransaction, scoreThreshold: nat, premintFromRemoved: map<Tick, nat>)
    returns (ok: bool, keys: seq<ChangeKey>, holders: seq<Option<Script>>)
    modifies tx`ownershipHistory, tx`ownershipChanges, tx`mintHistory, tx`availableRanges, tx`rangeLengths, tx`tokenIdMeta
    ensures keys == Descending(ChangesSince(old(tx.Core()), scoreThreshold))
    ensures var r := Unwind(old(tx.Core()), keys, premintFromRemoved);
            ok == r.Some? && (ok ==> r.value == (tx.Core(), holders))
  {
    hide Descending, UnwindOne, UnwindGoesOn, Unwind;
    keys, holders := Descending(ChangesSince(tx.Core(), scoreThreshold)), [];
    ghost var start := tx.Core();
    assert UnwindGoesOn(start, keys, premintFromRemoved, start, []) by { NothingUnwound(start, keys, premintFromRemoved); }
    for i := 0 to |keys|
      invariant |holders| == i && UnwindGoesOn(start, keys, premintFromRemoved, tx.Core(), holders)
    {
      UnwindsOneMore(start, keys, premintFromRemoved, tx.Core(), holders);
      var unwound, holder := UnwindChange(tx, keys[i], premintFromRemoved);
      if !unwound {
        return false, keys, holders;
      }
      holders := holders + [holder];
    }
    AllUnwound(start, keys, premintFromRemoved, tx.Core(), holders);
    ok := true;
  }

  lemma NothingUnwound(c: Core, keys: seq<ChangeKey>, premints: map<Tick, nat>)
    ensures UnwindGoesOn(c, keys, premints, c, [])
  {
    hide Unwind;
    assert keys[0..] == keys;
    match Unwind(c, keys, premints)
    case None =>
    case Some((end, holders)) => assert [] + holders == holders;
  }

  lemma AllUnwound(start: Core, keys: seq<ChangeKey>, premints: map<Tick, nat>, now: Core, holders: seq<Option<Script>>)
    requires |holders| == |keys| && UnwindGoesOn(start, keys, premints, now, holders)
    ensures Unwind(start, keys, premints) == Some((now, holders))
  {
    assert keys[|holders|..] == [] && holders + [] == holders;
  }

  method RemoveOwnershipRecords(tx: WriteTransaction, keys: seq<ChangeKey>)
    modifies tx`currentOwnership
    ensures tx.currentOwnership == old(tx.currentOwnership) - TokensOf(keys)
  {
    ghost var owners := tx.currentOwnership;
    assert TokensOf([]) == {};
    for i := 0 to |keys|
      invariant tx.currentOwnership == owners - TokensOf(keys[..i])
    {
      tx.currentOwnership := tx.currentOwnership - {keys[i].token};
      assert keys[..i + 1] == keys[..i] + [keys[i]];
      assert TokensOf(keys[..i + 1]) == TokensOf(keys[..i]) + {keys[i].token};
    }
    assert keys[..|keys|] == keys;
  }

  method RebuildToken(tx: WriteTransaction, token: TokenKey, holder: Option<Script>)
    modifies tx`currentOwnership, tx`addressHoldings
    ensures tx.Core() == RebuildOne(old(tx.Core()), token, holder)
  {
    hide LastOwner;
    if holder.Some? {
      tx.addressHoldings := tx.addressHoldings - {HoldingKey(holder.value, token)};
    }
    var last := LastOwner(tx.ownershipHistory, token);
    if last.Some? {
      tx.currentOwnership := tx.currentOwnership[token := Holding(last.value.spk, last.value.score)];
      tx.addressHoldings := tx.addressHoldings[HoldingKey(last.value.spk, token) := last.value.score];
    }
  }

  method RebuildOwnershipState(tx: WriteTransaction, keys: seq<ChangeKey>, holders: seq<Option<Script>>)
    requires |keys| == |holders|
    modifies tx`currentOwnership, tx`addressHoldings
    ensures tx.Core() == Rebuild(old(tx.Core()), keys, holders)
  {
    hide RebuildOne;
    ghost var start := tx.Core();
    for i := 0 to |keys|
      invariant tx.Core() == Rebuild(start, keys[..i], holders[..i])
    {
      RebuildToken(tx, keys[i].token, holders[i]);
      assert keys[..i + 1][..i] == keys[..i] && holders[..i + 1][..i] == holders[..i];
    }
    assert keys[..|keys|] == keys && holders[..|keys|] == holders;
  }

  method ReconstructTokenOwnership(tx: WriteTransaction, scoreThreshold: nat, premintFromRemoved: map<Tick, nat>) returns (ok: bool)
    modifies tx`ownershipHistory, tx`ownershipChanges, tx`mintHistory, tx`availableRanges, tx`rangeLengths, tx`tokenIdMeta,
      tx`currentOwnership, tx`addressHoldings
    ensures var r := ReconstructOwnership(old(tx.Core()), scoreThreshold, premintFromRemoved);
            ok == r.Some? && (ok ==> tx.Core() == r.value)
  {
    hide Descending, Unwind, Rebuild, ChangesSince, TokensOf;
    var keys, holders;
    ok, keys, holders := GetAffectedTokenOperations(tx, scoreThreshold, premintFromRemoved);
    if ok {
      RemoveOwnershipRecords(tx, keys);
      RebuildOwnershipState(tx, keys, holders);
    }
  }

  // ---------------------------------------------------------------- the chain index

  method LookupRemovedBlockScore(tx: WriteTransaction, block: Hash) returns (score: Option<u64>)
    ensures score == LookupRemoved(tx.chainBlockScores, tx.blockhashToScore, block)
  {
    hide Tip;
    if block in tx.blockhashToScore {
      return Some(tx.blockhashToScore[block]);
    }
    if tx.chainBlockScores == {} {
      return None;
    }
    var lastAccepted := Tip(tx.chainBlockScores);
    score := if lastAccepted.hash == block then Some(lastAccepted.blueScore) else None;
  }

  method RemoveChainStateFromBlueScore(tx: WriteTransaction, minBlueScore: nat)
    modifies tx`chainBlockScores, tx`blockhashToScore
    ensures tx.chainBlockScores == old(tx.chainBlockScores) - BlocksSince(old(tx.chainBlockScores), minBlueScore)
    ensures tx.blockhashToScore == old(tx.blockhashToScore) - HashesOf(BlocksSince(old(tx.chainBlockScores), minBlueScore))
  {
    ghost var blocks, scores := tx.chainBlockScores, tx.blockhashToScore;
    ghost var all := BlocksSince(blocks, minBlueScore);
    var blocksToRemove := BlocksSince(tx.chainBlockScores, minBlueScore);
    while blocksToRemove != {}
      invariant blocksToRemove <= all
      invariant tx.chainBlockScores == blocks - (all - blocksToRemove)
      invariant tx.blockhashToScore == scores - HashesOf(all - blocksToRemove)
    {
      var block :| block in blocksToRemove;
      ghost var done := all - blocksToRemove;
      tx.chainBlockScores := tx.chainBlockScores - {block};
      tx.blockhashToScore := tx.blockhashToScore - {block.hash};
      blocksToRemove := blocksToRemove - {block};
      assert all - blocksToRemove == done + {block};
      assert HashesOf(done + {block}) == HashesOf(done) + {block.hash};
    }
    assert all - blocksToRemove == all;
  }

  /** `u64::MAX` stands for "none yet", so the running minimum needs the flag beside it. */
  method IdentifyReorgBlocksAndDelete(tx: WriteTransaction, removedBlocks: seq<Hash>, forcedRollbackBlueScore: Option<u64>)
    returns (r: Option<u64>)
    modifies tx`chainBlockScores, tx`blockhashToScore
    ensures var (scores, least) := Identify(old(tx.chainBlockScores), old(tx.blockhashToScore), removedBlocks);
            && r == RollbackScore(least, forcedRollbackBlueScore)
            && match r
               case None => tx.chainBlockScores == old(tx.chainBlockScores) && tx.blockhashToScore == scores
               case Some(b) =>
                 && tx.chainBlockScores == old(tx.chainBlockScores) - BlocksSince(old(tx.chainBlockScores), b)
                 && tx.blockhashToScore == scores - HashesOf(BlocksSince(old(tx.chainBlockScores), b))
  {
    hide Tip, BlocksSince, HashesOf;
    ghost var blocks, start := tx.chainBlockScores, tx.blockhashToScore;
    var minBlueScore: u64, found := U64_MAX, false;
    for i := 0 to |removedBlocks|
      invariant tx.chainBlockScores == blocks
      invariant found || minBlueScore == U64_MAX
      invariant Identify(blocks, start, removedBlocks[..i]) == (tx.blockhashToScore, if found then Some(minBlueScore) else None)
    {
      assert removedBlocks[..i + 1][..i] == removedBlocks[..i];
      var score := LookupRemovedBlockScore(tx, removedBlocks[i]);
      if score.None? {
        continue;
      }
      found := true;
      minBlueScore := if score.value < minBlueScore then score.value else minBlueScore;
      tx.blockhashToScore := tx.blockhashToScore - {removedBlocks[i]};
    }
    assert removedBlocks[..|removedBlocks|] == removedBlocks;
    if forcedRollbackBlueScore.Some? {
      found := true;
      minBlueScore := if forcedRollbackBlueScore.value < minBlueScore then forcedRollbackBlueScore.value else minBlueScore;
    }
    if !found {
      return None;
    }
    RemoveChainStateFromBlueScore(tx, minBlueScore);
    r := Some(minBlueScore);
  }
}
