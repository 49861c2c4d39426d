/** The six operations as they work on the store (nexus/src/processor.rs,
    `process_deployment` to `process_send` and `process_nft_operations`);
    `Ledger` is their specification. */
module Operations {
  import opened Model
  import opened FeeKeys
  import opened Ledger
  import opened Counters
  import opened Chain
  import opened Store
  import opened TokenIdSteps
  import TokenIds

  /** `Failed` drops the transaction: a panic or an error of the store. */
  datatype Verdict = Accepted | Rejected(error: OpError) | Failed

  function VerdictOf(error: Option<OpError>): Verdict {
    match error
    case None => Accepted
    case Some(e) => Rejected(e)
  }

  /** The verdict and the tables after a method that was to do what `o` says. */
  ghost predicate Did(v: Verdict, after: Core, o: Outcome) {
    match o
    case Fault => v == Failed
    case Applied(core, error) => v == VerdictOf(error) && after == core
  }

  ghost predicate DidMint(v: Verdict, after: Core, before: Core, tokenId: nat, asked: nat, o: MintOutcome) {
    match o
    case MintFault => v == Failed
    case MintRejected(e) => v == Rejected(e) && after == before && tokenId == asked
    case Minted(core, id) => v == Accepted && after == core && tokenId == id
  }

  /** The royalty rule of a mint that is not a premint. */
  method CheckRoyalty(tx: WriteTransaction, tick: Tick, asked: Option<Royalty>, to: Script, paid: Option<Royalty>) returns (v: Verdict)
    ensures v == VerdictOf(RoyaltyError(tx.vip, tick, asked, to, paid))
  {
    hide ScannedFee;
    match (asked, paid) {
      case (Some(deployRoyalty), Some(mintRoyalty)) =>
        var requiredFee := ScannedFee(tx.vip, to, tick).GetOr(deployRoyalty.fee);
        if requiredFee > mintRoyalty.fee {
          return Rejected(InsufficientRoyaltyFee);
        }
        if deployRoyalty.beneficiary != mintRoyalty.beneficiary {
          return Rejected(InvalidBeneficiaryForRoyaltyMintFee);
        }
      case (Some(_), None) =>
        return Rejected(MissingRoyaltyMintFee);
      case (None, _) =>
    }
    v := Accepted;
  }

  /** The rows of a new owner that minting, transferring and selling all write. */
  method WriteOwner(tx: WriteTransaction, score: nat, token: TokenKey, seqNo: nat, to: Script)
    modifies tx`ownershipChanges, tx`ownershipHistory, tx`currentOwnership
    ensures tx.Core() == RecordOwner(old(tx.Core()), score, token, seqNo, to)
  {
    tx.ownershipChanges := tx.ownershipChanges + {ChangeKey(score, token, seqNo)};
    tx.ownershipHistory := tx.ownershipHistory[HistoryKey(token, score) := to];
    tx.currentOwnership := tx.currentOwnership[token := Holding(to, score)];
  }

  method WriteMint(tx: WriteTransaction, score: nat, token: TokenKey, seqNo: nat, to: Script)
    modifies tx`mintHistory, tx`ownershipChanges, tx`ownershipHistory, tx`currentOwnership, tx`addressHoldings
    ensures tx.Core() == RecordMint(old(tx.Core()), score, token, seqNo, to)
  {
    tx.mintHistory := tx.mintHistory + {MintKey(token, seqNo, score)};
    WriteOwner(tx, score, token, seqNo, to);
    tx.addressHoldings := tx.addressHoldings[HoldingKey(to, token) := score];
  }

  /** A token changes hands: the new owner's rows, and the address row moves along. */
  method MoveToken(tx: WriteTransaction, score: nat, token: TokenKey, from: Script, to: Script)
    modifies tx`ownershipChanges, tx`ownershipHistory, tx`currentOwnership, tx`addressHoldings
    ensures tx.Core() == RecordOwner(old(tx.Core()), score, token, 0, to).(
                           holdings := (old(tx.addressHoldings) - {HoldingKey(from, token)})[HoldingKey(to, token) := score])
  {
    WriteOwner(tx, score, token, 0, to);
    tx.addressHoldings := tx.addressHoldings - {HoldingKey(from, token)};
    tx.addressHoldings := tx.addressHoldings[HoldingKey(to, token) := score];
  }

  /** Mints an accepted token.  Premints, and collections that are premints only, are
      numbered in order; every other mint draws its id. */
  method MintToken(tx: WriteTransaction, mergesetEntropy: nat, score: nat, tick: Tick, d: DeployInfo, shouldPremint: bool, seqNo: nat, to: Script)
    returns (id: Option<nat>)
    modifies tx`mintHistory, tx`ownershipChanges, tx`ownershipHistory, tx`currentOwnership, tx`addressHoldings,
      tx`availableRanges, tx`rangeLengths, tx`tokenIdMeta
    ensures var c := old(tx.Core());
            if shouldPremint || d.premint >= d.max then
              id == Some(seqNo) && tx.Core() == RecordMint(c, score, TokenKey(tick, seqNo), seqNo, to)
            else
              match TokenIds.Generate(c.alloc, tick, mergesetEntropy, d.max, d.premint)
              case Drawn(alloc, drawn) =>
                id == Some(drawn) && tx.Core() == RecordMint(c.(alloc := alloc), score, TokenKey(tick, drawn), seqNo, to)
              case Panicked => id == None
  {
    hide TokenIds.Generate, RecordMint;
    if !shouldPremint && d.premint < d.max {
      id := GenerateTokenId(tx, tick, mergesetEntropy, d.max, d.premint);
      if id.None? {
        return;
      }
    } else {
      id := Some(seqNo);
    }
    WriteMint(tx, score, TokenKey(tick, id.value), seqNo, to);
  }

  /** The id given in `m` is replaced when the mint is accepted. */
  method ProcessMint(tx: WriteTransaction, mergesetEntropy: nat, score: nat, common: Common, m: MintInfo, isDeployment: bool)
    returns (v: Verdict, tokenId: nat)
    modifies tx`mintHistory, tx`ownershipChanges, tx`ownershipHistory, tx`currentOwnership, tx`addressHoldings,
      tx`availableRanges, tx`rangeLengths, tx`tokenIdMeta
    ensures DidMint(v, tx.Core(), old(tx.Core()), tokenId, m.tokenId, Mint(old(tx.Core()), mergesetEntropy, score, common, m, isDeployment))
  {
    hide TokenIds.Generate, LastMint, RoyaltyError, RecordMint;
    var tick := common.tick;
    tokenId := m.tokenId;
    if tick !in tx.collectionRegistry {
      return Rejected(TickNotFound), tokenId;
    }
    var d := tx.collectionRegistry[tick].info;
    if !isDeployment && common.daaScore < d.mintStartDaa {
      return Rejected(MintingNotStarted(common.daaScore, d.mintStartDaa)), tokenId;
    }
    if d.max == 0 {
      return Rejected(MintingFinished), tokenId;
    }
    var lastMint := LastMint(tx.mintHistory, tick);
    var shouldPremint := d.premint > 0 && lastMint < d.premint;
    if !shouldPremint {
      v := CheckRoyalty(tx, tick, d.royalty, m.to, m.royalty);
      if v != Accepted {
        return v, tokenId;
      }
    }
    var tokenSeqNo := lastMint + 1;
    if tokenSeqNo > d.max {
      return Rejected(MintingFinished), tokenId;
    }
    var minted := MintToken(tx, mergesetEntropy, score, tick, d, shouldPremint, tokenSeqNo, m.to);
    if minted.None? {
      return Failed, tokenId;
    }
    v, tokenId := Accepted, minted.value;
  }

  /** A premint that is refused ends the loop, and the premints that follow it in the
      specification change nothing. */
  lemma {:induction false} PremintsStop(c: Core, score: nat, common: Common, d: DeployInfo, k: nat, n: nat)
    requires k <= n && (Premints(c, score, common, d, k).Fault? || Premints(c, score, common, d, k).error.Some?)
    ensures Premints(c, score, common, d, n) == Premints(c, score, common, d, k)
    decreases n
  {
    hide Mint;
    if k < n {
      PremintsStop(c, score, common, d, k, n - 1);
    }
  }

  method WriteDeployment(tx: WriteTransaction, txScore: nat, common: Common, info: DeployInfo)
    modifies tx`collectionRegistry, tx`collectionDeployments
    ensures tx.Core() == Register(old(tx.Core()), txScore, common, info)
  {
    var row := Deployment(txScore, info, common);
    tx.collectionRegistry := tx.collectionRegistry[common.tick := row];
    tx.collectionDeployments := tx.collectionDeployments[DeploymentKey(txScore, common.tick) := row];
  }

  method ProcessDeployment(tx: WriteTransaction, txScore: nat, common: Common, info: DeployInfo) returns (v: Verdict)
    modifies tx`collectionRegistry, tx`collectionDeployments, tx`mintHistory, tx`ownershipChanges, tx`ownershipHistory,
      tx`currentOwnership, tx`addressHoldings, tx`availableRanges, tx`rangeLengths, tx`tokenIdMeta
    ensures Did(v, tx.Core(), Deploy(old(tx.Core()), txScore, common, info))
  {
    hide Mint, Register;
    if common.tick in tx.collectionRegistry {
      return if tx.collectionRegistry[common.tick].score >= txScore then Failed else Rejected(TickExists);
    }
    WriteDeployment(tx, txScore, common, info);
    ghost var registered := tx.Core();
    for i := 0 to info.premint
      invariant Premints(registered, txScore, common, info, i) == Applied(tx.Core(), None)
    {
      var mint, _ := ProcessMint(tx, 0, txScore, common, MintInfo(0, info.deployer, None), true);
      if mint != Accepted {
        PremintsStop(registered, txScore, common, info, i + 1, info.premint);
        return mint;
      }
    }
    v := Accepted;
  }

  method ProcessTransfer(tx: WriteTransaction, txScore: nat, common: Common, info: TransferInfo) returns (v: Verdict)
    modifies tx`ownershipChanges, tx`ownershipHistory, tx`currentOwnership, tx`addressHoldings
    ensures Did(v, tx.Core(), Transfer(old(tx.Core()), txScore, common, info))
  {
    hide RecordOwner;
    var token := TokenKey(common.tick, info.tokenId);
    if token !in tx.currentOwnership {
      return Rejected(TokenNotFound);
    }
    var owner := tx.currentOwnership[token].spk;
    if owner != common.sender {
      return Rejected(WrongOwner);
    }
    if token in tx.listings {
      return Rejected(TokenIsListed);
    }
    MoveToken(tx, txScore, token, owner, info.to);
    v := Accepted;
  }

  method ProcessDiscount(tx: WriteTransaction, score: u64, common: Common, info: DiscountInfo) returns (v: Verdict)
    modifies tx`scoreToDiscount, tx`vip
    ensures Did(v, tx.Core(), Discount(old(tx.Core()), score, common, info))
    ensures tx.scoreToDiscount ==
            if v == Accepted then old(tx.scoreToDiscount)[DiscountKey(score, common.tick, info.to) := info.fee] else old(tx.scoreToDiscount)
  {
    if common.tick !in tx.collectionRegistry {
      return Rejected(TickNotFound);
    }
    var deployment := tx.collectionRegistry[common.tick].info;
    if common.sender != deployment.deployer {
      return Rejected(WrongDeployer);
    }
    if info.fee >= (if deployment.royalty.Some? then deployment.royalty.value.fee else 0) {
      return Rejected(DiscountFeeOverflow);
    }
    tx.scoreToDiscount := tx.scoreToDiscount[DiscountKey(score, common.tick, info.to) := info.fee];
    tx.vip := tx.vip + {VipKey(info.to, common.tick, score, info.fee)};
    v := Accepted;
  }

  method ProcessList(tx: WriteTransaction, txScore: nat, common: Common, info: ListInfo) returns (v: Verdict)
    modifies tx`listings, tx`listingsByTick, tx`addressListings
    ensures Did(v, tx.Core(), List(old(tx.Core()), txScore, common, info))
    ensures tx.addressListings ==
            if v == Accepted then old(tx.addressListings)[HoldingKey(common.sender, TokenKey(common.tick, info.tokenId)) := txScore]
            else old(tx.addressListings)
  {
    if info.p2shScript != info.utxoAddress {
      return Rejected(InvalidListingP2sh);
    }
    if common.tick !in tx.collectionRegistry {
      return Rejected(TickNotFound);
    }
    var token := TokenKey(common.tick, info.tokenId);
    if token !in tx.currentOwnership {
      return Rejected(TokenNotFound);
    }
    if tx.currentOwnership[token].spk != common.sender {
      return Rejected(WrongOwner);
    }
    if token in tx.listings {
      return Rejected(TokenAlreadyListed);
    }
    tx.listings := tx.listings[token := Listing(common.sender, common.txId, info.utxoAddress, info.redeemScript, txScore)];
    tx.listingsByTick := tx.listingsByTick + {token};
    tx.addressListings := tx.addressListings[HoldingKey(common.sender, token) := txScore];
    v := Accepted;
  }

  method ProcessSend(tx: WriteTransaction, txScore: nat, common: Common, info: SendInfo) returns (v: Verdict)
    modifies tx`ownershipChanges, tx`ownershipHistory, tx`currentOwnership, tx`addressHoldings,
      tx`listings, tx`listingsByTick, tx`addressListings
    ensures Did(v, tx.Core(), Send(old(tx.Core()), txScore, common, info))
    ensures var token := TokenKey(common.tick, info.tokenId);
            tx.addressListings ==
              if v == Accepted && token in old(tx.listings) then old(tx.addressListings) - {HoldingKey(old(tx.listings)[token].seller, token)}
              else old(tx.addressListings)
  {
    hide RecordOwner;
    var token := TokenKey(common.tick, info.tokenId);
    if token !in tx.listings {
      return Rejected(ListingNotFound);
    }
    var listing := tx.listings[token];
    if info.listingTxId != listing.txId {
      return Rejected(WrongListingUtxo);
    }
    var seller := listing.seller;
    if info.buyer.Some? {
      MoveToken(tx, txScore, token, seller, info.buyer.value);
    }
    tx.listings := tx.listings - {token};
    tx.listingsByTick := tx.listingsByTick - {token};
    tx.addressListings := tx.addressListings - {HoldingKey(seller, token)};
    v := Accepted;
  }

  // ---------------------------------------------------------------- one operation

  ghost predicate DidStep(v: Verdict, recorded: Operation, after: Core, residue: Residue, before: Core, was: Residue, x: ContextOp) {
    match EffectOf(before, x)
    case EffectFault => v == Failed
    case Effect(core, op, error) =>
      v == VerdictOf(error) && recorded == op && after == core && residue == ApplyResidue(was, before, x, error)
  }

  lemma OtherIsStep(v: Verdict, after: Core, residue: Residue, c: Core, r: Residue, x: ContextOp)
    requires !x.op.info.MintOp? && Did(v, after, OutcomeOf(c, x))
    requires v != Failed ==> residue == ApplyResidue(r, c, x, if v.Rejected? then Some(v.error) else None)
    ensures DidStep(v, x.op, after, residue, c, r, x)
  {
    hide Deploy, Transfer, Discount, List, Send, ApplyResidue;
  }

  lemma MintIsStep(v: Verdict, recorded: Operation, after: Core, residue: Residue, c: Core, r: Residue, x: ContextOp)
    requires x.op.info.MintOp? && recorded.info.MintOp?
    requires recorded == x.op.(info := MintOp(x.op.info.mint.(tokenId := recorded.info.mint.tokenId)))
    requires DidMint(v, after, c, recorded.info.mint.tokenId, x.op.info.mint.tokenId, Mint(c, x.entropy, x.score, x.op.common, x.op.info.mint, false))
    requires residue == r
    ensures DidStep(v, recorded, after, residue, c, r, x)
  {
    hide Mint;
  }

  /** Runs the operation; a mint gets the id it drew written into it. */
  method Dispatch(tx: WriteTransaction, x: ContextOp) returns (v: Verdict, recorded: Operation)
    modifies tx`collectionRegistry, tx`collectionDeployments, tx`mintHistory, tx`ownershipChanges, tx`ownershipHistory,
      tx`currentOwnership, tx`addressHoldings, tx`vip, tx`availableRanges, tx`rangeLengths, tx`tokenIdMeta,
      tx`listings, tx`listingsByTick, tx`scoreToDiscount, tx`addressListings
    ensures DidStep(v, recorded, tx.Core(), tx.Residue(), old(tx.Core()), old(tx.Residue()), x)
  {
    hide Mint, Deploy, Transfer, Discount, List, Send, Did, DidMint, DidStep;
    ghost var c, r := tx.Core(), tx.Residue();
    var common := x.op.common;
    recorded := x.op;
    match x.op.info {
      case DeployOp(d) => v := ProcessDeployment(tx, x.score, common, d);
      case MintOp(m) =>
        var id;
        v, id := ProcessMint(tx, x.entropy, x.score, common, m, false);
        recorded := x.op.(info := MintOp(m.(tokenId := id)));
      case TransferOp(i) => v := ProcessTransfer(tx, x.score, common, i);
      case DiscountOp(i) => v := ProcessDiscount(tx, x.score, common, i);
      case ListOp(i) => v := ProcessList(tx, x.score, common, i);
      case SendOp(i) => v := ProcessSend(tx, x.score, common, i);
    }
    if x.op.info.MintOp? {
      MintIsStep(v, recorded, tx.Core(), tx.Residue(), c, r, x);
    } else {
      OtherIsStep(v, tx.Core(), tx.Residue(), c, r, x);
    }
  }

  /** The counters an accepted operation adds to. */
  method CountAccepted(op: Operation, diff: Stats) returns (r: Stats)
    requires FitsU64(diff)
    ensures r == Wrapped(Plus(diff, Added(op)))
  {
    hide Wrap;
    WrapLeaves(diff);
    r := diff.(securityFees := Wrap(diff.securityFees + op.common.fee));
    match op.info {
      case DeployOp(d) =>
        r := r.(mints := Wrap(r.mints + d.premint), deployments := Wrap(r.deployments + 1));
        r := r.(royaltyFees := Wrap(r.royaltyFees + (if d.royalty.Some? then d.royalty.value.fee else 0)));
      case MintOp(m) =>
        r := r.(mints := Wrap(r.mints + 1));
        r := r.(royaltyFees := Wrap(r.royaltyFees + (if m.royalty.Some? then m.royalty.value.fee else 0)));
      case TransferOp(_) => r := r.(transfers := Wrap(r.transfers + 1));
      case DiscountOp(_) =>
      case ListOp(_) => r := r.(listings := Wrap(r.listings + 1));
      case SendOp(_) => r := r.(sends := Wrap(r.sends + 1));
    }
  }

  method WriteLog(tx: WriteTransaction, score: nat, checked: CheckedOp)
    modifies tx`operationHistory, tx`txIdToOpscore
    ensures tx.Core() == Log(old(tx.Core()), score, checked.op, checked.error)
  {
    tx.operationHistory := tx.operationHistory[score := checked];
    tx.txIdToOpscore := tx.txIdToOpscore[checked.op.common.txId := score];
  }

  /** Processes the operations in order and logs every one of them, rejected or not. */
  method ProcessNftOperations(tx: WriteTransaction, operations: seq<ContextOp>) returns (diff: Option<Stats>)
    modifies tx`collectionRegistry, tx`collectionDeployments, tx`mintHistory, tx`ownershipChanges, tx`ownershipHistory,
      tx`currentOwnership, tx`addressHoldings, tx`vip, tx`availableRanges, tx`rangeLengths, tx`tokenIdMeta,
      tx`listings, tx`listingsByTick, tx`scoreToDiscount, tx`addressListings, tx`operationHistory, tx`txIdToOpscore
    ensures match ProcessOps(Processed(old(tx.Core()), old(tx.Residue()), ZERO), operations)
            case None => diff == None
            case Some(p) => diff == Some(Wrapped(p.diff)) && tx.Core() == p.core && tx.Residue() == p.residue
  {
    hide EffectOf, ApplyResidue, Plus, Added, Log, Wrapped, FitsU64;
    ghost var start := Processed(tx.Core(), tx.Residue(), ZERO);
    ghost var total := ZERO;
    var sum := ZERO;
    NothingWrapped();
    for i := 0 to |operations|
      invariant ProcessOps(start, operations[..i]) == Some(Processed(tx.Core(), tx.Residue(), total))
      invariant sum == Wrapped(total)
    {
      var x := operations[i];
      assert operations[..i + 1][..i] == operations[..i];
      var v, recorded := Dispatch(tx, x);
      if v == Failed {
        FailsForGood(start, operations, i + 1);
        return None;
      }
      if v == Accepted {
        WrappedSum(total, Added(recorded));
        sum := CountAccepted(recorded, sum);
        total := Plus(total, Added(recorded));
      } else {
        NothingCounted(total);
      }
      var checked := CheckedOp(recorded, if v.Rejected? then Some(v.error) else None);
      WriteLog(tx, x.score, checked);
    }
    assert operations[..|operations|] == operations;
    diff := Some(sum);
  }

  lemma NothingCounted(s: Stats)
    ensures Plus(s, ZERO) == s
  {
  }

  lemma {:induction false} FailsForGood(start: Processed, xs: seq<ContextOp>, n: nat)
    requires n <= |xs| && ProcessOps(start, xs[..n]).None?
    ensures ProcessOps(start, xs).None?
    decreases |xs| - n
  {
    hide Apply, ApplyResidue;
    if n < |xs| {
      assert xs[..n + 1][..n] == xs[..n];
      FailsForGood(start, xs, n + 1);
    } else {
      assert xs[..n] == xs;
    }
  }
}
