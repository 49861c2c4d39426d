/** The ledger tables and what one operation does to them
    (nexus/src/processor.rs, `process_nft_operations` and the six `process_*`).

    `Core` holds the tables a rollback restores exactly; `Residue` holds the two
    indexes it does not.  Every function is total: `Fault` stands for a panic or
    for an error that aborts the write transaction.
 */
module Ledger {
  import opened Model
  import opened Orders
  import opened FeeKeys
  import TokenIds

  datatype Core = Core(
    registry: map<Tick, Deployment>,
    deployments: map<DeploymentKey, Deployment>,
    mints: set<MintKey>,
    changes: set<ChangeKey>,
    history: map<HistoryKey, Script>,
    owners: map<TokenKey, Holding>,
    holdings: map<HoldingKey, nat>,
    vip: set<VipKey>,
    alloc: TokenIds.Alloc,
    listings: map<TokenKey, Listing>,
    listingsByTick: set<TokenKey>,
    ops: map<nat, CheckedOp>,
    opScores: map<TxId, nat>)

  datatype Residue = Residue(discounts: map<DiscountKey, u64>, sellerIndex: map<HoldingKey, nat>)

  const EMPTY: Core := Core(map[], map[], {}, {}, map[], map[], map[], {}, TokenIds.EMPTY, map[], {}, map[], map[])

  // ---------------------------------------------------------------- scans

  function MaxOf(s: set<nat>): (m: nat)
    requires s != {}
    ensures m in s && forall x :: x in s ==> x <= m
  {
    HasGreatest(s, (a: nat, b: nat) => a <= b);
    var m :| m in s && forall x :: x in s ==> x <= m;
    m
  }

  function MinOf(s: set<nat>): (m: nat)
    requires s != {}
    ensures m in s && forall x :: x in s ==> m <= x
  {
    HasGreatest(s, (a: nat, b: nat) => a >= b);
    var m :| m in s && forall x :: x in s ==> m <= x;
    m
  }

  function MintSeqs(mints: set<MintKey>, t: Tick): set<nat> {
    set k | k in mints && k.token.tick == t :: k.seqNo
  }

  /** The sequence number of the latest mint of `t`, 0 before the first. */
  function LastMint(mints: set<MintKey>, t: Tick): nat {
    var seqs := MintSeqs(mints, t);
    if seqs == {} then 0 else MaxOf(seqs)
  }

  // ---------------------------------------------------------------- mint

  datatype MintOutcome = Minted(core: Core, tokenId: nat) | MintRejected(error: OpError) | MintFault

  function RoyaltyError(vip: set<VipKey>, t: Tick, asked: Option<Royalty>, to: Script, paid: Option<Royalty>): Option<OpError> {
    match (asked, paid)
    case (Some(a), Some(p)) =>
      if ScannedFee(vip, to, t).GetOr(a.fee) > p.fee then Some(InsufficientRoyaltyFee)
      else if a.beneficiary != p.beneficiary then Some(InvalidBeneficiaryForRoyaltyMintFee)
      else None
    case (Some(_), None) => Some(MissingRoyaltyMintFee)
    case (None, _) => None
  }

  /** The rows a change of owner writes, short of the address index. */
  function RecordOwner(c: Core, score: nat, token: TokenKey, seqNo: nat, to: Script): Core {
    c.(changes := c.changes + {ChangeKey(score, token, seqNo)},
       history := c.history[HistoryKey(token, score) := to],
       owners := c.owners[token := Holding(to, score)])
  }

  function RecordMint(c: Core, score: nat, token: TokenKey, seqNo: nat, to: Script): Core {
    RecordOwner(c, score, token, seqNo, to).(
      mints := c.mints + {MintKey(token, seqNo, score)},
      holdings := c.holdings[HoldingKey(to, token) := score])
  }

  function Mint(c: Core, entropy: nat, score: nat, common: Common, m: MintInfo, isDeployment: bool): MintOutcome {
    if common.tick !in c.registry then MintRejected(TickNotFound) else
    var d := c.registry[common.tick].info;
    if !isDeployment && common.daaScore < d.mintStartDaa then
      MintRejected(MintingNotStarted(common.daaScore, d.mintStartDaa))
    else if d.max == 0 then MintRejected(MintingFinished)
    else
      var last := LastMint(c.mints, common.tick);
      var shouldPremint := d.premint > 0 && last < d.premint;
      var royalty := if shouldPremint then None else RoyaltyError(c.vip, common.tick, d.royalty, m.to, m.royalty);
      if royalty.Some? then MintRejected(royalty.value)
      else if last + 1 > d.max then MintRejected(MintingFinished)
      else if !shouldPremint && d.premint < d.max then
        match TokenIds.Generate(c.alloc, common.tick, entropy, d.max, d.premint)
        case Panicked => MintFault
        case Drawn(alloc, id) =>
          Minted(RecordMint(c.(alloc := alloc), score, TokenKey(common.tick, id), last + 1, m.to), id)
      else
        Minted(RecordMint(c, score, TokenKey(common.tick, last + 1), last + 1, m.to), last + 1)
  }

  // ---------------------------------------------------------------- the other operations

  /** `Applied` with an error is a rejected operation. */
  datatype Outcome = Applied(core: Core, error: Option<OpError>) | Fault

  /** The first `n` premints of a deployment. */
  function Premints(c: Core, score: nat, common: Common, d: DeployInfo, n: nat): Outcome {
    if n == 0 then Applied(c, None)
    else
      match Premints(c, score, common, d, n - 1)
      case Fault => Fault
      case Applied(before, error) =>
        if error.Some? then Applied(before, error)
        else
          match Mint(before, 0, score, common, MintInfo(0, d.deployer, None), true)
          case Minted(after, _) => Applied(after, None)
          case MintRejected(e) => Applied(before, Some(e))
          case MintFault => Fault
  }

  function Register(c: Core, score: nat, common: Common, d: DeployInfo): Core {
    c.(registry := c.registry[common.tick := Deployment(score, d, common)],
       deployments := c.deployments[DeploymentKey(score, common.tick) := Deployment(score, d, common)])
  }

  function Deploy(c: Core, score: nat, common: Common, d: DeployInfo): Outcome {
    if common.tick in c.registry then
      if c.registry[common.tick].score >= score then Fault else Applied(c, Some(TickExists))
    else
      Premints(Register(c, score, common, d), score, common, d, d.premint)
  }

  function Transfer(c: Core, score: nat, common: Common, info: TransferInfo): Outcome {
    var token := TokenKey(common.tick, info.tokenId);
    if token !in c.owners then Applied(c, Some(TokenNotFound))
    else if c.owners[token].spk != common.sender then Applied(c, Some(WrongOwner))
    else if token in c.listings then Applied(c, Some(TokenIsListed))
    else
      var held := c.holdings - {HoldingKey(c.owners[token].spk, token)};
      Applied(RecordOwner(c, score, token, 0, info.to).(holdings := held[HoldingKey(info.to, token) := score]), None)
  }

  function Discount(c: Core, score: u64, common: Common, info: DiscountInfo): Outcome {
    if common.tick !in c.registry then Applied(c, Some(TickNotFound)) else
    var d := c.registry[common.tick].info;
    if common.sender != d.deployer then Applied(c, Some(WrongDeployer))
    else if info.fee >= (if d.royalty.Some? then d.royalty.value.fee else 0) then Applied(c, Some(DiscountFeeOverflow))
    else Applied(c.(vip := c.vip + {VipKey(info.to, common.tick, score, info.fee)}), None)
  }

  /** The row a successful List writes. */
  function ListingOf(score: nat, common: Common, info: ListInfo): Listing {
    Listing(common.sender, common.txId, info.utxoAddress, info.redeemScript, score)
  }

  function List(c: Core, score: nat, common: Common, info: ListInfo): Outcome {
    var token := TokenKey(common.tick, info.tokenId);
    if info.p2shScript != info.utxoAddress then Applied(c, Some(InvalidListingP2sh))
    else if common.tick !in c.registry then Applied(c, Some(TickNotFound))
    else if token !in c.owners then Applied(c, Some(TokenNotFound))
    else if c.owners[token].spk != common.sender then Applied(c, Some(WrongOwner))
    else if token in c.listings then Applied(c, Some(TokenAlreadyListed))
    else
      Applied(c.(listings := c.listings[token := ListingOf(score, common, info)],
                 listingsByTick := c.listingsByTick + {token}), None)
  }

  function Send(c: Core, score: nat, common: Common, info: SendInfo): Outcome {
    var token := TokenKey(common.tick, info.tokenId);
    if token !in c.listings then Applied(c, Some(ListingNotFound))
    else if info.listingTxId != c.listings[token].txId then Applied(c, Some(WrongListingUtxo))
    else
      var seller := c.listings[token].seller;
      var sold :=
        if info.buyer.None? then c
        else
          var held := c.holdings - {HoldingKey(seller, token)};
          RecordOwner(c, score, token, 0, info.buyer.value).(
            holdings := held[HoldingKey(info.buyer.value, token) := score]);
      Applied(sold.(listings := c.listings - {token}, listingsByTick := c.listingsByTick - {token}), None)
  }

  // ---------------------------------------------------------------- one operation

  /** What an operation other than a mint comes to. */
  function OutcomeOf(c: Core, x: ContextOp): Outcome {
    match x.op.info
    case DeployOp(d) => Deploy(c, x.score, x.op.common, d)
    case TransferOp(i) => Transfer(c, x.score, x.op.common, i)
    case DiscountOp(i) => Discount(c, x.score, x.op.common, i)
    case ListOp(i) => List(c, x.score, x.op.common, i)
    case SendOp(i) => Send(c, x.score, x.op.common, i)
    case MintOp(_) => Fault
  }

  /** The ledger after an operation, before it is logged; `recorded` carries the
      token id a mint drew. */
  datatype Effect = Effect(core: Core, recorded: Operation, error: Option<OpError>) | EffectFault

  function EffectOf(c: Core, x: ContextOp): Effect {
    var common := x.op.common;
    match x.op.info
    case MintOp(m) =>
      (match Mint(c, x.entropy, x.score, common, m, false)
       case Minted(after, id) => Effect(after, x.op.(info := MintOp(m.(tokenId := id))), None)
       case MintRejected(e) => Effect(c, x.op, Some(e))
       case MintFault => EffectFault)
    case _ =>
      match OutcomeOf(c, x)
      case Applied(after, error) => Effect(after, x.op, error)
      case Fault => EffectFault
  }

  /** Writes an operation to the log and to the index by transaction id. */
  function Log(c: Core, score: nat, op: Operation, error: Option<OpError>): Core {
    c.(ops := c.ops[score := CheckedOp(op, error)], opScores := c.opScores[op.common.txId := score])
  }

  datatype Step = Stepped(core: Core, logged: CheckedOp) | Aborted

  function Apply(c: Core, x: ContextOp): Step {
    match EffectOf(c, x)
    case Effect(after, recorded, error) => Stepped(Log(after, x.score, recorded, error), CheckedOp(recorded, error))
    case EffectFault => Aborted
  }

  /** What an accepted operation leaves in the indexes a rollback does not restore. */
  function ApplyResidue(r: Residue, c: Core, x: ContextOp, error: Option<OpError>): Residue {
    var common := x.op.common;
    if error.Some? then r else
    match x.op.info
    case DiscountOp(i) => r.(discounts := r.discounts[DiscountKey(x.score, common.tick, i.to) := i.fee])
    case ListOp(i) => r.(sellerIndex := r.sellerIndex[HoldingKey(common.sender, TokenKey(common.tick, i.tokenId)) := x.score])
    case SendOp(i) =>
      var token := TokenKey(common.tick, i.tokenId);
      if token in c.listings then r.(sellerIndex := r.sellerIndex - {HoldingKey(c.listings[token].seller, token)}) else r
    case _ => r
  }

  // ---------------------------------------------------------------- histories

  /** The ledger after a history of operations, from empty tables. */
  function Run(h: seq<ContextOp>): Core {
    if h == [] then EMPTY
    else
      var before := Run(h[..|h| - 1]);
      match Apply(before, h[|h| - 1])
      case Stepped(after, _) => after
      case Aborted => before
  }

  /** Scores strictly increase, transaction ids are distinct and every deployment
      passed the analyzer. */
  ghost predicate ValidHistory(h: seq<ContextOp>) {
    && (forall i, j :: 0 <= i < j < |h| ==> h[i].score < h[j].score)
    && (forall i, j :: 0 <= i < j < |h| ==> h[i].op.common.txId != h[j].op.common.txId)
    && (forall i :: 0 <= i < |h| ==> ValidOp(h[i].op))
  }
}
