/** The values the indexer stores: operations, table keys and table rows.

    Ticks, transaction ids and block hashes are fixed-width byte strings; they
    are numbers here, read big-endian, so that their order as numbers is the
    byte order of the store (module `Keys` proves this reading of byte keys).
    The store keeps `u64::MAX - x` where a scan has to meet the newest row
    first; the rows here hold `x` itself, and `Keys` relates the two.
 */
module Model {

  const U64_MAX: nat := 0xFFFF_FFFF_FFFF_FFFF

  type u64 = x: nat | x <= U64_MAX

  datatype Option<+T> = None | Some(value: T) {
    function GetOr(default: T): T {
      match this
      case Some(v) => v
      case None => default
    }
  }

  type u16 = x: nat | x < 0x1_0000

  /** Ten bytes; a valid tick begins with a letter or digit, and `Tick::MIN` is the zero
      digit alone. */
  const TICK_MIN: nat := 0x30_00_00_00_00_00_00_00_00_00
  const TICK_COUNT: nat := 0x1_00_00_00_00_00_00_00_00_00_00
  type Tick = t: nat | TICK_MIN <= t < TICK_COUNT witness TICK_MIN

  type TxId = nat

  /** 32 bytes. */
  const HASH_COUNT: nat := 0x1_00000000_00000000_00000000_00000000_00000000_00000000_00000000_00000000
  type Hash = h: nat | h < HASH_COUNT

  datatype Script = Script(version: u16, bytes: seq<nat>)

  // ---------------------------------------------------------------- operations

  datatype Royalty = Royalty(beneficiary: Script, fee: u64)

  datatype DeployInfo = DeployInfo(
    max: nat,
    deployer: Script,
    royalty: Option<Royalty>,
    mintStartDaa: nat,
    premint: nat)

  datatype MintInfo = MintInfo(tokenId: nat, to: Script, royalty: Option<Royalty>)

  datatype TransferInfo = TransferInfo(tokenId: nat, to: Script)

  datatype DiscountInfo = DiscountInfo(to: Script, fee: u64)

  /** `p2shScript` is the pay-to-script-hash script of `redeemScript`; it is
      computed by a library outside this model. */
  datatype ListInfo = ListInfo(
    tokenId: nat,
    utxoAddress: Script,
    redeemScript: seq<nat>,
    p2shScript: Script)

  /** No buyer means the listing is cancelled. */
  datatype SendInfo = SendInfo(tokenId: nat, buyer: Option<Script>, listingTxId: TxId)

  datatype Common = Common(
    tick: Tick,
    txId: TxId,
    blockTime: nat,
    sender: Script,
    fee: u64,
    daaScore: nat)

  datatype OperationInfo =
    | DeployOp(deploy: DeployInfo)
    | MintOp(mint: MintInfo)
    | TransferOp(transfer: TransferInfo)
    | DiscountOp(discount: DiscountInfo)
    | ListOp(list: ListInfo)
    | SendOp(send: SendInfo)

  datatype Operation = Operation(common: Common, info: OperationInfo)

  datatype OpError =
    | TickExists
    | InsufficientRoyaltyFee
    | MissingRoyaltyMintFee
    | InvalidBeneficiaryForRoyaltyMintFee
    | TickNotFound
    | MintingFinished
    | TokenNotFound
    | WrongOwner
    | MintingNotStarted(current: nat, start: nat)
    | WrongDeployer
    | DiscountFeeOverflow
    | TokenAlreadyListed
    | ListingNotFound
    | WrongListingUtxo
    | TokenIsListed
    | InvalidListingP2sh

  datatype CheckedOp = CheckedOp(op: Operation, error: Option<OpError>)

  /** An operation on its way into the ledger, with its position in the chain. */
  datatype ContextOp = ContextOp(score: u64, op: Operation, entropy: nat)

  /** The scripts of the three kinds of addresses: pay to a public key, to an ECDSA public
      key, and to a script hash. */
  predicate AddressScript(s: Script) {
    var b := s.bytes;
    && s.version == 0
    && ((|b| == 34 && b[0] == 0x20 && b[33] == 0xAC)
        || (|b| == 35 && b[0] == 0x21 && b[34] == 0xAB)
        || (|b| == 35 && b[0] == 0xAA && b[1] == 0x20 && b[34] == 0x87))
  }

  /** What the envelope analyzer guarantees of every operation it lets through: the bounds
      of a deployment, and that the receiver of a mint or a discount is an address or the
      public key that sent it. */
  predicate ValidOp(op: Operation) {
    match op.info
    case DeployOp(d) => d.premint <= d.max < U64_MAX
    case MintOp(m) => AddressScript(m.to)
    case DiscountOp(i) => AddressScript(i.to)
    case _ => true
  }

  // ---------------------------------------------------------------- table keys

  datatype TokenKey = TokenKey(tick: Tick, tokenId: nat)
  datatype RangeKey = RangeKey(tick: Tick, index: nat)
  datatype DeploymentKey = DeploymentKey(score: nat, tick: Tick)
  datatype MintKey = MintKey(token: TokenKey, seqNo: nat, score: nat)
  datatype ChangeKey = ChangeKey(score: nat, token: TokenKey, seqNo: nat)
  datatype HistoryKey = HistoryKey(token: TokenKey, score: nat)
  datatype HoldingKey = HoldingKey(spk: Script, token: TokenKey)
  datatype VipKey = VipKey(spk: Script, tick: Tick, score: u64, fee: u64)
  datatype DiscountKey = DiscountKey(score: u64, tick: Tick, spk: Script)
  datatype BlockKey = BlockKey(blueScore: u64, hash: Hash)

  // ---------------------------------------------------------------- table rows

  datatype Deployment = Deployment(score: nat, info: DeployInfo, common: Common)
  datatype Holding = Holding(spk: Script, score: nat)
  datatype Listing = Listing(
    seller: Script,
    txId: TxId,
    utxoAddress: Script,
    redeemScript: seq<nat>,
    score: nat)
  datatype Range = Range(start: nat, size: nat)
  datatype PreModRange = PreModRange(
    index: nat,
    start: nat,
    size: nat,
    removed: bool,
    split: bool,
    isInitial: bool)
}
