/** Virtual chain changes (nexus/src/processor.rs, `process_chain_changes_wtx`,
    `identify_reorg_blocks_and_delete` and `process_additions`). */
module Chain {
  import opened Model
  import opened Orders
  import opened Ledger
  import opened Counters
  import opened Rollback
  import opened Score

  datatype MergesetOp = MergesetOp(blockIndex: nat, txIndex: nat, op: Operation)
  datatype Mergeset = Mergeset(ops: seq<MergesetOp>, entropy: nat, blueScore: u64, hash: Hash)
  datatype ChainChange = ChainChange(removed: seq<Hash>, forced: Option<u64>, mergesets: seq<Mergeset>)

  datatype Db = Db(core: Core, residue: Residue, stats: Stats, blocks: set<BlockKey>, blockScores: map<Hash, u64>)

  const EMPTY_DB: Db := Db(Ledger.EMPTY, Residue(map[], map[]), ZERO, {}, map[])

  // ---------------------------------------------------------------- the chain index

  predicate BlockLe(a: BlockKey, b: BlockKey) {
    a.blueScore < b.blueScore || (a.blueScore == b.blueScore && a.hash <= b.hash)
  }

  function Tip(blocks: set<BlockKey>): (m: BlockKey)
    requires blocks != {}
    ensures m in blocks && forall x :: x in blocks ==> BlockLe(x, m)
  {
    HasGreatest(blocks, BlockLe);
    var m :| m in blocks && forall x :: x in blocks ==> BlockLe(x, m);
    m
  }

  function LookupRemoved(blocks: set<BlockKey>, blockScores: map<Hash, u64>, hash: Hash): Option<u64> {
    if hash in blockScores then Some(blockScores[hash])
    else if blocks != {} && Tip(blocks).hash == hash then Some(Tip(blocks).blueScore)
    else None
  }

  function MinScore(a: Option<u64>, b: u64): u64 {
    if a.Some? && a.value < b then a.value else b
  }

  /** The reverse index after the removed blocks were looked up, and the least score found. */
  function Identify(blocks: set<BlockKey>, blockScores: map<Hash, u64>, removed: seq<Hash>): (map<Hash, u64>, Option<u64>) {
    if removed == [] then (blockScores, None)
    else
      var n := |removed| - 1;
      var (scores, least) := Identify(blocks, blockScores, removed[..n]);
      match LookupRemoved(blocks, scores, removed[n])
      case None => (scores, least)
      case Some(score) => (scores - {removed[n]}, Some(MinScore(least, score)))
  }

  function RollbackScore(least: Option<u64>, forced: Option<u64>): Option<u64> {
    if forced.Some? then Some(MinScore(least, forced.value)) else least
  }

  function BlocksSince(blocks: set<BlockKey>, blueScore: nat): set<BlockKey> {
    set b | b in blocks && b.blueScore >= blueScore
  }

  function HashesOf(blocks: set<BlockKey>): set<Hash> {
    set b | b in blocks :: b.hash
  }

  // ---------------------------------------------------------------- removal

  /** `None` is an aborted transaction. */
  function ProcessRemoval(db: Db, limit: Limit, removed: seq<Hash>, forced: Option<u64>): Option<(Db, Stats)> {
    var (scores, least) := Identify(db.blocks, db.blockScores, removed);
    match RollbackScore(least, forced)
    case None => Some((db.(blockScores := scores), ZERO))
    case Some(b) =>
      var gone := BlocksSince(db.blocks, b);
      match RemoveAbove(db.core, db.residue, Threshold(limit, b))
      case None => None
      case Some(u) =>
        Some((db.(core := u.core, residue := u.residue, blocks := db.blocks - gone, blockScores := scores - HashesOf(gone)), Wrapped(u.diff)))
  }

  // ---------------------------------------------------------------- additions

  /** The operations of a mergeset that are not in the log yet, with their scores. */
  function Incoming(opScores: map<TxId, nat>, limit: Limit, m: Mergeset, ops: seq<MergesetOp>): seq<ContextOp> {
    if ops == [] then []
    else
      var n := |ops| - 1;
      var before := Incoming(opScores, limit, m, ops[..n]);
      if ops[n].op.common.txId in opScores then before
      else before + [ContextOp(TxScore(limit, m.blueScore, ops[n].blockIndex, ops[n].txIndex), ops[n].op, m.entropy)]
  }

  datatype Processed = Processed(core: Core, residue: Residue, diff: Stats)

  function Counted(o: CheckedOp): Stats {
    if o.error.None? then Added(o.op) else ZERO
  }

  function ProcessOps(start: Processed, xs: seq<ContextOp>): Option<Processed> {
    if xs == [] then Some(start)
    else
      var n := |xs| - 1;
      match ProcessOps(start, xs[..n])
      case None => None
      case Some(p) =>
        match Apply(p.core, xs[n])
        case Aborted => None
        case Stepped(after, logged) =>
          Some(Processed(after, ApplyResidue(p.residue, p.core, xs[n], logged.error), Plus(p.diff, Counted(logged))))
  }

  function LastBlueScore(blocks: set<BlockKey>): u64 {
    if blocks == {} then 0 else Tip(blocks).blueScore
  }

  function AddMergeset(db: Db, limit: Limit, last: nat, m: Mergeset): Option<(Db, Stats)> {
    var key := BlockKey(m.blueScore, m.hash);
    if m.blueScore < last || key in db.blocks then Some((db, ZERO))
    else
      match ProcessOps(Processed(db.core, db.residue, ZERO), Incoming(db.core.opScores, limit, m, m.ops))
      case None => None
      case Some(p) =>
        Some((db.(core := p.core, residue := p.residue, blocks := db.blocks + {key},
                  blockScores := db.blockScores[m.hash := m.blueScore]), Wrapped(p.diff)))
  }

  function ProcessAdditions(db: Db, limit: Limit, last: nat, mergesets: seq<Mergeset>): Option<(Db, Stats)> {
    if mergesets == [] then Some((db, ZERO))
    else
      var n := |mergesets| - 1;
      match ProcessAdditions(db, limit, last, mergesets[..n])
      case None => None
      case Some((before, diff)) =>
        match AddMergeset(before, limit, last, mergesets[n])
        case None => None
        case Some((after, more)) => Some((after, Add(diff, more)))
  }

  // ---------------------------------------------------------------- one change

  function Remove(db: Db, limit: Limit, change: ChainChange): Option<Db> {
    if change.removed == [] && change.forced.None? then Some(db)
    else
      match ProcessRemoval(db, limit, change.removed, change.forced)
      case None => None
      case Some((after, diff)) => Some(after.(stats := Sub(after.stats, diff)))
  }

  function Extend(db: Db, limit: Limit, mergesets: seq<Mergeset>): Option<Db> {
    if mergesets == [] then Some(db)
    else
      match ProcessAdditions(db, limit, LastBlueScore(db.blocks), mergesets)
      case None => None
      case Some((after, diff)) => Some(after.(stats := Add(after.stats, diff)))
  }

  /** One change: first the reorganisation, then the new blocks.  An aborted
      transaction leaves nothing behind. */
  function ProcessChange(db: Db, limit: Limit, change: ChainChange): Option<Db> {
    match Remove(db, limit, change)
    case None => None
    case Some(removed) => Extend(removed, limit, change.mergesets)
  }

  function ProcessAll(db: Db, limit: Limit, changes: seq<ChainChange>): Option<Db> {
    if changes == [] then Some(db)
    else
      match ProcessAll(db, limit, changes[..|changes| - 1])
      case None => None
      case Some(before) => ProcessChange(before, limit, changes[|changes| - 1])
  }
}
