/** What a reorganisation does to the ledger (nexus/src/processor.rs,
    `process_removal` and its helpers), for a transaction-score threshold. */
module Rollback {
  import opened Model
  import opened Orders
  import opened Ledger
  import opened Counters
  import TokenIds

  // ---------------------------------------------------------------- ordered scans

  function Scores(ops: map<nat, CheckedOp>, threshold: nat): set<nat> {
    set s | s in ops && s >= threshold
  }

  /** A range scan over a table with number keys. */
  function Ascending(s: set<nat>): (q: seq<nat>)
    ensures |q| == |s| && (forall x :: x in q <==> x in s)
    ensures forall i, j :: 0 <= i < j < |q| ==> q[i] < q[j]
  {
    if s == {} then [] else var m := MaxOf(s); Ascending(s - {m}) + [m]
  }

  /** The byte order of `ownership_changes` keys: score, tick, token id and then the
      reversed sequence number. */
  predicate KeyLe(a: ChangeKey, b: ChangeKey) {
    a.score < b.score || (a.score == b.score &&
    (a.token.tick < b.token.tick || (a.token.tick == b.token.tick &&
    (a.token.tokenId < b.token.tokenId || (a.token.tokenId == b.token.tokenId && a.seqNo >= b.seqNo)))))
  }

  function LastKey(s: set<ChangeKey>): (m: ChangeKey)
    requires s != {}
    ensures m in s && forall x :: x in s ==> KeyLe(x, m)
  {
    HasGreatest(s, KeyLe);
    var m :| m in s && forall x :: x in s ==> KeyLe(x, m);
    m
  }

  /** A range scan over `ownership_changes`, backwards. */
  function Descending(s: set<ChangeKey>): (q: seq<ChangeKey>)
    ensures |q| == |s| && (forall x :: x in q <==> x in s)
    ensures forall i, j :: 0 <= i < j < |q| ==> KeyLe(q[j], q[i]) && q[i] != q[j]
  {
    if s == {} then [] else var m := LastKey(s); [m] + Descending(s - {m})
  }

  // ---------------------------------------------------------------- operations

  datatype Undone = Undone(core: Core, residue: Residue, diff: Stats)

  /** Puts back the listing a rolled-back Send consumed, if its List is still logged. */
  function Restore(u: Undone, op: Operation): Undone
    requires op.info.SendOp?
  {
    var listTxId := op.info.send.listingTxId;
    if listTxId !in u.core.opScores then u else
    var score := u.core.opScores[listTxId];
    if score !in u.core.ops then u else
    var checked := u.core.ops[score];
    if checked.error.Some? || !checked.op.info.ListOp? then u else
    var info, seller := checked.op.info.list, checked.op.common.sender;
    var token := TokenKey(op.common.tick, op.info.send.tokenId);
    u.(core := u.core.(listings := u.core.listings[token := Listing(seller, listTxId, info.utxoAddress, info.redeemScript, score)],
                       listingsByTick := u.core.listingsByTick + {token}),
       residue := u.residue.(sellerIndex := u.residue.sellerIndex[HoldingKey(seller, token) := score]))
  }

  function RemoveOp(u: Undone, s: nat): Undone
    requires s in u.core.ops
  {
    var o := u.core.ops[s];
    var v := u.(core := u.core.(ops := u.core.ops - {s}, opScores := u.core.opScores - {o.op.common.txId}));
    if o.error.Some? then v
    else
      var w := if o.op.info.SendOp? then Restore(v, o.op) else v;
      w.(diff := Plus(w.diff, Removed(o.op)))
  }

  ghost predicate Removable(ops: map<nat, CheckedOp>, scores: seq<nat>) {
    && (forall i :: 0 <= i < |scores| ==> scores[i] in ops)
    && (forall i, j :: 0 <= i < j < |scores| ==> scores[i] != scores[j])
  }

  function Without(ops: map<nat, CheckedOp>, scores: seq<nat>): map<nat, CheckedOp> {
    map s | s in ops && s !in scores :: ops[s]
  }

  lemma WithoutOneMore(ops: map<nat, CheckedOp>, scores: seq<nat>)
    requires scores != []
    ensures Without(ops, scores) == Without(ops, scores[..|scores| - 1]) - {scores[|scores| - 1]}
  {
    var n := |scores| - 1;
    assert forall s :: s in scores <==> s in scores[..n] || s == scores[n];
  }

  lemma LastIsLeft(ops: map<nat, CheckedOp>, scores: seq<nat>)
    requires scores != [] && Removable(ops, scores)
    ensures Removable(ops, scores[..|scores| - 1])
    ensures scores[|scores| - 1] in Without(ops, scores[..|scores| - 1])
  {
  }

  /** Removes the logged operations at `scores`, from the front. */
  function RemoveOps(u: Undone, scores: seq<nat>): (r: Undone)
    requires Removable(u.core.ops, scores)
    ensures r.core.ops == Without(u.core.ops, scores)
  {
    hide Without, Removable;
    if scores == [] then
      assert Without(u.core.ops, []) == u.core.ops by { WithoutNone(u.core.ops); }
      u
    else
      var n := |scores| - 1;
      LastIsLeft(u.core.ops, scores);
      WithoutOneMore(u.core.ops, scores);
      RemoveOp(RemoveOps(u, scores[..n]), scores[n])
  }

  lemma WithoutNone(ops: map<nat, CheckedOp>)
    ensures Without(ops, []) == ops
  {
  }

  // ---------------------------------------------------------------- deployments, discounts, listings

  function RemovedTicks(c: Core, threshold: nat): set<Tick> {
    set k | k in c.deployments && k.score >= threshold :: k.tick
  }

  /** The ledger without the deployments at or above the threshold, and the premint
      of each collection that went. */
  function RemoveDeployments(c: Core, threshold: nat): (Core, map<Tick, nat>) {
    var ticks := RemovedTicks(c, threshold);
    (c.(registry := c.registry - ticks,
        deployments := map k | k in c.deployments && k.score < threshold :: c.deployments[k]),
     map t | t in ticks && t in c.registry :: c.registry[t].info.premint)
  }

  function RemovedVips(discounts: map<DiscountKey, u64>, threshold: nat): set<VipKey> {
    set k | k in discounts && k.score >= threshold :: VipKey(k.spk, k.tick, k.score, discounts[k])
  }

  /** The discount log itself is left as it is. */
  function RemoveDiscounts(c: Core, r: Residue, threshold: nat): Core {
    c.(vip := c.vip - RemovedVips(r.discounts, threshold))
  }

  function ListedSince(listings: map<TokenKey, Listing>, threshold: nat): set<TokenKey> {
    set t | t in listings && listings[t].score >= threshold
  }

  function SellerKeys(listings: map<TokenKey, Listing>, tokens: set<TokenKey>): set<HoldingKey> {
    set t | t in tokens && t in listings :: HoldingKey(listings[t].seller, t)
  }

  function RemoveListings(c: Core, r: Residue, threshold: nat): (Core, Residue) {
    var gone := ListedSince(c.listings, threshold);
    (c.(listings := c.listings - gone, listingsByTick := c.listingsByTick - gone),
     r.(sellerIndex := r.sellerIndex - SellerKeys(c.listings, gone)))
  }

  // ---------------------------------------------------------------- ownership

  function ChangesSince(c: Core, threshold: nat): set<ChangeKey> {
    set k | k in c.changes && k.score >= threshold
  }

  /** The premint of a collection, or of one that was just removed. */
  function PremintOf(registry: map<Tick, Deployment>, premints: map<Tick, nat>, t: Tick): Option<nat> {
    if t in premints then Some(premints[t]) else if t in registry then Some(registry[t].info.premint) else None
  }

  /** Takes one change of owner out of the tables and gives the owner it had set.
      `None` stands for a panic. */
  function UnwindOne(c: Core, k: ChangeKey, premints: map<Tick, nat>): Option<(Core, Option<Script>)> {
    var at := HistoryKey(k.token, k.score);
    var holder := if at in c.history then Some(c.history[at]) else None;
    var d := c.(history := c.history - {at}, changes := c.changes - {k});
    var mint := MintKey(k.token, k.seqNo, k.score);
    var t := k.token.tick;
    if mint !in c.mints then Some((d, holder))
    else
      match PremintOf(c.registry, premints, t)
      case None => None
      case Some(premint) =>
        var e := d.(mints := c.mints - {mint});
        if k.token.tokenId <= premint then Some((e, holder))
        else
          match TokenIds.Undo(c.alloc, t, k.token.tokenId)
          case None => None
          case Some(alloc) => Some((e.(alloc := alloc), holder))
  }

  /** Unwinds the changes in the order given, newest first in `ReconstructOwnership`. */
  function Unwind(c: Core, keys: seq<ChangeKey>, premints: map<Tick, nat>): (r: Option<(Core, seq<Option<Script>>)>)
    ensures r.Some? ==> |r.value.1| == |keys|
    decreases |keys|
  {
    if keys == [] then Some((c, []))
    else
      match UnwindOne(c, keys[0], premints)
      case None => None
      case Some((d, holder)) =>
        match Unwind(d, keys[1..], premints)
        case None => None
        case Some((e, holders)) => Some((e, [holder] + holders))
  }

  function HistoryScores(history: map<HistoryKey, Script>, token: TokenKey): set<nat> {
    set h | h in history && h.token == token :: h.score
  }

  /** The newest history row of a token. */
  function LastOwner(history: map<HistoryKey, Script>, token: TokenKey): Option<Holding> {
    var scores := HistoryScores(history, token);
    if scores == {} then None
    else
      assert HistoryKey(token, MaxOf(scores)) in history;
      Some(Holding(history[HistoryKey(token, MaxOf(scores))], MaxOf(scores)))
  }

  function TokensOf(keys: seq<ChangeKey>): set<TokenKey> {
    set k | k in keys :: k.token
  }

  function RebuildOne(c: Core, token: TokenKey, holder: Option<Script>): Core {
    var held := if holder.Some? then c.holdings - {HoldingKey(holder.value, token)} else c.holdings;
    match LastOwner(c.history, token)
    case None => c.(holdings := held)
    case Some(last) =>
      c.(owners := c.owners[token := last], holdings := held[HoldingKey(last.spk, token) := last.score])
  }

  function Rebuild(c: Core, keys: seq<ChangeKey>, holders: seq<Option<Script>>): Core
    requires |keys| == |holders|
  {
    if keys == [] then c
    else
      var n := |keys| - 1;
      RebuildOne(Rebuild(c, keys[..n], holders[..n]), keys[n].token, holders[n])
  }

  function ReconstructOwnership(c: Core, threshold: nat, premints: map<Tick, nat>): Option<Core> {
    var keys := Descending(ChangesSince(c, threshold));
    match Unwind(c, keys, premints)
    case None => None
    case Some((d, holders)) => Some(Rebuild(d.(owners := d.owners - TokensOf(keys)), keys, holders))
  }

  // ---------------------------------------------------------------- the whole removal

  /** Everything at or above the threshold goes; `None` stands for a panic. */
  function RemoveAbove(c: Core, r: Residue, threshold: nat): Option<Undone> {
    var scores := Ascending(Scores(c.ops, threshold));
    assert forall i :: 0 <= i < |scores| ==> scores[i] in scores;
    var u := RemoveOps(Undone(c, r, ZERO), scores);
    var (deployed, premints) := RemoveDeployments(u.core, threshold);
    var (delisted, residue) := RemoveListings(RemoveDiscounts(deployed, u.residue, threshold), u.residue, threshold);
    match ReconstructOwnership(delisted, threshold, premints)
    case None => None
    case Some(d) => Some(Undone(d, residue, u.diff))
  }
}
