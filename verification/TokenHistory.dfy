/** The history of every token against the log: each row of the history is what one
    accepted, still logged operation did to the token, and each such operation has its
    row.  So the history view always finds the operation it looks up
    (nexus/src/nft_view.rs, `krc721_token_history_list`). */
module TokenHistory {
  import opened Model
  import opened Ledger
  import opened Invariants
  import opened Preservation
  import opened Steps
  import opened Filtering
  import opened ReorgIsReplay
  import opened Score
  import opened Chain
  import opened ChainReplay
  import opened ChainTheorem
  import opened Guarantees
  import opened Protocol
  import TokenIds

  /** Whom an accepted operation hands `token` to, if anybody. */
  function Receiver(op: Operation, token: TokenKey): Option<Script> {
    if token.tick != op.common.tick then None else
    var id := token.tokenId;
    match op.info
    case DeployOp(d) => if 1 <= id <= d.premint then Some(d.deployer) else None
    case MintOp(m) => if id == m.tokenId then Some(m.to) else None
    case TransferOp(i) => if id == i.tokenId then Some(i.to) else None
    case SendOp(i) => if id == i.tokenId then i.buyer else None
    case _ => None
  }

  /** The history holds one row for every token an accepted operation of the log handed
      over, with the receiver, and no other row. */
  ghost predicate HistoryIsLogged(history: map<HistoryKey, Script>, ops: map<nat, CheckedOp>) {
    && (forall k :: k in history ==>
          k.score in ops && ops[k.score].error.None? && Receiver(ops[k.score].op, k.token) == Some(history[k]))
    && (forall s, token :: s in ops && ops[s].error.None? && Receiver(ops[s].op, token).Some? ==> HistoryKey(token, s) in history)
  }

  /** `after` has a row at `score` for every token `op` hands over, and the rows of `before`. */
  ghost predicate Writes(before: map<HistoryKey, Script>, after: map<HistoryKey, Script>, score: nat, op: Operation) {
    && (forall k :: k in after <==> k in before || (k.score == score && Receiver(op, k.token).Some?))
    && (forall k :: k in after ==>
          Some(after[k]) == if k.score == score && Receiver(op, k.token).Some? then Receiver(op, k.token) else Some(before[k]))
  }

  lemma OneMoveWrites(before: map<HistoryKey, Script>, score: nat, op: Operation, token: TokenKey, to: Script)
    requires forall t :: Receiver(op, t) == if t == token then Some(to) else None
    ensures Writes(before, before[HistoryKey(token, score) := to], score, op)
  {
    hide Receiver;
  }

  lemma NoMoveWrites(before: map<HistoryKey, Script>, score: nat, op: Operation)
    requires forall t :: Receiver(op, t) == None
    ensures Writes(before, before, score, op)
  {
    hide Receiver;
  }

  // ---------------------------------------------------------------- deployments

  function PremintKeys(t: Tick, score: nat, n: nat): set<HistoryKey> {
    set id | id in TokenIds.Span(0, n) :: HistoryKey(TokenKey(t, id), score)
  }

  function PremintRows(t: Tick, score: nat, to: Script, n: nat): map<HistoryKey, Script> {
    map k | k in PremintKeys(t, score, n) :: to
  }

  lemma OneMoreRow(history: map<HistoryKey, Script>, t: Tick, score: nat, to: Script, n: nat)
    ensures (history + PremintRows(t, score, to, n))[HistoryKey(TokenKey(t, n + 1), score) := to]
              == history + PremintRows(t, score, to, n + 1)
  {
    assert TokenIds.Span(0, n + 1) == TokenIds.Span(0, n) + {n + 1};
    assert PremintRows(t, score, to, n + 1) == PremintRows(t, score, to, n)[HistoryKey(TokenKey(t, n + 1), score) := to];
  }

  lemma {:induction false} PremintsWriteRows(c: Core, score: nat, common: Common, d: DeployInfo, n: nat)
    requires Inv(c) && common.tick in c.registry && c.registry[common.tick].info == d
    requires LastMint(c.mints, common.tick) == 0 && n <= d.premint <= d.max
    ensures var r := Premints(c, score, common, d, n);
            r.Applied? && r.error.None? && r.core.history == c.history + PremintRows(common.tick, score, d.deployer, n)
  {
    hide TablesOk, SupplyOk, Mint, LastMint, PremintRows;
    if n == 0 {
      assert PremintRows(common.tick, score, d.deployer, 0) == map[] by { NoRows(common.tick, score, d.deployer); }
      assert c.history + map[] == c.history;
    } else {
      PremintsWriteRows(c, score, common, d, n - 1);
      PremintsKeep(c, score, common, d, n - 1);
      PremintWrites(Premints(c, score, common, d, n - 1).core, score, common, d);
      OneMoreRow(c.history, common.tick, score, d.deployer, n - 1);
    }
  }

  lemma NoRows(t: Tick, score: nat, to: Script)
    ensures PremintRows(t, score, to, 0) == map[]
  {
    assert TokenIds.Span(0, 0) == {};
  }

  lemma PremintRowsWrite(before: map<HistoryKey, Script>, score: nat, op: Operation, d: DeployInfo)
    requires op.info == DeployOp(d)
    ensures Writes(before, before + PremintRows(op.common.tick, score, d.deployer, d.premint), score, op)
  {
    var rows := PremintRows(op.common.tick, score, d.deployer, d.premint);
    forall k: HistoryKey ensures k in rows <==> k.score == score && Receiver(op, k.token).Some? {
      if k.score == score && Receiver(op, k.token).Some? {
        assert k == HistoryKey(TokenKey(op.common.tick, k.token.tokenId), score) && k.token.tokenId in TokenIds.Span(0, d.premint);
      }
    }
  }

  lemma DeployWrites(c: Core, x: ContextOp)
    requires x.op.info.DeployOp? && Good(c, x.score) && ValidOp(x.op)
    ensures Told(c, x)
  {
    hide Premints, TablesOk, SupplyOk, Bounded, PremintsDone, LastMint, PremintRows, Writes;
    var common, d := x.op.common, x.op.info.deploy;
    RegistryIsBounded(c, x.score);
    if common.tick !in c.registry {
      var registered := Register(c, x.score, common, d);
      RegisterKeepsTables(c, x.score, common, d);
      RegisterKeepsSupply(c, x.score, common, d);
      PremintsWriteRows(registered, x.score, common, d, d.premint);
      PremintRowsWrite(c.history, x.score, x.op, d);
    }
  }

  // ---------------------------------------------------------------- the other operations

  /** A rejected operation leaves the history, an accepted one writes its rows. */
  ghost predicate Told(c: Core, x: ContextOp) {
    var e := EffectOf(c, x);
    && e.Effect?
    && (if e.error.Some? then e.core.history == c.history else Writes(c.history, e.core.history, x.score, e.recorded))
  }

  lemma MintIsTold(c: Core, x: ContextOp)
    requires x.op.info.MintOp? && SupplyOk(c.registry, c.mints, c.alloc)
    ensures Told(c, x)
  {
    hide Mint, SupplyOk, LastMint, Writes;
    var m := x.op.info.mint;
    MintDoesNotFault(c, x);
    MintShape(c, x.entropy, x.score, x.op.common, m, false);
    var r := Mint(c, x.entropy, x.score, x.op.common, m, false);
    if r.Minted? {
      OneMoveWrites(c.history, x.score, x.op.(info := MintOp(m.(tokenId := r.tokenId))), TokenKey(x.op.common.tick, r.tokenId), m.to);
    }
  }

  lemma TransferIsTold(c: Core, x: ContextOp)
    requires x.op.info.TransferOp?
    ensures Told(c, x)
  {
    hide Writes;
    var i := x.op.info.transfer;
    OneMoveWrites(c.history, x.score, x.op, TokenKey(x.op.common.tick, i.tokenId), i.to);
  }

  lemma SendIsTold(c: Core, x: ContextOp)
    requires x.op.info.SendOp?
    ensures Told(c, x)
  {
    hide Writes;
    var i := x.op.info.send;
    if i.buyer.Some? {
      OneMoveWrites(c.history, x.score, x.op, TokenKey(x.op.common.tick, i.tokenId), i.buyer.value);
    } else {
      NoMoveWrites(c.history, x.score, x.op);
    }
  }

  lemma StillIsTold(c: Core, x: ContextOp)
    requires x.op.info.DiscountOp? || x.op.info.ListOp?
    ensures Told(c, x)
  {
    hide Writes;
    NoMoveWrites(c.history, x.score, x.op);
  }

  lemma EffectIsTold(c: Core, x: ContextOp)
    requires Good(c, x.score) && ValidOp(x.op)
    ensures Told(c, x)
  {
    hide Told, TablesOk, PremintsDone, Bounded, ValidOp;
    match x.op.info
    case DeployOp(_) => DeployWrites(c, x);
    case MintOp(_) => MintIsTold(c, x);
    case TransferOp(_) => TransferIsTold(c, x);
    case SendOp(_) => SendIsTold(c, x);
    case _ => StillIsTold(c, x);
  }

  // ---------------------------------------------------------------- every reachable state

  lemma LoggedOneMore(history: map<HistoryKey, Script>, ops: map<nat, CheckedOp>, after: map<HistoryKey, Script>, s: nat, o: CheckedOp)
    requires HistoryIsLogged(history, ops) && s !in ops
    requires if o.error.Some? then after == history else Writes(history, after, s, o.op)
    ensures HistoryIsLogged(after, ops[s := o])
  {
    hide Receiver;
  }

  lemma StepIsTold(c: Core, d: Core, x: ContextOp)
    requires OneStep(c, d, x) && HistoryIsLogged(c.history, c.ops)
    ensures HistoryIsLogged(d.history, d.ops)
  {
    hide Good, AddsOnly, EffectOf, ValidOp, HistoryIsLogged, Writes;
    EffectIsTold(c, x);
    BoundedOfGood(c, x.score);
    BoundedOps(c, x.score);
    var e := EffectOf(c, x);
    LoggedOneMore(c.history, c.ops, e.core.history, x.score, CheckedOp(e.recorded, e.error));
  }

  lemma {:induction false} RunIsTold(h: seq<ContextOp>)
    requires ValidHistory(h)
    ensures HistoryIsLogged(Run(h).history, Run(h).ops)
    decreases |h|
  {
    hide ValidHistory, OneStep, HistoryIsLogged, Apply;
    if h == [] {
      NothingLogged();
    } else {
      PrefixIsValid(h);
      RunIsTold(h[..|h| - 1]);
      RunStep(h);
      StepIsTold(Run(h[..|h| - 1]), Run(h), h[|h| - 1]);
    }
  }

  lemma NothingLogged()
    ensures HistoryIsLogged(map[], map[])
  {
  }

  // ---------------------------------------------------------------- the history view

  /** The row of the view, `None` for a panic. */
  datatype TokenHistoryRecord = TokenHistoryRecord(owner: Script, modTxScore: nat, txId: TxId)

  function HistoryRecord(ops: map<nat, CheckedOp>, score: nat, owner: Script): Option<TokenHistoryRecord> {
    if score in ops then Some(TokenHistoryRecord(owner, score, ops[score].op.common.txId)) else None
  }

  /** In every reachable state, whatever reorganisations led to it, the view can show
      every row, and the transaction it shows is the accepted one that handed the token to
      the owner it shows. */
  lemma HistoryViewNeverPanics(limit: Limit, changes: seq<ChainChange>)
    requires ValidRun(limit, changes)
    ensures ProcessAll(EMPTY_DB, limit, changes).Some?
    ensures var c := ProcessAll(EMPTY_DB, limit, changes).value.core;
            && HistoryIsLogged(c.history, c.ops)
            && forall k :: k in c.history ==>
                 var r := HistoryRecord(c.ops, k.score, c.history[k]);
                 && r.Some?
                 && r.value.txId in c.opScores && c.opScores[r.value.txId] == k.score
                 && Receiver(c.ops[k.score].op, k.token) == Some(r.value.owner)
  {
    hide ValidRun, ProcessAll, Good, Run, OpsOk, Receiver, ValidHistory, OwnershipOk, MintsMatchChanges, RegistryOk;
    ReachableIsGood(limit, changes);
    var h := OpsOf(limit, ChainAfter(changes));
    RunIsTold(h);
    PartsOfGood(Run(h), NextScore(h));
    LogIsInverse(Run(h));
  }

  lemma LogIsInverse(c: Core)
    requires OpsOk(c.ops, c.opScores)
    ensures forall s :: s in c.ops ==> c.ops[s].op.common.txId in c.opScores && c.opScores[c.ops[s].op.common.txId] == s
  {
  }
}
