/** The three lists that are paged by a number (nexus/src/nft_view.rs, `krc721_token_list`,
    `krc721_op_list` and `krc721_token_history_list`). */
module Lists {
  import opened Model
  import opened Ledger
  import opened Score
  import opened Chain
  import opened ChainTheorem
  import opened Keys
  import opened RowKeys
  import opened TokenHistory
  import opened Scans
  import opened Pages

  /** The tokens of a collection by id. */
  function Tokens(owners: map<TokenKey, Holding>, t: Tick): map<u64, Holding> {
    map k | k in owners && k.tick == t && k.tokenId <= U64_MAX :: k.tokenId := owners[k]
  }

  /** The log by score. */
  function LogOf(ops: map<nat, CheckedOp>): map<u64, CheckedOp> {
    map s | s in ops && s <= U64_MAX :: ops[s]
  }

  /** The records of a token's history by score; `None` for a row the view panics at. */
  function History(c: Core, token: TokenKey): map<u64, Option<TokenHistoryRecord>> {
    map s: u64 | s <= U64_MAX && HistoryKey(token, s) in c.history :: HistoryRecord(c.ops, s, c.history[HistoryKey(token, s)])
  }

  /** The history scan runs over reversed scores, so it is turned round: its byte order is
      the falling order of scores. */
  lemma HistoryRunsBackwards(k: HistoryKey, l: HistoryKey)
    requires HistoryFits(k) && HistoryFits(l) && k.token == l.token
    ensures LexLess(HistoryBytes(k), HistoryBytes(l)) <==> k.score > l.score
  {
    hide LexLess, HistoryBytes;
    HistoryOrder(k, l);
    if k.score < l.score {
      HistoryOrder(l, k);
      NotBoth(HistoryBytes(k), HistoryBytes(l));
    } else if k.score == l.score {
      NotBelowItself(HistoryBytes(k));
    }
  }

  lemma {:induction false} NotBoth(a: Bytes, b: Bytes)
    requires LexLess(b, a)
    ensures !LexLess(a, b)
  {
    if b != [] && a[0] == b[0] {
      NotBoth(a[1..], b[1..]);
    }
  }

  /** Paging through the tokens of a collection, the log or the history of a token meets
      each of them exactly once, in either direction and for any limit of at least one. */
  lemma ListsMissNothing(c: Core, t: Tick, token: TokenKey, d: Direction, limit: nat)
    requires limit >= 1
    ensures var walk := WholeWalk(Tokens(c.owners, t), d, limit);
            && |walk| == |Tokens(c.owners, t)|
            && forall k :: k in c.owners && k.tick == t && k.tokenId <= U64_MAX ==> Row(k.tokenId, c.owners[k]) in walk
    ensures var walk := WholeWalk(LogOf(c.ops), d, limit);
            && |walk| == |LogOf(c.ops)|
            && forall s :: s in c.ops && s <= U64_MAX ==> Row(s, c.ops[s]) in walk
    ensures var walk := WholeWalk(History(c, token), d, limit);
            && |walk| == |History(c, token)|
            && forall k :: k in c.history && k.token == token && k.score <= U64_MAX ==>
                 Row(k.score, HistoryRecord(c.ops, k.score, c.history[k])) in walk
  {
    hide WholeWalk, Directed, Rows;
    WalkVisitsEveryRowOnce(Tokens(c.owners, t), d, limit);
    WalkVisitsEveryRowOnce(LogOf(c.ops), d, limit);
    WalkVisitsEveryRowOnce(History(c, token), d, limit);
    TokenRows(c.owners, t);
    LogRows(c.ops);
    HistoryRows(c, token);
  }

  lemma TokenRows(owners: map<TokenKey, Holding>, t: Tick)
    ensures forall k :: k in owners && k.tick == t && k.tokenId <= U64_MAX ==> k.tokenId in Tokens(owners, t) && Tokens(owners, t)[k.tokenId] == owners[k]
  {
  }

  lemma LogRows(ops: map<nat, CheckedOp>)
    ensures forall s :: s in ops && s <= U64_MAX ==> s in LogOf(ops) && LogOf(ops)[s] == ops[s]
  {
  }

  lemma HistoryRows(c: Core, token: TokenKey)
    ensures forall k :: k in c.history && k.token == token && k.score <= U64_MAX ==>
              k.score in History(c, token) && History(c, token)[k.score] == HistoryRecord(c.ops, k.score, c.history[k])
  {
    hide HistoryRecord;
  }

  /** In every reachable state nothing is too wide to be listed, and every row of a token's
      history is shown with the accepted operation that handed the token over. */
  lemma ReachableListsAreComplete(limit: Limit, changes: seq<ChainChange>, t: Tick, token: TokenKey, d: Direction, size: nat)
    requires ValidRun(limit, changes) && size >= 1
    ensures ProcessAll(EMPTY_DB, limit, changes).Some?
    ensures var c := ProcessAll(EMPTY_DB, limit, changes).value.core;
            && (forall k :: k in c.owners && k.tick == t ==> Fits8(k.tokenId) && Row(k.tokenId, c.owners[k]) in WholeWalk(Tokens(c.owners, t), d, size))
            && (forall s :: s in c.ops ==> Fits8(s) && Row(s, c.ops[s]) in WholeWalk(LogOf(c.ops), d, size))
            && (forall k :: k in c.history && k.token == token ==>
                  && Fits8(k.score) && k.score in c.ops && c.ops[k.score].error.None?
                  && Receiver(c.ops[k.score].op, token) == Some(c.history[k])
                  && Row(k.score, Some(TokenHistoryRecord(c.history[k], k.score, c.ops[k.score].op.common.txId)))
                       in WholeWalk(History(c, token), d, size))
            && |WholeWalk(Tokens(c.owners, t), d, size)| == |Tokens(c.owners, t)|
            && |WholeWalk(LogOf(c.ops), d, size)| == |LogOf(c.ops)|
            && |WholeWalk(History(c, token), d, size)| == |History(c, token)|
  {
    hide ValidRun, ProcessAll, WholeWalk, Receiver, MintScan, OwnerScan, ChangeScan, Tokens, LogOf, History;
    ScansAreRight(limit, changes);
    HistoryViewNeverPanics(limit, changes);
    ListsMissNothing(ProcessAll(EMPTY_DB, limit, changes).value.core, t, token, d, size);
  }
}
