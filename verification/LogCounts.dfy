/** The persisted counters in terms of the log alone: how many accepted operations of each
    kind it holds, and the sums of the fees they paid (database/src/database/stats.rs). */
module LogCounts {
  import opened Model
  import opened Ledger
  import opened Rollback
  import opened MarketReorg
  import opened Counters
  import opened Score
  import opened Chain
  import opened ChainTheorem
  import opened Conservation
  import opened ChainCounters

  // ---------------------------------------------------------------- counting the log

  predicate AcceptedAt(ops: map<nat, CheckedOp>, s: nat) {
    s in ops && ops[s].error.None?
  }

  /** The accepted operations at the scores `at`, and those of one kind. */
  function Accepted(ops: map<nat, CheckedOp>, at: set<nat>): set<nat> {
    set s | s in at && AcceptedAt(ops, s)
  }

  function Deployments(ops: map<nat, CheckedOp>, at: set<nat>): set<nat> {
    set s | s in at && AcceptedAt(ops, s) && ops[s].op.info.DeployOp?
  }

  function Mints(ops: map<nat, CheckedOp>, at: set<nat>): set<nat> {
    set s | s in at && AcceptedAt(ops, s) && ops[s].op.info.MintOp?
  }

  function Transfers(ops: map<nat, CheckedOp>, at: set<nat>): set<nat> {
    set s | s in at && AcceptedAt(ops, s) && ops[s].op.info.TransferOp?
  }

  function Listings(ops: map<nat, CheckedOp>, at: set<nat>): set<nat> {
    set s | s in at && AcceptedAt(ops, s) && ops[s].op.info.ListOp?
  }

  function Sends(ops: map<nat, CheckedOp>, at: set<nat>): set<nat> {
    set s | s in at && AcceptedAt(ops, s) && ops[s].op.info.SendOp?
  }

  /** The network fees the operations at `scores` paid. */
  function FeesPaid(ops: map<nat, CheckedOp>, scores: seq<nat>): nat {
    if scores == [] then 0
    else
      var n := |scores| - 1;
      FeesPaid(ops, scores[..n]) + (if scores[n] in ops then ops[scores[n]].op.common.fee else 0)
  }

  /** The royalty fees named by the deployments and mints at `scores`. */
  function RoyaltiesPaid(ops: map<nat, CheckedOp>, scores: seq<nat>): nat {
    if scores == [] then 0
    else
      var n := |scores| - 1;
      RoyaltiesPaid(ops, scores[..n]) +
      (if scores[n] !in ops then 0
       else
         match ops[scores[n]].op.info
         case DeployOp(d) => (match d.royalty case Some(r) => r.fee case None => 0)
         case MintOp(m) => (match m.royalty case Some(r) => r.fee case None => 0)
         case _ => 0)
  }

  /** The tokens the deployments at `scores` handed out at once. */
  function Preminted(ops: map<nat, CheckedOp>, scores: seq<nat>): nat {
    if scores == [] then 0
    else
      var n := |scores| - 1;
      Preminted(ops, scores[..n]) + (if scores[n] in ops && ops[scores[n]].op.info.DeployOp? then ops[scores[n]].op.info.deploy.premint else 0)
  }

  function CountsOf(ops: map<nat, CheckedOp>, at: set<nat>): Stats {
    Stats(|Deployments(ops, at)|,
          |Mints(ops, at)| + Preminted(ops, Ascending(Deployments(ops, at))),
          |Transfers(ops, at)|,
          RoyaltiesPaid(ops, Ascending(Deployments(ops, at) + Mints(ops, at))),
          FeesPaid(ops, Ascending(Accepted(ops, at))),
          |Listings(ops, at)|,
          |Sends(ops, at)|)
  }

  // ---------------------------------------------------------------- the fold is these counts

  /** A set with or without a new greatest element. */
  ghost predicate GrowsBy(before: set<nat>, after: set<nat>, m: nat, taken: bool) {
    && after == (if taken then before + {m} else before)
    && (taken ==> m !in before && |after| == |before| + 1 && Ascending(after) == Ascending(before) + [m])
  }

  lemma OneMoreAt(before: set<nat>, after: set<nat>, m: nat, taken: bool)
    requires after == (if taken then before + {m} else before) && forall x :: x in before ==> x < m
    ensures GrowsBy(before, after, m, taken)
  {
    hide Ascending;
    if taken { AscendingAppends(before, m); }
  }

  lemma SetsGrow(ops: map<nat, CheckedOp>, at: set<nat>, m: nat)
    requires (forall x :: x in at ==> x < m) && m in ops
    ensures var o := ops[m];
            && GrowsBy(Accepted(ops, at), Accepted(ops, at + {m}), m, o.error.None?)
            && GrowsBy(Deployments(ops, at), Deployments(ops, at + {m}), m, o.error.None? && o.op.info.DeployOp?)
            && GrowsBy(Mints(ops, at), Mints(ops, at + {m}), m, o.error.None? && o.op.info.MintOp?)
            && GrowsBy(Deployments(ops, at) + Mints(ops, at), Deployments(ops, at + {m}) + Mints(ops, at + {m}), m,
                       o.error.None? && (o.op.info.DeployOp? || o.op.info.MintOp?))
            && GrowsBy(Transfers(ops, at), Transfers(ops, at + {m}), m, o.error.None? && o.op.info.TransferOp?)
            && GrowsBy(Listings(ops, at), Listings(ops, at + {m}), m, o.error.None? && o.op.info.ListOp?)
            && GrowsBy(Sends(ops, at), Sends(ops, at + {m}), m, o.error.None? && o.op.info.SendOp?)
  {
    hide GrowsBy;
    var o := ops[m];
    OneMoreAt(Accepted(ops, at), Accepted(ops, at + {m}), m, o.error.None?);
    OneMoreAt(Deployments(ops, at), Deployments(ops, at + {m}), m, o.error.None? && o.op.info.DeployOp?);
    OneMoreAt(Mints(ops, at), Mints(ops, at + {m}), m, o.error.None? && o.op.info.MintOp?);
    OneMoreAt(Deployments(ops, at) + Mints(ops, at), Deployments(ops, at + {m}) + Mints(ops, at + {m}), m,
              o.error.None? && (o.op.info.DeployOp? || o.op.info.MintOp?));
    OneMoreAt(Transfers(ops, at), Transfers(ops, at + {m}), m, o.error.None? && o.op.info.TransferOp?);
    OneMoreAt(Listings(ops, at), Listings(ops, at + {m}), m, o.error.None? && o.op.info.ListOp?);
    OneMoreAt(Sends(ops, at), Sends(ops, at + {m}), m, o.error.None? && o.op.info.SendOp?);
  }

  lemma SumsGrow(ops: map<nat, CheckedOp>, scores: seq<nat>, m: nat)
    requires m in ops
    ensures FeesPaid(ops, scores + [m]) == FeesPaid(ops, scores) + ops[m].op.common.fee
    ensures RoyaltiesPaid(ops, scores + [m]) == RoyaltiesPaid(ops, scores) +
              (match ops[m].op.info
               case DeployOp(d) => RoyaltyFee(d.royalty)
               case MintOp(i) => RoyaltyFee(i.royalty)
               case _ => 0)
    ensures Preminted(ops, scores + [m]) == Preminted(ops, scores) + if ops[m].op.info.DeployOp? then ops[m].op.info.deploy.premint else 0
  {
    assert (scores + [m])[..|scores|] == scores;
  }

  lemma CountsGrow(ops: map<nat, CheckedOp>, at: set<nat>, m: nat)
    requires (forall x :: x in at ==> x < m) && m in ops
    ensures CountsOf(ops, at + {m}) == Plus(CountsOf(ops, at), Counted(ops[m]))
  {
    hide Ascending, Accepted, Deployments, Mints, Transfers, Listings, Sends, FeesPaid, RoyaltiesPaid, Preminted;
    SetsGrow(ops, at, m);
    SumsGrow(ops, Ascending(Accepted(ops, at)), m);
    SumsGrow(ops, Ascending(Deployments(ops, at)), m);
    SumsGrow(ops, Ascending(Deployments(ops, at) + Mints(ops, at)), m);
  }

  lemma NothingCounted(ops: map<nat, CheckedOp>)
    ensures CountsOf(ops, {}) == ZERO
  {
    assert Ascending({}) == [];
    assert Deployments(ops, {}) + Mints(ops, {}) == {};
  }

  lemma TallyGrows(ops: map<nat, CheckedOp>, scores: seq<nat>, m: nat)
    requires m in ops
    ensures Tally(ops, scores + [m]) == Plus(Tally(ops, scores), Counted(ops[m]))
  {
    hide Counted, Plus;
    assert (scores + [m])[..|scores|] == scores;
  }

  lemma {:induction false} TallyIsCounts(ops: map<nat, CheckedOp>, at: set<nat>)
    requires at <= ops.Keys
    ensures Tally(ops, Ascending(at)) == CountsOf(ops, at)
    decreases |at|
  {
    hide CountsOf, Counted, Plus, Tally, Ascending;
    if at == {} {
      NothingCounted(ops);
      NothingTallied(ops);
    } else {
      var m := MaxOf(at);
      var rest := at - {m};
      assert rest + {m} == at;
      TallyIsCounts(ops, rest);
      CountsGrow(ops, rest, m);
      AscendingAppends(rest, m);
      TallyGrows(ops, Ascending(rest), m);
    }
  }

  lemma NothingTallied(ops: map<nat, CheckedOp>)
    ensures Tally(ops, Ascending({})) == ZERO
  {
    assert Ascending({}) == [];
  }

  lemma TotalIsCounts(ops: map<nat, CheckedOp>)
    ensures Total(ops) == CountsOf(ops, ops.Keys)
  {
    hide CountsOf, Tally;
    TallyIsCounts(ops, ops.Keys);
  }

  // ---------------------------------------------------------------- the persisted counters

  /** What the counters would be without their bound. */
  function Ideal(limit: Limit, changes: seq<ChainChange>, db: Db): Stats {
    WithLeak(CountsOf(db.core.ops, db.core.ops.Keys), Leaked(limit, changes))
  }

  /** No counter leaves 64 bits after any change of the run. */
  ghost predicate NeverOverflows(limit: Limit, changes: seq<ChainChange>) {
    changes != [] ==>
      && NeverOverflows(limit, changes[..|changes| - 1])
      && var r := ProcessAll(EMPTY_DB, limit, changes); r.Some? ==> FitsU64(Ideal(limit, changes, r.value))
  }

  lemma {:induction false} SameBound(limit: Limit, changes: seq<ChainChange>)
    ensures NeverOverflows(limit, changes) ==> NeverSaturates(limit, changes)
    decreases |changes|
  {
    hide ProcessAll, CountsOf, Total, Leaked, FitsU64;
    if changes != [] {
      SameBound(limit, changes[..|changes| - 1]);
      var r := ProcessAll(EMPTY_DB, limit, changes);
      if r.Some? { TotalIsCounts(r.value.core.ops); }
    }
  }

  /** After any mix of additions and reorganisations every persisted counter is what the log
      says: the number of accepted operations of its kind, or the sum of their fees; only the
      mints count the premints that were rolled back as well. */
  lemma CountersAreTheLog(limit: Limit, changes: seq<ChainChange>)
    requires ValidRun(limit, changes) && NeverOverflows(limit, changes)
    ensures ProcessAll(EMPTY_DB, limit, changes).Some?
    ensures var db := ProcessAll(EMPTY_DB, limit, changes).value;
            var ops, at, s := db.core.ops, db.core.ops.Keys, db.stats;
            && s.deployments == |Deployments(ops, at)|
            && s.mints == |Mints(ops, at)| + Preminted(ops, Ascending(Deployments(ops, at))) + Leaked(limit, changes)
            && s.transfers == |Transfers(ops, at)|
            && s.listings == |Listings(ops, at)|
            && s.sends == |Sends(ops, at)|
            && s.securityFees == FeesPaid(ops, Ascending(Accepted(ops, at)))
            && s.royaltyFees == RoyaltiesPaid(ops, Ascending(Deployments(ops, at) + Mints(ops, at)))
  {
    hide ValidRun, NeverOverflows, NeverSaturates, ProcessAll, Total, Leaked, Deployments, Mints, Transfers, Listings, Sends, Accepted, Preminted,
      FeesPaid, RoyaltiesPaid, Ascending;
    SameBound(limit, changes);
    CountersConserve(limit, changes);
    TotalIsCounts(ProcessAll(EMPTY_DB, limit, changes).value.core.ops);
  }
}
