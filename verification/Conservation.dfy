/** The persisted counters against the log: what additions and rollbacks make of
    them, and exactly when the mint counter is right. */
module Conservation {
  import opened Model
  import opened Ledger
  import opened Invariants
  import opened Steps
  import opened Filtering
  import opened Rollback
  import opened MarketReorg
  import opened Reorg
  import opened ReorgIsReplay
  import opened Counters
  import opened Chain

  // ---------------------------------------------------------------- folding the log

  /** What a logged operation counts for when it is rolled back. */
  function Uncounted(o: CheckedOp): Stats {
    if o.error.None? then Removed(o.op) else ZERO
  }

  function Tally(ops: map<nat, CheckedOp>, scores: seq<nat>): Stats {
    if scores == [] then ZERO
    else
      var n := |scores| - 1;
      Plus(Tally(ops, scores[..n]), CountedAt(ops, scores[n]))
  }

  function RemovedTally(ops: map<nat, CheckedOp>, scores: seq<nat>): Stats {
    if scores == [] then ZERO
    else
      var n := |scores| - 1;
      Plus(RemovedTally(ops, scores[..n]), UncountedAt(ops, scores[n]))
  }

  /** The fold over the successful entries of the log. */
  function Total(ops: map<nat, CheckedOp>): Stats {
    Tally(ops, Ascending(ops.Keys))
  }

  lemma PlusAssoc(a: Stats, b: Stats, c: Stats)
    ensures Plus(Plus(a, b), c) == Plus(a, Plus(b, c))
    ensures Plus(a, ZERO) == a
  {
  }

  function CountedAt(ops: map<nat, CheckedOp>, s: nat): Stats {
    if s in ops then Counted(ops[s]) else ZERO
  }

  function UncountedAt(ops: map<nat, CheckedOp>, s: nat): Stats {
    if s in ops then Uncounted(ops[s]) else ZERO
  }

  function PremintAt(ops: map<nat, CheckedOp>, s: nat): nat {
    if s in ops && ops[s].error.None? && ops[s].op.info.DeployOp? then ops[s].op.info.deploy.premint else 0
  }

  lemma {:induction false} TallyJoins(ops: map<nat, CheckedOp>, a: seq<nat>, b: seq<nat>)
    ensures Tally(ops, a + b) == Plus(Tally(ops, a), Tally(ops, b))
  {
    hide CountedAt, Plus;
    if b == [] {
      assert a + b == a;
      PlusAssoc(Tally(ops, a), ZERO, ZERO);
    } else {
      var n := |b| - 1;
      TallyJoins(ops, a, b[..n]);
      assert (a + b)[..|a + b| - 1] == a + b[..n];
      PlusAssoc(Tally(ops, a), Tally(ops, b[..n]), CountedAt(ops, b[n]));
    }
  }

  lemma {:induction false} TallyAgrees(ops: map<nat, CheckedOp>, ops': map<nat, CheckedOp>, scores: seq<nat>)
    requires forall i :: 0 <= i < |scores| ==> scores[i] in ops && scores[i] in ops' && ops[scores[i]] == ops'[scores[i]]
    ensures Tally(ops, scores) == Tally(ops', scores)
  {
    hide Counted, Plus;
    if scores != [] {
      TallyAgrees(ops, ops', scores[..|scores| - 1]);
    }
  }

  function From(s: set<nat>, threshold: nat): set<nat> {
    set x | x in s && x >= threshold
  }

  function UpTo(s: set<nat>, threshold: nat): set<nat> {
    set x | x in s && x < threshold
  }

  lemma SplitOff(s: set<nat>, m: nat, threshold: nat)
    requires m in s && forall x :: x in s ==> x <= m
    ensures m >= threshold ==> UpTo(s - {m}, threshold) == UpTo(s, threshold) && From(s, threshold) == From(s - {m}, threshold) + {m}
    ensures m < threshold ==>
              From(s, threshold) == {} == From(s - {m}, threshold) && UpTo(s, threshold) == UpTo(s - {m}, threshold) + {m}
    ensures (forall x :: x in UpTo(s - {m}, threshold) || x in From(s - {m}, threshold) ==> x < m)
    ensures s - {m} + {m} == s
  {
  }

  lemma NothingToScan(threshold: nat)
    ensures UpTo({}, threshold) == {} == From({}, threshold) && Ascending({}) == []
  {
  }

  lemma JoinLast(a: seq<nat>, b: seq<nat>, m: nat)
    ensures a + b + [m] == a + (b + [m])
    ensures b == [] ==> a + b + [m] == a + [m] + []
  {
  }

  lemma {:induction false} AscendingSplits(s: set<nat>, threshold: nat)
    ensures Ascending(s) == Ascending(UpTo(s, threshold)) + Ascending(From(s, threshold))
    decreases |s|
  {
    hide Ascending, UpTo, From;
    NothingToScan(threshold);
    if s != {} {
      var m := MaxOf(s);
      AscendingSplits(s - {m}, threshold);
      SplitOff(s, m, threshold);
      AscendingAppends(s - {m}, m);
      var low, high := UpTo(s - {m}, threshold), From(s - {m}, threshold);
      AscendingAppends(if m >= threshold then high else low, m);
      JoinLast(Ascending(low), Ascending(high), m);
    }
  }

  // ---------------------------------------------------------------- rolling back

  /** The premints of the accepted deployments at `scores`. */
  function PremintsAt(ops: map<nat, CheckedOp>, scores: seq<nat>): nat {
    if scores == [] then 0
    else
      var n := |scores| - 1;
      PremintsAt(ops, scores[..n]) + PremintAt(ops, scores[n])
  }

  lemma OneButPremint(ops: map<nat, CheckedOp>, s: nat)
    ensures CountedAt(ops, s) == UncountedAt(ops, s).(mints := UncountedAt(ops, s).mints + PremintAt(ops, s))
  {
  }

  lemma PremintsAdd(a: Stats, p: nat, b: Stats, q: nat)
    ensures Plus(a.(mints := a.mints + p), b.(mints := b.mints + q)) == Plus(a, b).(mints := Plus(a, b).mints + (p + q))
  {
  }

  /** Rolling back takes off what was counted, except for the premints. */
  lemma {:induction false} RemovedButPremints(ops: map<nat, CheckedOp>, scores: seq<nat>)
    ensures Tally(ops, scores)
              == RemovedTally(ops, scores).(mints := RemovedTally(ops, scores).mints + PremintsAt(ops, scores))
  {
    hide CountedAt, UncountedAt, PremintAt, Plus;
    if scores != [] {
      var n := |scores| - 1;
      RemovedButPremints(ops, scores[..n]);
      OneButPremint(ops, scores[n]);
      PremintsAdd(RemovedTally(ops, scores[..n]), PremintsAt(ops, scores[..n]), UncountedAt(ops, scores[n]), PremintAt(ops, scores[n]));
    }
  }

  lemma RemoveOpDiff(u: Undone, s: nat)
    requires s in u.core.ops
    ensures RemoveOp(u, s).diff == Plus(u.diff, UncountedAt(u.core.ops, s))
  {
    hide Removed, Plus;
    PlusAssoc(u.diff, ZERO, ZERO);
  }

  lemma {:induction false} DiffIsRemovedTally(u: Undone, scores: seq<nat>)
    requires Removable(u.core.ops, scores) && u.diff == ZERO
    ensures RemoveOps(u, scores).diff == RemovedTally(u.core.ops, scores)
  {
    hide Removable, RemoveOp, Plus, UncountedAt;
    if scores != [] {
      var n := |scores| - 1;
      LastIsLeft(u.core.ops, scores);
      DiffIsRemovedTally(u, scores[..n]);
      RemoveOpDiff(RemoveOps(u, scores[..n]), scores[n]);
      SameCount(u.core.ops, Without(u.core.ops, scores[..n]), scores[n]);
    }
  }

  lemma SameCount(ops: map<nat, CheckedOp>, ops': map<nat, CheckedOp>, s: nat)
    requires s in ops && s in ops' && ops[s] == ops'[s]
    ensures UncountedAt(ops, s) == UncountedAt(ops', s)
  {
  }

  /** Cutting a log at a threshold splits its fold in two. */
  lemma TotalSplits(ops: map<nat, CheckedOp>, kept: map<nat, CheckedOp>, threshold: nat)
    requires forall s :: s in kept <==> s in ops && s < threshold
    requires forall s :: s in kept ==> kept[s] == ops[s]
    ensures var scores := Ascending(Scores(ops, threshold));
            var sum := Plus(Total(kept), RemovedTally(ops, scores));
            Total(ops) == sum.(mints := sum.mints + PremintsAt(ops, scores))
  {
    hide Ascending, Scores, UpTo, From, Tally, RemovedTally, PremintsAt, Plus;
    SplitKeys(ops, kept, threshold);
    AscendingSplits(ops.Keys, threshold);
    SplitFold(ops, kept, Ascending(kept.Keys), Ascending(Scores(ops, threshold)));
  }

  lemma SplitKeys(ops: map<nat, CheckedOp>, kept: map<nat, CheckedOp>, threshold: nat)
    requires forall s :: s in kept <==> s in ops && s < threshold
    requires forall s :: s in kept ==> kept[s] == ops[s]
    ensures UpTo(ops.Keys, threshold) == kept.Keys && From(ops.Keys, threshold) == Scores(ops, threshold)
  {
  }

  lemma SplitFold(ops: map<nat, CheckedOp>, kept: map<nat, CheckedOp>, low: seq<nat>, high: seq<nat>)
    requires forall i :: 0 <= i < |low| ==> low[i] in ops && low[i] in kept && ops[low[i]] == kept[low[i]]
    ensures var sum := Plus(Tally(kept, low), RemovedTally(ops, high));
            Tally(ops, low + high) == sum.(mints := sum.mints + PremintsAt(ops, high))
  {
    hide Tally, RemovedTally, PremintsAt, Plus;
    TallyJoins(ops, low, high);
    TallyAgrees(ops, kept, low);
    RemovedButPremints(ops, high);
    PremintsAdd(Tally(kept, low), 0, RemovedTally(ops, high), PremintsAt(ops, high));
  }

  /** The fold before a rollback is the fold after it plus what the rollback reports,
      plus the premints of the deployments it removed. */
  lemma RollbackBalances(h: seq<ContextOp>, r: Residue, threshold: nat)
    requires ValidHistory(h) && VipOk(Run(h).vip, r.discounts)
    ensures RemoveAbove(Run(h), r, threshold).Some?
    ensures var u := RemoveAbove(Run(h), r, threshold).value;
            var leaked := PremintsAt(Run(h).ops, Ascending(Scores(Run(h).ops, threshold)));
            var sum := Plus(Total(u.core.ops), u.diff);
            Total(Run(h).ops) == sum.(mints := sum.mints + leaked)
  {
    hide ValidHistory, VipOk, Run, Ascending, Scores, FilteredTables, RemoveOps, Removable, RemovedTally, PremintsAt, RemoveAbove, Plus, Total, Below;
    var c, t := Run(h), Run(Below(h, threshold));
    RollbackIsReplay(h, r, threshold);
    RunIsFiltered(h, threshold);
    TotalSplits(c.ops, t.ops, threshold);
    DiffOfRemoval(c, r, threshold);
    DiffIsRemovedTally(Undone(c, r, ZERO), Ascending(Scores(c.ops, threshold)));
  }

  lemma DiffOfRemoval(c: Core, r: Residue, threshold: nat)
    requires RemoveAbove(c, r, threshold).Some?
    ensures Removable(c.ops, Ascending(Scores(c.ops, threshold)))
    ensures RemoveAbove(c, r, threshold).value.diff == RemoveOps(Undone(c, r, ZERO), Ascending(Scores(c.ops, threshold))).diff
  {
    hide Ascending, Scores, Removable, RemoveOps, RemoveListings, RemoveDiscounts, RemoveDeployments, ReconstructOwnership;
    PrefixRemovable(c.ops, threshold, |Ascending(Scores(c.ops, threshold))|);
    var scores := Ascending(Scores(c.ops, threshold));
    assert scores[..|scores|] == scores;
  }

  lemma KeysScan(ops: map<nat, CheckedOp>)
    ensures forall i :: 0 <= i < |Ascending(ops.Keys)| ==> Ascending(ops.Keys)[i] in ops
  {
    assert forall i :: 0 <= i < |Ascending(ops.Keys)| ==> Ascending(ops.Keys)[i] in Ascending(ops.Keys);
  }

  // ---------------------------------------------------------------- the persisted counters

  /** All counters but `mints` agree. */
  predicate SixAgree(a: Stats, b: Stats) {
    a == b.(mints := a.mints)
  }

  /** After a rollback six counters are the fold over what is left, and the mint counter
      is if and only if no accepted deployment with premints was removed. */
  lemma RollbackConserves(h: seq<ContextOp>, r: Residue, threshold: nat, stats: Stats)
    requires ValidHistory(h) && VipOk(Run(h).vip, r.discounts)
    requires SixAgree(stats, Total(Run(h).ops))
    ensures RemoveAbove(Run(h), r, threshold).Some?
    ensures var u := RemoveAbove(Run(h), r, threshold).value;
            SixAgree(Sub(stats, u.diff), Total(u.core.ops))
    ensures var u := RemoveAbove(Run(h), r, threshold).value;
            stats.mints == Total(Run(h).ops).mints ==>
              (Sub(stats, u.diff).mints == Total(u.core.ops).mints
               <==> PremintsAt(Run(h).ops, Ascending(Scores(Run(h).ops, threshold))) == 0)
  {
    hide ValidHistory, VipOk, Run, RemoveAbove, Total, PremintsAt, Ascending, Scores;
    RollbackBalances(h, r, threshold);
  }

  /** Processing operations adds exactly the fold over what it logs. */
  lemma {:induction false} AdditionBalances(h: seq<ContextOp>, r: Residue, xs: seq<ContextOp>)
    requires ValidHistory(h + xs)
    ensures ProcessOps(Processed(Run(h), r, ZERO), xs).Some?
    ensures var p := ProcessOps(Processed(Run(h), r, ZERO), xs).value;
            p.core == Run(h + xs) && Total(p.core.ops) == Plus(Total(Run(h).ops), p.diff)
    decreases |xs|
  {
    hide ValidHistory, OneStep, Apply, Total, Plus, Counted;
    if xs == [] {
      assert h + xs == h;
      PlusAssoc(Total(Run(h).ops), ZERO, ZERO);
    } else {
      var n := |xs| - 1;
      assert (h + xs)[..|h + xs| - 1] == h + xs[..n];
      PrefixIsValid(h + xs);
      AdditionBalances(h, r, xs[..n]);
      RunStep(h + xs);
      TotalOneMore(Run(h + xs[..n]), Run(h + xs), xs[n]);
      var p := ProcessOps(Processed(Run(h), r, ZERO), xs[..n]).value;
      PlusAssoc(Total(Run(h).ops), p.diff, Counted(Apply(p.core, xs[n]).logged));
    }
  }

  lemma TotalOneMore(c: Core, d: Core, x: ContextOp)
    requires OneStep(c, d, x)
    ensures Apply(c, x).Stepped? && d == Apply(c, x).core
    ensures Total(d.ops) == Plus(Total(c.ops), Counted(Apply(c, x).logged))
  {
    hide Good, AddsOnly, Apply, Ascending, Plus, Counted, TablesOk, Bounded;
    BoundedOfGood(c, x.score);
    BoundedOps(c, x.score);
    assert d.ops.Keys == c.ops.Keys + {x.score};
    AscendingAppends(c.ops.Keys, x.score);
    var scores := Ascending(c.ops.Keys);
    KeysScan(c.ops);
    TallyAgrees(c.ops, d.ops, scores);
    assert (scores + [x.score])[..|scores|] == scores;
  }
}
