/** The persisted counters over whole runs of chain changes. */
module ChainCounters {
  import opened Model
  import opened Ledger
  import opened Rollback
  import opened ReorgIsReplay
  import opened Residues
  import opened Counters
  import opened Score
  import opened Chain
  import opened ChainReplay
  import opened ChainTheorem
  import opened Conservation

  function WithLeak(s: Stats, leak: nat): Stats {
    s.(mints := s.mints + leak)
  }

  /** The counters are the fold over the log, with `leak` premints too many. */
  ghost predicate Tracked(db: Db, leak: nat) {
    db.stats == WithLeak(Total(db.core.ops), leak)
  }

  // ---------------------------------------------------------------- additions

  /** The counters an addition reports are what the log gained. */
  ghost predicate Reports(before: Core, after: Core, diff: Stats) {
    Total(after.ops) == Plus(Total(before.ops), diff)
  }

  lemma AddReports(db: Db, limit: Limit, last: nat, ms: seq<Mergeset>, m: Mergeset)
    requires Canonical(db, limit, ms) && ValidChain(limit, ms + [m]) && m.blueScore >= last
    ensures AddMergeset(db, limit, last, m).Some?
    ensures var (after, diff) := AddMergeset(db, limit, last, m).value;
            FitsU64(Total(after.core.ops)) ==> Reports(db.core, after.core, diff)
  {
    hide Wrapped, ValidChain, Run, ProcessOps, Incoming, BlockOps, ValidHistory, Total, Plus, ResidueOk;
    NewTxIds(limit, ms, m);
    AllIncoming(db.core.opScores, limit, m, |m.ops|);
    assert m.ops[..|m.ops|] == m.ops && BlockOps(limit, m)[..|m.ops|] == BlockOps(limit, m) by { BlockLength(limit, m); }
    AdditionBalances(OpsOf(limit, ms), db.residue, BlockOps(limit, m));
    NewKey(limit, ms, m);
    var p := ProcessOps(Processed(db.core, db.residue, ZERO), BlockOps(limit, m)).value;
    PartFits(Total(db.core.ops), p.diff, Total(p.core.ops));
  }

  lemma PartFits(a: Stats, b: Stats, whole: Stats)
    requires whole == Plus(a, b)
    ensures FitsU64(whole) ==> Wrapped(b) == b
  {
    hide Wrapped;
    WrappedSum(b, ZERO);
  }

  lemma SumFits(a: Stats, b: Stats, whole: Stats, leak: nat)
    requires whole == Plus(a, b) && FitsU64(WithLeak(whole, leak))
    ensures FitsU64(WithLeak(a, leak)) && FitsU64(b)
    ensures Add(WithLeak(a, leak), b) == WithLeak(whole, leak)
  {
  }

  lemma {:induction false} AdditionsReport(db: Db, limit: Limit, last: nat, ms: seq<Mergeset>, more: seq<Mergeset>)
    requires Canonical(db, limit, ms) && ValidChain(limit, ms + more)
    requires forall i :: 0 <= i < |more| ==> more[i].blueScore >= last
    ensures ProcessAdditions(db, limit, last, more).Some?
    ensures var (after, diff) := ProcessAdditions(db, limit, last, more).value;
            FitsU64(Total(after.core.ops)) ==> Reports(db.core, after.core, diff)
    decreases |more|
  {
    hide ValidChain, Canonical, AddMergeset, Total, Plus, Add, FitsU64;
    if more == [] {
      PlusAssoc(Total(db.core.ops), ZERO, ZERO);
    } else {
      var n := |more| - 1;
      assert (ms + more)[..|ms| + n] == ms + more[..n];
      PrefixChainIsValid(limit, ms + more, |ms| + n);
      AdditionsReport(db, limit, last, ms, more[..n]);
      AdditionsAreCanonical(db, limit, last, ms, more[..n]);
      assert ms + more == ms + more[..n] + [more[n]];
      var (before, diff) := ProcessAdditions(db, limit, last, more[..n]).value;
      AddReports(before, limit, last, ms + more[..n], more[n]);
      var (after, one) := AddMergeset(before, limit, last, more[n]).value;
      if FitsU64(Total(after.core.ops)) {
        SumsReport(Total(db.core.ops), diff, Total(before.core.ops), one, Total(after.core.ops));
      }
    }
  }

  lemma SumsReport(start: Stats, diff: Stats, middle: Stats, one: Stats, end: Stats)
    requires end == Plus(middle, one) && FitsU64(end)
    ensures FitsU64(middle)
    ensures middle == Plus(start, diff) ==> end == Plus(start, Add(diff, one))
  {
  }

  lemma ExtendTracks(db: Db, limit: Limit, ms: seq<Mergeset>, more: seq<Mergeset>, leak: nat)
    requires Canonical(db, limit, ms) && ValidChain(limit, ms + NewsFor(ms, more)) && Tracked(db, leak)
    ensures Extend(db, limit, more).Some?
    ensures var after := Extend(db, limit, more).value;
            FitsU64(WithLeak(Total(after.core.ops), leak)) ==> Tracked(after, leak)
  {
    hide Canonical, ProcessAdditions, ValidChain, Total, Plus, Add, BlocksOf;
    if more != [] {
      assert db.blocks == BlocksOf(ms) by { CanonicalBlocks(db, limit, ms); }
      var last := LastBlueScore(db.blocks);
      OnlyNewsCount(db, limit, last, more);
      NewsAreHigh(db.blocks, last, more);
      AdditionsReport(db, limit, last, ms, NewsFor(ms, more));
      AdditionsKeepStats(db, limit, last, more);
      var (after, diff) := ProcessAdditions(db, limit, last, more).value;
      if FitsU64(WithLeak(Total(after.core.ops), leak)) {
        SumFits(Total(db.core.ops), diff, Total(after.core.ops), leak);
      }
    }
  }

  lemma {:induction false} AdditionsKeepStats(db: Db, limit: Limit, last: nat, more: seq<Mergeset>)
    ensures var r := ProcessAdditions(db, limit, last, more); r.Some? ==> r.value.0.stats == db.stats
  {
    if more != [] {
      AdditionsKeepStats(db, limit, last, more[..|more| - 1]);
    }
  }

  // ---------------------------------------------------------------- removals

  /** The premints a reorganisation takes out without taking them off the counter. */
  function LeakOf(db: Db, limit: Limit, change: ChainChange): nat {
    var (_, least) := Identify(db.blocks, db.blockScores, change.removed);
    match RollbackScore(least, change.forced)
    case None => 0
    case Some(b) => PremintsAt(db.core.ops, Ascending(Scores(db.core.ops, Threshold(limit, b))))
  }

  lemma DifferenceFits(whole: Stats, rest: Stats, diff: Stats, leak: nat, more: nat)
    requires whole == WithLeak(Plus(rest, diff), more) && FitsU64(WithLeak(whole, leak))
    ensures Sub(WithLeak(whole, leak), Wrapped(diff)) == WithLeak(rest, leak + more)
  {
    hide Wrapped;
    WrappedSum(diff, ZERO);
  }

  lemma NothingTakenOff(s: Stats)
    ensures Sub(s, ZERO) == s
  {
  }

  lemma RemoveTracks(db: Db, limit: Limit, ms: seq<Mergeset>, change: ChainChange, leak: nat)
    requires Canonical(db, limit, ms) && (change.forced.Some? ==> Fits(limit, change.forced.value)) && Tracked(db, leak)
    requires FitsU64(db.stats)
    ensures Remove(db, limit, change).Some?
    ensures Tracked(Remove(db, limit, change).value, leak + LeakOf(db, limit, change))
  {
    hide ValidChain, Run, RemoveAbove, Fits, VipOk, SellersIndexed, Threshold, Total, Plus, Sub, PremintsAt, Identify, Ascending, Scores,
      Wrapped, FitsU64;
    RemoveIsCanonical(db, limit, ms, change);
    if change.removed == [] && change.forced.None? {
      assert Identify(db.blocks, db.blockScores, []).1.None? by { NothingIdentified(db.blocks, db.blockScores); }
    } else {
      ChainIsHistory(limit, ms);
      var (scores, least) := Identify(db.blocks, db.blockScores, change.removed);
      match RollbackScore(least, change.forced)
      case None =>
        NothingTakenOff(db.stats);
      case Some(b) =>
        var t := Threshold(limit, b);
        RollbackBalances(OpsOf(limit, ms), db.residue, t);
        var u := RemoveAbove(db.core, db.residue, t).value;
        DifferenceFits(Total(db.core.ops), Total(u.core.ops), u.diff, leak, LeakOf(db, limit, change));
    }
  }

  lemma NothingIdentified(blocks: set<BlockKey>, scores: map<Hash, u64>)
    ensures Identify(blocks, scores, []).1.None?
  {
  }

  // ---------------------------------------------------------------- whole runs

  /** All premints a run of changes rolled back. */
  function Leaked(limit: Limit, changes: seq<ChainChange>): nat {
    if changes == [] then 0
    else
      var before := changes[..|changes| - 1];
      Leaked(limit, before) +
      (match ProcessAll(EMPTY_DB, limit, before)
       case None => 0
       case Some(db) => LeakOf(db, limit, changes[|changes| - 1]))
  }

  /** No counter leaves 64 bits after any change of the run. */
  ghost predicate NeverSaturates(limit: Limit, changes: seq<ChainChange>) {
    changes != [] ==>
      && NeverSaturates(limit, changes[..|changes| - 1])
      && var r := ProcessAll(EMPTY_DB, limit, changes);
         r.Some? ==> FitsU64(WithLeak(Total(r.value.core.ops), Leaked(limit, changes)))
  }

  lemma ChangeTracks(db: Db, limit: Limit, ms: seq<Mergeset>, change: ChainChange, leak: nat)
    requires Canonical(db, limit, ms) && ValidChange(limit, ms, change) && Tracked(db, leak) && FitsU64(db.stats)
    ensures ProcessChange(db, limit, change).Some?
    ensures var after := ProcessChange(db, limit, change).value;
            FitsU64(WithLeak(Total(after.core.ops), leak + LeakOf(db, limit, change))) ==>
              Tracked(after, leak + LeakOf(db, limit, change))
  {
    hide Canonical, Remove, Extend, ValidChain, Fits, Tracked, LeakOf, Total, FitsU64;
    RemoveIsCanonical(db, limit, ms, change);
    RemoveTracks(db, limit, ms, change, leak);
    ExtendTracks(Remove(db, limit, change).value, limit, CutAt(ms, change.removed, change.forced), change.mergesets,
                 leak + LeakOf(db, limit, change));
  }

  lemma ChangeKeepsU64(db: Db, limit: Limit, change: ChainChange)
    requires FitsU64(db.stats)
    ensures var r := ProcessChange(db, limit, change); r.Some? ==> FitsU64(r.value.stats)
  {
    hide ProcessRemoval, ProcessAdditions, FitsU64, Add, Sub;
    SumFitsU64();
    DifferenceFitsU64();
    var removed := Remove(db, limit, change);
    if removed.Some? {
      RemovalKeepsStats(db, limit, change.removed, change.forced);
      AdditionsKeepStats(removed.value, limit, LastBlueScore(removed.value.blocks), change.mergesets);
    }
  }

  lemma RemovalKeepsStats(db: Db, limit: Limit, removed: seq<Hash>, forced: Option<u64>)
    ensures var r := ProcessRemoval(db, limit, removed, forced); r.Some? ==> r.value.0.stats == db.stats
  {
    hide RemoveAbove;
  }

  lemma DifferenceFitsU64()
    ensures forall a, b :: FitsU64(a) ==> FitsU64(Sub(a, b))
  {
  }

  /** The persisted counters are u64s, whatever the notifications. */
  lemma {:induction false} CountersAreU64(limit: Limit, changes: seq<ChainChange>)
    ensures var r := ProcessAll(EMPTY_DB, limit, changes); r.Some? ==> FitsU64(r.value.stats)
    decreases |changes|
  {
    hide ProcessChange, FitsU64;
    if changes == [] {
      assert FitsU64(ZERO) by { ZeroFits(); }
    } else {
      var before := changes[..|changes| - 1];
      CountersAreU64(limit, before);
      var r := ProcessAll(EMPTY_DB, limit, before);
      if r.Some? {
        ChangeKeepsU64(r.value, limit, changes[|changes| - 1]);
      }
    }
  }

  lemma ZeroFits()
    ensures FitsU64(ZERO)
  {
  }

  /** Over any mix of additions and reorganisations the persisted counters are the fold
      over the successful entries of the log; only `mints` is too high, by exactly the
      premints of the deployments that were ever rolled back. */
  lemma {:induction false} CountersConserve(limit: Limit, changes: seq<ChainChange>)
    requires ValidRun(limit, changes) && NeverSaturates(limit, changes)
    ensures ProcessAll(EMPTY_DB, limit, changes).Some?
    ensures var db := ProcessAll(EMPTY_DB, limit, changes).value;
            db.stats == WithLeak(Total(db.core.ops), Leaked(limit, changes))
    decreases |changes|
  {
    hide Canonical, ValidChange, ProcessChange, Total, FitsU64, LeakOf, Survivors;
    RunIsCanonical(limit, changes);
    if changes == [] {
      EmptyTotal();
    } else {
      var before := changes[..|changes| - 1];
      CountersConserve(limit, before);
      RunIsCanonical(limit, before);
      CountersAreU64(limit, before);
      ChangeTracks(ProcessAll(EMPTY_DB, limit, before).value, limit, ChainAfter(before), changes[|changes| - 1], Leaked(limit, before));
    }
  }

  lemma EmptyTotal()
    ensures Total(map[]) == ZERO
  {
    assert Ascending({}) == [];
  }
}
