/** The append-only tables: dropping the rows at or above a threshold gives what the
    operations below it had written. */
module Filtering {
  import opened Model
  import opened Ledger
  import opened Invariants
  import opened Preservation
  import opened Steps

  /** The operations of a history below the threshold. */
  function Below(h: seq<ContextOp>, threshold: nat): (p: seq<ContextOp>)
    ensures |p| <= |h| && p == h[..|p|]
    ensures p != [] ==> p[|p| - 1].score < threshold
    decreases |h|
  {
    if h == [] || h[|h| - 1].score < threshold then h else Below(h[..|h| - 1], threshold)
  }

  lemma {:induction false} BelowIsFilter(h: seq<ContextOp>, threshold: nat)
    requires ValidHistory(h)
    ensures ValidHistory(Below(h, threshold))
    ensures forall i :: 0 <= i < |h| ==> (h[i].score < threshold <==> i < |Below(h, threshold)|)
    decreases |h|
  {
    if h != [] && h[|h| - 1].score >= threshold {
      PrefixIsValid(h);
      BelowIsFilter(h[..|h| - 1], threshold);
    }
  }

  /** `d` is `c` without the rows at or above the threshold. */
  ghost predicate Filtered(c: Core, d: Core, threshold: nat) {
    FilteredTables(c, d, threshold) && FilteredLog(c, d, threshold)
  }

  ghost predicate FilteredTables(c: Core, d: Core, threshold: nat) {
    && (forall k :: k in d.changes <==> k in c.changes && k.score < threshold)
    && (forall k :: k in d.mints <==> k in c.mints && k.score < threshold)
    && (forall k :: k in d.history <==> k in c.history && k.score < threshold)
    && (forall k :: k in d.history ==> d.history[k] == c.history[k])
    && (forall k :: k in d.vip <==> k in c.vip && k.score < threshold)
    && (forall t :: t in d.registry <==> t in c.registry && c.registry[t].score < threshold)
    && (forall t :: t in d.registry ==> d.registry[t] == c.registry[t])
    && (forall k :: k in d.deployments <==> k in c.deployments && k.score < threshold)
    && (forall k :: k in d.deployments ==> d.deployments[k] == c.deployments[k])
  }

  ghost predicate FilteredLog(c: Core, d: Core, threshold: nat) {
    && (forall s :: s in d.ops <==> s in c.ops && s < threshold)
    && (forall s :: s in d.ops ==> d.ops[s] == c.ops[s])
    && (forall x :: x in d.opScores <==> x in c.opScores && c.opScores[x] < threshold)
    && (forall x :: x in d.opScores ==> d.opScores[x] == c.opScores[x])
  }

  lemma BoundedIsFiltered(c: Core, bound: nat, threshold: nat)
    requires TablesOk(c) && Bounded(c, bound) && bound <= threshold
    ensures Filtered(c, c, threshold)
  {
    HistoryIsBounded(c, threshold);
  }

  lemma FilteredRows(c: Core, d: Core, e: Core, threshold: nat, s: nat)
    requires FilteredTables(c, e, threshold) && AddsOnly(c, d, s) && s >= threshold
    ensures FilteredTables(d, e, threshold)
  {
  }

  lemma FilteredLogRows(c: Core, d: Core, e: Core, threshold: nat, s: nat, o: CheckedOp, x: TxId)
    requires FilteredLog(c, e, threshold) && s >= threshold && s !in c.ops && x !in c.opScores
    requires d.ops == c.ops[s := o] && d.opScores == c.opScores[x := s]
    ensures FilteredLog(d, e, threshold)
  {
  }

  /** What one more operation of a valid history does to the ledger. */
  ghost predicate OneStep(c: Core, d: Core, x: ContextOp) {
    && Good(c, x.score) && ValidOp(x.op) && x.op.common.txId !in c.opScores
    && Apply(c, x).Stepped? && d == Apply(c, x).core
    && Good(d, x.score + 1)
    && AddsOnly(c, d, x.score)
    && d.opScores == c.opScores[x.op.common.txId := x.score]
    && d.ops == c.ops[x.score := Apply(c, x).logged]
  }

  lemma RunStep(h: seq<ContextOp>)
    requires h != [] && ValidHistory(h)
    ensures OneStep(Run(h[..|h| - 1]), Run(h), h[|h| - 1])
  {
    hide Good, AddsOnly, EffectOf, LogsExactly, ValidHistory, ValidOp, RegistryOk;
    var prefix, x := h[..|h| - 1], h[|h| - 1];
    var c := Run(prefix);
    PrefixIsValid(h);
    RunIsGood(prefix);
    RunIsGood(h);
    WiderBound(c, NextScore(prefix), x.score);
    NewTxId(c, h);
    RegistryOfGood(c, x.score);
    EffectAddsOnly(c, x);
    RecordedKeepsTxId(c, x);
    var e := EffectOf(c, x).core;
    AddsOnlyByTables(c, e, c, Run(h), x.score);
  }

  lemma FilteredStep(c: Core, d: Core, e: Core, x: ContextOp, threshold: nat)
    requires OneStep(c, d, x) && Filtered(c, e, threshold) && x.score >= threshold
    ensures Filtered(d, e, threshold)
  {
    hide Good, AddsOnly, FilteredTables, FilteredLog, Apply;
    assert x.score !in c.ops by { BoundedOfGood(c, x.score); }
    FilteredRows(c, d, e, threshold, x.score);
    FilteredLogRows(c, d, e, threshold, x.score, Apply(c, x).logged, x.op.common.txId);
  }

  lemma BoundedOfGood(c: Core, bound: nat)
    requires Good(c, bound)
    ensures Bounded(c, bound) && TablesOk(c)
  {
    hide TablesOk, SupplyOk, PremintsDone, Bounded;
  }

  lemma {:induction false} RunIsFiltered(h: seq<ContextOp>, threshold: nat)
    requires ValidHistory(h)
    ensures Filtered(Run(h), Run(Below(h, threshold)), threshold)
    decreases |h|
  {
    hide Filtered, ValidHistory, OneStep, Good, TablesOk, Bounded, LogsExactly;
    if h == [] || h[|h| - 1].score < threshold {
      RunIsGood(h);
      BoundedOfGood(Run(h), NextScore(h));
      BoundedIsFiltered(Run(h), NextScore(h), threshold);
    } else {
      PrefixIsValid(h);
      RunIsFiltered(h[..|h| - 1], threshold);
      RunStep(h);
      FilteredStep(Run(h[..|h| - 1]), Run(h), Run(Below(h, threshold)), h[|h| - 1], threshold);
    }
  }
}
