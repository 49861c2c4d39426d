/** The view of the ids that can still be minted (nexus/src/nft_view.rs,
    `krc721_available_token_id_ranges`). */
module FreeRanges {
  import opened Model
  import opened Ledger
  import opened Invariants
  import opened Steps
  import opened Filtering
  import opened Residues
  import opened Rollback
  import opened Score
  import opened Chain
  import opened ChainReplay
  import opened ChainTheorem
  import opened Protocol
  import opened Guarantees
  import opened Store
  import TokenIds

  datatype AvailableRanges = FullyMinted | Available(ranges: seq<Range>)

  /** The scan stops before the greatest index. */
  function Indices(a: TokenIds.Alloc, t: Tick): (s: set<nat>)
    ensures forall i :: i in s ==> RangeKey(t, i) in a.ranges
  {
    set k | k in a.ranges && k.tick == t && k.index < U64_MAX :: k.index
  }

  function StoredRanges(a: TokenIds.Alloc, t: Tick): seq<Range> {
    var indices := Ascending(Indices(a, t));
    assert forall i :: 0 <= i < |indices| ==> indices[i] in indices;
    seq(|indices|, i requires 0 <= i < |indices| => a.ranges[RangeKey(t, indices[i])])
  }

  /** `None` for a tick without a deployment. */
  function Report(c: Core, t: Tick): Option<AvailableRanges> {
    if t !in c.registry then None else
    var d := c.registry[t].info;
    if MintSeqs(c.mints, t) == {} then
      if d.max == 0 then Some(FullyMinted) else Some(Available([Range(1, d.max)]))
    else if LastMint(c.mints, t) == d.max then Some(FullyMinted)
    else
      var ranges := StoredRanges(c.alloc, t);
      if ranges == [] && d.premint < d.max then Some(Available([Range(d.premint + 1, d.max - d.premint)]))
      else Some(Available(ranges))
  }

  method AvailableTokenIdRanges(tx: WriteTransaction, tick: Tick) returns (r: Option<AvailableRanges>)
    ensures r == Report(tx.Core(), tick)
  {
    hide LastMint, Ascending;
    if tick !in tx.collectionRegistry {
      return None;
    }
    var info := tx.collectionRegistry[tick].info;
    if MintSeqs(tx.mintHistory, tick) == {} {
      if info.max == 0 {
        return Some(FullyMinted);
      }
      return Some(Available([Range(1, info.max)]));
    }
    if LastMint(tx.mintHistory, tick) == info.max {
      return Some(FullyMinted);
    }
    var indices := Ascending(Indices(tx.Alloc(), tick));
    assert forall i :: 0 <= i < |indices| ==> indices[i] in indices;
    var ranges := [];
    for i := 0 to |indices|
      invariant ranges == StoredRanges(tx.Alloc(), tick)[..i]
    {
      ranges := ranges + [tx.availableRanges[RangeKey(tick, indices[i])]];
    }
    assert ranges == StoredRanges(tx.Alloc(), tick);
    if ranges == [] && info.premint < info.max {
      r := Some(Available([Range(info.premint + 1, info.max - info.premint)]));
    } else {
      r := Some(Available(ranges));
    }
  }

  // ---------------------------------------------------------------- exactly the un-minted ids

  ghost predicate Unminted(c: Core, t: Tick, id: nat)
    requires t in c.registry
  {
    1 <= id <= c.registry[t].info.max && !IsMinted(c.mints, TokenKey(t, id))
  }

  ghost predicate CoveredBy(ranges: seq<Range>, id: nat) {
    exists i :: 0 <= i < |ranges| && TokenIds.Covers(ranges[i], id)
  }

  /** The report says "fully minted" when every id is, and otherwise covers each un-minted
      id once and no other id. */
  ghost predicate Exact(c: Core, t: Tick, report: AvailableRanges)
    requires t in c.registry
  {
    match report
    case FullyMinted => forall id: nat :: !Unminted(c, t, id)
    case Available(ranges) =>
      && (forall id: nat :: CoveredBy(ranges, id) <==> Unminted(c, t, id))
      && (forall i, j, id: nat :: 0 <= i < |ranges| && 0 <= j < |ranges| && TokenIds.Covers(ranges[i], id) && TokenIds.Covers(ranges[j], id) ==> i == j)
      && (exists id: nat :: Unminted(c, t, id))
  }

  lemma OneRange(c: Core, t: Tick, start: nat, size: nat)
    requires t in c.registry && size > 0
    requires forall id: nat :: Unminted(c, t, id) <==> start <= id < start + size
    ensures Exact(c, t, Available([Range(start, size)]))
  {
    var r := Range(start, size);
    forall id: nat ensures CoveredBy([r], id) <==> start <= id < start + size {
      if start <= id < start + size {
        assert TokenIds.Covers([r][0], id);
      }
    }
    assert Unminted(c, t, start);
  }

  /** The un-minted ids of a collection whose premints are done: above the premint and not
      drawn. */
  lemma UnmintedIds(c: Core, t: Tick, id: nat)
    requires t in c.registry && c.registry[t].info.premint <= LastMint(c.mints, t)
    requires CollectionOk(c.mints, c.alloc, t, c.registry[t].info.premint, c.registry[t].info.max)
    ensures Unminted(c, t, id) <==>
              c.registry[t].info.premint < id <= c.registry[t].info.max && TokenKey(t, id) !in c.alloc.meta
  {
    hide LastMint, TokenIds.WellFormed, TokenIds.Generated;
    var d := c.registry[t].info;
    if 1 <= id <= d.premint {
      assert id in MintSeqs(c.mints, t);
      var k :| k in c.mints && k.token.tick == t && k.seqNo == id;
      assert IsMinted(c.mints, TokenKey(t, id));
    }
    if TokenKey(t, id) in c.alloc.meta {
      assert IsMinted(c.mints, TokenKey(t, id));
    }
    if k :| k in c.mints && k.token == TokenKey(t, id) {
      assert k.token in c.alloc.meta || id <= d.premint;
    }
  }

  lemma NothingDrawn(c: Core, t: Tick)
    requires TokenIds.Untouched(c.alloc, t)
    ensures TokenIds.Generated(c.alloc, t) == {} && Indices(c.alloc, t) == {} && StoredRanges(c.alloc, t) == []
  {
    assert Ascending({}) == [];
  }

  function FirstNumbers(n: nat): (s: set<nat>)
    ensures |s| == n && forall i: nat :: i in s <==> i < n
  {
    if n == 0 then {} else FirstNumbers(n - 1) + {n - 1}
  }

  lemma {:induction false} AtLeast(q: seq<nat>, i: nat)
    requires i < |q| && forall j, k :: 0 <= j < k < |q| ==> q[j] < q[k]
    ensures q[i] >= i
  {
    if i > 0 {
      AtLeast(q, i - 1);
    }
  }

  lemma {:induction false} AtMost(q: seq<nat>, i: nat)
    requires i < |q| && (forall j, k :: 0 <= j < k < |q| ==> q[j] < q[k]) && q[|q| - 1] < |q|
    ensures q[i] <= i
    decreases |q| - i
  {
    if i < |q| - 1 {
      AtMost(q, i + 1);
    }
  }

  lemma ScanOfFirst(n: nat)
    ensures |Ascending(FirstNumbers(n))| == n && forall i :: 0 <= i < n ==> Ascending(FirstNumbers(n))[i] == i
  {
    var q := Ascending(FirstNumbers(n));
    if n > 0 {
      assert q[n - 1] in q;
    }
    forall i | 0 <= i < n ensures q[i] == i {
      AtLeast(q, i);
      AtMost(q, i);
    }
  }

  lemma ScanIsDense(a: TokenIds.Alloc, t: Tick)
    requires TokenIds.Dense(a, t) && TokenIds.Length(a, t) <= U64_MAX
    ensures |StoredRanges(a, t)| == TokenIds.Length(a, t)
    ensures forall i :: 0 <= i < TokenIds.Length(a, t) ==> RangeKey(t, i) in a.ranges && StoredRanges(a, t)[i] == a.ranges[RangeKey(t, i)]
  {
    hide Ascending, Indices;
    IndicesAreDense(a, t);
    ScanOfFirst(TokenIds.Length(a, t));
  }

  lemma IndicesAreDense(a: TokenIds.Alloc, t: Tick)
    requires TokenIds.Dense(a, t) && TokenIds.Length(a, t) <= U64_MAX
    ensures Indices(a, t) == FirstNumbers(TokenIds.Length(a, t))
  {
    forall i | 0 <= i < TokenIds.Length(a, t) ensures i in Indices(a, t) {
      assert RangeKey(t, i) in a.ranges;
    }
  }

  /** Ranges are not empty and do not overlap, so there are no more of them than ids. */
  lemma {:induction false} RangesFit(a: TokenIds.Alloc, t: Tick, premint: nat, max: nat, n: nat) returns (starts: set<nat>)
    requires TokenIds.Partitioned(a, t, premint, max) && n <= TokenIds.Length(a, t)
    ensures |starts| == n && starts <= TokenIds.Span(0, max)
    ensures forall s :: s in starts ==> exists i :: 0 <= i < n && RangeKey(t, i) in a.ranges && a.ranges[RangeKey(t, i)].start == s
  {
    if n == 0 {
      starts := {};
    } else {
      starts := RangesFit(a, t, premint, max, n - 1);
      assert RangeKey(t, n - 1) in a.ranges;
      var r := a.ranges[RangeKey(t, n - 1)];
      assert TokenIds.Covers(r, r.start);
      assert TokenIds.Free(a, t, r.start);
      forall i: nat | i < n - 1 && RangeKey(t, i) in a.ranges ensures a.ranges[RangeKey(t, i)].start != r.start {
        assert TokenIds.Covers(a.ranges[RangeKey(t, i)], a.ranges[RangeKey(t, i)].start);
      }
      starts := starts + {r.start};
    }
  }

  /** A collection that was drawn from and is not finished still has ranges, and they
      hold exactly the un-minted ids. */
  lemma StoredAreExact(c: Core, t: Tick)
    requires t in c.registry && c.registry[t].info.premint <= LastMint(c.mints, t) < c.registry[t].info.max < U64_MAX
    requires CollectionOk(c.mints, c.alloc, t, c.registry[t].info.premint, c.registry[t].info.max)
    requires !TokenIds.Untouched(c.alloc, t)
    ensures StoredRanges(c.alloc, t) != [] && Exact(c, t, Available(StoredRanges(c.alloc, t)))
  {
    hide LastMint, Numbered, IdsOk, StoredRanges, Unminted, TokenIds.Disjoint;
    var d, a := c.registry[t].info, c.alloc;
    TokenIds.RoomByCount(a, t, d.premint, d.max);
    var n := TokenIds.Length(a, t);
    var starts := RangesFit(a, t, d.premint, d.max, n);
    TokenIds.SubsetSize(starts, TokenIds.Span(0, d.max));
    ScanIsDense(a, t);
    var ranges := StoredRanges(a, t);
    forall id: nat ensures CoveredBy(ranges, id) <==> Unminted(c, t, id) {
      UnmintedIds(c, t, id);
      CoveredIsFree(a, t, ranges, id);
    }
    NoOverlap(a, t, ranges);
    assert RangeKey(t, 0) in a.ranges;
    assert TokenIds.Covers(ranges[0], ranges[0].start);
    assert CoveredBy(ranges, ranges[0].start);
    assert Unminted(c, t, ranges[0].start);
  }

  lemma CoveredIsFree(a: TokenIds.Alloc, t: Tick, ranges: seq<Range>, id: nat)
    requires TokenIds.Dense(a, t) && |ranges| == TokenIds.Length(a, t)
    requires forall i :: 0 <= i < |ranges| ==> RangeKey(t, i) in a.ranges && ranges[i] == a.ranges[RangeKey(t, i)]
    ensures CoveredBy(ranges, id) <==> TokenIds.Free(a, t, id)
  {
    if TokenIds.Free(a, t, id) {
      var i: nat :| RangeKey(t, i) in a.ranges && TokenIds.Covers(a.ranges[RangeKey(t, i)], id);
      assert TokenIds.Covers(ranges[i], id);
    }
  }

  lemma NoOverlap(a: TokenIds.Alloc, t: Tick, ranges: seq<Range>)
    requires TokenIds.Disjoint(a, t)
    requires forall i :: 0 <= i < |ranges| ==> RangeKey(t, i) in a.ranges && ranges[i] == a.ranges[RangeKey(t, i)]
    ensures forall i, j, id: nat :: 0 <= i < |ranges| && 0 <= j < |ranges| && TokenIds.Covers(ranges[i], id) && TokenIds.Covers(ranges[j], id) ==> i == j
  {
    forall i, j, id: nat | 0 <= i < |ranges| && 0 <= j < |ranges| && TokenIds.Covers(ranges[i], id) && TokenIds.Covers(ranges[j], id) ensures i == j {
      assert RangeKey(t, i) in a.ranges && RangeKey(t, j) in a.ranges;
    }
  }

  lemma FullyMintedIsExact(c: Core, t: Tick)
    requires t in c.registry && c.registry[t].info.premint <= LastMint(c.mints, t) == c.registry[t].info.max
    requires CollectionOk(c.mints, c.alloc, t, c.registry[t].info.premint, c.registry[t].info.max)
    ensures Exact(c, t, FullyMinted)
  {
    hide LastMint, Numbered, IdsOk, Unminted, TokenIds.Disjoint;
    var d, a := c.registry[t].info, c.alloc;
    if d.premint < d.max {
      TokenIds.RoomByCount(a, t, d.premint, d.max);
    }
    TokenIds.GeneratedMembers(a, t);
    forall id: nat ensures !Unminted(c, t, id) {
      UnmintedIds(c, t, id);
      assert d.premint < id <= d.max ==> id in TokenIds.Span(d.premint, d.max);
    }
  }

  lemma FreshIsExact(c: Core, t: Tick)
    requires t in c.registry && c.registry[t].info.premint <= LastMint(c.mints, t) < c.registry[t].info.max
    requires CollectionOk(c.mints, c.alloc, t, c.registry[t].info.premint, c.registry[t].info.max)
    requires TokenIds.Untouched(c.alloc, t)
    ensures c.registry[t].info.premint == LastMint(c.mints, t)
    ensures var d := c.registry[t].info; Exact(c, t, Available([Range(d.premint + 1, d.max - d.premint)]))
  {
    hide LastMint, Numbered, IdsOk, Unminted;
    var d := c.registry[t].info;
    NothingDrawn(c, t);
    forall id: nat ensures Unminted(c, t, id) <==> d.premint + 1 <= id < d.premint + 1 + (d.max - d.premint) {
      UnmintedIds(c, t, id);
    }
    OneRange(c, t, d.premint + 1, d.max - d.premint);
  }

  lemma UnusedIsExact(c: Core, t: Tick)
    requires t in c.registry && c.registry[t].info.premint <= LastMint(c.mints, t) == 0 < c.registry[t].info.max
    requires CollectionOk(c.mints, c.alloc, t, c.registry[t].info.premint, c.registry[t].info.max)
    ensures Exact(c, t, Available([Range(1, c.registry[t].info.max)]))
  {
    hide LastMint, Numbered, IdsOk, Unminted, TokenIds.WellFormed;
    var d := c.registry[t].info;
    TokenIds.GeneratedMembers(c.alloc, t);
    assert TokenIds.Generated(c.alloc, t) == {};
    forall id: nat ensures Unminted(c, t, id) <==> 1 <= id < 1 + d.max {
      UnmintedIds(c, t, id);
    }
    OneRange(c, t, 1, d.max);
  }

  lemma ReportIsExact(c: Core, bound: nat, t: Tick)
    requires Good(c, bound) && t in c.registry && c.registry[t].info.max < U64_MAX
    ensures Report(c, t).Some? && Exact(c, t, Report(c, t).value)
  {
    hide Good, CollectionOk, LastMint, TablesOk, Exact, StoredRanges, TokenIds.Untouched;
    PartsForSupply(c, bound, t);
    var d := c.registry[t].info;
    assert LastMint(c.mints, t) <= d.max by { LastIsBounded(c, t); }
    assert MintSeqs(c.mints, t) == {} <==> LastMint(c.mints, t) == 0 by { NoMints(c, t); }
    if LastMint(c.mints, t) == d.max {
      FullyMintedIsExact(c, t);
    } else if LastMint(c.mints, t) == 0 {
      UnusedIsExact(c, t);
    } else if TokenIds.Untouched(c.alloc, t) {
      FreshIsExact(c, t);
      NothingDrawn(c, t);
    } else {
      StoredAreExact(c, t);
    }
  }

  lemma LastIsBounded(c: Core, t: Tick)
    requires t in c.registry && CollectionOk(c.mints, c.alloc, t, c.registry[t].info.premint, c.registry[t].info.max)
    ensures LastMint(c.mints, t) <= c.registry[t].info.max
  {
    hide LastMint, Numbered, IdsOk;
  }

  lemma NoMints(c: Core, t: Tick)
    requires t in c.registry && CollectionOk(c.mints, c.alloc, t, c.registry[t].info.premint, c.registry[t].info.max)
    ensures MintSeqs(c.mints, t) == {} <==> LastMint(c.mints, t) == 0
  {
    hide IdsOk, TokenIds.WellFormed;
    if MintSeqs(c.mints, t) != {} {
      var j :| j in MintSeqs(c.mints, t);
      assert 1 <= j <= LastMint(c.mints, t);
    }
  }

  // ---------------------------------------------------------------- every reachable state

  ghost predicate AllValid(w: World) {
    forall t :: t in w.collections ==> w.collections[t].info.max < U64_MAX
  }

  lemma PlayKeepsValid(w: World, op: Operation, v: World)
    requires AllValid(w) && Play(w, op, v) && ValidOp(op)
    ensures AllValid(v)
  {
  }

  lemma RecordedIsValid(op: Operation, recorded: Operation)
    requires RecordedAs(op, recorded) && ValidOp(op)
    ensures ValidOp(recorded)
  {
  }

  lemma {:induction false} CollectionsAreValid(h: seq<ContextOp>)
    requires ValidHistory(h)
    ensures AllValid(View(Run(h)))
    decreases |h|
  {
    hide AllValid, Play, Refusal, RecordedAs, View, ValidOp, OneStep;
    if h == [] {
      assert AllValid(View(EMPTY)) by { NoCollections(); }
    } else {
      var c, x := Run(h[..|h| - 1]), h[|h| - 1];
      PrefixIsValid(h);
      CollectionsAreValid(h[..|h| - 1]);
      OperationsFollowTheRules(h);
      if Refusal(View(c), x).None? {
        RecordedIsValid(x.op, Run(h).ops[x.score].op);
        PlayKeepsValid(View(c), Run(h).ops[x.score].op, View(Run(h)));
      } else {
        OwnersStay(c, Run(h), x.score, x.op, Refusal(View(c), x));
      }
    }
  }

  lemma NoCollections()
    ensures AllValid(View(EMPTY))
  {
  }

  lemma CollectionShown(c: Core, t: Tick)
    requires t in c.registry
    ensures t in View(c).collections && View(c).collections[t].info == c.registry[t].info
  {
  }

  /** In every reachable state: before the first random mint, after the premint only, in
      between, and when fully minted. */
  lemma FreeRangesAreExact(limit: Limit, changes: seq<ChainChange>, t: Tick)
    requires ValidRun(limit, changes)
    ensures ProcessAll(EMPTY_DB, limit, changes).Some?
    ensures var c := ProcessAll(EMPTY_DB, limit, changes).value.core;
            && (Report(c, t).None? <==> t !in c.registry)
            && (t in c.registry ==> Exact(c, t, Report(c, t).value))
  {
    hide ValidRun, ProcessAll, Good, Exact, ValidChain, Run, ResidueOk, View, ValidHistory, LastMint, StoredRanges;
    ReachableIsGood(limit, changes);
    var h := OpsOf(limit, ChainAfter(changes));
    if t in Run(h).registry {
      CollectionsAreValid(h);
      CollectionShown(Run(h), t);
      ReportIsExact(Run(h), NextScore(h), t);
    }
  }
}
