/** Which id a mint draws, and what the list of free ranges is afterwards
    (nexus/src/processor/token_id.rs, `generate_token_id`), stated on the rows of the tables
    and, for every surviving block, on its entropy and the log. */
module Drawing {
  import opened Model
  import opened Ledger
  import opened Invariants
  import opened Steps
  import opened Filtering
  import opened Score
  import opened Chain
  import opened ChainReplay
  import opened ChainTheorem
  import opened Protocol
  import opened Guarantees
  import opened ChainIndexes
  import TokenIds

  // ---------------------------------------------------------------- which id

  /** The id an entropy selects: of the whole supply after the premint at first, later of
      the range whose index the same entropy selects. */
  ghost predicate Selects(a: TokenIds.Alloc, t: Tick, premint: nat, max: nat, entropy: nat, id: nat) {
    if t !in a.lengths then premint < max && id == premint + 1 + entropy % (max - premint)
    else
      var n := a.lengths[t];
      n > 0 && RangeKey(t, entropy % n) in a.ranges &&
      var r := a.ranges[RangeKey(t, entropy % n)];
      r.size > 0 && id == r.start + entropy % r.size
  }

  lemma DrawSelects(a: TokenIds.Alloc, t: Tick, entropy: nat, max: nat, premint: nat)
    requires premint < max && TokenIds.WellFormed(a, t, premint, max) && TokenIds.HasRoom(a, t)
    ensures var d := TokenIds.Generate(a, t, entropy, max, premint); d.Drawn? && Selects(a, t, premint, max, entropy, d.tokenId)
  {
    hide TokenIds.TakeAt, TokenIds.Undo, TokenIds.Untouched, TokenIds.Partitioned;
    TokenIds.PickIsLegal(a, t, entropy, max, premint);
    TokenIds.UndoRevertsGenerate(a, t, entropy, max, premint);
    TookThatId(a, t, entropy, max, premint);
  }

  lemma TookThatId(a: TokenIds.Alloc, t: Tick, entropy: nat, max: nat, premint: nat)
    requires premint < max && TokenIds.Generate(a, t, entropy, max, premint).Drawn?
    ensures TokenIds.Pick(a, t, entropy, max, premint).Some?
    ensures var r := TokenIds.Pick(a, t, entropy, max, premint).value.1;
            r.size > 0 && TokenIds.Generate(a, t, entropy, max, premint).tokenId == r.start + entropy % r.size
  {
    hide TokenIds.RemoveRange, TokenIds.ShrinkRange, TokenIds.SplitRange, TokenIds.Pick, TokenIds.Opened;
  }

  /** Every id after the premint can be the first one, and within the selected range every
      id is drawn by exactly the entropies with its offset. */
  lemma EveryIdCanBeDrawn(a: TokenIds.Alloc, t: Tick, entropy: nat, max: nat, premint: nat, id: nat)
    requires premint < max && TokenIds.WellFormed(a, t, premint, max) && TokenIds.HasRoom(a, t)
    ensures t !in a.lengths && premint < id <= max ==>
              var d := TokenIds.Generate(a, t, id - premint - 1, max, premint); d.Drawn? && d.tokenId == id
    ensures t in a.lengths ==>
              RangeKey(t, entropy % a.lengths[t]) in a.ranges &&
              var r, d := a.ranges[RangeKey(t, entropy % a.lengths[t])], TokenIds.Generate(a, t, entropy, max, premint);
              r.size > 0 && d.Drawn? && (TokenIds.Covers(r, id) ==> (d.tokenId == id <==> entropy % r.size == id - r.start))
  {
    hide TokenIds.Generate, TokenIds.WellFormed;
    DrawSelects(a, t, entropy, max, premint);
    if t !in a.lengths && premint < id <= max {
      DrawSelects(a, t, id - premint - 1, max, premint);
      SmallRemainder(id - premint - 1, max - premint);
    }
  }

  lemma SmallRemainder(x: nat, n: nat)
    requires x < n
    ensures x % n == x
  {
  }

  // ---------------------------------------------------------------- the free list

  /** The free ranges in the order of their indices. */
  function FreeList(a: TokenIds.Alloc, t: Tick, premint: nat, max: nat): seq<Range>
    requires premint < max
  {
    if t !in a.lengths then [Range(premint + 1, max - premint)]
    else seq(a.lengths[t], i requires 0 <= i < a.lengths[t] => if RangeKey(t, i) in a.ranges then a.ranges[RangeKey(t, i)] else Range(0, 0))
  }

  /** Taking `id` out of range `i` of the list: a range of one goes and the last one takes its
      place, an end is cut off, or the right part goes to the end of the list. */
  function AfterTaking(list: seq<Range>, i: nat, id: nat): seq<Range>
    requires i < |list| && TokenIds.Covers(list[i], id)
  {
    var r, n := list[i], |list|;
    var end := r.start + r.size;
    if r.size == 1 then list[i := list[n - 1]][..n - 1]
    else if id == r.start then list[i := Range(id + 1, r.size - 1)]
    else if id + 1 == end then list[i := Range(r.start, r.size - 1)]
    else list[i := Range(r.start, id - r.start)] + [Range(id + 1, end - id - 1)]
  }

  /** The first row of an unused collection, written out. */
  lemma ListOfSpread(a: TokenIds.Alloc, t: Tick, premint: nat, max: nat)
    requires premint < max && TokenIds.WellFormed(a, t, premint, max)
    ensures FreeList(TokenIds.Spread(a, t, premint, max), t, premint, max) == FreeList(a, t, premint, max)
  {
  }

  lemma TakeAtOnTheList(a: TokenIds.Alloc, t: Tick, index: nat, r: Range, offset: nat, len: nat, isInitial: bool, premint: nat, max: nat)
    requires premint < max && t in a.lengths && len == a.lengths[t] && TokenIds.Dense(a, t) && index < len
    requires a.ranges[RangeKey(t, index)] == r && offset < r.size
    ensures var d := TokenIds.TakeAt(a, t, index, r, offset, len, isInitial);
            && FreeList(a, t, premint, max)[index] == r
            && d.Drawn? && t in d.alloc.lengths
            && FreeList(d.alloc, t, premint, max) == AfterTaking(FreeList(a, t, premint, max), index, d.tokenId)
  {
    var d := TokenIds.TakeAt(a, t, index, r, offset, len, isInitial);
    var was, now := FreeList(a, t, premint, max), FreeList(d.alloc, t, premint, max);
    assert |now| == |AfterTaking(was, index, d.tokenId)|;
    forall i | 0 <= i < |now| ensures now[i] == AfterTaking(was, index, d.tokenId)[i] {
    }
  }

  /** A draw takes the selected id out of the selected range of the list. */
  lemma DrawOnTheList(a: TokenIds.Alloc, t: Tick, entropy: nat, max: nat, premint: nat)
    requires premint < max && TokenIds.WellFormed(a, t, premint, max) && TokenIds.HasRoom(a, t)
    ensures var list, d := FreeList(a, t, premint, max), TokenIds.Generate(a, t, entropy, max, premint);
            && list != [] && d.Drawn?
            && TokenIds.Covers(list[entropy % |list|], d.tokenId)
            && t in d.alloc.lengths && FreeList(d.alloc, t, premint, max) == AfterTaking(list, entropy % |list|, d.tokenId)
  {
    hide TokenIds.TakeAt, TokenIds.Disjoint, AfterTaking;
    TokenIds.PickIsLegal(a, t, entropy, max, premint);
    var (index, r, len) := TokenIds.Pick(a, t, entropy, max, premint).value;
    var s, offset := TokenIds.Spread(a, t, premint, max), entropy % r.size;
    ListOfSpread(a, t, premint, max);
    TokenIds.SpreadIsPartitioned(a, t, premint, max);
    TakeAtOnTheList(s, t, index, r, offset, len, TokenIds.Length(a, t) == 0, premint, max);
    TokenIds.UndoRevertsGenerate(a, t, entropy, max, premint);
    TookThatId(a, t, entropy, max, premint);
    if t !in a.lengths {
      TokenIds.TakeAtIgnoresSpread(a, t, r, offset, premint, max);
    }
  }

  // ---------------------------------------------------------------- the ids in the log

  /** An accepted mint after the premints draws its id. */
  lemma MintDraws(c: Core, x: ContextOp)
    requires x.op.info.MintOp? && x.op.common.tick in c.registry
    requires SupplyOk(c.registry, c.mints, c.alloc) && PremintsDone(c.registry, c.mints)
    ensures var r, d := Mint(c, x.entropy, x.score, x.op.common, x.op.info.mint, false), c.registry[x.op.common.tick].info;
            r.Minted? ==> Selects(c.alloc, x.op.common.tick, d.premint, d.max, x.entropy, r.tokenId)
  {
    hide LastMint, RoyaltyError, Numbered, IdsOk, TokenIds.Generate, TokenIds.WellFormed, TokenIds.Generated, Selects, TokenIds.HasRoom;
    var t := x.op.common.tick;
    var d := c.registry[t].info;
    assert TickOk(c.registry, c.mints, c.alloc, t);
    if LastMint(c.mints, t) < d.max && d.premint < d.max {
      TokenIds.RoomByCount(c.alloc, t, d.premint, d.max);
      DrawSelects(c.alloc, t, x.entropy, d.max, d.premint);
    }
  }

  lemma AcceptedMintIsRegistered(c: Core, x: ContextOp)
    requires x.op.info.MintOp?
    ensures Mint(c, x.entropy, x.score, x.op.common, x.op.info.mint, false).Minted? ==> x.op.common.tick in c.registry
  {
    hide LastMint, RoyaltyError, TokenIds.Generate;
  }

  /** What is in the log stays there while the history grows. */
  lemma {:induction false} LogOnlyGrows(h: seq<ContextOp>, n: nat)
    requires ValidHistory(h) && n <= |h|
    ensures forall s :: s in Run(h[..n]).ops ==> s in Run(h).ops && Run(h).ops[s] == Run(h[..n]).ops[s]
    decreases |h|
  {
    hide ValidHistory, OneStep, Good, Apply, Bounded, TablesOk;
    if n < |h| {
      var m := |h| - 1;
      PrefixIsValid(h);
      LogOnlyGrows(h[..m], n);
      assert h[..m][..n] == h[..n];
      RunStep(h);
      LoggedOnTop(Run(h[..m]), Run(h), h[m]);
    } else {
      assert h[..n] == h;
    }
  }

  lemma LoggedOnTop(c: Core, d: Core, x: ContextOp)
    requires OneStep(c, d, x)
    ensures x.score !in c.ops && d.ops == c.ops[x.score := Apply(c, x).logged]
  {
    hide Good, AddsOnly, Apply, TablesOk, Bounded;
    BoundedOfGood(c, x.score);
    BoundedOps(c, x.score);
  }

  lemma {:induction false} PrefixOfValid(h: seq<ContextOp>, n: nat)
    requires ValidHistory(h) && n <= |h|
    ensures ValidHistory(h[..n])
  {
  }

  /** What the log says of an operation, and of the id if it was a mint; `c` is the ledger
      before it. */
  ghost predicate LoggedAs(c: Core, ops: map<nat, CheckedOp>, s: nat, op: Operation, entropy: nat) {
    && s in ops && RecordedAs(op, ops[s].op)
    && (op.info.MintOp? && ops[s].error.None? ==>
          && op.common.tick in c.registry
          && var d := c.registry[op.common.tick].info;
             Selects(c.alloc, op.common.tick, d.premint, d.max, entropy, ops[s].op.info.mint.tokenId))
  }

  lemma StepIsLogged(c: Core, d: Core, x: ContextOp)
    requires OneStep(c, d, x)
    ensures LoggedAs(c, d.ops, x.score, x.op, x.entropy)
  {
    hide Mint, TablesOk, SupplyOk, PremintsDone, Bounded, AddsOnly, Selects;
    RecordsIt(c, x);
    if x.op.info.MintOp? {
      AcceptedMintIsRegistered(c, x);
      if x.op.common.tick in c.registry {
        MintDraws(c, x);
      }
    }
  }

  lemma HistoryIsLoggedAs(h: seq<ContextOp>, n: nat)
    requires ValidHistory(h) && n < |h|
    ensures LoggedAs(Run(h[..n]), Run(h).ops, h[n].score, h[n].op, h[n].entropy)
  {
    hide ValidHistory, OneStep, Run, Selects;
    var p := h[..n + 1];
    PrefixOfValid(h, n + 1);
    assert p[..n] == h[..n] && p[n] == h[n];
    RunStep(p);
    StepIsLogged(Run(h[..n]), Run(p), h[n]);
    LogOnlyGrows(h, n + 1);
  }

  // ---------------------------------------------------------------- every surviving block

  /** The operations before operation `j` of block `i`. */
  function OpsBefore(limit: Limit, ms: seq<Mergeset>, i: nat, j: nat): seq<ContextOp>
    requires i < |ms| && j <= |ms[i].ops|
  {
    OpsOf(limit, ms[..i]) + BlockOps(limit, ms[i])[..j]
  }

  lemma {:induction false} PlaceInHistory(limit: Limit, ms: seq<Mergeset>, i: nat, j: nat)
    requires i < |ms| && j < |ms[i].ops|
    ensures var h, n := OpsOf(limit, ms), |OpsBefore(limit, ms, i, j)|;
            n < |h| && h[..n] == OpsBefore(limit, ms, i, j) && h[n] == OpOf(limit, ms[i], j)
    decreases |ms|
  {
    var m := |ms| - 1;
    if i < m {
      PlaceInHistory(limit, ms[..m], i, j);
      assert ms[..m][..i] == ms[..i];
      assert OpsBefore(limit, ms[..m], i, j) == OpsBefore(limit, ms, i, j);
    }
  }

  lemma {:induction false} PlaceInChain(limit: Limit, ms: seq<Mergeset>, x: ContextOp) returns (i: nat, j: nat)
    requires x in OpsOf(limit, ms)
    ensures i < |ms| && j < |ms[i].ops| && OpOf(limit, ms[i], j) == x
    decreases |ms|
  {
    var m := |ms| - 1;
    if x in OpsOf(limit, ms[..m]) {
      i, j := PlaceInChain(limit, ms[..m], x);
    } else {
      i := m;
      j :| 0 <= j < |BlockOps(limit, ms[m])| && BlockOps(limit, ms[m])[j] == x;
    }
  }

  /** The position of an operation of a block in the log. */
  ghost predicate LiesAt(limit: Limit, m: Mergeset, j: nat, s: nat)
    requires j < |m.ops|
  {
    s == m.blueScore * limit * 1000 + m.ops[j].blockIndex * 1000 + m.ops[j].txIndex
  }

  lemma ScoreInNumbers(limit: Limit, m: Mergeset, j: nat)
    requires OrderedBlock(limit, m) && j < |m.ops|
    ensures LiesAt(limit, m, j, OpOf(limit, m, j).score)
  {
    ScoreIsExact(limit, m.blueScore, m.ops[j].blockIndex, m.ops[j].txIndex);
    assert m.blueScore * limit * 1000 == m.blueScore * (limit * 1000);
  }

  /** Each operation of a surviving block is in the log, at the score of its position; if it
      is an accepted mint, its id is the one that the entropy of its block selects from the
      free ranges that the operations before it left. */
  lemma BlocksAreLogged(limit: Limit, changes: seq<ChainChange>, i: nat, j: nat)
    requires ValidRun(limit, changes)
    ensures ProcessAll(EMPTY_DB, limit, changes).Some?
    ensures var ops, ms := ProcessAll(EMPTY_DB, limit, changes).value.core.ops, ChainAfter(changes);
            i < |ms| && j < |ms[i].ops| ==>
              exists s :: LiesAt(limit, ms[i], j, s) && LoggedAs(Run(OpsBefore(limit, ms, i, j)), ops, s, ms[i].ops[j].op, ms[i].entropy)
  {
    hide ValidRun, ProcessAll, Run, Good, ValidHistory, LoggedAs, LiesAt, OpsBefore, OpsOf, OrderedBlock, DistinctTxIds;
    ReachableIsGood(limit, changes);
    RunIsCanonical(limit, changes);
    var ms := ChainAfter(changes);
    if i < |ms| && j < |ms[i].ops| {
      var h, n := OpsOf(limit, ms), |OpsBefore(limit, ms, i, j)|;
      PlaceInHistory(limit, ms, i, j);
      HistoryIsLoggedAs(h, n);
      ScoreInNumbers(limit, ms[i], j);
      assert LiesAt(limit, ms[i], j, h[n].score);
    }
  }

  /** And nothing else is in the log. */
  lemma LogIsOfTheBlocks(limit: Limit, changes: seq<ChainChange>, s: nat)
    requires ValidRun(limit, changes)
    ensures ProcessAll(EMPTY_DB, limit, changes).Some?
    ensures var ops, ms := ProcessAll(EMPTY_DB, limit, changes).value.core.ops, ChainAfter(changes);
            s in ops ==> exists i, j :: 0 <= i < |ms| && 0 <= j < |ms[i].ops| && LiesAt(limit, ms[i], j, s)
  {
    hide ValidRun, ProcessAll, Run, Good, ValidHistory, LiesAt, OpsOf, OrderedBlock, DistinctTxIds;
    ReachableIsGood(limit, changes);
    RunIsCanonical(limit, changes);
    var ms := ChainAfter(changes);
    var h := OpsOf(limit, ms);
    if s in Run(h).ops {
      LoggedIsInHistory(h, s);
      var n :| 0 <= n < |h| && h[n].score == s;
      var i, j := PlaceInChain(limit, ms, h[n]);
      ScoreInNumbers(limit, ms[i], j);
      assert LiesAt(limit, ms[i], j, s);
    }
  }
}
