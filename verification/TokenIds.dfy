/** The random token-id allocator (nexus/src/processor/token_id.rs).

    Each collection owns a dense list of free ranges.  Drawing an id removes,
    shrinks or splits one range and leaves an undo record under the id.
 */
module TokenIds {
  import opened Model

  datatype Alloc = Alloc(
    ranges: map<RangeKey, Range>,
    lengths: map<Tick, nat>,
    meta: map<TokenKey, PreModRange>)

  const EMPTY: Alloc := Alloc(map[], map[], map[])

  datatype Draw = Drawn(alloc: Alloc, tokenId: nat) | Panicked

  // ---------------------------------------------------------------- one draw

  function Length(a: Alloc, t: Tick): nat {
    if t in a.lengths then a.lengths[t] else 0
  }

  /** Takes out a range of size one; the last range moves into its place. */
  function RemoveRange(a: Alloc, t: Tick, index: nat, id: nat, r: Range, len: nat, isInitial: bool): Option<Alloc>
    requires index < len
  {
    var meta := a.meta[TokenKey(t, id) := PreModRange(index, r.start, r.size, true, false, isInitial)];
    var lengths := a.lengths[t := len - 1];
    if index < len - 1 then
      if RangeKey(t, len - 1) !in a.ranges then None else
      var last := a.ranges[RangeKey(t, len - 1)];
      Some(Alloc(a.ranges[RangeKey(t, index) := last] - {RangeKey(t, len - 1)}, lengths, meta))
    else
      Some(Alloc(a.ranges - {RangeKey(t, index)}, lengths, meta))
  }

  function ShrinkRange(a: Alloc, t: Tick, index: nat, r: Range, id: nat, fromStart: bool, isInitial: bool): Alloc
    requires r.size > 0
  {
    var meta := a.meta[TokenKey(t, id) := PreModRange(index, r.start, r.size, false, false, isInitial)];
    var left := if fromStart then Range(r.start + 1, r.size - 1) else Range(r.start, r.size - 1);
    Alloc(a.ranges[RangeKey(t, index) := left], a.lengths, meta)
  }

  function SplitRange(a: Alloc, t: Tick, index: nat, id: nat, r: Range, offset: nat, len: nat, isInitial: bool): Alloc
    requires offset < r.size
  {
    var meta := a.meta[TokenKey(t, id) := PreModRange(index, r.start, r.size, false, true, isInitial)];
    var left := Range(r.start, offset);
    var right := Range(id + 1, r.size - offset - 1);
    Alloc(a.ranges[RangeKey(t, index) := left][RangeKey(t, len) := right], a.lengths[t := len + 1], meta)
  }

  /** The range a draw looks at: its index, the range itself and the list length.
      The first draw of a collection looks at the whole span after the premint. */
  function Pick(a: Alloc, t: Tick, entropy: nat, max: nat, premint: nat): (p: Option<(nat, Range, nat)>)
    requires premint < max
    ensures p.Some? ==> p.value.0 < p.value.2
  {
    if Length(a, t) == 0 then Some((0, Range(1 + premint, max - premint), 1))
    else
      var index := entropy % Length(a, t);
      if RangeKey(t, index) in a.ranges then Some((index, a.ranges[RangeKey(t, index)], Length(a, t))) else None
  }

  /** The first draw writes the list length before anything else. */
  function Opened(a: Alloc, t: Tick): Alloc {
    if Length(a, t) == 0 then a.(lengths := a.lengths[t := 1]) else a
  }

  /** Takes the id at `offset` out of range `r`. */
  function TakeAt(a: Alloc, t: Tick, index: nat, r: Range, offset: nat, len: nat, isInitial: bool): Draw
    requires index < len && offset < r.size
  {
    var id := r.start + offset;
    if offset == 0 then
      if r.size == 1 then
        match RemoveRange(a, t, index, id, r, len, isInitial)
        case Some(b) => Drawn(b, id)
        case None => Panicked
      else
        Drawn(ShrinkRange(a, t, index, r, id, true, isInitial), id)
    else if offset == r.size - 1 then
      Drawn(ShrinkRange(a, t, index, r, id, false, isInitial), id)
    else
      Drawn(SplitRange(a, t, index, id, r, offset, len, isInitial), id)
  }

  /** Draws one id.  `Panicked` stands for the `expect`s and the `assert` of the
      source and for a remainder by zero. */
  function Generate(a: Alloc, t: Tick, entropy: nat, max: nat, premint: nat): Draw
    requires premint < max
  {
    match Pick(a, t, entropy, max, premint)
    case None => Panicked
    case Some((index, r, len)) =>
      if r.size == 0 then Panicked else
      var offset := entropy % r.size;
      if r.start + offset > max || r.start + offset == 0 then Panicked else
      TakeAt(Opened(a, t), t, index, r, offset, len, Length(a, t) == 0)
  }

  // ---------------------------------------------------------------- undoing a draw

  function RevertRemoved(a: Alloc, t: Tick, p: PreModRange, len: nat): Option<Alloc> {
    var lengths := a.lengths[t := len + 1];
    if p.index < len then
      if RangeKey(t, p.index) !in a.ranges then None else
      var current := a.ranges[RangeKey(t, p.index)];
      Some(Alloc(a.ranges[RangeKey(t, len) := current][RangeKey(t, p.index) := Range(p.start, p.size)], lengths, a.meta))
    else
      Some(Alloc(a.ranges[RangeKey(t, p.index) := Range(p.start, p.size)], lengths, a.meta))
  }

  function RestoreMaybeSplit(a: Alloc, t: Tick, p: PreModRange, len: nat): Option<Alloc> {
    var ranges := a.ranges[RangeKey(t, p.index) := Range(p.start, p.size)];
    if p.split then
      if len == 0 then None else
      Some(Alloc(ranges - {RangeKey(t, len - 1)}, a.lengths[t := len - 1], a.meta))
    else
      Some(Alloc(ranges, a.lengths, a.meta))
  }

  /** Puts the ranges back as they were before `id` was drawn. */
  function Undo(a: Alloc, t: Tick, id: nat): Option<Alloc> {
    if TokenKey(t, id) !in a.meta then None else
    var p := a.meta[TokenKey(t, id)];
    var len := Length(a, t);
    var restored := if p.removed then RevertRemoved(a, t, p, len) else RestoreMaybeSplit(a, t, p, len);
    if restored.None? then None else
    var len1 := if p.removed then len + 1 else if p.split then len - 1 else len;
    var b := restored.value.(meta := restored.value.meta - {TokenKey(t, id)});
    if !p.isInitial then Some(b)
    else if len1 != 1 then None   // `assert_eq!(ranges_len, 0)` after the decrement
    else Some(Alloc(b.ranges - {RangeKey(t, p.index)}, b.lengths - {t}, b.meta))
  }

  // ---------------------------------------------------------------- the partition

  predicate Covers(r: Range, id: nat) {
    r.start <= id < r.start + r.size
  }

  ghost predicate Free(a: Alloc, t: Tick, id: nat) {
    exists i: nat :: RangeKey(t, i) in a.ranges && Covers(a.ranges[RangeKey(t, i)], id)
  }

  function Generated(a: Alloc, t: Tick): set<nat> {
    set k | k in a.meta && k.tick == t :: k.tokenId
  }

  /** No table holds a row of `t`. */
  ghost predicate Untouched(a: Alloc, t: Tick) {
    && t !in a.lengths
    && (forall k :: k in a.ranges ==> k.tick != t)
    && (forall k :: k in a.meta ==> k.tick != t)
  }

  ghost predicate Dense(a: Alloc, t: Tick) {
    forall i: nat :: RangeKey(t, i) in a.ranges <==> i < Length(a, t)
  }

  ghost predicate Disjoint(a: Alloc, t: Tick) {
    forall i: nat, j: nat, id: nat ::
      (RangeKey(t, i) in a.ranges && RangeKey(t, j) in a.ranges &&
       Covers(a.ranges[RangeKey(t, i)], id) && Covers(a.ranges[RangeKey(t, j)], id)) ==> i == j
  }

  /** The ranges of `t` sit at the indices below its length, none is empty, no two
      overlap, and together with the ids drawn so far they partition
      premint+1 ..= max. */
  ghost predicate Partitioned(a: Alloc, t: Tick, premint: nat, max: nat) {
    && Dense(a, t)
    && (forall i: nat :: RangeKey(t, i) in a.ranges ==> a.ranges[RangeKey(t, i)].size > 0)
    && Disjoint(a, t)
    && (forall id: nat :: Free(a, t, id) ==> TokenKey(t, id) !in a.meta)
    && (forall id: nat :: premint < id <= max <==> (Free(a, t, id) || TokenKey(t, id) in a.meta))
  }

  ghost predicate WellFormed(a: Alloc, t: Tick, premint: nat, max: nat) {
    Untouched(a, t) || (t in a.lengths && Partitioned(a, t, premint, max))
  }

  /** Nothing drawn yet, or some range is left. */
  ghost predicate HasRoom(a: Alloc, t: Tick) {
    t in a.lengths ==> a.lengths[t] > 0
  }

  ghost predicate SameForOthers(a: Alloc, b: Alloc, t: Tick) {
    && (forall k: RangeKey :: k.tick != t ==> (k in a.ranges <==> k in b.ranges) && (k in a.ranges ==> a.ranges[k] == b.ranges[k]))
    && (forall u :: u != t ==> (u in a.lengths <==> u in b.lengths) && (u in a.lengths ==> a.lengths[u] == b.lengths[u]))
    && (forall k: TokenKey :: k.tick != t ==> (k in a.meta <==> k in b.meta) && (k in a.meta ==> a.meta[k] == b.meta[k]))
  }

  // ---------------------------------------------------------------- undo reverts a draw

  lemma PickIsLegal(a: Alloc, t: Tick, entropy: nat, max: nat, premint: nat)
    requires premint < max && WellFormed(a, t, premint, max) && HasRoom(a, t)
    ensures Pick(a, t, entropy, max, premint).Some?
    ensures var (index, r, len) := Pick(a, t, entropy, max, premint).value;
            && index < len && r.size > 0 && premint < r.start && r.start + r.size <= max + 1
            && Standing(a, t, index, r, len)
  {
    if Length(a, t) > 0 {
      var index := entropy % Length(a, t);
      var r := a.ranges[RangeKey(t, index)];
      assert Covers(r, r.start) && Covers(r, r.start + r.size - 1);
      assert Free(a, t, r.start) && Free(a, t, r.start + r.size - 1);
    }
  }

  /** `r` is the range at `index` of a list of `len`, or the span of a collection
      that was never drawn from. */
  ghost predicate Standing(a: Alloc, t: Tick, index: nat, r: Range, len: nat) {
    if t in a.lengths then
      len == a.lengths[t] > 0 && Dense(a, t) && index < len && a.ranges[RangeKey(t, index)] == r
    else
      Untouched(a, t) && index == 0 && len == 1
  }

  lemma UndoRevertsRemove(a: Alloc, t: Tick, index: nat, id: nat, r: Range, len: nat)
    requires Standing(a, t, index, r, len) && TokenKey(t, id) !in a.meta
    ensures var b := RemoveRange(Opened(a, t), t, index, id, r, len, Length(a, t) == 0);
            b.Some? && Undo(b.value, t, id) == Some(a)
  {
    var b := RemoveRange(Opened(a, t), t, index, id, r, len, Length(a, t) == 0).value;
    var u := Undo(b, t, id).value;
    assert u.meta == a.meta;
    assert u.lengths == a.lengths;
    assert u.ranges == a.ranges;
  }

  lemma UndoRevertsShrink(a: Alloc, t: Tick, index: nat, id: nat, r: Range, len: nat, fromStart: bool)
    requires Standing(a, t, index, r, len) && TokenKey(t, id) !in a.meta && r.size > 0
    ensures Undo(ShrinkRange(Opened(a, t), t, index, r, id, fromStart, Length(a, t) == 0), t, id) == Some(a)
  {
    var b := ShrinkRange(Opened(a, t), t, index, r, id, fromStart, Length(a, t) == 0);
    var u := Undo(b, t, id).value;
    assert u.meta == a.meta;
    assert u.lengths == a.lengths;
    assert u.ranges == a.ranges;
  }

  lemma UndoRevertsSplit(a: Alloc, t: Tick, index: nat, id: nat, r: Range, offset: nat, len: nat)
    requires Standing(a, t, index, r, len) && TokenKey(t, id) !in a.meta && offset < r.size
    ensures Undo(SplitRange(Opened(a, t), t, index, id, r, offset, len, Length(a, t) == 0), t, id) == Some(a)
  {
    var b := SplitRange(Opened(a, t), t, index, id, r, offset, len, Length(a, t) == 0);
    var u := Undo(b, t, id).value;
    assert u.meta == a.meta;
    assert u.lengths == a.lengths;
    assert u.ranges == a.ranges;
  }

  lemma UndoRevertsTakeAt(a: Alloc, t: Tick, index: nat, r: Range, offset: nat, len: nat)
    requires Standing(a, t, index, r, len) && offset < r.size && TokenKey(t, r.start + offset) !in a.meta
    ensures var d := TakeAt(Opened(a, t), t, index, r, offset, len, Length(a, t) == 0);
            d.Drawn? && d.tokenId == r.start + offset && Undo(d.alloc, t, d.tokenId) == Some(a)
  {
    var id := r.start + offset;
    if offset == 0 && r.size == 1 {
      UndoRevertsRemove(a, t, index, id, r, len);
    } else if offset == 0 {
      UndoRevertsShrink(a, t, index, id, r, len, true);
    } else if offset == r.size - 1 {
      UndoRevertsShrink(a, t, index, id, r, len, false);
    } else {
      UndoRevertsSplit(a, t, index, id, r, offset, len);
    }
  }

  lemma PickIsFresh(a: Alloc, t: Tick, entropy: nat, max: nat, premint: nat, id: nat)
    requires premint < max && WellFormed(a, t, premint, max) && HasRoom(a, t)
    requires Pick(a, t, entropy, max, premint).Some?
    requires Covers(Pick(a, t, entropy, max, premint).value.1, id)
    ensures TokenKey(t, id) !in a.meta
  {
    if Length(a, t) > 0 {
      var index := entropy % Length(a, t);
      assert Covers(a.ranges[RangeKey(t, index)], id);
      assert Free(a, t, id);
    }
  }

  /** Drawing never panics on a collection with room, the id is one that was never
      drawn, and undoing the draw gives back exactly the tables there were before
      it: the swap from the end, both shrinks, the split and the first use. */
  lemma UndoRevertsGenerate(a: Alloc, t: Tick, entropy: nat, max: nat, premint: nat)
    requires premint < max && WellFormed(a, t, premint, max) && HasRoom(a, t)
    ensures Generate(a, t, entropy, max, premint).Drawn?
    ensures var d := Generate(a, t, entropy, max, premint);
            && premint < d.tokenId <= max
            && TokenKey(t, d.tokenId) !in a.meta
            && Undo(d.alloc, t, d.tokenId) == Some(a)
  {
    PickIsLegal(a, t, entropy, max, premint);
    var (index, r, len) := Pick(a, t, entropy, max, premint).value;
    var offset := entropy % r.size;
    PickIsFresh(a, t, entropy, max, premint, r.start + offset);
    UndoRevertsTakeAt(a, t, index, r, offset, len);
  }

  // ---------------------------------------------------------------- draws keep the partition

  /** The tables with the span of a first draw written out.  The source leaves the
      span implicit, since every branch overwrites or removes index 0. */
  function Spread(a: Alloc, t: Tick, premint: nat, max: nat): Alloc
    requires premint < max
  {
    if t in a.lengths then a
    else Alloc(a.ranges[RangeKey(t, 0) := Range(1 + premint, max - premint)], a.lengths[t := 1], a.meta)
  }

  lemma SpreadIsPartitioned(a: Alloc, t: Tick, premint: nat, max: nat)
    requires premint < max && WellFormed(a, t, premint, max)
    ensures Partitioned(Spread(a, t, premint, max), t, premint, max)
  {
    var s := Spread(a, t, premint, max);
    if t !in a.lengths {
      forall id: nat ensures Free(s, t, id) <==> premint < id <= max {
        assert Covers(s.ranges[RangeKey(t, 0)], id) <==> premint < id <= max;
      }
    }
  }

  /** Every id but `id` is free in `b` exactly when it was in `a`. */
  ghost predicate TakesOut(a: Alloc, b: Alloc, t: Tick, id: nat) {
    && Dense(b, t) && Disjoint(b, t)
    && (forall i: nat :: RangeKey(t, i) in b.ranges ==> b.ranges[RangeKey(t, i)].size > 0)
    && (forall x: nat :: Free(b, t, x) <==> (Free(a, t, x) && x != id))
    && (forall x: nat :: TokenKey(t, x) in b.meta <==> (TokenKey(t, x) in a.meta || x == id))
    && SameForOthers(a, b, t)
    && t in b.lengths
  }

  lemma RemoveTakesOut(a: Alloc, t: Tick, index: nat, id: nat, len: nat, isInitial: bool, premint: nat, max: nat)
    requires Partitioned(a, t, premint, max) && len == Length(a, t) && index < len
    requires a.ranges[RangeKey(t, index)] == Range(id, 1)
    ensures var b := RemoveRange(a, t, index, id, Range(id, 1), len, isInitial);
            b.Some? && TakesOut(a, b.value, t, id)
  {
    hide Free, Dense, Disjoint;
    RemoveKeepsShape(a, t, index, id, len, isInitial);
    RemoveFrees(a, t, index, id, len, isInitial);
  }

  lemma RemoveKeepsShape(a: Alloc, t: Tick, index: nat, id: nat, len: nat, isInitial: bool)
    requires Dense(a, t) && Disjoint(a, t) && len == Length(a, t) && index < len
    requires forall i: nat :: RangeKey(t, i) in a.ranges ==> a.ranges[RangeKey(t, i)].size > 0
    ensures var b := RemoveRange(a, t, index, id, Range(id, 1), len, isInitial);
            && b.Some? && Dense(b.value, t) && Disjoint(b.value, t)
            && (forall i: nat :: RangeKey(t, i) in b.value.ranges ==> b.value.ranges[RangeKey(t, i)].size > 0)
  {
  }

  lemma RemoveFrees(a: Alloc, t: Tick, index: nat, id: nat, len: nat, isInitial: bool)
    requires Dense(a, t) && Disjoint(a, t) && len == Length(a, t) && index < len
    requires a.ranges[RangeKey(t, index)] == Range(id, 1)
    ensures var b := RemoveRange(a, t, index, id, Range(id, 1), len, isInitial);
            b.Some? && forall x: nat :: Free(b.value, t, x) <==> (Free(a, t, x) && x != id)
  {
    var b := RemoveRange(a, t, index, id, Range(id, 1), len, isInitial).value;
    assert Covers(a.ranges[RangeKey(t, index)], id);
    forall x: nat ensures Free(b, t, x) <==> (Free(a, t, x) && x != id) {
      if Free(a, t, x) && x != id {
        var i: nat :| RangeKey(t, i) in a.ranges && Covers(a.ranges[RangeKey(t, i)], x);
        assert i != index;
        var j := if i == len - 1 then index else i;
        assert RangeKey(t, j) in b.ranges && Covers(b.ranges[RangeKey(t, j)], x);
      }
      if Free(b, t, x) {
        var i: nat :| RangeKey(t, i) in b.ranges && Covers(b.ranges[RangeKey(t, i)], x);
        var j := if i == index then len - 1 else i;
        assert RangeKey(t, j) in a.ranges && Covers(a.ranges[RangeKey(t, j)], x);
      }
    }
  }

  lemma ShrinkTakesOut(a: Alloc, t: Tick, index: nat, r: Range, id: nat, fromStart: bool, isInitial: bool, premint: nat, max: nat)
    requires Partitioned(a, t, premint, max) && index < Length(a, t)
    requires a.ranges[RangeKey(t, index)] == r && r.size > 1
    requires id == if fromStart then r.start else r.start + r.size - 1
    ensures TakesOut(a, ShrinkRange(a, t, index, r, id, fromStart, isInitial), t, id)
  {
    var b := ShrinkRange(a, t, index, r, id, fromStart, isInitial);
    assert t in a.lengths;
    assert Covers(r, id);
    assert forall x: nat :: Covers(b.ranges[RangeKey(t, index)], x) <==> (Covers(r, x) && x != id);
    forall x: nat ensures Free(b, t, x) <==> (Free(a, t, x) && x != id) {
      if Free(a, t, x) && x != id {
        var i: nat :| RangeKey(t, i) in a.ranges && Covers(a.ranges[RangeKey(t, i)], x);
        assert RangeKey(t, i) in b.ranges && Covers(b.ranges[RangeKey(t, i)], x);
      }
      if Free(b, t, x) {
        var i: nat :| RangeKey(t, i) in b.ranges && Covers(b.ranges[RangeKey(t, i)], x);
        assert RangeKey(t, i) in a.ranges && Covers(a.ranges[RangeKey(t, i)], x);
      }
    }
  }

  lemma SplitTakesOut(a: Alloc, t: Tick, index: nat, id: nat, r: Range, offset: nat, len: nat, isInitial: bool, premint: nat, max: nat)
    requires Partitioned(a, t, premint, max) && len == Length(a, t) && index < len
    requires a.ranges[RangeKey(t, index)] == r && 0 < offset < r.size - 1 && id == r.start + offset
    ensures TakesOut(a, SplitRange(a, t, index, id, r, offset, len, isInitial), t, id)
  {
    hide Free;
    var b := SplitRange(a, t, index, id, r, offset, len, isInitial);
    assert forall x: nat :: (Covers(b.ranges[RangeKey(t, index)], x) || Covers(b.ranges[RangeKey(t, len)], x)) ==> Covers(r, x);
    assert forall x: nat :: !(Covers(b.ranges[RangeKey(t, index)], x) && Covers(b.ranges[RangeKey(t, len)], x));
    SplitFrees(a, t, index, id, r, offset, len, isInitial);
  }

  lemma SplitFrees(a: Alloc, t: Tick, index: nat, id: nat, r: Range, offset: nat, len: nat, isInitial: bool)
    requires Dense(a, t) && Disjoint(a, t) && len == Length(a, t) && index < len
    requires a.ranges[RangeKey(t, index)] == r && 0 < offset < r.size - 1 && id == r.start + offset
    ensures var b := SplitRange(a, t, index, id, r, offset, len, isInitial);
            forall x: nat :: Free(b, t, x) <==> (Free(a, t, x) && x != id)
  {
    var b := SplitRange(a, t, index, id, r, offset, len, isInitial);
    assert Covers(r, id);
    var left, right := b.ranges[RangeKey(t, index)], b.ranges[RangeKey(t, len)];
    assert forall x: nat :: (Covers(left, x) || Covers(right, x)) <==> (Covers(r, x) && x != id);
    forall x: nat ensures Free(b, t, x) <==> (Free(a, t, x) && x != id) {
      if Free(a, t, x) && x != id {
        var i: nat :| RangeKey(t, i) in a.ranges && Covers(a.ranges[RangeKey(t, i)], x);
        var j := if i == index && Covers(right, x) then len else i;
        assert RangeKey(t, j) in b.ranges && Covers(b.ranges[RangeKey(t, j)], x);
      }
      if Free(b, t, x) {
        var i: nat :| RangeKey(t, i) in b.ranges && Covers(b.ranges[RangeKey(t, i)], x);
        var j := if i == len then index else i;
        assert RangeKey(t, j) in a.ranges && Covers(a.ranges[RangeKey(t, j)], x);
      }
    }
  }

  lemma TakeAtTakesOut(a: Alloc, t: Tick, index: nat, r: Range, offset: nat, len: nat, isInitial: bool, premint: nat, max: nat)
    requires Partitioned(a, t, premint, max) && len == Length(a, t) && index < len
    requires a.ranges[RangeKey(t, index)] == r && offset < r.size
    ensures var d := TakeAt(a, t, index, r, offset, len, isInitial);
            d.Drawn? && d.tokenId == r.start + offset && TakesOut(a, d.alloc, t, d.tokenId)
  {
    hide TakesOut, Partitioned, RemoveRange, ShrinkRange, SplitRange;
    var id := r.start + offset;
    if offset == 0 && r.size == 1 {
      RemoveTakesOut(a, t, index, id, len, isInitial, premint, max);
    } else if offset == 0 {
      ShrinkTakesOut(a, t, index, r, id, true, isInitial, premint, max);
    } else if offset == r.size - 1 {
      ShrinkTakesOut(a, t, index, r, id, false, isInitial, premint, max);
    } else {
      SplitTakesOut(a, t, index, id, r, offset, len, isInitial, premint, max);
    }
  }

  lemma TakeAtIgnoresSpread(a: Alloc, t: Tick, r: Range, offset: nat, premint: nat, max: nat)
    requires premint < max && t !in a.lengths && Untouched(a, t) && offset < r.size
    ensures TakeAt(Opened(a, t), t, 0, r, offset, 1, true) == TakeAt(Spread(a, t, premint, max), t, 0, r, offset, 1, true)
  {
    var s, o := Spread(a, t, premint, max), Opened(a, t);
    assert s.ranges - {RangeKey(t, 0)} == o.ranges - {RangeKey(t, 0)};
  }

  lemma GenerateFromSpread(a: Alloc, t: Tick, entropy: nat, max: nat, premint: nat)
    requires premint < max && WellFormed(a, t, premint, max) && HasRoom(a, t)
    ensures var d := Generate(a, t, entropy, max, premint);
            d.Drawn? && TakesOut(Spread(a, t, premint, max), d.alloc, t, d.tokenId)
  {
    PickIsLegal(a, t, entropy, max, premint);
    SpreadIsPartitioned(a, t, premint, max);
    var (index, r, len) := Pick(a, t, entropy, max, premint).value;
    var offset := entropy % r.size;
    TakeAtTakesOut(Spread(a, t, premint, max), t, index, r, offset, len, Length(a, t) == 0, premint, max);
    if t !in a.lengths {
      TakeAtIgnoresSpread(a, t, r, offset, premint, max);
    }
  }

  /** `b` is `a` with `id` moved from the free ids of `t` to the drawn ones. */
  ghost predicate Moved(a: Alloc, b: Alloc, t: Tick, id: nat, premint: nat, max: nat) {
    && WellFormed(b, t, premint, max)
    && Generated(b, t) == Generated(a, t) + {id}
    && SameForOthers(a, b, t)
  }

  lemma TakesOutMoves(a: Alloc, b: Alloc, t: Tick, id: nat, premint: nat, max: nat)
    requires premint < id <= max && WellFormed(a, t, premint, max)
    requires Partitioned(Spread(a, t, premint, max), t, premint, max)
    requires TakesOut(Spread(a, t, premint, max), b, t, id)
    ensures Moved(a, b, t, id, premint, max)
  {
    assert WellFormed(b, t, premint, max);
    GeneratedMembers(a, t);
    GeneratedMembers(b, t);
  }

  /** A draw moves one id from the free ranges to the drawn ones and touches no
      other collection. */
  lemma GenerateKeepsPartition(a: Alloc, t: Tick, entropy: nat, max: nat, premint: nat)
    requires premint < max && WellFormed(a, t, premint, max) && HasRoom(a, t)
    ensures var d := Generate(a, t, entropy, max, premint);
            d.Drawn? && Moved(a, d.alloc, t, d.tokenId, premint, max)
  {
    hide Generate, Moved, HasRoom;
    GenerateFromSpread(a, t, entropy, max, premint);
    SpreadIsPartitioned(a, t, premint, max);
    UndoRevertsGenerate(a, t, entropy, max, premint);
    var d := Generate(a, t, entropy, max, premint);
    TakesOutMoves(a, d.alloc, t, d.tokenId, premint, max);
  }

  lemma GeneratedMembers(a: Alloc, t: Tick)
    ensures forall id: nat :: id in Generated(a, t) <==> TokenKey(t, id) in a.meta
  {
    forall id: nat | TokenKey(t, id) in a.meta ensures id in Generated(a, t) {
      assert TokenKey(t, id).tokenId == id;
    }
  }

  // ---------------------------------------------------------------- counting

  /** The ids lo+1 ..= hi. */
  function Span(lo: nat, hi: nat): (s: set<nat>)
    ensures forall x: nat :: x in s <==> lo < x <= hi
    ensures |s| == if lo <= hi then hi - lo else 0
    decreases hi
  {
    if hi <= lo then {} else Span(lo, hi - 1) + {hi}
  }

  lemma SubsetSize(a: set<nat>, b: set<nat>)
    requires a <= b
    ensures |a| <= |b|
    ensures |a| == |b| ==> a == b
  {
    assert b == a + (b - a);
    assert |b| == |a| + |b - a|;
  }

  /** A list runs empty only when every id was drawn, so a collection below its
      supply is never opened a second time. */
  lemma RoomByCount(a: Alloc, t: Tick, premint: nat, max: nat)
    requires premint < max && WellFormed(a, t, premint, max)
    ensures Generated(a, t) <= Span(premint, max)
    ensures |Generated(a, t)| <= max - premint
    ensures |Generated(a, t)| < max - premint ==> HasRoom(a, t)
    ensures |Generated(a, t)| == max - premint ==> Generated(a, t) == Span(premint, max)
  {
    GeneratedMembers(a, t);
    SubsetSize(Generated(a, t), Span(premint, max));
    if !HasRoom(a, t) {
      forall id: nat | premint < id <= max ensures id in Generated(a, t) {
        assert !Free(a, t, id);
      }
      assert Generated(a, t) == Span(premint, max);
    }
  }

  // ---------------------------------------------------------------- runs of draws

  function Prepend(id: nat, r: Option<(Alloc, seq<nat>)>): Option<(Alloc, seq<nat>)> {
    match r
    case None => None
    case Some((a, ids)) => Some((a, [id] + ids))
  }

  /** Draws one id per entropy value; the ids are in the order they were drawn. */
  function GenerateAll(a: Alloc, t: Tick, entropies: seq<nat>, max: nat, premint: nat): Option<(Alloc, seq<nat>)>
    requires premint < max
    decreases |entropies|
  {
    if entropies == [] then Some((a, []))
    else
      match Generate(a, t, entropies[0], max, premint)
      case Panicked => None
      case Drawn(b, id) => Prepend(id, GenerateAll(b, t, entropies[1..], max, premint))
  }

  /** Undoes the draws of `ids`, the last one first. */
  function UndoAll(a: Alloc, t: Tick, ids: seq<nat>): Option<Alloc> {
    if ids == [] then Some(a)
    else
      match UndoAll(a, t, ids[1..])
      case None => None
      case Some(b) => Undo(b, t, ids[0])
  }

  /** `ids` are distinct new ids of premint+1 ..= max, and they are what `after` has over `before`. */
  ghost predicate Fresh(before: set<nat>, ids: seq<nat>, after: set<nat>, premint: nat, max: nat) {
    && (forall i, j :: 0 <= i < j < |ids| ==> ids[i] != ids[j])
    && (forall i :: 0 <= i < |ids| ==> ids[i] !in before && premint < ids[i] <= max)
    && after == before + (set id | id in ids)
  }

  lemma FreshCons(before: set<nat>, id: nat, ids: seq<nat>, after: set<nat>, premint: nat, max: nat)
    requires id !in before && premint < id <= max && Fresh(before + {id}, ids, after, premint, max)
    ensures Fresh(before, [id] + ids, after, premint, max)
  {
    assert forall x :: x in [id] + ids <==> x == id || x in ids;
  }

  /** A run of `n` draws from `a` ended in `r`: it gave `n` fresh ids, kept the
      partition, and undoing its ids in reverse gives `a` back. */
  ghost predicate Reversible(a: Alloc, t: Tick, n: nat, r: Option<(Alloc, seq<nat>)>, premint: nat, max: nat) {
    && r.Some?
    && |r.value.1| == n
    && WellFormed(r.value.0, t, premint, max)
    && Fresh(Generated(a, t), r.value.1, Generated(r.value.0, t), premint, max)
    && UndoAll(r.value.0, t, r.value.1) == Some(a)
  }

  lemma ReversibleCons(a: Alloc, t: Tick, n: nat, d: Draw, r: Option<(Alloc, seq<nat>)>, premint: nat, max: nat)
    requires d.Drawn? && TokenKey(t, d.tokenId) !in a.meta && premint < d.tokenId <= max
    requires Undo(d.alloc, t, d.tokenId) == Some(a)
    requires Generated(d.alloc, t) == Generated(a, t) + {d.tokenId}
    requires Reversible(d.alloc, t, n, r, premint, max)
    ensures Reversible(a, t, n + 1, Prepend(d.tokenId, r), premint, max)
  {
    hide Undo, WellFormed, Generated, Fresh;
    assert d.tokenId !in Generated(a, t) by { GeneratedMembers(a, t); }
    FreshCons(Generated(a, t), d.tokenId, r.value.1, Generated(r.value.0, t), premint, max);
    assert ([d.tokenId] + r.value.1)[1..] == r.value.1;
  }

  /** Any run of draws within the supply succeeds, never repeats an id, keeps the
      partition, and is undone exactly by undoing its ids in reverse. */
  lemma {:induction false} UndoAllRevertsGenerateAll(a: Alloc, t: Tick, entropies: seq<nat>, max: nat, premint: nat)
    requires premint < max && WellFormed(a, t, premint, max)
    requires |Generated(a, t)| + |entropies| <= max - premint
    ensures Reversible(a, t, |entropies|, GenerateAll(a, t, entropies, max, premint), premint, max)
    decreases |entropies|
  {
    if entropies != [] {
      hide Generate, WellFormed, Reversible, Generated, HasRoom;
      RoomByCount(a, t, premint, max);
      UndoRevertsGenerate(a, t, entropies[0], max, premint);
      GenerateKeepsPartition(a, t, entropies[0], max, premint);
      var d := Generate(a, t, entropies[0], max, premint);
      UndoAllRevertsGenerateAll(d.alloc, t, entropies[1..], max, premint);
      ReversibleCons(a, t, |entropies| - 1, d, GenerateAll(d.alloc, t, entropies[1..], max, premint), premint, max);
    }
  }
}
