/** The token-id allocator as it works on the store
    (nexus/src/processor/token_id.rs); `TokenIds` is its specification.

    A result of `false` stands for a panic: the transaction is dropped. */
module TokenIdSteps {
  import opened Model
  import opened Store
  import TokenIds

  method RemoveRange(tx: WriteTransaction, tick: Tick, rangeIndex: nat, valueId: nat, start: nat, size: nat, rangesLen: nat, isInitial: bool)
    returns (ok: bool, newLen: nat)
    requires rangeIndex < rangesLen
    modifies tx`availableRanges, tx`rangeLengths, tx`tokenIdMeta
    ensures var r := TokenIds.RemoveRange(old(tx.Alloc()), tick, rangeIndex, valueId, Range(start, size), rangesLen, isInitial);
            ok == r.Some? && (ok ==> tx.Alloc() == r.value && newLen == rangesLen - 1)
  {
    tx.tokenIdMeta := tx.tokenIdMeta[TokenKey(tick, valueId) := PreModRange(rangeIndex, start, size, true, false, isInitial)];
    newLen := rangesLen;
    if rangeIndex < newLen - 1 {
      var lastIndex := newLen - 1;
      if RangeKey(tick, lastIndex) !in tx.availableRanges {
        return false, newLen;
      }
      var last := tx.availableRanges[RangeKey(tick, lastIndex)];
      tx.availableRanges := tx.availableRanges[RangeKey(tick, rangeIndex) := last];
      tx.availableRanges := tx.availableRanges - {RangeKey(tick, lastIndex)};
    } else {
      tx.availableRanges := tx.availableRanges - {RangeKey(tick, rangeIndex)};
    }
    newLen := newLen - 1;
    tx.rangeLengths := tx.rangeLengths[tick := newLen];
    ok := true;
  }

  method ShrinkRange(tx: WriteTransaction, tick: Tick, rangeIndex: nat, start: nat, size: nat, valueId: nat, fromStart: bool, isInitial: bool)
    requires size > 0
    modifies tx`availableRanges, tx`tokenIdMeta
    ensures tx.Alloc() == TokenIds.ShrinkRange(old(tx.Alloc()), tick, rangeIndex, Range(start, size), valueId, fromStart, isInitial)
  {
    tx.tokenIdMeta := tx.tokenIdMeta[TokenKey(tick, valueId) := PreModRange(rangeIndex, start, size, false, false, isInitial)];
    var value := if fromStart then Range(start + 1, size - 1) else Range(start, size - 1);
    tx.availableRanges := tx.availableRanges[RangeKey(tick, rangeIndex) := value];
  }

  method SplitRange(tx: WriteTransaction, tick: Tick, rangeIndex: nat, valueId: nat, start: nat, size: nat, valueOffset: nat,
                    rangesLen: nat, isInitial: bool)
    returns (newLen: nat)
    requires valueOffset < size
    modifies tx`availableRanges, tx`rangeLengths, tx`tokenIdMeta
    ensures tx.Alloc() == TokenIds.SplitRange(old(tx.Alloc()), tick, rangeIndex, valueId, Range(start, size), valueOffset, rangesLen, isInitial)
    ensures newLen == rangesLen + 1
  {
    tx.tokenIdMeta := tx.tokenIdMeta[TokenKey(tick, valueId) := PreModRange(rangeIndex, start, size, false, true, isInitial)];
    var leftSize := valueOffset;
    var rightStart := valueId + 1;
    var rightSize := size - valueOffset - 1;
    tx.availableRanges := tx.availableRanges[RangeKey(tick, rangeIndex) := Range(start, leftSize)];
    tx.availableRanges := tx.availableRanges[RangeKey(tick, rangesLen) := Range(rightStart, rightSize)];
    newLen := rangesLen + 1;
    tx.rangeLengths := tx.rangeLengths[tick := newLen];
  }

  /** `None` is a panic. */
  method GenerateTokenId(tx: WriteTransaction, tick: Tick, mergesetEntropy: nat, maxSupply: nat, premint: nat)
    returns (id: Option<nat>)
    requires premint < maxSupply
    modifies tx`availableRanges, tx`rangeLengths, tx`tokenIdMeta
    ensures match TokenIds.Generate(old(tx.Alloc()), tick, mergesetEntropy, maxSupply, premint)
            case Drawn(alloc, drawn) => id == Some(drawn) && tx.Alloc() == alloc
            case Panicked => id == None
  {
    hide TokenIds.RemoveRange, TokenIds.ShrinkRange, TokenIds.SplitRange;
    var rangesLen: nat := if tick in tx.rangeLengths then tx.rangeLengths[tick] else 0;
    var rangeIndex: nat, range, isInitial := 0, Some(Range(1 + premint, maxSupply - premint)), true;
    if rangesLen == 0 {
      rangesLen := 1;
      tx.rangeLengths := tx.rangeLengths[tick := rangesLen];
    } else {
      rangeIndex, isInitial := mergesetEntropy % rangesLen, false;
      range := if RangeKey(tick, rangeIndex) in tx.availableRanges then Some(tx.availableRanges[RangeKey(tick, rangeIndex)]) else None;
    }
    if range.None? {
      return None;
    }
    var start, size := range.value.start, range.value.size;
    if size == 0 {
      return None;
    }
    var valueId := start + mergesetEntropy % size;
    if valueId > maxSupply || valueId == 0 {
      return None;
    }
    var valueOffset := valueId - start;
    if valueOffset == 0 {
      if size == 1 {
        var ok, _ := RemoveRange(tx, tick, rangeIndex, valueId, start, size, rangesLen, isInitial);
        if !ok {
          return None;
        }
      } else {
        ShrinkRange(tx, tick, rangeIndex, start, size, valueId, true, isInitial);
      }
    } else if valueOffset == size - 1 {
      ShrinkRange(tx, tick, rangeIndex, start, size, valueId, false, isInitial);
    } else {
      var _ := SplitRange(tx, tick, rangeIndex, valueId, start, size, valueOffset, rangesLen, isInitial);
    }
    id := Some(valueId);
  }

  method RevertRemovedRange(tx: WriteTransaction, tick: Tick, p: PreModRange, rangesLen: nat) returns (ok: bool, newLen: nat)
    modifies tx`availableRanges, tx`rangeLengths
    ensures var r := TokenIds.RevertRemoved(old(tx.Alloc()), tick, p, rangesLen);
            ok == r.Some? && (ok ==> tx.Alloc() == r.value && newLen == rangesLen + 1)
  {
    newLen := rangesLen;
    if p.index < newLen {
      if RangeKey(tick, p.index) !in tx.availableRanges {
        return false, newLen;
      }
      var current := tx.availableRanges[RangeKey(tick, p.index)];
      tx.availableRanges := tx.availableRanges[RangeKey(tick, newLen) := current];
    }
    tx.availableRanges := tx.availableRanges[RangeKey(tick, p.index) := Range(p.start, p.size)];
    newLen := newLen + 1;
    tx.rangeLengths := tx.rangeLengths[tick := newLen];
    ok := true;
  }

  method RestoreRangeMaybeSplit(tx: WriteTransaction, tick: Tick, p: PreModRange, rangesLen: nat) returns (ok: bool, newLen: nat)
    modifies tx`availableRanges, tx`rangeLengths
    ensures var r := TokenIds.RestoreMaybeSplit(old(tx.Alloc()), tick, p, rangesLen);
            ok == r.Some? && (ok ==> tx.Alloc() == r.value && newLen == if p.split then rangesLen - 1 else rangesLen)
  {
    newLen := rangesLen;
    tx.availableRanges := tx.availableRanges[RangeKey(tick, p.index) := Range(p.start, p.size)];
    if p.split {
      if newLen == 0 {
        return false, newLen;
      }
      newLen := newLen - 1;
      tx.availableRanges := tx.availableRanges - {RangeKey(tick, newLen)};
      tx.rangeLengths := tx.rangeLengths[tick := newLen];
    }
    ok := true;
  }

  method RollbackTokenGeneration(tx: WriteTransaction, tick: Tick, tokenId: nat) returns (ok: bool)
    modifies tx`availableRanges, tx`rangeLengths, tx`tokenIdMeta
    ensures var r := TokenIds.Undo(old(tx.Alloc()), tick, tokenId);
            ok == r.Some? && (ok ==> tx.Alloc() == r.value)
  {
    hide TokenIds.RevertRemoved, TokenIds.RestoreMaybeSplit;
    if TokenKey(tick, tokenId) !in tx.tokenIdMeta {
      return false;
    }
    var p := tx.tokenIdMeta[TokenKey(tick, tokenId)];
    var rangesLen: nat := if tick in tx.rangeLengths then tx.rangeLengths[tick] else 0;
    if p.removed {
      ok, rangesLen := RevertRemovedRange(tx, tick, p, rangesLen);
    } else {
      ok, rangesLen := RestoreRangeMaybeSplit(tx, tick, p, rangesLen);
    }
    if !ok {
      return false;
    }
    tx.tokenIdMeta := tx.tokenIdMeta - {TokenKey(tick, tokenId)};
    if p.isInitial {
      tx.availableRanges := tx.availableRanges - {RangeKey(tick, p.index)};
      if rangesLen != 1 {
        return false;
      }
      tx.rangeLengths := tx.rangeLengths - {tick};
    }
  }
}
