/** Transaction scores (nexus/src/lib.rs).  The merge-set limit is a constant of the
    Kaspa consensus library, outside this model; everything holds for any limit. */
module Score {

  const TWO64: nat := 0x1_0000_0000_0000_0000
  const BLOCK_TX_CAPACITY: nat := 1000

  type Limit = n: nat | n > 0 witness 1

  /** Scores of one blue score: `limit` blocks of `BLOCK_TX_CAPACITY` transactions. */
  function Stride(limit: Limit): (s: nat)
    ensures s > 0
  {
    limit * BLOCK_TX_CAPACITY
  }

  /** u64 arithmetic wraps around. */
  function TxScore(limit: Limit, blueScore: nat, blockIndex: nat, txIndex: nat): nat {
    (blueScore * limit * BLOCK_TX_CAPACITY + blockIndex * BLOCK_TX_CAPACITY + txIndex) % TWO64
  }

  function Threshold(limit: Limit, blueScore: nat): nat {
    TxScore(limit, blueScore, 0, 0)
  }

  function BlueScore(limit: Limit, txScore: nat): nat {
    txScore / (limit * BLOCK_TX_CAPACITY)
  }

  /** Every score of the block fits in 64 bits. */
  predicate Fits(limit: Limit, blueScore: nat) {
    (blueScore + 1) * Stride(limit) <= TWO64
  }

  /** The position of a transaction inside its mergeset is within the constants. */
  predicate InBlock(limit: Limit, blockIndex: nat, txIndex: nat) {
    blockIndex < limit && txIndex < BLOCK_TX_CAPACITY
  }

  function Offset(blockIndex: nat, txIndex: nat): nat {
    blockIndex * BLOCK_TX_CAPACITY + txIndex
  }

  lemma OffsetFits(limit: Limit, blockIndex: nat, txIndex: nat)
    requires InBlock(limit, blockIndex, txIndex)
    ensures Offset(blockIndex, txIndex) < Stride(limit)
  {
  }

  lemma ScoreIsExact(limit: Limit, blueScore: nat, blockIndex: nat, txIndex: nat)
    requires Fits(limit, blueScore) && InBlock(limit, blockIndex, txIndex)
    ensures TxScore(limit, blueScore, blockIndex, txIndex) == blueScore * Stride(limit) + Offset(blockIndex, txIndex)
  {
    OffsetFits(limit, blockIndex, txIndex);
    assert (blueScore + 1) * Stride(limit) == blueScore * Stride(limit) + Stride(limit);
    assert blueScore * limit * BLOCK_TX_CAPACITY == blueScore * Stride(limit);
  }

  lemma SmallerBlueFits(limit: Limit, low: nat, high: nat)
    requires low <= high && Fits(limit, high)
    ensures Fits(limit, low)
  {
    assert (low + 1) * Stride(limit) <= (high + 1) * Stride(limit);
  }

  /** Scores are ordered as the triples (blue score, block index, transaction index). */
  lemma ScoresAreLexicographic(limit: Limit, blue0: nat, block0: nat, tx0: nat, blue1: nat, block1: nat, tx1: nat)
    requires Fits(limit, blue0) && InBlock(limit, block0, tx0)
    requires Fits(limit, blue1) && InBlock(limit, block1, tx1)
    ensures TxScore(limit, blue0, block0, tx0) < TxScore(limit, blue1, block1, tx1) <==>
              blue0 < blue1 || (blue0 == blue1 && (block0 < block1 || (block0 == block1 && tx0 < tx1)))
  {
    ScoreIsExact(limit, blue0, block0, tx0);
    ScoreIsExact(limit, blue1, block1, tx1);
    OffsetFits(limit, block0, tx0);
    OffsetFits(limit, block1, tx1);
    hide Stride, TxScore;
    if blue0 < blue1 {
      StridesApart(limit, blue0, blue1);
    } else if blue1 < blue0 {
      StridesApart(limit, blue1, blue0);
    }
  }

  lemma StridesApart(limit: Limit, low: nat, high: nat)
    requires low < high
    ensures low * Stride(limit) + Stride(limit) <= high * Stride(limit)
  {
    assert (low + 1) * Stride(limit) <= high * Stride(limit);
  }

  lemma QuotientOf(q: nat, d: nat, r: nat)
    requires r < d
    ensures (q * d + r) / d == q
  {
    var k := (q * d + r) / d;
    assert k < q ==> (k + 1) * d <= q * d;
    assert k > q ==> k * d >= (q + 1) * d;
  }

  /** Division recovers the blue score, so a score reaches the threshold of `b` exactly
      when its block's blue score reaches `b`. */
  lemma ThresholdSeparates(limit: Limit, blueScore: nat, blockIndex: nat, txIndex: nat, b: nat)
    requires Fits(limit, blueScore) && InBlock(limit, blockIndex, txIndex) && Fits(limit, b)
    ensures BlueScore(limit, TxScore(limit, blueScore, blockIndex, txIndex)) == blueScore
    ensures TxScore(limit, blueScore, blockIndex, txIndex) >= Threshold(limit, b) <==> blueScore >= b
  {
    ScoreIsExact(limit, blueScore, blockIndex, txIndex);
    OffsetFits(limit, blockIndex, txIndex);
    QuotientOf(blueScore, Stride(limit), Offset(blockIndex, txIndex));
    ScoresAreLexicographic(limit, blueScore, blockIndex, txIndex, b, 0, 0);
  }

  /** Without the bound on the block index a score can reach into the next blue score. */
  lemma UnboundedBlockIndexOverlaps(limit: Limit)
    requires Fits(limit, 1)
    ensures TxScore(limit, 0, limit, 0) == Threshold(limit, 1)
  {
    ScoreIsExact(limit, 1, 0, 0);
    assert limit * BLOCK_TX_CAPACITY < TWO64 by { assert 2 * Stride(limit) <= TWO64; }
  }
}
