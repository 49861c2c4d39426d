/** Whatever mix of reorganisations and new blocks an indexer went through, its tables
    are those of an indexer that was given the surviving blocks only. */
module ChainReplay {
  import opened Model
  import opened Ledger
  import opened Filtering
  import opened Score
  import opened Chain

  // ---------------------------------------------------------------- chains as histories

  function OpOf(limit: Limit, m: Mergeset, i: nat): ContextOp
    requires i < |m.ops|
  {
    ContextOp(TxScore(limit, m.blueScore, m.ops[i].blockIndex, m.ops[i].txIndex), m.ops[i].op, m.entropy)
  }

  function BlockOps(limit: Limit, m: Mergeset): seq<ContextOp> {
    seq(|m.ops|, i requires 0 <= i < |m.ops| => OpOf(limit, m, i))
  }

  /** All operations of a chain, in order. */
  function OpsOf(limit: Limit, ms: seq<Mergeset>): seq<ContextOp> {
    if ms == [] then [] else OpsOf(limit, ms[..|ms| - 1]) + BlockOps(limit, ms[|ms| - 1])
  }

  function BlocksOf(ms: seq<Mergeset>): set<BlockKey> {
    set m | m in ms :: BlockKey(m.blueScore, m.hash)
  }

  function ScoresOf(ms: seq<Mergeset>): map<Hash, u64> {
    if ms == [] then map[] else ScoresOf(ms[..|ms| - 1])[ms[|ms| - 1].hash := ms[|ms| - 1].blueScore]
  }

  /** Positions in a mergeset follow the order of its operations. */
  ghost predicate OrderedBlock(limit: Limit, m: Mergeset) {
    && Fits(limit, m.blueScore)
    && (forall i :: 0 <= i < |m.ops| ==> InBlock(limit, m.ops[i].blockIndex, m.ops[i].txIndex) && ValidOp(m.ops[i].op))
    && (forall i, j :: 0 <= i < j < |m.ops| ==>
          m.ops[i].blockIndex < m.ops[j].blockIndex ||
          (m.ops[i].blockIndex == m.ops[j].blockIndex && m.ops[i].txIndex < m.ops[j].txIndex))
  }

  ghost predicate DistinctTxIds(h: seq<ContextOp>) {
    forall i, j :: 0 <= i < j < |h| ==> h[i].op.common.txId != h[j].op.common.txId
  }

  /** Blue scores strictly increase, hashes and transaction ids are distinct. */
  ghost predicate ValidChain(limit: Limit, ms: seq<Mergeset>) {
    && (forall i :: 0 <= i < |ms| ==> OrderedBlock(limit, ms[i]))
    && (forall i, j :: 0 <= i < j < |ms| ==> ms[i].blueScore < ms[j].blueScore && ms[i].hash != ms[j].hash)
    && DistinctTxIds(OpsOf(limit, ms))
  }

  ghost predicate AllBelow(h: seq<ContextOp>, threshold: nat) {
    forall i :: 0 <= i < |h| ==> h[i].score < threshold
  }

  ghost predicate AllFrom(h: seq<ContextOp>, threshold: nat) {
    forall i :: 0 <= i < |h| ==> h[i].score >= threshold
  }

  ghost predicate Rising(h: seq<ContextOp>) {
    forall i, j :: 0 <= i < j < |h| ==> h[i].score < h[j].score
  }

  lemma BlockIsRising(limit: Limit, m: Mergeset)
    requires OrderedBlock(limit, m)
    ensures Rising(BlockOps(limit, m)) && forall i :: 0 <= i < |m.ops| ==> ValidOp(BlockOps(limit, m)[i].op)
  {
    forall i, j | 0 <= i < j < |m.ops| ensures BlockOps(limit, m)[i].score < BlockOps(limit, m)[j].score {
      ScoresAreLexicographic(limit, m.blueScore, m.ops[i].blockIndex, m.ops[i].txIndex,
                             m.blueScore, m.ops[j].blockIndex, m.ops[j].txIndex);
    }
  }

  /** A block is on one side of any threshold, by its blue score. */
  lemma BlockSide(limit: Limit, m: Mergeset, b: nat)
    requires OrderedBlock(limit, m) && Fits(limit, b)
    ensures m.blueScore < b ==> AllBelow(BlockOps(limit, m), Threshold(limit, b))
    ensures m.blueScore >= b ==> AllFrom(BlockOps(limit, m), Threshold(limit, b))
  {
    hide Threshold, TxScore, Fits, InBlock;
    forall i | 0 <= i < |m.ops|
      ensures BlockOps(limit, m)[i].score >= Threshold(limit, b) <==> m.blueScore >= b
    {
      ThresholdSeparates(limit, m.blueScore, m.ops[i].blockIndex, m.ops[i].txIndex, b);
    }
  }

  lemma {:induction false} ChainBelow(limit: Limit, ms: seq<Mergeset>, b: nat)
    requires (forall i :: 0 <= i < |ms| ==> OrderedBlock(limit, ms[i]) && ms[i].blueScore < b) && Fits(limit, b)
    ensures AllBelow(OpsOf(limit, ms), Threshold(limit, b))
  {
    hide Threshold, OrderedBlock, Fits;
    if ms != [] {
      ChainBelow(limit, ms[..|ms| - 1], b);
      BlockSide(limit, ms[|ms| - 1], b);
    }
  }

  lemma PrefixChainIsValid(limit: Limit, ms: seq<Mergeset>, n: nat)
    requires ValidChain(limit, ms) && n <= |ms|
    ensures ValidChain(limit, ms[..n])
    decreases |ms| - n
  {
    if n < |ms| {
      PrefixChainIsValid(limit, ms, n + 1);
      var p := ms[..n + 1];
      assert p[..|p| - 1] == ms[..n];
      assert forall i :: 0 <= i < |OpsOf(limit, ms[..n])| ==> OpsOf(limit, ms[..n])[i] == OpsOf(limit, p)[i];
    } else {
      assert ms[..n] == ms;
    }
  }

  lemma RisingJoin(a: seq<ContextOp>, b: seq<ContextOp>, threshold: nat)
    requires Rising(a) && Rising(b) && AllBelow(a, threshold) && AllFrom(b, threshold)
    ensures Rising(a + b)
  {
  }

  lemma {:induction false} ChainIsHistory(limit: Limit, ms: seq<Mergeset>)
    requires ValidChain(limit, ms)
    ensures ValidHistory(OpsOf(limit, ms))
    decreases |ms|
  {
    if ms != [] {
      hide OrderedBlock, Threshold, Fits;
      var prefix, m := ms[..|ms| - 1], ms[|ms| - 1];
      PrefixChainIsValid(limit, ms, |ms| - 1);
      ChainIsHistory(limit, prefix);
      assert OrderedBlock(limit, m);
      assert Fits(limit, m.blueScore) by { OrderedFits(limit, m); }
      BlockIsRising(limit, m);
      ChainBelow(limit, prefix, m.blueScore);
      BlockSide(limit, m, m.blueScore);
      RisingJoin(OpsOf(limit, prefix), BlockOps(limit, m), Threshold(limit, m.blueScore));
    }
  }

  lemma OrderedFits(limit: Limit, m: Mergeset)
    requires OrderedBlock(limit, m)
    ensures Fits(limit, m.blueScore)
  {
  }

  // ---------------------------------------------------------------- cutting a chain

  /** The blocks below a blue score. */
  function BelowBlue(ms: seq<Mergeset>, b: nat): (p: seq<Mergeset>)
    ensures |p| <= |ms| && p == ms[..|p|]
    ensures p != [] ==> p[|p| - 1].blueScore < b
    ensures |p| < |ms| ==> ms[|p|].blueScore >= b
    decreases |ms|
  {
    if ms == [] || ms[|ms| - 1].blueScore < b then ms else BelowBlue(ms[..|ms| - 1], b)
  }

  lemma {:induction false} BelowStops(a: seq<ContextOp>, b: seq<ContextOp>, threshold: nat)
    requires AllBelow(a, threshold) && AllFrom(b, threshold)
    ensures Below(a + b, threshold) == a
    decreases |b|
  {
    if b == [] {
      assert a + b == a;
    } else {
      BelowStops(a, b[..|b| - 1], threshold);
      assert (a + b)[..|a + b| - 1] == a + b[..|b| - 1];
    }
  }

  /** Cutting the operations at the threshold of `b` is cutting the chain at `b`. */
  lemma {:induction false} CutOps(limit: Limit, ms: seq<Mergeset>, b: nat)
    requires ValidChain(limit, ms) && Fits(limit, b)
    ensures Below(OpsOf(limit, ms), Threshold(limit, b)) == OpsOf(limit, BelowBlue(ms, b))
    decreases |ms|
  {
    hide OrderedBlock, Threshold, Fits;
    if ms == [] {
    } else if ms[|ms| - 1].blueScore < b {
      ChainBelow(limit, ms, b);
      BelowStops(OpsOf(limit, ms), [], Threshold(limit, b));
      assert OpsOf(limit, ms) + [] == OpsOf(limit, ms);
    } else {
      var prefix, m := ms[..|ms| - 1], ms[|ms| - 1];
      PrefixChainIsValid(limit, ms, |ms| - 1);
      CutOps(limit, prefix, b);
      BlockSide(limit, m, b);
      BelowIgnores(OpsOf(limit, prefix), BlockOps(limit, m), Threshold(limit, b));
    }
  }

  lemma {:induction false} BelowIgnores(a: seq<ContextOp>, b: seq<ContextOp>, threshold: nat)
    requires AllFrom(b, threshold)
    ensures Below(a + b, threshold) == Below(a, threshold)
    decreases |b|
  {
    if b == [] {
      assert a + b == a;
    } else {
      BelowIgnores(a, b[..|b| - 1], threshold);
      assert (a + b)[..|a + b| - 1] == a + b[..|b| - 1];
    }
  }

  lemma {:induction false} ScoresMembers(ms: seq<Mergeset>)
    requires forall i, j :: 0 <= i < j < |ms| ==> ms[i].hash != ms[j].hash
    ensures forall h :: h in ScoresOf(ms) <==> exists m :: m in ms && m.hash == h
    ensures forall m :: m in ms ==> m.hash in ScoresOf(ms) && ScoresOf(ms)[m.hash] == m.blueScore
  {
    if ms != [] {
      var prefix, last := ms[..|ms| - 1], ms[|ms| - 1];
      ScoresMembers(prefix);
      assert forall m :: m in ms <==> m in prefix || m == last;
      assert forall m :: m in prefix ==> m.hash != last.hash;
      forall h | h in ScoresOf(ms) ensures exists m :: m in ms && m.hash == h {
        if h == last.hash {
          assert last in ms;
        } else {
          var m :| m in prefix && m.hash == h;
          assert m in ms;
        }
      }
    }
  }

  lemma CutKeys(ms: seq<Mergeset>, p: seq<Mergeset>, b: nat)
    requires forall m :: m in p <==> m in ms && m.blueScore < b
    ensures BlocksOf(p) == BlocksOf(ms) - BlocksSince(BlocksOf(ms), b)
  {
    forall k | k in BlocksOf(ms) ensures k in BlocksOf(p) <==> k.blueScore < b {
      var m :| m in ms && k == BlockKey(m.blueScore, m.hash);
    }
  }

  /** A block's hash is among the hashes of the blocks cut off only if the block is. */
  lemma CutHashes(ms: seq<Mergeset>, b: nat, m: Mergeset)
    requires m in ms
    requires forall l, k :: l in ms && k in ms && l.hash == k.hash ==> l.blueScore == k.blueScore
    ensures m.hash in HashesOf(BlocksSince(BlocksOf(ms), b)) <==> m.blueScore >= b
  {
    var gone := BlocksSince(BlocksOf(ms), b);
    assert BlockKey(m.blueScore, m.hash) in BlocksOf(ms);
    if m.blueScore >= b {
      assert BlockKey(m.blueScore, m.hash) in gone;
    }
    forall l | l in gone && l.hash == m.hash ensures l.blueScore == m.blueScore {
      var k :| k in ms && l == BlockKey(k.blueScore, k.hash);
    }
  }

  lemma CutBlocks(limit: Limit, ms: seq<Mergeset>, b: nat)
    requires ValidChain(limit, ms)
    ensures BlocksOf(BelowBlue(ms, b)) == BlocksOf(ms) - BlocksSince(BlocksOf(ms), b)
    ensures ScoresOf(BelowBlue(ms, b)) == ScoresOf(ms) - HashesOf(BlocksSince(BlocksOf(ms), b))
  {
    hide ValidChain, BlocksOf, BlocksSince, HashesOf, ScoresOf, BelowBlue;
    var p := BelowBlue(ms, b);
    var cut := ScoresOf(ms) - HashesOf(BlocksSince(BlocksOf(ms), b));
    CutMembers(limit, ms, b);
    CutKeys(ms, p, b);
    PrefixChainIsValid(limit, ms, |p|);
    HashesDiffer(limit, ms);
    HashesDiffer(limit, p);
    ScoresMembers(ms);
    ScoresMembers(p);
    forall l, k | l in ms && k in ms && l.hash == k.hash ensures l.blueScore == k.blueScore {
      assert ScoresOf(ms)[l.hash] == l.blueScore && ScoresOf(ms)[k.hash] == k.blueScore;
    }
    forall m | m in ms ensures m.hash in HashesOf(BlocksSince(BlocksOf(ms), b)) <==> m.blueScore >= b {
      CutHashes(ms, b, m);
    }
    forall h | h in cut ensures h in ScoresOf(p) && ScoresOf(p)[h] == cut[h] {
      var m :| m in ms && m.hash == h;
    }
    forall h | h in ScoresOf(p) ensures h in cut {
      var m :| m in p && m.hash == h;
    }
    assert ScoresOf(p) == cut;
  }

  lemma HashesDiffer(limit: Limit, ms: seq<Mergeset>)
    requires ValidChain(limit, ms)
    ensures forall i, j :: 0 <= i < j < |ms| ==> ms[i].hash != ms[j].hash
  {
  }

  lemma CutMembers(limit: Limit, ms: seq<Mergeset>, b: nat)
    requires ValidChain(limit, ms)
    ensures forall m :: m in BelowBlue(ms, b) <==> m in ms && m.blueScore < b
  {
    var p := BelowBlue(ms, b);
    forall i | 0 <= i < |ms| ensures ms[i].blueScore < b <==> i < |p| {
      if i < |p| {
        assert i == |p| - 1 || ms[i].blueScore < ms[|p| - 1].blueScore;
      } else {
        assert i == |p| || ms[|p|].blueScore < ms[i].blueScore;
      }
    }
    forall m | m in ms && m.blueScore < b ensures m in p {
      var i :| 0 <= i < |ms| && ms[i] == m;
      assert p[i] == m;
    }
  }
}
