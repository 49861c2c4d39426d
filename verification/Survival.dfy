/** Which blocks survive a change, block by block, without the scores and lookups that
    find them (nexus/src/processor.rs, `identify_reorg_blocks_and_delete` and
    `process_additions`). */
module Survival {
  import opened Model
  import opened Score
  import opened Chain
  import opened ChainReplay
  import opened ChainTheorem

  /** A block stays when it lies below every removed block of the chain and below the forced
      score. */
  ghost predicate Stays(ms: seq<Mergeset>, removed: seq<Hash>, forced: Option<u64>, m: Mergeset) {
    && m in ms
    && (forall l :: l in ms && l.hash in removed ==> m.blueScore < l.blueScore)
    && (forced.Some? ==> m.blueScore < forced.value)
  }

  lemma CutIsWhatStays(limit: Limit, ms: seq<Mergeset>, removed: seq<Hash>, forced: Option<u64>)
    requires ValidChain(limit, ms)
    ensures forall m :: m in CutAt(ms, removed, forced) <==> Stays(ms, removed, forced, m)
  {
    hide ValidChain, ScoresOf, BelowBlue, LeastOf;
    var scores := ScoresOf(ms);
    HashesDiffer(limit, ms);
    ScoresMembers(ms);
    LeastIsLower(scores, removed);
    LeastIsRemoved(scores, removed);
    var b := RollbackScore(LeastOf(scores, removed), forced);
    forall m | m in ms ensures m in CutAt(ms, removed, forced) <==> Stays(ms, removed, forced, m) {
      if b.Some? {
        CutMembers(limit, ms, b.value);
        if LeastOf(scores, removed).Some? {
          var h :| h in removed && h in scores && scores[h] == LeastOf(scores, removed).value;
          var l :| l in ms && l.hash == h;
          assert scores[l.hash] == l.blueScore;
        }
      }
      assert forall l :: l in ms && l.hash in removed ==> l.hash in scores && scores[l.hash] == l.blueScore;
    }
    CutIsPrefix(ms, removed, forced);
  }

  lemma CutIsPrefix(ms: seq<Mergeset>, removed: seq<Hash>, forced: Option<u64>)
    ensures var cut := CutAt(ms, removed, forced); |cut| <= |ms| && cut == ms[..|cut|]
    ensures forall m :: m in CutAt(ms, removed, forced) ==> m in ms
  {
  }

  lemma {:induction false} LeastIsRemoved(scores: map<Hash, u64>, removed: seq<Hash>)
    ensures LeastOf(scores, removed).Some? ==>
              exists h :: h in removed && h in scores && scores[h] == LeastOf(scores, removed).value
  {
    if removed != [] {
      var n := |removed| - 1;
      LeastIsRemoved(scores, removed[..n]);
      if LeastOf(scores, removed) == LeastOf(scores, removed[..n]) && LeastOf(scores, removed).Some? {
        var h :| h in removed[..n] && h in scores && scores[h] == LeastOf(scores, removed).value;
        assert h in removed;
      } else if removed[n] in scores {
        assert removed[n] in removed && scores[removed[n]] == LeastOf(scores, removed).value;
      }
    }
  }

  /** A delivered block is new when no block of the chain is later, and it is not one of them. */
  ghost predicate IsNew(cut: seq<Mergeset>, m: Mergeset) {
    forall l :: l in cut ==> l.blueScore <= m.blueScore && !(l.blueScore == m.blueScore && l.hash == m.hash)
  }

  lemma {:induction false} NewsMembers(blocks: set<BlockKey>, last: u64, more: seq<Mergeset>)
    ensures forall m :: m in News(blocks, last, more) ==> m in more && m.blueScore >= last && BlockKey(m.blueScore, m.hash) !in blocks
    ensures forall m :: m in more && m.blueScore >= last && BlockKey(m.blueScore, m.hash) !in blocks ==>
              BlockKey(m.blueScore, m.hash) in BlocksOf(News(blocks, last, more))
  {
    hide BlocksOf;
    if more != [] {
      var n := |more| - 1;
      NewsMembers(blocks, last, more[..n]);
      assert forall m :: m in more <==> m in more[..n] || m == more[n];
      BlocksJoin(News(blocks, last, more[..n]), more[n]);
    }
  }

  lemma LastIsGreatest(ms: seq<Mergeset>, m: Mergeset)
    ensures (m.blueScore >= LastBlueScore(BlocksOf(ms)) && BlockKey(m.blueScore, m.hash) !in BlocksOf(ms)) <==> IsNew(ms, m)
  {
    if ms != [] {
      assert BlockKey(ms[0].blueScore, ms[0].hash) in BlocksOf(ms);
      var tip := Tip(BlocksOf(ms));
      var l :| l in ms && tip == BlockKey(l.blueScore, l.hash);
      forall k | k in ms ensures k.blueScore <= tip.blueScore {
        assert BlockKey(k.blueScore, k.hash) in BlocksOf(ms);
      }
    } else {
      assert BlocksOf(ms) == {};
    }
  }

  /** After a change the chain holds the blocks that stay and, of the delivered ones, those
      that are new, one for each blue score and hash. */
  lemma SurvivorsAre(limit: Limit, ms: seq<Mergeset>, change: ChainChange)
    requires ValidChain(limit, ms)
    ensures var cut, after := CutAt(ms, change.removed, change.forced), Survivors(ms, change);
            && (forall m :: m in cut <==> Stays(ms, change.removed, change.forced, m))
            && (forall m :: m in after ==> m in cut || (m in change.mergesets && IsNew(cut, m)))
            && (forall m :: m in cut ==> m in after)
            && (forall m :: m in change.mergesets && IsNew(cut, m) ==> exists l :: l in after && l.blueScore == m.blueScore && l.hash == m.hash)
  {
    hide ValidChain, CutAt, News, LastBlueScore, BlocksOf, Stays, IsNew;
    var cut, more := CutAt(ms, change.removed, change.forced), change.mergesets;
    CutIsWhatStays(limit, ms, change.removed, change.forced);
    var blocks := BlocksOf(cut);
    NewsMembers(blocks, LastBlueScore(blocks), more);
    forall m: Mergeset ensures (m.blueScore >= LastBlueScore(blocks) && BlockKey(m.blueScore, m.hash) !in blocks) <==> IsNew(cut, m) {
      LastIsGreatest(cut, m);
    }
    var news := News(blocks, LastBlueScore(blocks), more);
    forall m | m in more && IsNew(cut, m)
      ensures exists l :: l in Survivors(ms, change) && l.blueScore == m.blueScore && l.hash == m.hash
    {
      KeyOfSome(news, m);
      var l :| l in news && l.blueScore == m.blueScore && l.hash == m.hash;
      assert l in cut + news;
    }
  }

  lemma KeyOfSome(ms: seq<Mergeset>, m: Mergeset)
    requires BlockKey(m.blueScore, m.hash) in BlocksOf(ms)
    ensures exists l :: l in ms && l.blueScore == m.blueScore && l.hash == m.hash
  {
  }
}
