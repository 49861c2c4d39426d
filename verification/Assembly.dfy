/** From the node's answer to the mergeset that is processed (nexus/src/syncer.rs,
    `process_reconstructed_acceptance_data`): operations, entropy, blue score and hash. */
module Assembly {
  import opened Model
  import opened Score
  import opened Chain
  import opened Keys
  import opened Mergesets
  import opened MergesetOrder
  import opened Entropy

  // ---------------------------------------------------------------- hashes as bytes

  /** The base-256 digits of a hash, most significant first. */
  function HashBytes(h: Hash): (b: seq<bv8>)
    ensures IsHash(b) && forall i :: 0 <= i < HASH_LENGTH ==> b[i] == Be(HASH_LENGTH, h)[i] as bv8
  {
    seq(HASH_LENGTH, i requires 0 <= i < HASH_LENGTH => Be(HASH_LENGTH, h)[i] as bv8)
  }

  function BytesOf(hashes: seq<Hash>): (b: seq<seq<bv8>>)
    ensures |b| == |hashes| && forall i :: 0 <= i < |b| ==> b[i] == HashBytes(hashes[i])
  {
    seq(|hashes|, i requires 0 <= i < |hashes| => HashBytes(hashes[i]))
  }

  lemma BytesAreHashes(hashes: seq<Hash>)
    ensures forall b :: b in BytesOf(hashes) ==> IsHash(b)
  {
  }

  /** The entropy of a list of blocks. */
  function EntropyOfBlocks(hashes: seq<Hash>): bv64 {
    BytesAreHashes(hashes);
    XorAll(AllWords(BytesOf(hashes)))
  }

  function HashesIn(merged: seq<Merged>): (hashes: seq<Hash>)
    ensures |hashes| == |merged| && forall i :: 0 <= i < |merged| ==> hashes[i] == merged[i].hash
  {
    seq(|merged|, i requires 0 <= i < |merged| => merged[i].hash)
  }

  /** The mergeset made of the reconstructed blocks. */
  function MergesetOf(detect: Analyzer, a: Acceptance): Mergeset {
    Mergeset(OpsInBlocks(detect, a.daaScore, a.merged), EntropyOfBlocks(HashesIn(a.merged)) as nat, a.blueScore, a.hash)
  }

  // ---------------------------------------------------------------- the loops

  method DetectInBlock(detect: Analyzer, daaScore: u64, block: nat, merged: Merged) returns (ops: seq<MergesetOp>)
    ensures ops == OpsInBlock(detect, daaScore, block, merged.timestamp, merged.txs)
  {
    ops := [];
    for i := 0 to |merged.txs|
      invariant ops == OpsInBlock(detect, daaScore, block, merged.timestamp, merged.txs[..i])
    {
      assert merged.txs[..i + 1][..i] == merged.txs[..i];
      var found := detect(merged.txs[i], merged.timestamp, daaScore);
      if found.Some? {
        ops := ops + [MergesetOp(block, i, found.value)];
      }
    }
    assert merged.txs[..|merged.txs|] == merged.txs;
  }

  method ProcessReconstructed(detect: Analyzer, a: Acceptance) returns (m: Mergeset)
    ensures m == MergesetOf(detect, a)
    ensures m.hash == a.hash && m.blueScore == a.blueScore && m.entropy == EntropyOfBlocks(HashesIn(a.merged)) as nat
    ensures RisingPositions(m.ops)
    ensures forall o :: o in m.ops <==>
              && o.blockIndex < |a.merged| && o.txIndex < |a.merged[o.blockIndex].txs|
              && detect(a.merged[o.blockIndex].txs[o.txIndex], a.merged[o.blockIndex].timestamp, a.daaScore) == Some(o.op)
  {
    hide RisingPositions;
    PositionsRise(detect, a.daaScore, a.merged);
    hide AllWords, XorAll, HashBytes;
    BytesAreHashes(HashesIn(a.merged));
    var entropy := EntropyOf(BytesOf(HashesIn(a.merged)));
    var operations := [];
    for i := 0 to |a.merged|
      invariant operations == OpsInBlocks(detect, a.daaScore, a.merged[..i])
    {
      assert a.merged[..i + 1][..i] == a.merged[..i];
      var ops := DetectInBlock(detect, a.daaScore, i, a.merged[i]);
      operations := operations + ops;
    }
    assert a.merged[..|a.merged|] == a.merged;
    m := Mergeset(operations, entropy as nat, a.blueScore, a.hash);
  }

  // ---------------------------------------------------------------- any listing gives the same mergeset

  /** Both nodes have the same blocks; they may list the mergeset of the accepting block in
      another order, or a blue block as a red one. */
  ghost predicate SameAnswer(node: map<Hash, Header>, node': map<Hash, Header>, b: ChainBlock) {
    && (forall h :: EntryFor(node, h) == EntryFor(node', h))
    && (b.hash.Some? && b.hash.value in node && node[b.hash.value].verbose.Some? <==>
        b.hash.Some? && b.hash.value in node' && node'[b.hash.value].verbose.Some?)
    && (b.hash.Some? && b.hash.value in node && node[b.hash.value].verbose.Some? ==>
          var v, v' := node[b.hash.value].verbose.value, node'[b.hash.value].verbose.value;
          v.selectedParent == v'.selectedParent && Named(v.blues) + Named(v.reds) == Named(v'.blues) + Named(v'.reds))
  }

  lemma MergesetOfEither(node: map<Hash, Header>, node': map<Hash, Header>, parent: Hash, members: set<Hash>, txs: seq<Accepted>, m: seq<Merged>)
    requires forall h :: EntryFor(node, h) == EntryFor(node', h)
    ensures IsMergeset(node, parent, members, txs, m) ==> IsMergeset(node', parent, members, txs, m)
    ensures Answerable(node, parent, members, txs) ==> Answerable(node', parent, members, txs)
  {
    hide EntryFor, Increasing, FilledBlock;
    if IsMergeset(node, parent, members, txs, m) {
      var entries :| Lists(node, members, entries) && |m| == |entries| + 1 && m[0] == FilledBlock(EntryFor(node, parent).value, txs)
        && forall i :: 0 <= i < |entries| ==> m[i + 1] == FilledBlock(entries[i], txs);
      assert Lists(node', members, entries);
    }
  }

  /** However the node lists a mergeset, the reconstruction fails or succeeds alike and gives
      the same mergeset, entropy included; so the same token ids are drawn from it and the
      whole store after it is the same. */
  lemma AnyListingGivesTheSame(node: map<Hash, Header>, node': map<Hash, Header>, b: ChainBlock, txs: seq<Accepted>,
                               r: Option<Acceptance>, r': Option<Acceptance>, detect: Analyzer, db: Db, limit: Limit, last: nat)
    requires SameAnswer(node, node', b) && IsAcceptance(node, b, txs, r) && IsAcceptance(node', b, txs, r')
    ensures r == r'
    ensures r.Some? ==> AddMergeset(db, limit, last, MergesetOf(detect, r.value)) == AddMergeset(db, limit, last, MergesetOf(detect, r'.value))
  {
    hide EntryFor, IsMergeset, Answerable, AddMergeset, MergesetOf, Named;
    if b.hash.Some? && b.hash.value in node && node[b.hash.value].verbose.Some? {
      var v, v' := node[b.hash.value].verbose.value, node'[b.hash.value].verbose.value;
      var members := Members(v.selectedParent, v.blues, v.reds, txs);
      assert members == Members(v'.selectedParent, v'.blues, v'.reds, txs) by { SameMembers(v, v', txs); }
      MergesetOfEither(node, node', v.selectedParent, members, txs, []);
      MergesetOfEither(node', node, v.selectedParent, members, txs, if r'.Some? then r'.value.merged else []);
      if r.Some? && r'.Some? {
        MergesetIsUnique(node, v.selectedParent, members, txs, r.value.merged, r'.value.merged);
      }
    }
  }

  /** What is asked of the node, and what the accepting block's mergeset is, both in terms
      of the answers alone. */
  lemma WhatIsMerged(node: map<Hash, Header>, b: ChainBlock, txs: seq<Accepted>, r: Option<Acceptance>)
    requires IsAcceptance(node, b, txs, r)
    ensures r.Some? <==>
              && b.hash.Some? && b.blueScore.Some? && b.daaScore.Some?
              && b.hash.value in node && node[b.hash.value].verbose.Some?
              && (forall h :: Asked(node[b.hash.value].verbose.value, txs, h) ==> h == ORIGIN || h in node)
              && (forall x :: x in txs ==> x.block.Some?)
    ensures r.Some? ==>
              var v, m := node[b.hash.value].verbose.value, r.value.merged;
              && m != [] && m[0].hash == v.selectedParent
              && (forall h :: Asked(v, txs, h) <==> exists i :: 0 <= i < |m| && m[i].hash == h)
              && (forall i, j :: 0 <= i < j < |m| ==> m[i].hash != m[j].hash)
              && (forall i, j :: 1 <= i < j < |m| ==>
                    var w, u := WorkOf(node, m[i].hash), WorkOf(node, m[j].hash); w < u || (w == u && m[i].hash < m[j].hash))
              && (forall i :: 0 <= i < |m| ==> m[i].timestamp == TimeOf(node, m[i].hash) && HasOwnInOrder(m[i].txs, txs, m[i].hash))
  {
    hide IsMergeset, EntryFor, WorkOf, TimeOf, HasOwnInOrder, Members, Asked;
    if b.hash.Some? && b.hash.value in node && node[b.hash.value].verbose.Some? {
      var v := node[b.hash.value].verbose.value;
      var members := Members(v.selectedParent, v.blues, v.reds, txs);
      AskedAreMembers(v, txs);
      forall h ensures EntryFor(node, h).Some? <==> h == ORIGIN || h in node {
        EntryIsTheAnswer(node, h);
      }
      assert Asked(v, txs, v.selectedParent);
      if r.Some? {
        var m := r.value.merged;
        BlocksAreOrdered(node, v.selectedParent, members, txs, m);
        EveryTransactionLandsOnce(node, v.selectedParent, v.blues, v.reds, txs, m);
        forall h ensures Asked(v, txs, h) <==> exists i :: 0 <= i < |m| && m[i].hash == h {
          if h in members {
            var i :| 1 <= i < |m| && m[i].hash == h;
          }
          if i :| 0 <= i < |m| && m[i].hash == h {
            assert i == 0 || h in members;
          }
          assert m[0].hash == v.selectedParent;
        }
      }
    }
  }

  /** A block that belongs to the mergeset: the selected parent, a listed one, or the block of
      an accepted transaction. */
  ghost predicate Asked(v: VerboseData, txs: seq<Accepted>, h: Hash) {
    h == v.selectedParent || h in v.blues || h in v.reds || exists x :: x in txs && x.block == Some(h)
  }

  lemma AskedAreMembers(v: VerboseData, txs: seq<Accepted>)
    ensures var members := Members(v.selectedParent, v.blues, v.reds, txs);
            && v.selectedParent !in members
            && forall h :: Asked(v, txs, h) <==> h == v.selectedParent || h in members
  {
  }

  lemma SameMembers(v: VerboseData, v': VerboseData, txs: seq<Accepted>)
    requires v.selectedParent == v'.selectedParent && Named(v.blues) + Named(v.reds) == Named(v'.blues) + Named(v'.reds)
    ensures Members(v.selectedParent, v.blues, v.reds, txs) == Members(v'.selectedParent, v'.blues, v'.reds, txs)
  {
    hide Named, BlocksNamed;
  }

  // ---------------------------------------------------------------- the entropy is that of the blocks

  ghost predicate Enumerates(hashes: seq<Hash>, s: set<Hash>) {
    && (forall h :: h in hashes <==> h in s)
    && (forall i, j :: 0 <= i < j < |hashes| ==> hashes[i] != hashes[j])
  }

  lemma SameMultiset(a: seq<Hash>, b: seq<Hash>, s: set<Hash>)
    requires Enumerates(a, s) && Enumerates(b, s)
    ensures multiset(a) == multiset(b)
  {
    forall h ensures multiset(a)[h] == multiset(b)[h] {
      OnceEach(a, h);
      OnceEach(b, h);
    }
  }

  lemma {:induction false} OnceEach(a: seq<Hash>, h: Hash)
    requires forall i, j :: 0 <= i < j < |a| ==> a[i] != a[j]
    ensures multiset(a)[h] == if h in a then 1 else 0
  {
    if a != [] {
      var n := |a| - 1;
      OnceEach(a[..n], h);
      assert a == a[..n] + [a[n]];
    }
  }

  lemma {:induction false} BytesKeepMultiset(a: seq<Hash>, b: seq<Hash>)
    requires multiset(a) == multiset(b)
    ensures multiset(BytesOf(a)) == multiset(BytesOf(b))
    decreases |a|
  {
    hide HashBytes;
    if a == [] {
      NoneLeft(b);
    } else {
      var n := |a| - 1;
      var i := WithoutLast(a, b);
      BytesKeepMultiset(a[..n], b[..i] + b[i + 1..]);
      BytesMove(a, n);
      assert a[..n] + a[n + 1..] == a[..n];
      BytesMove(b, i);
    }
  }

  lemma BytesWithout(s: seq<Hash>, i: nat)
    requires i < |s|
    ensures BytesOf(s)[..i] + BytesOf(s)[i + 1..] == BytesOf(s[..i] + s[i + 1..])
  {
    hide HashBytes, BytesOf;
    var was, now := BytesOf(s), BytesOf(s[..i] + s[i + 1..]);
    forall j | 0 <= j < |s| - 1 ensures (was[..i] + was[i + 1..])[j] == now[j] {
      var k := if j < i then j else j + 1;
      assert (s[..i] + s[i + 1..])[j] == s[k] && (was[..i] + was[i + 1..])[j] == was[k];
    }
  }

  lemma BytesMove(s: seq<Hash>, i: nat)
    requires i < |s|
    ensures multiset(BytesOf(s)) == multiset(BytesOf(s[..i] + s[i + 1..])) + multiset{HashBytes(s[i])}
  {
    hide HashBytes;
    var b := BytesOf(s);
    BytesWithout(s, i);
    RemovingOne(b, i);
  }

  /** The entropy of a mergeset is that of the selected parent and the other merged blocks,
      each taken once, in whatever order. */
  lemma EntropyIsOfTheBlocks(node: map<Hash, Header>, parent: Hash, members: set<Hash>, txs: seq<Accepted>, m: seq<Merged>, hashes: seq<Hash>)
    requires IsMergeset(node, parent, members, txs, m) && parent !in members && Enumerates(hashes, members + {parent})
    ensures EntropyOfBlocks(HashesIn(m)) == EntropyOfBlocks(hashes)
  {
    hide IsMergeset, XorAll, AllWords, HashBytes, WorkOf, TimeOf;
    BlocksAreOrdered(node, parent, members, txs, m);
    forall h ensures h in HashesIn(m) <==> h in members + {parent} {
      if h in members {
        var i :| 1 <= i < |m| && m[i].hash == h;
        assert HashesIn(m)[i] == h;
      }
      assert HashesIn(m)[0] == parent;
      if h in HashesIn(m) {
        var i :| 0 <= i < |m| && HashesIn(m)[i] == h;
        assert i == 0 || (1 <= i < |m| && m[i].hash == h);
      }
    }
    SameMultiset(HashesIn(m), hashes, members + {parent});
    BytesKeepMultiset(HashesIn(m), hashes);
    BytesAreHashes(HashesIn(m));
    BytesAreHashes(hashes);
    EntropyIgnoresOrder(BytesOf(HashesIn(m)), BytesOf(hashes));
  }
}
