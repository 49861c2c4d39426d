/** What the reconstruction promises: the order of the blocks does not depend on how the
    node lists them, every accepted transaction lands in exactly one block, and the
    operations get rising positions (nexus/src/syncer.rs). */
module MergesetOrder {
  import opened Model
  import opened Score
  import opened Chain
  import opened ChainReplay
  import opened Mergesets

  // ---------------------------------------------------------------- the order is fixed

  lemma SameLast(a: seq<Entry>, b: seq<Entry>)
    requires Increasing(a) && Increasing(b) && a != [] && b != []
    requires forall e :: e in a <==> e in b
    ensures a[|a| - 1] == b[|b| - 1]
  {
    var x, y := a[|a| - 1], b[|b| - 1];
    assert x in b && y in a;
    var i :| 0 <= i < |b| && b[i] == x;
    var j :| 0 <= j < |a| && a[j] == y;
  }

  lemma {:induction false} SameMembersSameOrder(a: seq<Entry>, b: seq<Entry>)
    requires Increasing(a) && Increasing(b)
    requires forall e :: e in a <==> e in b
    ensures a == b
    decreases |a|
  {
    if a == [] {
      if b != [] { SomeMember(b); }
    } else if b == [] {
      SomeMember(a);
    } else {
      var n, m := |a| - 1, |b| - 1;
      SameLast(a, b);
      NotRepeated(a);
      NotRepeated(b);
      forall e: Entry ensures e in a[..n] <==> e in b[..m] {
        assert e in a <==> e in b;
      }
      SameMembersSameOrder(a[..n], b[..m]);
      assert a == a[..n] + [a[n]] && b == b[..m] + [b[m]];
    }
  }

  lemma SomeMember(a: seq<Entry>)
    requires a != []
    ensures exists e :: e in a
  {
    assert a[0] in a;
  }

  lemma NotRepeated(a: seq<Entry>)
    requires Increasing(a) && a != []
    ensures forall e :: e in a[..|a| - 1] <==> e in a && e != a[|a| - 1]
  {
    forall e | e in a && e != a[|a| - 1] ensures e in a[..|a| - 1] {
      var i :| 0 <= i < |a| && a[i] == e;
      assert a[..|a| - 1][i] == e;
    }
  }

  /** The mergeset is determined by the parent, the set of members and the transactions. */
  lemma MergesetIsUnique(node: map<Hash, Header>, parent: Hash, members: set<Hash>, txs: seq<Accepted>, m: seq<Merged>, m': seq<Merged>)
    requires IsMergeset(node, parent, members, txs, m) && IsMergeset(node, parent, members, txs, m')
    ensures m == m'
  {
    hide Increasing;
    var a :| Lists(node, members, a) && |m| == |a| + 1 && m[0] == FilledBlock(EntryFor(node, parent).value, txs)
      && forall i :: 0 <= i < |a| ==> m[i + 1] == FilledBlock(a[i], txs);
    var b :| Lists(node, members, b) && |m'| == |b| + 1 && m'[0] == FilledBlock(EntryFor(node, parent).value, txs)
      && forall i :: 0 <= i < |b| ==> m'[i + 1] == FilledBlock(b[i], txs);
    SameMembersSameOrder(a, b);
    forall i | 0 <= i < |m| ensures m[i] == m'[i] {
      assert i == 0 || m[i - 1 + 1] == FilledBlock(a[i - 1], txs);
    }
  }

  /** Listing the blues and reds in another order, or a blue as a red, gives the same
      blocks in the same order. */
  lemma ListingOrderDoesNotMatter(node: map<Hash, Header>, parent: Hash, blues: seq<Hash>, reds: seq<Hash>,
                                  blues': seq<Hash>, reds': seq<Hash>, txs: seq<Accepted>, m: seq<Merged>, m': seq<Merged>)
    requires Named(blues) + Named(reds) == Named(blues') + Named(reds')
    requires IsMergeset(node, parent, Members(parent, blues, reds, txs), txs, m)
    requires IsMergeset(node, parent, Members(parent, blues', reds', txs), txs, m')
    ensures m == m'
  {
    assert Members(parent, blues, reds, txs) == Members(parent, blues', reds', txs);
    MergesetIsUnique(node, parent, Members(parent, blues, reds, txs), txs, m, m');
  }

  /** The sorted members behind a mergeset. */
  lemma EntriesBehind(node: map<Hash, Header>, parent: Hash, members: set<Hash>, txs: seq<Accepted>, m: seq<Merged>) returns (a: seq<Entry>)
    requires IsMergeset(node, parent, members, txs, m)
    ensures EntryFor(node, parent).Some? && Lists(node, members, a) && |m| == |a| + 1 && m[0].hash == parent
    ensures forall i :: 0 <= i < |a| ==> m[i + 1].hash == a[i].hash && a[i].hash in members && EntryFor(node, a[i].hash) == Some(a[i])
  {
    hide TxsOf, Increasing;
    a :| Lists(node, members, a) && |m| == |a| + 1 && m[0] == FilledBlock(EntryFor(node, parent).value, txs)
      && forall i :: 0 <= i < |a| ==> m[i + 1] == FilledBlock(a[i], txs);
    forall i | 0 <= i < |a| ensures m[i + 1].hash == a[i].hash && a[i].hash in members && EntryFor(node, a[i].hash) == Some(a[i]) {
      assert a[i] in a;
    }
  }

  lemma MergedHashesDiffer(node: map<Hash, Header>, parent: Hash, members: set<Hash>, a: seq<Entry>, m: seq<Merged>)
    requires EntryFor(node, parent).Some? && Lists(node, members, a) && |m| == |a| + 1 && m[0].hash == parent && parent !in members
    requires forall i :: 0 <= i < |a| ==> m[i + 1].hash == a[i].hash
    ensures forall i, j :: 0 <= i < j < |m| ==> m[i].hash != m[j].hash
  {
    hide Lists, EntryFor;
    ListedOnce(node, parent, members, a);
    HashOfEntry(node, parent);
    var all := [EntryFor(node, parent).value] + a;
    forall i | 0 <= i < |m| ensures m[i].hash == all[i].hash {
      assert i == 0 || m[i - 1 + 1].hash == a[i - 1].hash;
    }
  }

  /** The blue work and the timestamp of a block in the node's answer; the origin has none. */
  function WorkOf(node: map<Hash, Header>, h: Hash): nat {
    if h == ORIGIN || h !in node then 0 else node[h].blueWork
  }

  function TimeOf(node: map<Hash, Header>, h: Hash): nat {
    if h == ORIGIN || h !in node then 0 else node[h].timestamp
  }

  /** Distinct hashes, the selected parent first, the rest by the blue work the node gives
      and then by hash; every block has the node's timestamp. */
  lemma BlocksAreOrdered(node: map<Hash, Header>, parent: Hash, members: set<Hash>, txs: seq<Accepted>, m: seq<Merged>)
    requires IsMergeset(node, parent, members, txs, m) && parent !in members
    ensures m != [] && m[0].hash == parent
    ensures forall i, j :: 0 <= i < j < |m| ==> m[i].hash != m[j].hash
    ensures forall i, j :: 1 <= i < j < |m| ==>
              var v, w := WorkOf(node, m[i].hash), WorkOf(node, m[j].hash);
              v < w || (v == w && m[i].hash < m[j].hash)
    ensures forall i :: 0 <= i < |m| ==> (m[i].hash == ORIGIN || m[i].hash in node) && m[i].timestamp == TimeOf(node, m[i].hash)
    ensures forall h :: h in members <==> exists i :: 1 <= i < |m| && m[i].hash == h
  {
    hide IsMergeset, Lists, EntryFor, WorkOf, TimeOf;
    var a := EntriesBehind(node, parent, members, txs, m);
    MergedHashesDiffer(node, parent, members, a, m);
    forall i, j | 1 <= i < j < |m|
      ensures var v, w := WorkOf(node, m[i].hash), WorkOf(node, m[j].hash); v < w || (v == w && m[i].hash < m[j].hash)
    {
      assert m[i - 1 + 1].hash == a[i - 1].hash && m[j - 1 + 1].hash == a[j - 1].hash;
      ListedInOrder(node, members, a, i - 1, j - 1);
    }
    forall i | 0 <= i < |m| ensures (m[i].hash == ORIGIN || m[i].hash in node) && m[i].timestamp == TimeOf(node, m[i].hash) {
      BlockIsAnswered(node, parent, members, txs, m, i);
    }
    forall h | h in members ensures exists i :: 1 <= i < |m| && m[i].hash == h {
      ListedSomewhere(node, members, a, h);
      var k :| 0 <= k < |a| && a[k].hash == h;
      assert m[k + 1].hash == h;
    }
    forall i | 1 <= i < |m| ensures m[i].hash in members {
      assert m[i - 1 + 1].hash == a[i - 1].hash;
    }
  }

  lemma EntryIsTheAnswer(node: map<Hash, Header>, h: Hash)
    ensures EntryFor(node, h).Some? <==> h == ORIGIN || h in node
    ensures EntryFor(node, h).Some? ==> EntryFor(node, h).value == Entry(h, WorkOf(node, h), TimeOf(node, h))
  {
  }

  lemma BlockIsAnswered(node: map<Hash, Header>, parent: Hash, members: set<Hash>, txs: seq<Accepted>, m: seq<Merged>, i: nat)
    requires IsMergeset(node, parent, members, txs, m) && i < |m|
    ensures (m[i].hash == ORIGIN || m[i].hash in node) && m[i].timestamp == TimeOf(node, m[i].hash)
  {
    hide TxsOf, Increasing, EntryFor, TimeOf, WorkOf;
    var a: seq<Entry> :| Lists(node, members, a) && |m| == |a| + 1 && m[0] == FilledBlock(EntryFor(node, parent).value, txs)
      && forall i :: 0 <= i < |a| ==> m[i + 1] == FilledBlock(a[i], txs);
    if i == 0 {
      EntryIsTheAnswer(node, parent);
    } else {
      assert m[i - 1 + 1] == FilledBlock(a[i - 1], txs) && a[i - 1] in a;
      EntryIsTheAnswer(node, a[i - 1].hash);
    }
  }

  lemma ListedInOrder(node: map<Hash, Header>, members: set<Hash>, a: seq<Entry>, i: nat, j: nat)
    requires Lists(node, members, a) && i < j < |a|
    ensures var v, w := WorkOf(node, a[i].hash), WorkOf(node, a[j].hash); v < w || (v == w && a[i].hash < a[j].hash)
  {
    hide EntryFor, WorkOf, TimeOf;
    assert a[i] in a && a[j] in a;
    assert Lower(a[i], a[j]);
    EntryIsTheAnswer(node, a[i].hash);
    EntryIsTheAnswer(node, a[j].hash);
  }

  lemma ListedSomewhere(node: map<Hash, Header>, members: set<Hash>, a: seq<Entry>, h: Hash)
    requires Lists(node, members, a) && h in members
    ensures exists k :: 0 <= k < |a| && a[k].hash == h
  {
    HashOfEntry(node, h);
    var k :| 0 <= k < |a| && a[k] == EntryFor(node, h).value;
  }

  lemma HashOfEntry(node: map<Hash, Header>, h: Hash)
    ensures EntryFor(node, h).Some? ==> EntryFor(node, h).value.hash == h
  {
  }

  // ---------------------------------------------------------------- every transaction once

  /** `taken` are the transactions that name `h`, in order; `from` are their places. */
  ghost predicate InOrder(taken: seq<Accepted>, txs: seq<Accepted>, h: Hash, from: seq<nat>) {
    && |from| == |taken|
    && (forall k :: 0 <= k < |from| ==> from[k] < |txs| && taken[k] == txs[from[k]])
    && (forall k, l :: 0 <= k < l < |from| ==> from[k] < from[l])
    && (forall i :: 0 <= i < |txs| ==> (txs[i].block == Some(h) <==> i in from))
  }

  lemma OneMorePlace(taken: seq<Accepted>, txs: seq<Accepted>, h: Hash, from: seq<nat>, x: Accepted)
    requires InOrder(taken, txs, h, from)
    ensures x.block == Some(h) ==> InOrder(taken + [x], txs + [x], h, from + [|txs|])
    ensures x.block != Some(h) ==> InOrder(taken, txs + [x], h, from)
  {
    var n := |txs|;
    assert forall i :: i in from + [n] <==> i in from || i == n;
    forall i | i in from ensures i < n {
      var k :| 0 <= k < |from| && from[k] == i;
    }
  }

  /** The transactions of a block are all that name it, in the order they were accepted. */
  lemma {:induction false} TxsInOrder(txs: seq<Accepted>, h: Hash) returns (from: seq<nat>)
    ensures InOrder(TxsOf(txs, h), txs, h, from)
  {
    hide InOrder;
    if txs == [] {
      from := [];
      NothingTaken(h);
    } else {
      var n := |txs| - 1;
      var before := TxsInOrder(txs[..n], h);
      assert txs == txs[..n] + [txs[n]];
      OneMorePlace(TxsOf(txs[..n], h), txs[..n], h, before, txs[n]);
      from := if txs[n].block == Some(h) then before + [n] else before;
      assert TxsOf(txs[..n], h) + [] == TxsOf(txs[..n], h);
    }
  }

  ghost predicate HasOwnInOrder(taken: seq<Accepted>, txs: seq<Accepted>, h: Hash) {
    exists from :: InOrder(taken, txs, h, from)
  }

  lemma OwnInOrder(txs: seq<Accepted>, h: Hash)
    ensures HasOwnInOrder(TxsOf(txs, h), txs, h)
  {
    hide InOrder;
    var from := TxsInOrder(txs, h);
  }

  lemma NothingTaken(h: Hash)
    ensures InOrder([], [], h, [])
  {
  }

  function Concat(m: seq<Merged>): seq<Accepted> {
    if m == [] then [] else Concat(m[..|m| - 1]) + m[|m| - 1].txs
  }

  lemma {:induction false} CountInBlock(txs: seq<Accepted>, h: Hash, x: Accepted)
    ensures multiset(TxsOf(txs, h))[x] == if x.block == Some(h) then multiset(txs)[x] else 0
  {
    if txs != [] {
      var n := |txs| - 1;
      CountInBlock(txs[..n], h, x);
      assert txs == txs[..n] + [txs[n]];
    }
  }

  ghost predicate HasBlock(m: seq<Merged>, b: Option<Hash>) {
    exists i :: 0 <= i < |m| && Some(m[i].hash) == b
  }

  lemma HasBlockStep(m: seq<Merged>, b: Option<Hash>)
    requires m != [] && forall i, j :: 0 <= i < j < |m| ==> m[i].hash != m[j].hash
    ensures HasBlock(m, b) <==> HasBlock(m[..|m| - 1], b) || Some(m[|m| - 1].hash) == b
    ensures !(HasBlock(m[..|m| - 1], b) && Some(m[|m| - 1].hash) == b)
  {
    var n := |m| - 1;
    if HasBlock(m[..n], b) {
      var i :| 0 <= i < n && Some(m[..n][i].hash) == b;
      assert Some(m[i].hash) == b;
    }
    if HasBlock(m, b) && Some(m[n].hash) != b {
      var i :| 0 <= i < |m| && Some(m[i].hash) == b;
      assert Some(m[..n][i].hash) == b;
    }
  }

  lemma {:induction false} CountInBlocks(txs: seq<Accepted>, m: seq<Merged>, x: Accepted)
    requires forall i :: 0 <= i < |m| ==> m[i].txs == TxsOf(txs, m[i].hash)
    requires forall i, j :: 0 <= i < j < |m| ==> m[i].hash != m[j].hash
    ensures multiset(Concat(m))[x] == if HasBlock(m, x.block) then multiset(txs)[x] else 0
  {
    hide HasBlock, TxsOf;
    if m == [] {
      assert !HasBlock(m, x.block) by { NoBlocks(x.block); }
    } else {
      var n := |m| - 1;
      CountInBlocks(txs, m[..n], x);
      CountInBlock(txs, m[n].hash, x);
      HasBlockStep(m, x.block);
    }
  }

  lemma NoBlocks(b: Option<Hash>)
    ensures !HasBlock([], b)
  {
  }

  /** All accepted transactions, each as often as it was accepted, in the block that it
      names and, within a block, in the order they were accepted. */
  lemma EveryTransactionLandsOnce(node: map<Hash, Header>, parent: Hash, blues: seq<Hash>, reds: seq<Hash>, txs: seq<Accepted>, m: seq<Merged>)
    requires var members := Members(parent, blues, reds, txs);
             Answerable(node, parent, members, txs) && IsMergeset(node, parent, members, txs, m)
    ensures multiset(Concat(m)) == multiset(txs)
    ensures forall i :: 0 <= i < |m| ==> HasOwnInOrder(m[i].txs, txs, m[i].hash)
  {
    hide Lists, TxsOf, Concat, EntryFor, Members, Answerable, HasOwnInOrder;
    var members := Members(parent, blues, reds, txs);
    assert parent !in members && BlocksNamed(txs) <= members + {parent} by { NotItsOwnMember(parent, blues, reds, txs); }
    BlocksAreOrdered(node, parent, members, txs, m);
    BlocksAreFilled(node, parent, members, txs, m);
    forall i | 0 <= i < |m| ensures HasOwnInOrder(m[i].txs, txs, m[i].hash) {
      OwnInOrder(txs, m[i].hash);
    }
    forall x ensures multiset(Concat(m))[x] == multiset(txs)[x] {
      CountInBlocks(txs, m, x);
      if x in txs {
        NamesABlock(node, parent, members, txs, x);
        var h := x.block.value;
        assert HasBlock(m, x.block) by {
          if h in members {
            var i :| 1 <= i < |m| && m[i].hash == h;
            assert Some(m[i].hash) == x.block;
          } else {
            assert Some(m[0].hash) == x.block;
          }
        }
      }
    }
  }

  lemma NotItsOwnMember(parent: Hash, blues: seq<Hash>, reds: seq<Hash>, txs: seq<Accepted>)
    ensures parent !in Members(parent, blues, reds, txs)
    ensures BlocksNamed(txs) <= Members(parent, blues, reds, txs) + {parent}
  {
  }

  lemma NamesABlock(node: map<Hash, Header>, parent: Hash, members: set<Hash>, txs: seq<Accepted>, x: Accepted)
    requires Answerable(node, parent, members, txs) && BlocksNamed(txs) <= members + {parent} && x in txs
    ensures x.block.Some? && (x.block.value in members || x.block.value == parent)
  {
    assert x.block.value in BlocksNamed(txs);
  }

  lemma BlocksAreFilled(node: map<Hash, Header>, parent: Hash, members: set<Hash>, txs: seq<Accepted>, m: seq<Merged>)
    requires IsMergeset(node, parent, members, txs, m)
    ensures forall i :: 0 <= i < |m| ==> m[i].txs == TxsOf(txs, m[i].hash)
  {
    hide TxsOf, Lists;
    var a :| Lists(node, members, a) && |m| == |a| + 1 && m[0] == FilledBlock(EntryFor(node, parent).value, txs)
      && forall i :: 0 <= i < |a| ==> m[i + 1] == FilledBlock(a[i], txs);
    forall i | 0 <= i < |m| ensures m[i].txs == TxsOf(txs, m[i].hash) {
      assert i == 0 || m[i - 1 + 1] == FilledBlock(a[i - 1], txs);
    }
  }

  // ---------------------------------------------------------------- positions

  /** What the envelope analyzer makes of a transaction, by the time of its block and the
      DAA score of the accepting block. */
  type Analyzer = (Accepted, nat, u64) -> Option<Operation>

  /** The operations of one block. */
  function OpsInBlock(detect: Analyzer, daaScore: u64, block: nat, time: nat, txs: seq<Accepted>): seq<MergesetOp> {
    if txs == [] then []
    else
      var n := |txs| - 1;
      var found := detect(txs[n], time, daaScore);
      OpsInBlock(detect, daaScore, block, time, txs[..n]) + (if found.Some? then [MergesetOp(block, n, found.value)] else [])
  }

  function OpsInBlocks(detect: Analyzer, daaScore: u64, m: seq<Merged>): seq<MergesetOp> {
    if m == [] then []
    else
      var n := |m| - 1;
      OpsInBlocks(detect, daaScore, m[..n]) + OpsInBlock(detect, daaScore, n, m[n].timestamp, m[n].txs)
  }

  predicate Earlier(a: MergesetOp, b: MergesetOp) {
    a.blockIndex < b.blockIndex || (a.blockIndex == b.blockIndex && a.txIndex < b.txIndex)
  }

  ghost predicate RisingPositions(ops: seq<MergesetOp>) {
    forall i, j :: 0 <= i < j < |ops| ==> Earlier(ops[i], ops[j])
  }

  lemma {:induction false} PositionsInBlock(detect: Analyzer, daaScore: u64, block: nat, time: nat, txs: seq<Accepted>)
    ensures RisingPositions(OpsInBlock(detect, daaScore, block, time, txs))
    ensures forall o :: o in OpsInBlock(detect, daaScore, block, time, txs) <==>
              o.blockIndex == block && o.txIndex < |txs| && detect(txs[o.txIndex], time, daaScore) == Some(o.op)
  {
    if txs != [] {
      PositionsInBlock(detect, daaScore, block, time, txs[..|txs| - 1]);
    }
  }

  /** Positions rise in the order of the operations, and there is an operation at a
      position exactly when the transaction there carries one. */
  lemma {:induction false} PositionsRise(detect: Analyzer, daaScore: u64, m: seq<Merged>)
    ensures RisingPositions(OpsInBlocks(detect, daaScore, m))
    ensures forall o :: o in OpsInBlocks(detect, daaScore, m) <==>
              && o.blockIndex < |m| && o.txIndex < |m[o.blockIndex].txs|
              && detect(m[o.blockIndex].txs[o.txIndex], m[o.blockIndex].timestamp, daaScore) == Some(o.op)
  {
    if m != [] {
      var n := |m| - 1;
      PositionsRise(detect, daaScore, m[..n]);
      PositionsInBlock(detect, daaScore, n, m[n].timestamp, m[n].txs);
      JoinedPositions(OpsInBlocks(detect, daaScore, m[..n]), OpsInBlock(detect, daaScore, n, m[n].timestamp, m[n].txs), n);
    }
  }

  lemma JoinedPositions(a: seq<MergesetOp>, b: seq<MergesetOp>, n: nat)
    requires RisingPositions(a) && RisingPositions(b)
    requires (forall o :: o in a ==> o.blockIndex < n) && (forall o :: o in b ==> o.blockIndex == n)
    ensures RisingPositions(a + b)
  {
    forall i, j | 0 <= i < j < |a + b| ensures Earlier((a + b)[i], (a + b)[j]) {
      if i < |a| <= j {
        assert a[i] in a && b[j - |a|] in b;
      }
    }
  }

  /** A reconstructed mergeset within the limits of the consensus rules is an ordered
      block, as the chain theorems ask. */
  lemma MergesetIsOrdered(limit: Limit, detect: Analyzer, daaScore: u64, m: seq<Merged>, entropy: nat, blueScore: u64, hash: Hash)
    requires Fits(limit, blueScore) && |m| <= limit && forall i :: 0 <= i < |m| ==> |m[i].txs| <= BLOCK_TX_CAPACITY
    requires forall x, time :: detect(x, time, daaScore).Some? ==> ValidOp(detect(x, time, daaScore).value)
    ensures OrderedBlock(limit, Mergeset(OpsInBlocks(detect, daaScore, m), entropy, blueScore, hash))
  {
    hide Fits, ValidOp, OpsInBlocks;
    PositionsRise(detect, daaScore, m);
    var ops := OpsInBlocks(detect, daaScore, m);
    forall i | 0 <= i < |ops| ensures InBlock(limit, ops[i].blockIndex, ops[i].txIndex) && ValidOp(ops[i].op) {
      assert ops[i] in ops;
    }
    forall i, j | 0 <= i < j < |ops| ensures Earlier(ops[i], ops[j]) {
    }
  }
}
