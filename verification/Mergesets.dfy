/** Rebuilding a chain block's mergeset from the node's answers (nexus/src/syncer.rs,
    `reconstruct_chain_block_acceptance` and `process_reconstructed_acceptance_data`).
    It fixes the order of all operations. */
module Mergesets {
  import opened Model

  /** The mergeset of a block, as the node lists it. */
  datatype VerboseData = VerboseData(selectedParent: Hash, blues: seq<Hash>, reds: seq<Hash>)
  /** What the node tells of a block. */
  datatype Header = Header(blueWork: nat, timestamp: nat, verbose: Option<VerboseData>)
  /** The accepting chain block in the node's answer; each field can be missing. */
  datatype ChainBlock = ChainBlock(hash: Option<Hash>, blueScore: Option<u64>, daaScore: Option<u64>)
  /** An accepted transaction; the block it came from can be missing in the answer. */
  datatype Accepted = Accepted(txId: TxId, block: Option<Hash>)
  datatype Entry = Entry(hash: Hash, blueWork: nat, timestamp: nat)
  datatype Merged = Merged(hash: Hash, timestamp: nat, txs: seq<Accepted>)

  /** The origin has no block: 32 bytes of 0xfe. */
  const ORIGIN: Hash := 0xFEFEFEFE_FEFEFEFE_FEFEFEFE_FEFEFEFE_FEFEFEFE_FEFEFEFE_FEFEFEFE_FEFEFEFE

  // ---------------------------------------------------------------- what the mergeset is

  /** The sort key and timestamp of a block; `None` when the node does not have it. */
  function EntryFor(node: map<Hash, Header>, h: Hash): Option<Entry> {
    if h == ORIGIN then Some(Entry(h, 0, 0))
    else if h in node then Some(Entry(h, node[h].blueWork, node[h].timestamp))
    else None
  }

  function Named(hashes: seq<Hash>): set<Hash> {
    set h | h in hashes
  }

  function BlocksNamed(txs: seq<Accepted>): set<Hash> {
    set x | x in txs && x.block.Some? :: x.block.value
  }

  /** The blocks beside the selected parent, from whichever list they are named in. */
  function Members(parent: Hash, blues: seq<Hash>, reds: seq<Hash>, txs: seq<Accepted>): set<Hash> {
    Named(blues) + Named(reds) + BlocksNamed(txs) - {parent}
  }

  predicate Lower(a: Entry, b: Entry) {
    a.blueWork < b.blueWork || (a.blueWork == b.blueWork && a.hash < b.hash)
  }

  ghost predicate Increasing(entries: seq<Entry>) {
    forall i, j :: 0 <= i < j < |entries| ==> Lower(entries[i], entries[j])
  }

  /** The transactions of block `h`, in the order they were accepted. */
  function TxsOf(txs: seq<Accepted>, h: Hash): seq<Accepted> {
    if txs == [] then []
    else
      var n := |txs| - 1;
      TxsOf(txs[..n], h) + (if txs[n].block == Some(h) then [txs[n]] else [])
  }

  /** The entries of the members, by blue work and then hash. */
  ghost predicate Lists(node: map<Hash, Header>, members: set<Hash>, entries: seq<Entry>) {
    && (forall e :: e in entries ==> EntryFor(node, e.hash) == Some(e) && e.hash in members)
    && (forall h :: h in members ==> EntryFor(node, h).Some? && EntryFor(node, h).value in entries)
    && Increasing(entries)
  }

  function EmptyBlock(e: Entry): Merged {
    Merged(e.hash, e.timestamp, [])
  }

  function FilledBlock(e: Entry, txs: seq<Accepted>): Merged {
    Merged(e.hash, e.timestamp, TxsOf(txs, e.hash))
  }

  /** The selected parent first, then the members in order, each with its transactions. */
  ghost predicate IsMergeset(node: map<Hash, Header>, parent: Hash, members: set<Hash>, txs: seq<Accepted>, merged: seq<Merged>) {
    && EntryFor(node, parent).Some?
    && exists entries ::
         && Lists(node, members, entries)
         && |merged| == |entries| + 1
         && merged[0] == FilledBlock(EntryFor(node, parent).value, txs)
         && (forall i :: 0 <= i < |entries| ==> merged[i + 1] == FilledBlock(entries[i], txs))
  }

  /** The node has every block that is asked for, and every transaction names its block. */
  ghost predicate Answerable(node: map<Hash, Header>, parent: Hash, members: set<Hash>, txs: seq<Accepted>) {
    && EntryFor(node, parent).Some?
    && (forall h :: h in members ==> EntryFor(node, h).Some?)
    && (forall x :: x in txs ==> x.block.Some?)
  }

  // ---------------------------------------------------------------- sorting

  /** `sort_by` on the blue work and then the hash. */
  function Insert(e: Entry, s: seq<Entry>): (r: seq<Entry>)
    ensures multiset(r) == multiset(s) + multiset{e}
  {
    if s == [] || Lower(e, s[0]) then [e] + s
    else
      assert s == [s[0]] + s[1..];
      [s[0]] + Insert(e, s[1..])
  }

  function Sort(s: seq<Entry>): (r: seq<Entry>)
    ensures multiset(r) == multiset(s)
  {
    if s == [] then []
    else
      assert s == [s[0]] + s[1..];
      Insert(s[0], Sort(s[1..]))
  }

  ghost predicate DistinctHashes(s: seq<Entry>) {
    forall i, j :: 0 <= i < j < |s| ==> s[i].hash != s[j].hash
  }

  lemma {:induction false} InsertKeepsOrder(e: Entry, s: seq<Entry>)
    requires Increasing(s) && forall x :: x in s ==> x.hash != e.hash
    ensures Increasing(Insert(e, s)) && forall x :: x in Insert(e, s) <==> x == e || x in s
  {
    assert forall x :: x in Insert(e, s) <==> x in multiset(Insert(e, s));
    if s != [] && !Lower(e, s[0]) {
      InsertKeepsOrder(e, s[1..]);
      forall x | x in Insert(e, s[1..]) ensures Lower(s[0], x) {
        if x != e {
          var i :| 0 <= i < |s[1..]| && s[1..][i] == x;
        }
      }
    }
  }

  lemma {:induction false} SortOrders(s: seq<Entry>)
    requires DistinctHashes(s)
    ensures Increasing(Sort(s)) && forall x :: x in Sort(s) <==> x in s
  {
    assert forall x :: x in Sort(s) <==> x in multiset(Sort(s));
    if s != [] {
      SortOrders(s[1..]);
      forall x | x in Sort(s[1..]) ensures x.hash != s[0].hash {
        var i :| 0 <= i < |s[1..]| && s[1..][i] == x;
        assert s[i + 1] == x;
      }
      InsertKeepsOrder(s[0], Sort(s[1..]));
    }
  }

  // ---------------------------------------------------------------- the reconstruction

  /** Half-way through collecting: the entries of `seen`, each once. */
  ghost predicate Collected(node: map<Hash, Header>, parent: Hash, seen: set<Hash>, known: set<Hash>, sortable: seq<Entry>) {
    && known == seen + {parent}
    && (forall e :: e in sortable ==> EntryFor(node, e.hash) == Some(e) && e.hash in seen && e.hash != parent)
    && (forall h :: h in seen && h != parent ==> EntryFor(node, h).Some? && EntryFor(node, h).value in sortable)
    && DistinctHashes(sortable)
  }

  /** Adds a block that is not known yet; `false` when the node does not have it. */
  method AddBlock(node: map<Hash, Header>, hash: Hash, known: set<Hash>, sortable: seq<Entry>, ghost parent: Hash, ghost seen: set<Hash>)
    returns (ok: bool, newKnown: set<Hash>, newSortable: seq<Entry>)
    requires Collected(node, parent, seen, known, sortable)
    ensures ok ==> Collected(node, parent, seen + {hash}, newKnown, newSortable)
    ensures !ok ==> hash != parent && EntryFor(node, hash).None?
  {
    newKnown, newSortable := known + {hash}, sortable;
    if hash in known {
      return true, newKnown, newSortable;
    }
    if hash == ORIGIN {
      newSortable := newSortable + [Entry(hash, 0, 0)];
      return true, newKnown, newSortable;
    }
    if hash !in node {
      return false, newKnown, newSortable;
    }
    newSortable := newSortable + [Entry(hash, node[hash].blueWork, node[hash].timestamp)];
    ok := true;
  }

  /** The first pass over the mergeset lists and the transactions; `None` is an error. */
  method CollectBlocks(node: map<Hash, Header>, parent: Hash, blues: seq<Hash>, reds: seq<Hash>, txs: seq<Accepted>)
    returns (r: Option<seq<Entry>>)
    requires EntryFor(node, parent).Some?
    ensures r.Some? <==> Answerable(node, parent, Members(parent, blues, reds, txs), txs)
    ensures r.Some? ==> exists seen, known :: Collected(node, parent, seen, known, r.value) && seen - {parent} == Members(parent, blues, reds, txs)
  {
    hide Collected, Named, BlocksNamed;
    ghost var members := Members(parent, blues, reds, txs);
    var known, sortable := {parent}, [];
    ghost var seen: set<Hash> := {};
    NothingCollected(node, parent);
    NothingNamed();
    for i := 0 to |blues|
      invariant Collected(node, parent, seen, known, sortable)
      invariant seen - {parent} == Named(blues[..i]) - {parent}
    {
      NamedOneMore(blues, i);
      if blues[i] != parent {
        var ok;
        ok, known, sortable := AddBlock(node, blues[i], known, sortable, parent, seen);
        if !ok {
          assert blues[i] in members by { IsNamed(blues, i); }
          return None;
        }
        OneMoreBut(seen, Named(blues[..i]), blues[i], parent);
        seen := seen + {blues[i]};
      }
    }
    assert blues[..|blues|] == blues;
    for i := 0 to |reds|
      invariant Collected(node, parent, seen, known, sortable)
      invariant seen - {parent} == Named(blues) + Named(reds[..i]) - {parent}
    {
      NamedOneMore(reds, i);
      var ok;
      ok, known, sortable := AddBlock(node, reds[i], known, sortable, parent, seen);
      if !ok {
        assert reds[i] in members by { IsNamed(reds, i); }
        return None;
      }
      OneMoreBut(seen, Named(blues) + Named(reds[..i]), reds[i], parent);
      assert Named(blues) + Named(reds[..i]) + {reds[i]} == Named(blues) + Named(reds[..i + 1]);
      seen := seen + {reds[i]};
    }
    assert reds[..|reds|] == reds;
    for i := 0 to |txs|
      invariant Collected(node, parent, seen, known, sortable)
      invariant seen - {parent} == Members(parent, blues, reds, txs[..i])
      invariant forall x :: x in txs[..i] ==> x.block.Some?
    {
      TxsOneMore(txs, i);
      if txs[i].block.None? {
        assert txs[i] in txs;
        return None;
      }
      var block := txs[i].block.value;
      var ok;
      ok, known, sortable := AddBlock(node, block, known, sortable, parent, seen);
      if !ok {
        assert block in members by { IsTxBlock(txs, i); }
        return None;
      }
      var before := Named(blues) + Named(reds) + BlocksNamed(txs[..i]);
      OneMoreBut(seen, before, block, parent);
      assert before + {block} == Named(blues) + Named(reds) + BlocksNamed(txs[..i + 1]);
      seen := seen + {block};
    }
    assert txs[..|txs|] == txs;
    AllCollected(node, parent, seen, known, sortable);
    r := Some(sortable);
  }

  lemma NamedOneMore(hashes: seq<Hash>, i: nat)
    requires i < |hashes|
    ensures Named(hashes[..i + 1]) == Named(hashes[..i]) + {hashes[i]}
    ensures Named(hashes[..0]) == {} && hashes[..|hashes|] == hashes
  {
    assert hashes[..i + 1] == hashes[..i] + [hashes[i]];
  }

  lemma OneMoreBut(s: set<Hash>, n: set<Hash>, h: Hash, p: Hash)
    requires s - {p} == n - {p}
    ensures s + {h} - {p} == n + {h} - {p}
  {
    forall x ensures x in s + {h} - {p} <==> x in n + {h} - {p} {
      assert x in s - {p} <==> x in n - {p};
    }
  }

  lemma IsNamed(hashes: seq<Hash>, i: nat)
    requires i < |hashes|
    ensures hashes[i] in Named(hashes)
  {
  }

  lemma TxsOneMore(txs: seq<Accepted>, i: nat)
    requires i < |txs|
    ensures forall x :: x in txs[..i + 1] <==> x in txs[..i] || x == txs[i]
    ensures txs[i].block.Some? ==> BlocksNamed(txs[..i + 1]) == BlocksNamed(txs[..i]) + {txs[i].block.value}
  {
    assert txs[..i + 1] == txs[..i] + [txs[i]];
    if txs[i].block.Some? {
      assert txs[i] in txs[..i + 1];
    }
  }

  lemma IsTxBlock(txs: seq<Accepted>, i: nat)
    requires i < |txs| && txs[i].block.Some?
    ensures txs[i].block.value in BlocksNamed(txs)
  {
    assert txs[i] in txs;
  }

  lemma NothingNamed()
    ensures Named([]) == {} && BlocksNamed([]) == {}
  {
  }

  lemma NothingCollected(node: map<Hash, Header>, parent: Hash)
    ensures Collected(node, parent, {}, {parent}, [])
  {
  }

  lemma AllCollected(node: map<Hash, Header>, parent: Hash, seen: set<Hash>, known: set<Hash>, sortable: seq<Entry>)
    requires Collected(node, parent, seen, known, sortable)
    ensures forall h :: h in seen && h != parent ==> EntryFor(node, h).Some?
    ensures Lists(node, seen - {parent}, Sort(sortable))
  {
    SortOrders(sortable);
  }

  /** The blocks before their transactions are put in. */
  function Hulled(entries: seq<Entry>): (hulls: seq<Merged>)
    ensures |hulls| == |entries| && forall i :: 0 <= i < |entries| ==> hulls[i] == EmptyBlock(entries[i])
  {
    if entries == [] then [] else Hulled(entries[..|entries| - 1]) + [EmptyBlock(entries[|entries| - 1])]
  }

  lemma Unanswered(node: map<Hash, Header>, parent: Hash, members: set<Hash>, txs: seq<Accepted>)
    requires EntryFor(node, parent).None?
    ensures !Answerable(node, parent, members, txs)
  {
  }

  lemma ListedOnce(node: map<Hash, Header>, parent: Hash, members: set<Hash>, entries: seq<Entry>)
    requires Lists(node, members, entries) && parent !in members && EntryFor(node, parent).Some?
    ensures DistinctHashes([EntryFor(node, parent).value] + entries)
  {
    var all := [EntryFor(node, parent).value] + entries;
    forall i, j | 0 <= i < j < |all| ensures all[i].hash != all[j].hash {
      if i == 0 {
        assert all[j] in entries;
      } else {
        assert Lower(entries[i - 1], entries[j - 1]);
        assert entries[i - 1] in entries && entries[j - 1] in entries;
      }
    }
  }

  lemma BlocksAreListed(node: map<Hash, Header>, parent: Hash, members: set<Hash>, txs: seq<Accepted>, entries: seq<Entry>)
    requires Lists(node, members, entries) && EntryFor(node, parent).Some? && BlocksNamed(txs) <= members + {parent}
    ensures forall x :: x in txs && x.block.Some? ==>
              exists e :: e in [EntryFor(node, parent).value] + entries && e.hash == x.block.value
  {
    forall x | x in txs && x.block.Some? ensures exists e :: e in [EntryFor(node, parent).value] + entries && e.hash == x.block.value {
      assert x.block.value in BlocksNamed(txs);
      var e := EntryFor(node, x.block.value).value;
      assert e in [EntryFor(node, parent).value] + entries;
    }
  }

  /** What the second pass needs of the first. */
  lemma Ready(node: map<Hash, Header>, parent: Hash, members: set<Hash>, txs: seq<Accepted>, entries: seq<Entry>, all: seq<Entry>, hulls: seq<Merged>)
    requires Lists(node, members, entries) && parent !in members && Answerable(node, parent, members, txs)
    requires BlocksNamed(txs) <= members + {parent}
    requires all == [EntryFor(node, parent).value] + entries && hulls == [EmptyBlock(EntryFor(node, parent).value)] + Hulled(entries)
    ensures Filled(hulls, all, []) && DistinctHashes(all)
    ensures forall x :: x in txs ==> x.block.Some? && exists e :: e in all && e.hash == x.block.value
  {
    hide Lists, BlocksNamed;
    ListedOnce(node, parent, members, entries);
    BlocksAreListed(node, parent, members, txs, entries);
  }

  lemma Placed(node: map<Hash, Header>, parent: Hash, members: set<Hash>, txs: seq<Accepted>, entries: seq<Entry>, merged: seq<Merged>)
    requires Lists(node, members, entries) && EntryFor(node, parent).Some?
    requires Filled(merged, [EntryFor(node, parent).value] + entries, txs)
    ensures IsMergeset(node, parent, members, txs, merged)
  {
    hide Lists;
    var all := [EntryFor(node, parent).value] + entries;
    forall i | 0 <= i < |entries| ensures merged[i + 1] == FilledBlock(entries[i], txs) {
      assert all[i + 1] == entries[i];
    }
  }

  /** The blocks with the first transactions in place. */
  ghost predicate Filled(merged: seq<Merged>, all: seq<Entry>, txs: seq<Accepted>) {
    |merged| == |all| && forall i :: 0 <= i < |all| ==> merged[i] == FilledBlock(all[i], txs)
  }

  method IndexBlocks(merged: seq<Merged>) returns (indexes: map<Hash, nat>)
    requires forall i, j :: 0 <= i < j < |merged| ==> merged[i].hash != merged[j].hash
    ensures forall h :: h in indexes ==> indexes[h] < |merged| && merged[indexes[h]].hash == h
    ensures forall i :: 0 <= i < |merged| ==> merged[i].hash in indexes && indexes[merged[i].hash] == i
  {
    indexes := map[];
    for i := 0 to |merged|
      invariant forall h :: h in indexes ==> indexes[h] < i && merged[indexes[h]].hash == h
      invariant forall j :: 0 <= j < i ==> merged[j].hash in indexes && indexes[merged[j].hash] == j
    {
      indexes := indexes[merged[i].hash := i];
    }
  }

  /** The second pass; `None` is the error "not found in reconstructed mergeset". */
  method PlaceTransactions(hulls: seq<Merged>, txs: seq<Accepted>, ghost all: seq<Entry>) returns (r: Option<seq<Merged>>)
    requires Filled(hulls, all, []) && DistinctHashes(all)
    requires forall x :: x in txs ==> x.block.Some? && exists e :: e in all && e.hash == x.block.value
    ensures r.Some? && Filled(r.value, all, txs)
  {
    var indexes := IndexBlocks(hulls);
    var merged := hulls;
    for i := 0 to |txs|
      invariant Filled(merged, all, txs[..i])
    {
      assert txs[..i + 1][..i] == txs[..i] && txs[i] in txs;
      var block := txs[i].block.value;
      ghost var e :| e in all && e.hash == block;
      ghost var k :| 0 <= k < |all| && all[k] == e;
      assert hulls[k].hash == block;
      if block !in indexes {
        assert false;
        return None;
      }
      var index := indexes[block];
      merged := merged[index := merged[index].(txs := merged[index].txs + [txs[i]])];
    }
    assert txs[..|txs|] == txs;
    r := Some(merged);
  }

  /** Succeeds exactly when the node answers everything, and then gives the mergeset. */
  method Reconstruct(node: map<Hash, Header>, parent: Hash, blues: seq<Hash>, reds: seq<Hash>, txs: seq<Accepted>)
    returns (r: Option<seq<Merged>>)
    ensures r.Some? <==> Answerable(node, parent, Members(parent, blues, reds, txs), txs)
    ensures r.Some? ==> IsMergeset(node, parent, Members(parent, blues, reds, txs), txs, r.value)
  {
    hide Lists, Filled, Answerable, Sort, BlocksNamed;
    ghost var members := Members(parent, blues, reds, txs);
    if parent != ORIGIN && parent !in node {
      assert !Answerable(node, parent, members, txs) by { Unanswered(node, parent, members, txs); }
      return None;
    }
    var parentTimestamp := if parent == ORIGIN then 0 else node[parent].timestamp;
    var collected := CollectBlocks(node, parent, blues, reds, txs);
    if collected.None? {
      return None;
    }
    var sortable := Sort(collected.value);
    assert Lists(node, members, sortable) by {
      var seen, known :| Collected(node, parent, seen, known, collected.value) && seen - {parent} == members;
      AllCollected(node, parent, seen, known, collected.value);
    }
    var merged := [Merged(parent, parentTimestamp, [])];
    for i := 0 to |sortable|
      invariant merged == [Merged(parent, parentTimestamp, [])] + Hulled(sortable[..i])
    {
      assert sortable[..i + 1] == sortable[..i] + [sortable[i]];
      merged := merged + [Merged(sortable[i].hash, sortable[i].timestamp, [])];
    }
    assert sortable[..|sortable|] == sortable;
    ghost var all := [EntryFor(node, parent).value] + sortable;
    Ready(node, parent, members, txs, sortable, all, merged);
    r := PlaceTransactions(merged, txs, all);
    Placed(node, parent, members, txs, sortable, r.value);
  }

  datatype Acceptance = Acceptance(hash: Hash, blueScore: u64, daaScore: u64, merged: seq<Merged>)

  /** The answer has every field, and the node has the accepting block with its mergeset
      and everything that is asked for after that. */
  ghost predicate Complete(node: map<Hash, Header>, b: ChainBlock, txs: seq<Accepted>) {
    && b.hash.Some? && b.blueScore.Some? && b.daaScore.Some?
    && b.hash.value in node && node[b.hash.value].verbose.Some?
    && var v := node[b.hash.value].verbose.value;
       Answerable(node, v.selectedParent, Members(v.selectedParent, v.blues, v.reds, txs), txs)
  }

  /** `None` exactly when something is missing; otherwise the header's hash and scores, and
      the blocks of the mergeset. */
  ghost predicate IsAcceptance(node: map<Hash, Header>, b: ChainBlock, txs: seq<Accepted>, r: Option<Acceptance>) {
    && (r.Some? <==> Complete(node, b, txs))
    && (r.Some? ==>
          var v := node[b.hash.value].verbose.value;
          && Some(r.value.hash) == b.hash && Some(r.value.blueScore) == b.blueScore && Some(r.value.daaScore) == b.daaScore
          && IsMergeset(node, v.selectedParent, Members(v.selectedParent, v.blues, v.reds, txs), txs, r.value.merged))
  }

  /** `reconstruct_chain_block_acceptance`: fails exactly when something is missing. */
  method ReconstructChainBlock(node: map<Hash, Header>, b: ChainBlock, txs: seq<Accepted>) returns (r: Option<Acceptance>)
    ensures IsAcceptance(node, b, txs, r)
  {
    hide Answerable, IsMergeset, Members;
    if b.hash.None? || b.blueScore.None? || b.daaScore.None? {
      return None;
    }
    var hash := b.hash.value;
    if hash !in node || node[hash].verbose.None? {
      return None;
    }
    var v := node[hash].verbose.value;
    var merged := Reconstruct(node, v.selectedParent, v.blues, v.reds, txs);
    if merged.None? {
      return None;
    }
    r := Some(Acceptance(hash, b.blueScore.value, b.daaScore.value, merged.value));
  }
}
