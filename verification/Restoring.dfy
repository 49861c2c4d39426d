/** Reading an archive back (snapshot/src/snapshot.rs, `restore`), and the round trip. */
module Restoring {
  import opened Model
  import opened Archive
  import opened ArchiveWriting

  // ---------------------------------------------------------------- inserting records

  /** The table of partition ids read into a map; a later entry wins. */
  function NamesOf(table: seq<(nat, string)>): map<nat, string> {
    if table == [] then map[] else NamesOf(table[..|table| - 1])[table[|table| - 1].0 := table[|table| - 1].1]
  }

  /** Opening the partitions of the table creates them empty. */
  function Opened(table: seq<(nat, string)>): Tables {
    if table == [] then map[] else Opened(table[..|table| - 1])[table[|table| - 1].1 := map[]]
  }

  function Contents(records: seq<Record>): map<Bytes, Bytes> {
    if records == [] then map[] else Contents(records[..|records| - 1])[records[|records| - 1].k := records[|records| - 1].v]
  }

  function PutAll(tables: Tables, name: string, records: seq<Record>): Tables
    requires name in tables
  {
    if records == [] then tables
    else
      var n := |records| - 1;
      var before := PutAll(tables, name, records[..n]);
      if name in before then before[name := before[name][records[n].k := records[n].v]] else before
  }

  lemma {:induction false} PutAllIsContents(tables: Tables, name: string, records: seq<Record>)
    requires name in tables && tables[name] == map[]
    ensures PutAll(tables, name, records) == tables[name := Contents(records)]
  {
    if records != [] {
      PutAllIsContents(tables, name, records[..|records| - 1]);
    } else {
      assert tables[name := map[]] == tables;
    }
  }

  lemma {:induction false} PutAllKeeps(tables: Tables, name: string, records: seq<Record>)
    requires name in tables
    ensures PutAll(tables, name, records).Keys == tables.Keys
  {
    if records != [] {
      PutAllKeeps(tables, name, records[..|records| - 1]);
    }
  }

  /** Inserting tagged records one by one. */
  function Puts(names: map<nat, string>, tables: Tables, all: seq<Tagged>): Tables {
    if all == [] then tables
    else
      var n := |all| - 1;
      var before := Puts(names, tables, all[..n]);
      if all[n].id in names && names[all[n].id] in before then
        var name := names[all[n].id];
        before[name := before[name][all[n].record.k := all[n].record.v]]
      else before
  }

  lemma {:induction false} PutsJoin(names: map<nat, string>, tables: Tables, a: seq<Tagged>, b: seq<Tagged>)
    ensures Puts(names, tables, a + b) == Puts(names, Puts(names, tables, a), b)
  {
    if b == [] {
      assert a + b == a;
    } else {
      PutsJoin(names, tables, a, b[..|b| - 1]);
      assert (a + b)[..|a + b| - 1] == a + b[..|b| - 1];
    }
  }

  lemma {:induction false} PutsOfTag(names: map<nat, string>, tables: Tables, id: nat, records: seq<Record>)
    requires id in names && names[id] in tables
    ensures Puts(names, tables, Tag(id, records)) == PutAll(tables, names[id], records)
  {
    if records != [] {
      var n := |records| - 1;
      PutsOfTag(names, tables, id, records[..n]);
      assert Tag(id, records)[..n] == Tag(id, records[..n]);
    }
  }

  // ---------------------------------------------------------------- reading the chunks

  /** The tables after the chunks; `None` is an error. */
  function Load(codec: Codec, names: map<nat, string>, tables: Tables, chunks: seq<Deflated>): Option<Tables> {
    if chunks == [] then Some(tables)
    else
      var n := |chunks| - 1;
      match Load(codec, names, tables, chunks[..n])
      case None => None
      case Some(before) =>
        var records := codec.unpack(chunks[n].data);
        if records.None? then None
        else if chunks[n].partitionId !in names then None
        else if names[chunks[n].partitionId] !in before then None
        else Some(PutAll(before, names[chunks[n].partitionId], records.value))
  }

  /** What restoring the file gives; `None` is an error. */
  function Restored(codec: Codec, file: File): Option<Tables> {
    if file.header.magic != HEADER_MAGIC || file.header.chunks > |file.chunks| then None else
    var chunks := file.chunks[..file.header.chunks];
    var loaded := Load(codec, NamesOf(file.table), Opened(file.table), chunks);
    if loaded.None? || codec.hash(DataOf(chunks)) != file.header.hash then None else loaded
  }

  lemma {:induction false} LoadFails(codec: Codec, names: map<nat, string>, tables: Tables, chunks: seq<Deflated>, n: nat)
    requires n <= |chunks| && Load(codec, names, tables, chunks[..n]).None?
    ensures Load(codec, names, tables, chunks).None?
    decreases |chunks| - n
  {
    if n < |chunks| {
      assert chunks[..n + 1][..n] == chunks[..n];
      LoadFails(codec, names, tables, chunks, n + 1);
    } else {
      assert chunks[..n] == chunks;
    }
  }

  lemma NothingLoaded(codec: Codec, names: map<nat, string>, tables: Tables)
    ensures Load(codec, names, tables, []) == Some(tables)
  {
  }

  /** A chunk that can be inserted: it unpacks and names a partition of the table. */
  ghost predicate Loadable(codec: Codec, table: seq<(nat, string)>, d: Deflated) {
    codec.unpack(d.data).Some? && exists i :: 0 <= i < |table| && table[i].0 == d.partitionId
  }

  /** The table assigns every listed id a partition that is open. */
  lemma {:induction false} TableIsOpen(table: seq<(nat, string)>)
    ensures forall id :: id in NamesOf(table) <==> exists i :: 0 <= i < |table| && table[i].0 == id
    ensures forall id :: id in NamesOf(table) ==> NamesOf(table)[id] in Opened(table)
  {
    if table != [] {
      var n := |table| - 1;
      TableIsOpen(table[..n]);
      assert table == table[..n] + [table[n]];
      forall id ensures id in NamesOf(table) <==> exists i :: 0 <= i < |table| && table[i].0 == id {
        if id in NamesOf(table[..n]) {
          var i :| 0 <= i < n && table[..n][i].0 == id;
          assert table[i].0 == id;
        }
        if i :| 0 <= i < |table| && table[i].0 == id {
          assert i == n || table[..n][i].0 == id;
        }
      }
    }
  }

  lemma {:induction false} LoadIffLoadable(codec: Codec, table: seq<(nat, string)>, chunks: seq<Deflated>)
    ensures var r := Load(codec, NamesOf(table), Opened(table), chunks);
            && (r.Some? <==> forall i :: 0 <= i < |chunks| ==> Loadable(codec, table, chunks[i]))
            && (r.Some? ==> r.value.Keys == Opened(table).Keys)
  {
    hide Loadable, NamesOf, Opened, PutAll;
    if chunks != [] {
      var n := |chunks| - 1;
      LoadIffLoadable(codec, table, chunks[..n]);
      assert forall i :: 0 <= i < n ==> chunks[..n][i] == chunks[i];
      OneIsLoadable(codec, table, chunks[n]);
      var before := Load(codec, NamesOf(table), Opened(table), chunks[..n]);
      if before.Some? && Loadable(codec, table, chunks[n]) {
        PutAllKeeps(before.value, NamesOf(table)[chunks[n].partitionId], codec.unpack(chunks[n].data).value);
      }
    }
  }

  lemma OneIsLoadable(codec: Codec, table: seq<(nat, string)>, d: Deflated)
    ensures Loadable(codec, table, d) <==> codec.unpack(d.data).Some? && d.partitionId in NamesOf(table)
    ensures d.partitionId in NamesOf(table) ==> NamesOf(table)[d.partitionId] in Opened(table)
  {
    TableIsOpen(table);
  }

  /** A file is restored if and only if its magic is right, its chunks are all there and
      loadable, and the hash of their data is the one in the header. */
  lemma RestoredIff(codec: Codec, file: File)
    ensures Restored(codec, file).Some? <==>
              && file.header.magic == [75, 83, 80, 82, 45, 55, 50, 49]
              && file.header.chunks <= |file.chunks|
              && (forall i :: 0 <= i < file.header.chunks ==> Loadable(codec, file.table, file.chunks[i]))
              && codec.hash(DataOf(file.chunks[..file.header.chunks])) == file.header.hash
  {
    hide Load, Loadable, DataOf;
    if file.header.chunks <= |file.chunks| {
      var chunks := file.chunks[..file.header.chunks];
      LoadIffLoadable(codec, file.table, chunks);
      assert forall i :: 0 <= i < |chunks| ==> chunks[i] == file.chunks[i];
    }
  }

  method OpenTable(table: seq<(nat, string)>) returns (names: map<nat, string>, tables: Tables)
    ensures names == NamesOf(table) && tables == Opened(table)
  {
    names, tables := map[], map[];
    for i := 0 to |table|
      invariant names == NamesOf(table[..i]) && tables == Opened(table[..i])
    {
      assert table[..i + 1][..i] == table[..i];
      tables := tables[table[i].1 := map[]];
      names := names[table[i].0 := table[i].1];
    }
    assert table[..|table|] == table;
  }

  method Restore(codec: Codec, file: File) returns (r: Option<Tables>)
    ensures r == Restored(codec, file)
    ensures r.Some? <==>
              && file.header.magic == [75, 83, 80, 82, 45, 55, 50, 49]
              && file.header.chunks <= |file.chunks|
              && (forall i :: 0 <= i < file.header.chunks ==> Loadable(codec, file.table, file.chunks[i]))
              && codec.hash(DataOf(file.chunks[..file.header.chunks])) == file.header.hash
  {
    hide Load, PutAll, Loadable;
    RestoredIff(codec, file);
    if file.header.magic != HEADER_MAGIC {
      return None;
    }
    var names, tables := OpenTable(file.table);
    NothingLoaded(codec, names, tables);
    assert file.chunks[..0] == [];
    var hashed: Bytes := [];
    for n := 0 to file.header.chunks
      invariant n <= |file.chunks|
      invariant hashed == DataOf(file.chunks[..n])
      invariant Load(codec, NamesOf(file.table), Opened(file.table), file.chunks[..n]) == Some(tables)
    {
      if n >= |file.chunks| {
        return None;
      }
      var deflated := file.chunks[n];
      assert file.chunks[..n + 1][..n] == file.chunks[..n];
      hashed := hashed + deflated.data;
      var records := codec.unpack(deflated.data);
      LoadStep(codec, NamesOf(file.table), Opened(file.table), file.chunks[..n + 1]);
      if records.None? || deflated.partitionId !in names || names[deflated.partitionId] !in tables {
        if file.header.chunks <= |file.chunks| {
          assert file.chunks[..file.header.chunks][..n + 1] == file.chunks[..n + 1];
          LoadFails(codec, names, Opened(file.table), file.chunks[..file.header.chunks], n + 1);
        }
        return None;
      }
      tables := PutAll(tables, names[deflated.partitionId], records.value);
    }
    r := if codec.hash(hashed) == file.header.hash then Some(tables) else None;
  }

  lemma LoadStep(codec: Codec, names: map<nat, string>, tables: Tables, chunks: seq<Deflated>)
    requires chunks != [] && Load(codec, names, tables, chunks[..|chunks| - 1]).Some?
    ensures var before, d := Load(codec, names, tables, chunks[..|chunks| - 1]).value, chunks[|chunks| - 1];
            Load(codec, names, tables, chunks)
              == if codec.unpack(d.data).Some? && d.partitionId in names && names[d.partitionId] in before then
                   Some(PutAll(before, names[d.partitionId], codec.unpack(d.data).value))
                 else None
  {
  }

  // ---------------------------------------------------------------- the round trip

  /** What the archive is to hold: every kept partition with its records. */
  function TablesOf(kept: seq<Source>): Tables {
    if kept == [] then map[] else TablesOf(kept[..|kept| - 1])[kept[|kept| - 1].name := Contents(kept[|kept| - 1].records)]
  }

  ghost predicate DistinctNames(kept: seq<Source>) {
    forall i, j :: 0 <= i < j < |kept| ==> kept[i].name != kept[j].name
  }

  ghost predicate Targets(names: map<nat, string>, tables: Tables, chunks: seq<Inflated>) {
    forall i :: 0 <= i < |chunks| ==> chunks[i].partitionId in names && names[chunks[i].partitionId] in tables
  }

  /** Loading the chunks inserts exactly the records in them. */
  lemma {:induction false} LoadIsPuts(codec: Codec, names: map<nat, string>, tables: Tables, chunks: seq<Inflated>)
    requires Lawful(codec) && Targets(names, tables, chunks)
    ensures Load(codec, names, tables, DeflateAll(codec, chunks)) == Some(Puts(names, tables, TaggedChunks(chunks)))
    ensures Puts(names, tables, TaggedChunks(chunks)).Keys == tables.Keys
  {
    if chunks != [] {
      var n := |chunks| - 1;
      LoadIsPuts(codec, names, tables, chunks[..n]);
      var before := Puts(names, tables, TaggedChunks(chunks[..n]));
      var c := chunks[n];
      assert DeflateAll(codec, chunks)[..n] == DeflateAll(codec, chunks[..n]);
      assert codec.unpack(codec.pack(c.records)) == Some(c.records);
      PutsJoin(names, tables, TaggedChunks(chunks[..n]), Tag(c.partitionId, c.records));
      PutsOfTag(names, before, c.partitionId, c.records);
      PutAllKeeps(before, names[c.partitionId], c.records);
    }
  }

  lemma SmallId(i: nat)
    requires i < U16
    ensures IdOf(i) == i
  {
  }

  lemma TableStep(kept: seq<Source>)
    requires kept != []
    ensures var n := |kept| - 1; TableOf(kept) == TableOf(kept[..n]) + [(IdOf(n), kept[n].name)]
    ensures NamesOf(TableOf(kept)) == NamesOf(TableOf(kept[..|kept| - 1]))[IdOf(|kept| - 1) := kept[|kept| - 1].name]
    ensures Opened(TableOf(kept)) == Opened(TableOf(kept[..|kept| - 1]))[kept[|kept| - 1].name := map[]]
  {
    hide IdOf;
    assert TableOf(kept)[..|kept| - 1] == TableOf(kept[..|kept| - 1]);
  }

  lemma {:induction false} IdsInTable(kept: seq<Source>)
    requires |kept| <= U16
    ensures forall i :: 0 <= i < |kept| ==> i in NamesOf(TableOf(kept)) && NamesOf(TableOf(kept))[i] == kept[i].name
  {
    hide IdOf, TableOf, NamesOf;
    if kept != [] {
      IdsInTable(kept[..|kept| - 1]);
      TableStep(kept);
      SmallId(|kept| - 1);
    }
  }

  ghost predicate HasName(kept: seq<Source>, name: string) {
    exists i :: 0 <= i < |kept| && kept[i].name == name
  }

  lemma HasNameStep(kept: seq<Source>, name: string)
    requires kept != []
    ensures HasName(kept, name) <==> HasName(kept[..|kept| - 1], name) || kept[|kept| - 1].name == name
  {
    var n := |kept| - 1;
    if i :| 0 <= i < |kept| && kept[i].name == name && i < n {
      assert kept[..n][i].name == name;
    }
    if i :| 0 <= i < n && kept[..n][i].name == name {
      assert kept[i].name == name;
    }
    if kept[n].name == name {
      assert HasName(kept, name);
    }
  }

  lemma {:induction false} NamesInTable(kept: seq<Source>)
    ensures forall name :: name in Opened(TableOf(kept)) <==> HasName(kept, name)
    ensures forall name :: name in Opened(TableOf(kept)) ==> Opened(TableOf(kept))[name] == map[]
  {
    hide HasName;
    if kept == [] {
      forall name ensures !HasName(kept, name) {
        NoNames(name);
      }
    } else {
      NamesInTable(kept[..|kept| - 1]);
      TableStep(kept);
      forall name ensures HasName(kept, name) <==> HasName(kept[..|kept| - 1], name) || kept[|kept| - 1].name == name {
        HasNameStep(kept, name);
      }
    }
  }

  lemma NoNames(name: string)
    ensures !HasName([], name)
  {
  }

  /** The tables half-way: the first partitions are filled, the others still empty. */
  ghost predicate FilledUpTo(empty: Tables, kept: seq<Source>, n: nat, tables: Tables)
    requires n <= |kept|
  {
    && tables.Keys == empty.Keys
    && (forall i :: 0 <= i < n ==> kept[i].name in tables && tables[kept[i].name] == Contents(kept[i].records))
    && (forall i :: n <= i < |kept| ==> kept[i].name in tables && tables[kept[i].name] == map[])
  }

  lemma StillEmpty(empty: Tables, kept: seq<Source>)
    requires forall i :: 0 <= i < |kept| ==> kept[i].name in empty && empty[kept[i].name] == map[]
    ensures FilledUpTo(empty, kept, 0, empty)
  {
  }

  lemma NextIsEmpty(empty: Tables, kept: seq<Source>, n: nat, tables: Tables)
    requires n < |kept| && FilledUpTo(empty, kept, n, tables)
    ensures kept[n].name in tables && tables[kept[n].name] == map[]
  {
    hide Contents;
  }

  lemma FilledStep(empty: Tables, kept: seq<Source>, n: nat, before: Tables)
    requires 0 < n <= |kept| && DistinctNames(kept) && FilledUpTo(empty, kept, n - 1, before)
    ensures FilledUpTo(empty, kept, n, before[kept[n - 1].name := Contents(kept[n - 1].records)])
  {
    hide Contents;
  }

  lemma PutsOneMore(names: map<nat, string>, empty: Tables, kept: seq<Source>, n: nat)
    requires n < |kept| <= U16 && n in names && names[n] == kept[n].name
    requires var before := Puts(names, empty, AllTagged(kept[..n])); kept[n].name in before && before[kept[n].name] == map[]
    ensures var before := Puts(names, empty, AllTagged(kept[..n]));
            Puts(names, empty, AllTagged(kept[..n + 1])) == before[kept[n].name := Contents(kept[n].records)]
  {
    hide Contents, Tag, PutAll, IdOf, Puts;
    var before, s := Puts(names, empty, AllTagged(kept[..n])), kept[n];
    assert kept[..n + 1][..n] == kept[..n];
    SmallId(n);
    PutsJoin(names, empty, AllTagged(kept[..n]), Tag(n, s.records));
    PutsOfTag(names, before, n, s.records);
    PutAllIsContents(before, s.name, s.records);
  }

  lemma {:induction false} PutsFill(names: map<nat, string>, empty: Tables, kept: seq<Source>, n: nat)
    requires n <= |kept| <= U16 && DistinctNames(kept)
    requires forall i :: 0 <= i < |kept| ==> i in names && names[i] == kept[i].name && kept[i].name in empty && empty[kept[i].name] == map[]
    ensures FilledUpTo(empty, kept, n, Puts(names, empty, AllTagged(kept[..n])))
  {
    hide Contents, FilledUpTo, AllTagged;
    if n == 0 {
      assert kept[..0] == [];
      assert AllTagged([]) == [] by { NothingTagged(); }
      StillEmpty(empty, kept);
    } else {
      PutsFill(names, empty, kept, n - 1);
      var before := Puts(names, empty, AllTagged(kept[..n - 1]));
      NextIsEmpty(empty, kept, n - 1, before);
      PutsOneMore(names, empty, kept, n - 1);
      FilledStep(empty, kept, n, before);
    }
  }

  lemma NothingTagged()
    ensures AllTagged([]) == []
  {
  }

  lemma {:induction false} TablesMembers(kept: seq<Source>)
    requires DistinctNames(kept)
    ensures forall i :: 0 <= i < |kept| ==> kept[i].name in TablesOf(kept) && TablesOf(kept)[kept[i].name] == Contents(kept[i].records)
    ensures forall name :: name in TablesOf(kept) ==> exists i :: 0 <= i < |kept| && kept[i].name == name
  {
    hide Contents;
    if kept != [] {
      var n := |kept| - 1;
      TablesMembers(kept[..n]);
      forall name | name in TablesOf(kept) ensures exists i :: 0 <= i < |kept| && kept[i].name == name {
        if name == kept[n].name {
          assert kept[n].name == name;
        } else {
          var i :| 0 <= i < n && kept[..n][i].name == name;
          assert kept[i].name == name;
        }
      }
    }
  }

  lemma ChunksHaveTargets(kept: seq<Source>, chunks: seq<Inflated>, names: map<nat, string>, empty: Tables)
    requires |kept| <= U16 && TaggedChunks(chunks) == AllTagged(kept) && forall i :: 0 <= i < |chunks| ==> chunks[i].records != []
    requires forall i :: 0 <= i < |kept| ==> i in names && names[i] in empty
    ensures Targets(names, empty, chunks)
  {
    hide Tag;
    forall i | 0 <= i < |chunks| ensures chunks[i].partitionId in names && names[chunks[i].partitionId] in empty {
      FirstIsTagged(chunks, i);
      IdsAreKept(kept, Tagged(chunks[i].partitionId, chunks[i].records[0]));
    }
  }

  lemma {:induction false} FirstIsTagged(chunks: seq<Inflated>, i: nat)
    requires i < |chunks| && chunks[i].records != []
    ensures Tagged(chunks[i].partitionId, chunks[i].records[0]) in TaggedChunks(chunks)
    decreases |chunks|
  {
    var n := |chunks| - 1;
    if i < n {
      FirstIsTagged(chunks[..n], i);
    } else {
      assert Tag(chunks[n].partitionId, chunks[n].records)[0] == Tagged(chunks[i].partitionId, chunks[i].records[0]);
    }
  }

  lemma {:induction false} IdsAreKept(kept: seq<Source>, x: Tagged)
    requires x in AllTagged(kept)
    ensures |kept| <= U16 ==> x.id < |kept|
  {
    var n := |kept| - 1;
    if x in AllTagged(kept[..n]) {
      IdsAreKept(kept[..n], x);
    }
  }

  /** Restoring what was archived rebuilds every partition that was not skipped, exactly,
      for any chunk size and any number of workers; the hash check passes.  The ids are
      16-bit numbers, so there may be 65536 partitions. */
  lemma ArchiveComesBack(codec: Codec, kept: seq<Source>, file: File)
    requires Lawful(codec) && Archives(codec, kept, file) && DistinctNames(kept) && |kept| <= U16
    ensures Restored(codec, file) == Some(TablesOf(kept))
  {
    hide Load, Puts, TableOf, TablesOf, Opened, NamesOf, AllTagged, TaggedChunks, DeflateAll, Contents;
    var chunks: seq<Inflated> :| file.chunks == DeflateAll(codec, chunks) && TaggedChunks(chunks) == AllTagged(kept)
      && forall i :: 0 <= i < |chunks| ==> chunks[i].records != [];
    var names, empty := NamesOf(file.table), Opened(file.table);
    assert file.chunks[..file.header.chunks] == file.chunks;
    IdsInTable(kept);
    NamesInTable(kept);
    forall i | 0 <= i < |kept| ensures kept[i].name in empty {
      assert HasName(kept, kept[i].name);
    }
    ChunksHaveTargets(kept, chunks, names, empty);
    LoadIsPuts(codec, names, empty, chunks);
    PutsFill(names, empty, kept, |kept|);
    assert kept[..|kept|] == kept;
    SameTables(kept, empty, Puts(names, empty, AllTagged(kept)));
  }

  lemma SameTables(kept: seq<Source>, empty: Tables, tables: Tables)
    requires DistinctNames(kept) && FilledUpTo(empty, kept, |kept|, tables)
    requires forall name :: name in empty <==> HasName(kept, name)
    ensures tables == TablesOf(kept)
  {
    hide Contents, TablesOf;
    TablesMembers(kept);
    forall name | name in tables ensures name in TablesOf(kept) && TablesOf(kept)[name] == tables[name] {
      var i :| 0 <= i < |kept| && kept[i].name == name;
    }
    forall name | name in TablesOf(kept) ensures name in tables {
      var i :| 0 <= i < |kept| && kept[i].name == name;
    }
  }

  lemma {:induction false} ContentKeys(records: seq<Record>, k: Bytes)
    ensures k in Contents(records) <==> exists i :: 0 <= i < |records| && records[i].k == k
  {
    if records != [] {
      var n := |records| - 1;
      ContentKeys(records[..n], k);
      if i :| 0 <= i < |records| && records[i].k == k {
        assert i == n || records[..n][i].k == k;
      }
    }
  }

  ghost predicate LastOfItsKey(records: seq<Record>, i: nat)
    requires i < |records|
  {
    forall j :: i < j < |records| ==> records[j].k != records[i].k
  }

  lemma {:induction false} LastRecordWins(records: seq<Record>, i: nat)
    requires i < |records| && LastOfItsKey(records, i)
    ensures records[i].k in Contents(records) && Contents(records)[records[i].k] == records[i].v
  {
    var n := |records| - 1;
    if i < n {
      assert records[n].k != records[i].k;
      assert LastOfItsKey(records[..n], i);
      LastRecordWins(records[..n], i);
    }
  }

  /** A partition's contents are its records, the last one where a key comes again. */
  lemma ContentsAreRecords(records: seq<Record>)
    ensures forall k :: k in Contents(records) <==> exists i :: 0 <= i < |records| && records[i].k == k
    ensures forall i :: 0 <= i < |records| && LastOfItsKey(records, i) ==>
              records[i].k in Contents(records) && Contents(records)[records[i].k] == records[i].v
  {
    hide Contents, LastOfItsKey;
    forall k ensures k in Contents(records) <==> exists i :: 0 <= i < |records| && records[i].k == k {
      ContentKeys(records, k);
    }
    forall i | 0 <= i < |records| && LastOfItsKey(records, i)
      ensures records[i].k in Contents(records) && Contents(records)[records[i].k] == records[i].v
    {
      LastRecordWins(records, i);
    }
  }

  // ---------------------------------------------------------------- what any file restores to

  /** The records of the chunks for the partition `name`, in order. */
  function RecordsFor(codec: Codec, names: map<nat, string>, chunks: seq<Deflated>, name: string): seq<Record> {
    if chunks == [] then []
    else
      var n := |chunks| - 1;
      var before, id, records := RecordsFor(codec, names, chunks[..n], name), chunks[n].partitionId, codec.unpack(chunks[n].data);
      if id in names && names[id] == name && records.Some? then before + records.value else before
  }

  lemma {:induction false} PutAllAppends(tables: Tables, name: string, before: seq<Record>, records: seq<Record>)
    requires name in tables && tables[name] == Contents(before)
    ensures PutAll(tables, name, records) == tables[name := Contents(before + records)]
  {
    if records == [] {
      assert before + records == before;
      assert tables[name := tables[name]] == tables;
    } else {
      var n := |records| - 1;
      PutAllAppends(tables, name, before, records[..n]);
      assert (before + records)[..|before + records| - 1] == before + records[..n];
    }
  }

  lemma {:induction false} LoadFills(codec: Codec, names: map<nat, string>, table: seq<(nat, string)>, chunks: seq<Deflated>)
    ensures var r := Load(codec, names, Opened(table), chunks);
            r.Some? ==>
              && r.value.Keys == Opened(table).Keys
              && forall name :: name in r.value ==> r.value[name] == Contents(RecordsFor(codec, names, chunks, name))
  {
    hide Contents, PutAll, Opened;
    if chunks == [] {
      OpenedEmpty(table);
    } else {
      var n := |chunks| - 1;
      LoadFills(codec, names, table, chunks[..n]);
      var before, records, id := Load(codec, names, Opened(table), chunks[..n]), codec.unpack(chunks[n].data), chunks[n].partitionId;
      if before.Some? && records.Some? && id in names && names[id] in before.value {
        PutAllAppends(before.value, names[id], RecordsFor(codec, names, chunks[..n], names[id]), records.value);
      }
    }
  }

  lemma {:induction false} OpenedEmpty(table: seq<(nat, string)>)
    ensures forall name :: name in Opened(table) <==> exists i :: 0 <= i < |table| && table[i].1 == name
    ensures forall name :: name in Opened(table) ==> Opened(table)[name] == map[] == Contents([])
  {
    if table != [] {
      var n := |table| - 1;
      OpenedEmpty(table[..n]);
      forall name ensures name in Opened(table) <==> exists i :: 0 <= i < |table| && table[i].1 == name {
        if name in Opened(table[..n]) {
          var i :| 0 <= i < n && table[..n][i].1 == name;
          assert table[i].1 == name;
        }
        if i :| 0 <= i < |table| && table[i].1 == name {
          assert i == n || table[..n][i].1 == name;
        }
      }
    }
  }

  /** A restored file has the partitions of its table, each with the records its chunks hold
      for it. */
  lemma RestoredTables(codec: Codec, file: File)
    requires Restored(codec, file).Some?
    ensures var r, chunks := Restored(codec, file).value, file.chunks[..file.header.chunks];
            && (forall name :: name in r <==> exists i :: 0 <= i < |file.table| && file.table[i].1 == name)
            && (forall name :: name in r ==> r[name] == Contents(RecordsFor(codec, NamesOf(file.table), chunks, name)))
  {
    hide Load, Contents, RecordsFor, NamesOf, Opened;
    LoadFills(codec, NamesOf(file.table), file.table, file.chunks[..file.header.chunks]);
    OpenedEmpty(file.table);
  }
}
