/** Writing an archive (snapshot/src/snapshot.rs,
    `context_from_snapshots` and `archive_from_context`). */
module ArchiveWriting {
  import opened Model
  import opened Archive

  /** A partition of the database at one instant. */
  datatype Source = Source(name: string, records: seq<Record>)

  // ---------------------------------------------------------------- what is archived

  function Kept(sources: seq<Source>, skip: set<string>): seq<Source> {
    if sources == [] then []
    else
      var n := |sources| - 1;
      Kept(sources[..n], skip) + (if sources[n].name in skip then [] else [sources[n]])
  }

  /** The partition ids are positions, as 16-bit numbers. */
  function IdOf(i: nat): nat {
    i % U16
  }

  function TableOf(kept: seq<Source>): (table: seq<(nat, string)>)
    ensures |table| == |kept| && forall i :: 0 <= i < |kept| ==> table[i] == (IdOf(i), kept[i].name)
  {
    if kept == [] then [] else TableOf(kept[..|kept| - 1]) + [(IdOf(|kept| - 1), kept[|kept| - 1].name)]
  }

  /** All records of the partitions, in order, each with its partition. */
  function AllTagged(kept: seq<Source>): seq<Tagged> {
    if kept == [] then [] else AllTagged(kept[..|kept| - 1]) + Tag(IdOf(|kept| - 1), kept[|kept| - 1].records)
  }

  function TaggedChunks(chunks: seq<Inflated>): seq<Tagged> {
    if chunks == [] then []
    else
      var n := |chunks| - 1;
      TaggedChunks(chunks[..n]) + Tag(chunks[n].partitionId, chunks[n].records)
  }

  function DeflateAll(codec: Codec, chunks: seq<Inflated>): (r: seq<Deflated>)
    ensures |r| == |chunks|
    ensures forall i :: 0 <= i < |r| ==> r[i] == Deflated(chunks[i].partitionId, codec.pack(chunks[i].records))
  {
    if chunks == [] then []
    else
      var n := |chunks| - 1;
      DeflateAll(codec, chunks[..n]) + [Deflated(chunks[n].partitionId, codec.pack(chunks[n].records))]
  }

  /** What the hash runs over. */
  function DataOf(chunks: seq<Deflated>): Bytes {
    if chunks == [] then [] else DataOf(chunks[..|chunks| - 1]) + chunks[|chunks| - 1].data
  }

  /** The data of the chunks one after the other. */
  lemma {:induction false} DataJoins(a: seq<Deflated>, b: seq<Deflated>, d: Deflated)
    ensures DataOf(a + b) == DataOf(a) + DataOf(b) && DataOf([d]) == d.data
    decreases |b|
  {
    assert [d][..0] == [];
    if b == [] {
      assert a + b == a;
    } else {
      DataJoins(a, b[..|b| - 1], d);
      assert (a + b)[..|a + b| - 1] == a + b[..|b| - 1];
    }
  }

  /** The partitions that are not skipped, in their order. */
  lemma {:induction false} KeptAreNotSkipped(sources: seq<Source>, skip: set<string>)
    ensures forall s :: s in Kept(sources, skip) <==> s in sources && s.name !in skip
    ensures forall n :: 0 <= n <= |sources| ==> Kept(sources[..n], skip) <= Kept(sources, skip)
  {
    if sources != [] {
      var m := |sources| - 1;
      KeptAreNotSkipped(sources[..m], skip);
      assert forall s :: s in sources <==> s in sources[..m] || s == sources[m];
      assert forall s :: s in Kept(sources, skip) <==> s in Kept(sources[..m], skip) || (s == sources[m] && s.name !in skip);
      forall n | 0 <= n <= |sources| ensures Kept(sources[..n], skip) <= Kept(sources, skip) {
        if n <= m {
          assert sources[..m][..n] == sources[..n];
        } else {
          assert sources[..n] == sources;
        }
      }
    }
  }

  /** The file holds exactly the records of the kept partitions, in order, and its header
      fits its chunks. */
  ghost predicate Archives(codec: Codec, kept: seq<Source>, file: File) {
    && file.header == Header(HEADER_MAGIC, 1, |file.chunks|, DATA_OFFSET, codec.hash(DataOf(file.chunks)))
    && file.table == TableOf(kept)
    && exists chunks: seq<Inflated> ::
         && file.chunks == DeflateAll(codec, chunks)
         && TaggedChunks(chunks) == AllTagged(kept)
         && forall i :: 0 <= i < |chunks| ==> chunks[i].records != []
  }

  // ---------------------------------------------------------------- writing

  method OpenPartitions(kept: seq<Source>) returns (partitions: seq<Partition>)
    ensures |partitions| == |kept| && Distinct(partitions)
    ensures forall i :: 0 <= i < |kept| ==>
              fresh(partitions[i]) && partitions[i].id == IdOf(i) && partitions[i].name == kept[i].name && partitions[i].iter == kept[i].records
  {
    partitions := [];
    for i := 0 to |kept|
      invariant |partitions| == i && Distinct(partitions)
      invariant forall j :: 0 <= j < i ==>
                  fresh(partitions[j]) && partitions[j].id == IdOf(j) && partitions[j].name == kept[j].name && partitions[j].iter == kept[j].records
    {
      var p := new Partition(IdOf(i), kept[i].name, kept[i].records);
      partitions := partitions + [p];
    }
  }

  lemma {:induction false} UnreadAppends(partitions: seq<Partition>)
    requires partitions != []
    ensures var n := |partitions| - 1;
            Unread(partitions) == Unread(partitions[..n]) + Tag(partitions[n].id, partitions[n].iter)
  {
    hide Tag;
    var n := |partitions| - 1;
    if n == 0 {
      assert partitions[..n] == [] && partitions[1..] == [];
    } else {
      UnreadAppends(partitions[1..]);
      assert partitions[..n][1..] == partitions[1..][..n - 1];
      assert partitions[..n][0] == partitions[0] && partitions[1..][n - 1] == partitions[n];
    }
  }

  lemma {:induction false} UnreadIsAll(kept: seq<Source>, partitions: seq<Partition>)
    requires |partitions| == |kept|
    requires forall i :: 0 <= i < |kept| ==> partitions[i].id == IdOf(i) && partitions[i].iter == kept[i].records
    ensures Unread(partitions) == AllTagged(kept)
  {
    hide Tag;
    if kept != [] {
      UnreadAppends(partitions);
      UnreadIsAll(kept[..|kept| - 1], partitions[..|kept| - 1]);
    }
  }

  method Collect(sources: seq<Source>, skip: set<string>) returns (kept: seq<Source>)
    ensures kept == Kept(sources, skip)
  {
    kept := [];
    for i := 0 to |sources|
      invariant kept == Kept(sources[..i], skip)
    {
      assert sources[..i + 1][..i] == sources[..i];
      if sources[i].name !in skip {
        kept := kept + [sources[i]];
      }
    }
    assert sources[..|sources|] == sources;
  }

  /** The chunks taken from the ingest so far: `written` is in the file, `pending` is with
      the workers, which deliver in order. */
  ghost predicate Progress(codec: Codec, all: seq<Tagged>, unread: seq<Tagged>, chunks: seq<Inflated>,
                           written: seq<Deflated>, pending: seq<Deflated>)
  {
    && written + pending == DeflateAll(codec, chunks)
    && TaggedChunks(chunks) + unread == all
    && (forall i :: 0 <= i < |chunks| ==> chunks[i].records != [])
  }

  lemma OneMoreChunk(codec: Codec, all: seq<Tagged>, before: seq<Tagged>, unread: seq<Tagged>, chunks: seq<Inflated>,
                     written: seq<Deflated>, pending: seq<Deflated>, chunk: Inflated)
    requires Progress(codec, all, before, chunks, written, pending)
    requires chunk.records != [] && Tag(chunk.partitionId, chunk.records) + unread == before
    ensures Progress(codec, all, unread, chunks + [chunk], written, pending + [Deflated(chunk.partitionId, codec.pack(chunk.records))])
    ensures |unread| < |before|
  {
    hide Tag;
    assert (chunks + [chunk])[..|chunks|] == chunks;
    var d := Deflated(chunk.partitionId, codec.pack(chunk.records));
    assert written + (pending + [d]) == written + pending + [d];
  }

  lemma OneMoreWritten(codec: Codec, all: seq<Tagged>, unread: seq<Tagged>, chunks: seq<Inflated>, written: seq<Deflated>, pending: seq<Deflated>)
    requires Progress(codec, all, unread, chunks, written, pending) && pending != []
    ensures Progress(codec, all, unread, chunks, written + [pending[0]], pending[1..])
    ensures DataOf(written + [pending[0]]) == DataOf(written) + pending[0].data
  {
    assert written + [pending[0]] + pending[1..] == written + pending;
    assert (written + [pending[0]])[..|written|] == written;
  }

  /** Packs the kept partitions; `None` when there is none. */
  method ArchiveSnapshots(codec: Codec, sources: seq<Source>, skip: set<string>, chunkSize: nat, workerCount: nat)
    returns (file: Option<File>)
    requires workerCount >= 1
    ensures file.None? <==> Kept(sources, skip) == []
    ensures file.Some? ==> Archives(codec, Kept(sources, skip), file.value)
  {
    hide Tag, Unread, Progress, Kept, DeflateAll, TaggedChunks, AllTagged;
    var kept := Collect(sources, skip);
    if kept == [] {
      return None;
    }
    var partitions := OpenPartitions(kept);
    UnreadIsAll(kept, partitions);
    var ingest := new DatabaseIngest(partitions, chunkSize);
    var written: seq<Deflated>, pending: seq<Deflated> := [], [];
    var hashed: Bytes, count := [], 0;
    ghost var chunks: seq<Inflated> := [];
    ghost var all := AllTagged(kept);
    NothingYet(codec, all);
    while true
      invariant Distinct(ingest.partitions) && fresh(ingest) && forall p :: p in ingest.partitions ==> fresh(p)
      invariant Progress(codec, all, Unread(ingest.partitions), chunks, written, pending)
      invariant hashed == DataOf(written) && count == |chunks|
      decreases 2 * |Unread(ingest.partitions)| + |pending|
    {
      ghost var left := 2 * |Unread(ingest.partitions)| + |pending|;
      while |pending| < workerCount
        invariant Distinct(ingest.partitions) && fresh(ingest) && forall p :: p in ingest.partitions ==> fresh(p)
        invariant Progress(codec, all, Unread(ingest.partitions), chunks, written, pending)
        invariant count == |chunks|
        invariant 2 * |Unread(ingest.partitions)| + |pending| <= left
        decreases |Unread(ingest.partitions)|, |pending|
      {
        ghost var before := Unread(ingest.partitions);
        assert forall i :: 0 <= i < |ingest.partitions| ==> ingest.partitions[i] in ingest.partitions;
        var chunk := ingest.Next();
        if chunk.None? {
          break;
        }
        OneMoreChunk(codec, all, before, Unread(ingest.partitions), chunks, written, pending, chunk.value);
        count := count + 1;
        pending := pending + [Deflated(chunk.value.partitionId, codec.pack(chunk.value.records))];
        chunks := chunks + [chunk.value];
      }
      if pending == [] {
        break;
      }
      OneMoreWritten(codec, all, Unread(ingest.partitions), chunks, written, pending);
      hashed := hashed + pending[0].data;
      written := written + [pending[0]];
      pending := pending[1..];
    }
    AllWritten(codec, kept, chunks, written);
    file := Some(File(Header(HEADER_MAGIC, 1, count, DATA_OFFSET, codec.hash(hashed)), TableOf(kept), written));
  }

  lemma NothingYet(codec: Codec, all: seq<Tagged>)
    ensures Progress(codec, all, all, [], [], []) && DataOf([]) == []
  {
  }

  lemma AllWritten(codec: Codec, kept: seq<Source>, chunks: seq<Inflated>, written: seq<Deflated>)
    requires Progress(codec, AllTagged(kept), [], chunks, written, [])
    ensures |written| == |chunks|
    ensures Archives(codec, kept, File(Header(HEADER_MAGIC, 1, |chunks|, DATA_OFFSET, codec.hash(DataOf(written))), TableOf(kept), written))
  {
    assert written + [] == written && TaggedChunks(chunks) + [] == TaggedChunks(chunks);
  }
}
