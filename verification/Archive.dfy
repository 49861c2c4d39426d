/** Archiving the database into chunks and restoring it (snapshot/src/snapshot.rs,
    snapshot/src/chunk.rs).  Encoding with compression, and the hash, are library
    functions: `Codec` stands for any pair of inverse functions and any hash. */
module Archive {
  import opened Model

  type Bytes = seq<nat>

  datatype Record = Record(k: Bytes, v: Bytes)
  datatype Inflated = Inflated(partitionId: nat, records: seq<Record>)
  datatype Deflated = Deflated(partitionId: nat, data: Bytes)
  datatype Header = Header(magic: Bytes, version: nat, chunks: nat, offset: nat, hash: Bytes)
  datatype Codec = Codec(pack: seq<Record> -> Bytes, unpack: Bytes -> Option<seq<Record>>, hash: Bytes -> Bytes)
  /** The archive as written: the header, the partition table and the chunks. */
  datatype File = File(header: Header, table: seq<(nat, string)>, chunks: seq<Deflated>)
  /** The restored partitions by name. */
  type Tables = map<string, map<Bytes, Bytes>>

  const HEADER_MAGIC: Bytes := [75, 83, 80, 82, 45, 55, 50, 49]
  const DATA_OFFSET: nat := 128
  const U16: nat := 0x1_0000

  ghost predicate Lawful(codec: Codec) {
    forall records :: codec.unpack(codec.pack(records)) == Some(records)
  }

  // ---------------------------------------------------------------- chunks

  function Size(records: seq<Record>): nat {
    if records == [] then 0 else Size(records[..|records| - 1]) + |records[|records| - 1].k| + |records[|records| - 1].v|
  }

  /** The bytes of the records one after the other. */
  function Flat(records: seq<Record>): Bytes {
    if records == [] then [] else Flat(records[..|records| - 1]) + records[|records| - 1].k + records[|records| - 1].v
  }

  lemma {:induction false} SizeIsBytes(records: seq<Record>)
    ensures Size(records) == |Flat(records)|
  {
    if records != [] {
      SizeIsBytes(records[..|records| - 1]);
    }
  }

  /** An open partition: its iterator has the records not read yet. */
  class Partition {
    const id: nat
    const name: string
    var iter: seq<Record>

    constructor (id: nat, name: string, records: seq<Record>)
      ensures this.id == id && this.name == name && iter == records
    {
      this.id, this.name, iter := id, name, records;
    }
  }

  /** Reads records until their size passes `chunkSize`: the first records of what is
      left, `None` when nothing is. */
  method Fill(partition: Partition, chunkSize: nat) returns (chunk: Option<Inflated>)
    modifies partition
    ensures chunk.None? <==> old(partition.iter) == []
    ensures chunk.None? ==> partition.iter == []
    ensures chunk.Some? ==>
              && chunk.value.partitionId == partition.id && chunk.value.records != []
              && chunk.value.records + partition.iter == old(partition.iter)
              && (Size(chunk.value.records) > chunkSize || partition.iter == [])
              && Size(chunk.value.records[..|chunk.value.records| - 1]) <= chunkSize
  {
    var size, records := 0, [];
    while partition.iter != []
      invariant records + partition.iter == old(partition.iter)
      invariant size == Size(records) <= chunkSize
      decreases |partition.iter|
    {
      var record := partition.iter[0];
      partition.iter := partition.iter[1..];
      size := size + |record.k| + |record.v|;
      assert (records + [record])[..|records|] == records;
      records := records + [record];
      if size > chunkSize {
        return Some(Inflated(partition.id, records));
      }
    }
    if records != [] {
      assert records[..|records| - 1] + [records[|records| - 1]] == records;
      chunk := Some(Inflated(partition.id, records));
    } else {
      chunk := None;
    }
  }

  datatype Tagged = Tagged(id: nat, record: Record)

  function Tag(id: nat, records: seq<Record>): (r: seq<Tagged>)
    ensures |r| == |records| && forall i :: 0 <= i < |r| ==> r[i] == Tagged(id, records[i])
  {
    if records == [] then [] else Tag(id, records[..|records| - 1]) + [Tagged(id, records[|records| - 1])]
  }

  lemma TagJoins(id: nat, a: seq<Record>, b: seq<Record>)
    ensures Tag(id, a + b) == Tag(id, a) + Tag(id, b)
  {
  }

  /** The records left in the partitions, each with the partition it belongs to. */
  ghost function Unread(partitions: seq<Partition>): seq<Tagged>
    reads partitions
  {
    if partitions == [] then [] else Tag(partitions[0].id, partitions[0].iter) + Unread(partitions[1..])
  }

  lemma UnreadFirst(partitions: seq<Partition>)
    requires partitions != []
    ensures Unread(partitions) == Tag(partitions[0].id, partitions[0].iter) + Unread(partitions[1..])
  {
  }

  lemma NothingUnread()
    ensures Unread([]) == []
  {
  }

  lemma NothingTagged(id: nat)
    ensures Tag(id, []) == []
  {
  }

  ghost predicate Distinct(partitions: seq<Partition>) {
    forall i, j :: 0 <= i < j < |partitions| ==> partitions[i] != partitions[j]
  }

  class DatabaseIngest {
    var partitions: seq<Partition>
    const chunkSize: nat

    constructor (partitions: seq<Partition>, chunkSize: nat)
      ensures this.partitions == partitions && this.chunkSize == chunkSize
    {
      this.partitions, this.chunkSize := partitions, chunkSize;
    }

    /** The next chunk; a partition with nothing left is dropped. */
    method Next() returns (chunk: Option<Inflated>)
      requires Distinct(partitions)
      modifies this, partitions
      ensures Distinct(partitions) && |partitions| <= |old(partitions)|
      ensures forall p :: p in partitions ==> p in old(partitions)
      ensures chunk.None? ==> Unread(partitions) == [] == old(Unread(partitions))
      ensures chunk.Some? ==>
                && chunk.value.records != []
                && Tag(chunk.value.partitionId, chunk.value.records) + Unread(partitions) == old(Unread(partitions))
    {
      hide Tag, Size, Unread;
      NothingUnread();
      while partitions != []
        invariant Distinct(partitions) && |partitions| <= |old(partitions)|
        invariant forall p :: p in partitions ==> p in old(partitions)
        invariant Unread(partitions) == old(Unread(partitions))
        decreases |partitions|
      {
        var partition, rest := partitions[0], partitions[1..];
        ghost var before, unread := partition.iter, Unread(rest);
        assert partition in partitions && partition !in rest;
        UnreadFirst(partitions);
        chunk := Fill(partition, chunkSize);
        assert Unread(rest) == unread;
        UnreadFirst(partitions);
        NothingTagged(partition.id);
        if chunk.Some? {
          TagJoins(partition.id, chunk.value.records, partition.iter);
          return;
        }
        partitions := rest;
      }
      chunk := None;
    }
  }
}
