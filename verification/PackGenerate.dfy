/** A whole generated pack: the object loop with its fan-out counts, and what a reader who
    follows the recorded offsets finds in the file. */
module PackGenerate {
  import opened Prelude
  import opened PackFormat
  import opened PackEntry
  import opened PackPlan
  import opened PackWriter

  ghost predicate ValidDigests(d: Digests) {
    && (forall s: seq<Byte> :: |d.sha1(s)| == 20)
    && (forall s: seq<Byte> :: d.crc32(s) < 0x1_0000_0000)
    && (forall s: seq<Byte> :: d.compress(s) != [])
    && Inflates(d)
  }

  /** The inflater undoes the compressor on minimal blobs, and reads stored streams as RFC 1950 and
      RFC 1951 say. It returns the content and what follows the stream. */
  ghost predicate Inflates(d: Digests) {
    && (forall s: seq<Byte>, rest: seq<Byte> | |s| == SUFFIX_BYTES :: d.inflate(d.compress(s) + rest) == Some((s, rest)))
    && (forall s: seq<Byte> | ReadZlib(s).Some? :: d.inflate(s) == Some((Flatten(ReadZlib(s).value.blocks), ReadZlib(s).value.rest)))
  }

  /** How many records have an identity starting with byte `b`. */
  function CountFirst(records: seq<Record>, b: Byte): nat
    requires forall r | r in records :: r.oid != []
  {
    if records == [] then 0
    else CountFirst(records[..|records| - 1], b) + if records[|records| - 1].oid[0] == b then 1 else 0
  }

  /** The file after its head and the first `i` entries. */
  ghost function Extended(head: seq<Byte>, entries: seq<seq<Byte>>, i: nat): seq<Byte>
    requires i <= |entries|
  {
    head + Flatten(entries[..i])
  }

  /** The record of the object in entry `i`: its CRC is that of its own entry, its offset is
      where its entry starts, and its identity is that of its content. */
  ghost function RecordOf(d: Digests, head: seq<Byte>, o: Planned, entries: seq<seq<Byte>>, i: nat): Record
    requires i < |entries| && WellPlanned(o)
  {
    Record(IdentityOf(d, o), d.crc32(entries[i]), |Extended(head, entries, i)|)
  }

  ghost function RecordsOf(d: Digests, head: seq<Byte>, plan: seq<Planned>, entries: seq<seq<Byte>>, n: nat): (r: seq<Record>)
    requires n <= |entries| == |plan| && forall i | 0 <= i < |plan| :: WellPlanned(plan[i])
    ensures |r| == n
  {
    if n == 0 then []
    else RecordsOf(d, head, plan, entries, n - 1) + [RecordOf(d, head, plan[n - 1], entries, n - 1)]
  }

  lemma {:induction false} RecordsOfAt(d: Digests, head: seq<Byte>, plan: seq<Planned>, entries: seq<seq<Byte>>, n: nat, i: nat)
    requires i < n <= |entries| == |plan| && forall i | 0 <= i < |plan| :: WellPlanned(plan[i])
    ensures RecordsOf(d, head, plan, entries, n)[i] == RecordOf(d, head, plan[i], entries, i)
  {
    if i < n - 1 {
      RecordsOfAt(d, head, plan, entries, n - 1, i);
    }
  }

  /** The entries and records a plan calls for. */
  ghost predicate Realizes(d: Digests, head: seq<Byte>, plan: seq<Planned>, entries: seq<seq<Byte>>, records: seq<Record>) {
    && |entries| == |plan|
    && (forall i | 0 <= i < |plan| :: WellPlanned(plan[i]) && entries[i] == EntryOf(d, plan[i]))
    && records == RecordsOf(d, head, plan, entries, |plan|)
  }

  ghost function EntriesOf(d: Digests, plan: seq<Planned>): seq<seq<Byte>>
    requires forall i | 0 <= i < |plan| :: WellPlanned(plan[i])
  {
    seq(|plan|, i requires 0 <= i < |plan| => EntryOf(d, plan[i]))
  }

  /** The fan-out array counts the identities by their first byte. */
  ghost predicate Counts(fanout: array<nat>, records: seq<Record>)
    reads fanout
  {
    && fanout.Length == 256
    && (forall r | r in records :: |r.oid| == 20)
    && (forall b: Byte :: fanout[b] == CountFirst(records, b))
  }

  /** One turn of the object loop. */
  method AddObject(d: Digests, file: SparseFile, fanout: array<nat>, records: seq<Record>, o: Planned, ghost entry: seq<Byte>)
    returns (record: Record)
    requires ValidDigests(d) && WellPlanned(o) && entry == EntryOf(d, o)
    requires file.Valid() && Counts(fanout, records)
    modifies file, fanout
    ensures file.Valid() && file.length == file.position
    ensures file.hashed == old(file.hashed) + entry
    ensures record == Record(IdentityOf(d, o), d.crc32(entry), |old(file.hashed)|)
    ensures Counts(fanout, records + [record])
  {
    record := WriteObject(d, file, o);
    CountFirstSnoc(records, record);
    fanout[record.oid[0]] := fanout[record.oid[0]] + 1;
  }

  /** The object loop, from a file that already holds its head. */
  method WriteObjects(d: Digests, file: SparseFile, fanout: array<nat>, plan: seq<Planned>, ghost entries: seq<seq<Byte>>)
    returns (records: seq<Record>)
    requires ValidDigests(d) && |entries| == |plan|
    requires forall i | 0 <= i < |plan| :: WellPlanned(plan[i]) && entries[i] == EntryOf(d, plan[i])
    requires file.Valid() && file.length == file.position && Counts(fanout, [])
    modifies file, fanout
    ensures file.Valid() && file.length == file.position && Counts(fanout, records)
    ensures file.hashed == Extended(old(file.hashed), entries, |entries|)
    ensures records == RecordsOf(d, old(file.hashed), plan, entries, |plan|)
  {
    ghost var head := file.hashed;
    records := [];
    ExtendedStart(head, entries);
    for i := 0 to |plan|
      invariant file.Valid() && file.length == file.position && Counts(fanout, records)
      invariant file.hashed == Extended(head, entries, i)
      invariant records == RecordsOf(d, head, plan, entries, i)
    {
      ExtendedStep(head, entries, i);
      var record := AddObject(d, file, fanout, records, plan[i], entries[i]);
      records := records + [record];
    }
  }

  /** A pack with the given head: the file holds the head and the entries in order, then the
      checksum of both; each record gives the identity, CRC and offset of its entry, and the
      fan-out counts agree with the records. */
  method WriteFile(d: Digests, head: seq<Byte>, plan: seq<Planned>, ghost entries: seq<seq<Byte>>)
    returns (file: SparseFile, records: seq<Record>, fanout: array<nat>, checksum: seq<Byte>)
    requires ValidDigests(d) && head != [] && |entries| == |plan|
    requires forall i | 0 <= i < |plan| :: WellPlanned(plan[i]) && entries[i] == EntryOf(d, plan[i])
    ensures fresh(file) && fresh(fanout) && Counts(fanout, records)
    ensures Realizes(d, head, plan, entries, records)
    ensures file.hashed == Extended(head, entries, |entries|)
    ensures checksum == d.sha1(file.hashed) && file.Contents() == file.hashed + checksum
  {
    file := new SparseFile();
    fanout := new nat[256](_ => 0);
    file.Write(head);
    assert [] + head == head;
    records := WriteObjects(d, file, fanout, plan, entries);
    checksum := d.sha1(file.hashed);
    file.WriteTrailer(checksum);
  }

  /** The generator: a version 2 header with the object count, and the planned objects. */
  method WritePack(d: Digests, plan: seq<Planned>)
    returns (file: SparseFile, records: seq<Record>, fanout: array<nat>, checksum: seq<Byte>)
    requires ValidDigests(d) && forall i | 0 <= i < |plan| :: WellPlanned(plan[i])
    ensures fresh(file) && fresh(fanout) && Counts(fanout, records)
    ensures Realizes(d, PackHead(|plan|), plan, EntriesOf(d, plan), records)
    ensures file.hashed == Extended(PackHead(|plan|), EntriesOf(d, plan), |plan|)
    ensures checksum == d.sha1(file.hashed) && file.Contents() == file.hashed + checksum
  {
    file, records, fanout, checksum := WriteFile(d, PackHead(|plan|), plan, EntriesOf(d, plan));
  }

  lemma ExtendedStart(head: seq<Byte>, entries: seq<seq<Byte>>)
    ensures Extended(head, entries, 0) == head
  {
    assert entries[..0] == [];
  }

  lemma ExtendedStep(head: seq<Byte>, entries: seq<seq<Byte>>, i: nat)
    requires i < |entries|
    ensures Extended(head, entries, i + 1) == Extended(head, entries, i) + entries[i]
  {
    assert entries[..i + 1] == entries[..i] + [entries[i]];
    FlattenSnoc(entries[..i], entries[i]);
  }

  lemma CountFirstSnoc(records: seq<Record>, r: Record)
    requires forall x | x in records :: x.oid != []
    requires r.oid != []
    ensures forall b: Byte :: CountFirst(records + [r], b) == CountFirst(records, b) + if r.oid[0] == b then 1 else 0
  {
    assert (records + [r])[..|records|] == records;
  }

  lemma {:induction false} ExtendedIsPrefix(head: seq<Byte>, entries: seq<seq<Byte>>, i: nat, n: nat)
    requires i <= n <= |entries|
    ensures Extended(head, entries, i) <= Extended(head, entries, n)
    decreases n - i
  {
    if i < n {
      ExtendedStep(head, entries, i);
      ExtendedIsPrefix(head, entries, i + 1, n);
    }
  }

  /** The bytes between one recorded offset and the next are exactly one entry. */
  lemma OffsetsDelimitEntries(head: seq<Byte>, entries: seq<seq<Byte>>, i: nat, trailer: seq<Byte>)
    requires i < |entries|
    ensures
      var pack := Extended(head, entries, |entries|) + trailer;
      var from, to := |Extended(head, entries, i)|, |Extended(head, entries, i + 1)|;
      from <= to <= |pack| && pack[from..to] == entries[i] && pack[from..] == entries[i] + pack[to..]
  {
    ExtendedStep(head, entries, i);
    ExtendedIsPrefix(head, entries, i + 1, |entries|);
    SliceOfPrefix(Extended(head, entries, i), entries[i], Extended(head, entries, |entries|) + trailer);
  }

  lemma SliceOfPrefix<T>(a: seq<T>, b: seq<T>, s: seq<T>)
    requires a + b <= s
    ensures s[|a|..|a| + |b|] == b && s[|a|..] == b + s[|a| + |b|..]
  {
  }

  lemma RecordedAt(
    d: Digests, head: seq<Byte>, plan: seq<Planned>, entries: seq<seq<Byte>>, records: seq<Record>, i: nat)
    requires Realizes(d, head, plan, entries, records) && i < |plan|
    ensures |records| == |plan| == |entries| && entries[i] == EntryOf(d, plan[i])
    ensures records[i].offset == |Extended(head, entries, i)| && records[i].crc == d.crc32(entries[i])
  {
    RecordsOfAt(d, head, plan, entries, |plan|, i);
  }

  /** A record's CRC is the CRC of exactly the bytes between its offset and the next, or the trailer. */
  lemma RecordedCrc(
    d: Digests, head: seq<Byte>, plan: seq<Planned>, entries: seq<seq<Byte>>, records: seq<Record>, i: nat, trailer: seq<Byte>)
    requires Realizes(d, head, plan, entries, records) && i < |plan|
    ensures |records| == |plan| == |entries|
    ensures
      var pack := Extended(head, entries, |entries|) + trailer;
      var next := if i + 1 < |plan| then records[i + 1].offset else |pack| - |trailer|;
      && records[i].offset <= next <= |pack|
      && records[i].crc == d.crc32(pack[records[i].offset..next])
  {
    RecordedAt(d, head, plan, entries, records, i);
    if i + 1 < |plan| {
      RecordedAt(d, head, plan, entries, records, i + 1);
    }
    OffsetsDelimitEntries(head, entries, i, trailer);
  }

  /** Opened at the offset recorded for it, every stored object is read back as a blob with
      exactly its planned content, ending where the next object starts. */
  lemma RecordedOffset(
    d: Digests, head: seq<Byte>, plan: seq<Planned>, entries: seq<seq<Byte>>, records: seq<Record>, i: nat, trailer: seq<Byte>)
    requires Realizes(d, head, plan, entries, records) && i < |plan| && plan[i].size > SUFFIX_BYTES
    ensures
      var pack := Extended(head, entries, |entries|) + trailer;
      && |records| == |plan| == |entries| && records[i].offset <= |pack|
      && var entry := ReadEntry(pack[records[i].offset..]);
      && entry.Some? && entry.value.kind == OBJ_BLOB
      && Flatten(entry.value.blocks) == Payload(plan[i].size, plan[i].suffix)
      && |entry.value.rest| == |pack| - |Extended(head, entries, i + 1)|
  {
    RecordedAt(d, head, plan, entries, records, i);
    OffsetsDelimitEntries(head, entries, i, trailer);
    var pack := Extended(head, entries, |entries|) + trailer;
    ReadEntryBytes(plan[i].size, plan[i].suffix, pack[|Extended(head, entries, i + 1)|..]);
  }

  // ---------------------------------------------------------------------------------
  // The plan of an accepted request
  // ---------------------------------------------------------------------------------

  ghost function PlanOf(q: Request): seq<Planned>
    requires Accepted(q)
  {
    seq(q.objectCount, i requires 0 <= i < q.objectCount => SizesHoldSuffix(q, i); Planned(Size(q, i), Suffix(i)))
  }

  /** Every object of an accepted request is writable, with the planned content. Distinct
      objects have distinct content (`BlobsDistinct`), so identities collide only if the digest does. */
  lemma PlanIsWritable(q: Request, i: nat)
    requires Accepted(q) && i < q.objectCount
    ensures WellPlanned(PlanOf(q)[i]) && Payload(PlanOf(q)[i].size, PlanOf(q)[i].suffix) == BlobOf(q, i)
  {
    SizesHoldSuffix(q, i);
  }
}
