/** The generator's output loop: a pack written sparsely, seeking over the zeros, while the
    running digests are fed every byte as if it had been written. */
module PackWriter {
  import opened Prelude
  import opened PackFormat
  import opened PackEntry
  import opened PackPlan

  /** The checksums and the compressor used on minimal blobs, as functions of the bytes they
      have been fed. */
  datatype Digests = Digests(
    sha1: seq<Byte> -> seq<Byte>, crc32: seq<Byte> -> nat, compress: seq<Byte> -> seq<Byte>,
    inflate: seq<Byte> -> Option<(seq<Byte>, seq<Byte>)>)

  /** The output file and the bytes fed to the pack digest. */
  class SparseFile {
    var written: map<nat, Byte>
    var length: nat
    var position: nat
    var hashed: seq<Byte>

    constructor ()
      ensures Valid() && hashed == [] && length == position
    {
      written, length, position, hashed := map[], 0, 0, [];
    }

    /** A byte of the file; a hole reads as zero. */
    ghost function At(i: nat): Byte
      reads this
    {
      if i in written then written[i] else 0
    }

    /** The file, holes read as zeros, is exactly what the digest was fed. */
    ghost predicate Valid()
      reads this
    {
      && |hashed| == position && length <= position
      && (forall i | i in written :: i < position)
      && (forall i | 0 <= i < position :: hashed[i] == At(i))
    }

    /** The contents of the file on disk. */
    ghost function Contents(): seq<Byte>
      reads this
    {
      seq(length, i requires 0 <= i < length reads this => At(i))
    }

    /** `write`: output and digest together. */
    method Write(data: seq<Byte>)
      requires Valid() && data != []
      modifies this
      ensures Valid() && hashed == old(hashed) + data && length == position
    {
      for i := 0 to |data|
        invariant length == old(length) && position == old(position) && hashed == old(hashed)
        invariant forall j: nat :: j in written <==> j in old(written) || position <= j < position + i
        invariant forall j | j in written :: written[j] == if j < position then old(written)[j] else data[j - position]
      {
        written := written[position + i := data[i]];
      }
      position := position + |data|;
      length := position;
      hashed := hashed + data;
    }

    /** The checksum goes to the file alone; what precedes it on disk is what it covers. */
    method WriteTrailer(checksum: seq<Byte>)
      requires Valid() && length == position
      modifies this
      ensures Contents() == old(hashed) + checksum && hashed == old(hashed)
    {
      var covered := hashed;
      if checksum != [] {
        Write(checksum);
      }
      assert Contents() == hashed;
      hashed := covered;
    }

    /** A seek over zeros that the digest is told about. */
    method Skip(count: nat)
      requires Valid()
      modifies this
      ensures Valid() && hashed == old(hashed) + Zeros(count)
    {
      position := position + count;
      hashed := hashed + Zeros(count);
    }
  }

  /** The variable-length header. */
  method EncodeHeader(size: nat) returns (header: seq<Byte>)
    ensures header == EntryHeader(size)
  {
    var encoded: nat := size / 16;
    header := [OBJ_BLOB * 16 + size % 16 + if encoded > 0 then 128 else 0];
    while encoded > 0
      invariant header + SizeBytes(encoded) == EntryHeader(size)
    {
      ghost var before, tail := header, SizeBytes(encoded / 128);
      var part := encoded % 128;
      encoded := encoded / 128;
      header := header + [part + if encoded > 0 then 128 else 0];
      Associate(before, [part + if encoded > 0 then 128 else 0], tail);
    }
    assert header + [] == header;
  }

  /** The bytes still to be written when `remaining` bytes of payload are left. */
  ghost function RestStored(remaining: nat, suffix: seq<Byte>): seq<Byte>
    requires |suffix| == SUFFIX_BYTES && (remaining == 0 || remaining >= SUFFIX_BYTES)
  {
    if remaining == 0 then []
    else
      BlocksShape(remaining, suffix);
      StoredBytes(Blocks(remaining, suffix))
  }

  ghost function RestPayload(remaining: nat, suffix: seq<Byte>): seq<Byte>
    requires |suffix| == SUFFIX_BYTES && (remaining == 0 || remaining >= SUFFIX_BYTES)
  {
    if remaining == 0 then [] else Payload(remaining, suffix)
  }

  lemma RestStep(remaining: nat, suffix: seq<Byte>)
    requires |suffix| == SUFFIX_BYTES && remaining >= SUFFIX_BYTES
    ensures
      var count := NextCount(remaining);
      && 1 <= count <= MAX_BLOCK && count <= remaining
      && (remaining - count == 0 || remaining - count >= SUFFIX_BYTES)
      && RestStored(remaining, suffix)
         == BlockHeader(count == remaining, count) + BlockData(remaining, suffix) + RestStored(remaining - count, suffix)
      && RestPayload(remaining, suffix) == BlockData(remaining, suffix) + RestPayload(remaining - count, suffix)
  {
    NextCountShape(remaining);
    var count := NextCount(remaining);
    var blocks := Blocks(remaining, suffix);
    BlocksShape(remaining, suffix);
    if count == remaining {
      assert blocks == [BlockData(remaining, suffix)];
    } else {
      assert blocks[1..] == Blocks(remaining - count, suffix);
      BlocksShape(remaining - count, suffix);
      PayloadSplit(count, remaining, suffix);
    }
  }

  lemma Associate4<T>(a: seq<T>, b: seq<T>, c: seq<T>, d: seq<T>)
    ensures a + b + c + d == a + (b + (c + d))
  {
  }

  /** One entry being written: the file, and the checksums that run along with it. */
  class EntryWriter {
    const file: SparseFile
    /** The bytes the CRC of this entry has been fed. */
    var crc: seq<Byte>
    /** The bytes the object identity has been fed. */
    var content: seq<Byte>
    var adler: nat
    ghost const base: seq<Byte>
    ghost const head: seq<Byte>
    ghost var payload: seq<Byte>

    constructor (file: SparseFile, head: seq<Byte>)
      requires file.Valid()
      ensures this.file == file && base == file.hashed && this.head == head
      ensures crc == [] && payload == [] && adler == 1 && Valid()
    {
      this.file, this.head, this.base := file, head, file.hashed;
      crc, content, adler, payload := [], head, 1, [];
    }

    /** The CRC covers exactly what this entry added to the file, and the identity exactly the
        object header and the payload. */
    ghost predicate Valid()
      reads this, file
    {
      file.Valid() && file.hashed == base + crc && content == head + payload
    }

    /** Bytes that belong to the container only. */
    method Emit(data: seq<Byte>)
      requires Valid() && data != []
      modifies this`crc, file
      ensures Valid() && crc == old(crc) + data && file.length == file.position
    {
      file.Write(data);
      Associate(base, crc, data);
      crc := crc + data;
    }

    /** Payload bytes that are zero: a seek in the file. */
    method EmitZeros(count: nat)
      requires Valid()
      modifies this, file
      ensures Valid() && crc == old(crc) + Zeros(count) && payload == old(payload) + Zeros(count)
      ensures adler == Adler(old(adler), Zeros(count))
    {
      file.Skip(count);
      Associate(base, crc, Zeros(count));
      Associate(head, payload, Zeros(count));
      crc := crc + Zeros(count);
      adler := Adler(adler, Zeros(count));
      content := content + Zeros(count);
      payload := payload + Zeros(count);
    }

    method EmitSuffix(suffix: seq<Byte>)
      requires Valid() && suffix != []
      modifies this, file
      ensures Valid() && crc == old(crc) + suffix && payload == old(payload) + suffix
      ensures adler == Adler(old(adler), suffix)
    {
      file.Write(suffix);
      Associate(base, crc, suffix);
      Associate(head, payload, suffix);
      crc := crc + suffix;
      adler := Adler(adler, suffix);
      content := content + suffix;
      payload := payload + suffix;
    }

    /** A minimal blob goes out as one compressed stream. */
    method EmitCompressed(compressed: seq<Byte>, suffix: seq<Byte>)
      requires Valid() && compressed != []
      modifies this, file
      ensures Valid() && crc == old(crc) + compressed && payload == old(payload) + suffix
      ensures file.length == file.position
    {
      Emit(compressed);
      Associate(head, payload, suffix);
      content := content + suffix;
      payload := payload + suffix;
    }

    /** The contents of one stored block; only the final one carries the suffix. */
    method EmitData(final: bool, count: nat, suffix: seq<Byte>)
      requires Valid() && |suffix| == SUFFIX_BYTES && (final ==> count >= SUFFIX_BYTES)
      modifies this, file
      ensures
        var data := if final then Zeros(count - SUFFIX_BYTES) + suffix else Zeros(count);
        && Valid() && crc == old(crc) + data && payload == old(payload) + data
        && adler == Adler(old(adler), data)
    {
      var tailCount := if final then (if count < 16 then count else 16) else 0;
      var zeroCount := count - tailCount;
      EmitZeros(zeroCount);
      if tailCount > 0 {
        EmitSuffix(suffix);
        AdlerConcat(old(adler), Zeros(zeroCount), suffix);
        Associate(old(payload), Zeros(zeroCount), suffix);
        Associate(old(crc), Zeros(zeroCount), suffix);
      }
    }

    /** One stored block. */
    method EmitBlock(remaining: nat, suffix: seq<Byte>) returns (count: nat)
      requires Valid() && |suffix| == SUFFIX_BYTES && remaining >= SUFFIX_BYTES
      modifies this, file
      ensures Valid() && count == NextCount(remaining) && 1 <= count <= MAX_BLOCK
      ensures crc == old(crc) + (BlockHeader(count == remaining, count) + BlockData(remaining, suffix))
      ensures payload == old(payload) + BlockData(remaining, suffix)
      ensures adler == Adler(old(adler), BlockData(remaining, suffix))
    {
      NextCountShape(remaining);
      count := if remaining < MAX_BLOCK then remaining else MAX_BLOCK;
      if 0 < remaining - count < SUFFIX_BYTES {
        count := count - (SUFFIX_BYTES - (remaining - count));
      }
      var final := count == remaining;
      Emit(BlockHeader(final, count));
      EmitData(final, count, suffix);
      Associate(old(crc), BlockHeader(final, count), BlockData(remaining, suffix));
    }

    /** The loop over the stored blocks of a blob. */
    method EmitBlocks(size: nat, suffix: seq<Byte>)
      requires Valid() && |suffix| == SUFFIX_BYTES && size >= SUFFIX_BYTES
      requires payload == [] && adler == 1
      modifies this, file
      ensures Valid() && crc == old(crc) + RestStored(size, suffix)
      ensures payload == Payload(size, suffix) && adler == Adler(1, Payload(size, suffix))
    {
      var remaining := size;
      ghost var done: seq<Byte> := [];
      while remaining > 0
        invariant Valid() && (remaining == 0 || remaining >= SUFFIX_BYTES)
        invariant crc == old(crc) + done && adler == Adler(1, payload)
        invariant done + RestStored(remaining, suffix) == RestStored(size, suffix)
        invariant payload + RestPayload(remaining, suffix) == RestPayload(size, suffix)
      {
        ghost var bytes := RestAdvance(remaining, suffix, old(crc), done, payload);
        var count := EmitBlock(remaining, suffix);
        done := done + bytes;
        remaining := remaining - count;
      }
      assert done + [] == done && payload + [] == payload;
    }

    /** The stored form of a blob: zlib header, blocks and checksum. */
    method EmitStored(size: nat, suffix: seq<Byte>)
      requires Valid() && |suffix| == SUFFIX_BYTES && size >= SUFFIX_BYTES
      requires payload == [] && adler == 1
      modifies this, file
      ensures Valid() && file.length == file.position
      ensures crc == old(crc) + ZlibBytes(size, suffix)
      ensures payload == Payload(size, suffix)
    {
      Emit(ZLIB_HEADER);
      EmitBlocks(size, suffix);
      Emit(BigEndian(adler, 4));
      Associate4(old(crc), ZLIB_HEADER, RestStored(size, suffix), BigEndian(adler, 4));
      Associate(ZLIB_HEADER, RestStored(size, suffix), BigEndian(adler, 4));
    }

    /** The zlib stream of an object: minimal blobs are compressed, larger ones stored. */
    method EmitBlob(d: Digests, o: Planned)
      requires Valid() && payload == [] && adler == 1 && WellPlanned(o) && d.compress(o.suffix) != []
      modifies this, file
      ensures Valid() && file.length == file.position && payload == Payload(o.size, o.suffix)
      ensures crc == old(crc) + StreamOf(d, o)
    {
      if o.size == SUFFIX_BYTES {
        EmitCompressed(d.compress(o.suffix), o.suffix);
        assert Payload(o.size, o.suffix) == o.suffix;
      } else {
        EmitStored(o.size, o.suffix);
      }
    }
  }

  /** What one more block does to the sequences the loop keeps. */
  lemma RestAdvance(remaining: nat, suffix: seq<Byte>, start: seq<Byte>, done: seq<Byte>, part: seq<Byte>)
    returns (bytes: seq<Byte>)
    requires |suffix| == SUFFIX_BYTES && remaining >= SUFFIX_BYTES
    ensures
      var count, data := NextCount(remaining), BlockData(remaining, suffix);
      && 1 <= count <= MAX_BLOCK && count <= remaining
      && (remaining - count == 0 || remaining - count >= SUFFIX_BYTES)
      && bytes == BlockHeader(count == remaining, count) + data
      && start + done + bytes == start + (done + bytes)
      && Adler(Adler(1, part), data) == Adler(1, part + data)
      && done + bytes + RestStored(remaining - count, suffix) == done + RestStored(remaining, suffix)
      && part + data + RestPayload(remaining - count, suffix) == part + RestPayload(remaining, suffix)
  {
    RestStep(remaining, suffix);
    var count, data := NextCount(remaining), BlockData(remaining, suffix);
    bytes := BlockHeader(count == remaining, count) + data;
    AdlerConcat(1, part, data);
    Associate(start, done, bytes);
    Associate(done, bytes, RestStored(remaining - count, suffix));
    Associate(part, data, RestPayload(remaining - count, suffix));
  }

  // ---------------------------------------------------------------------------------
  // The whole pack
  // ---------------------------------------------------------------------------------

  /** One line of the record file: identity, CRC and position of an object. */
  datatype Record = Record(oid: seq<Byte>, crc: nat, offset: nat)

  /** `b"blob <size>\0"`; the decimal digits are those of the size. */
  function ObjectHead(size: nat): seq<Byte> {
    [98, 108, 111, 98, 32] + DecimalBytes(size) + [0]
  }

  function DecimalBytes(n: nat): seq<Byte> {
    if n < 10 then [48 + n] else DecimalBytes(n / 10) + [48 + n % 10]
  }

  /** `b"PACK"`, version 2 and the object count. */
  function PackHead(count: nat): seq<Byte> {
    [80, 65, 67, 75] + BigEndian(2, 4) + BigEndian(count, 4)
  }

  /** One object to be written. */
  datatype Planned = Planned(size: nat, suffix: seq<Byte>)

  predicate WellPlanned(o: Planned) {
    o.size >= SUFFIX_BYTES && |o.suffix| == SUFFIX_BYTES
  }

  /** The bytes of an entry: minimal blobs are compressed, larger ones stored. */
  ghost function EntryOf(d: Digests, o: Planned): seq<Byte>
    requires WellPlanned(o)
  {
    EntryHeader(o.size) + StreamOf(d, o)
  }

  ghost function StreamOf(d: Digests, o: Planned): seq<Byte>
    requires WellPlanned(o)
  {
    if o.size == SUFFIX_BYTES then d.compress(o.suffix) else ZlibBytes(o.size, o.suffix)
  }

  ghost function IdentityOf(d: Digests, o: Planned): seq<Byte>
    requires WellPlanned(o)
  {
    d.sha1(ObjectHead(o.size) + Payload(o.size, o.suffix))
  }

  /** Writes one object and its record. */
  method WriteObject(d: Digests, file: SparseFile, o: Planned) returns (record: Record)
    requires file.Valid() && WellPlanned(o) && d.compress(o.suffix) != []
    modifies file
    ensures file.Valid() && file.length == file.position
    ensures file.hashed == old(file.hashed) + EntryOf(d, o)
    ensures record == Record(IdentityOf(d, o), d.crc32(EntryOf(d, o)), |old(file.hashed)|)
  {
    var offset := file.position;
    var header := EncodeHeader(o.size);
    var entry := new EntryWriter(file, ObjectHead(o.size));
    entry.Emit(header);
    entry.EmitBlob(d, o);
    assert [] + header == header;
    record := Record(d.sha1(entry.content), d.crc32(entry.crc), offset);
  }
}
