/** The bytes the generator writes for one blob, and the proof that a reader of the
    standards gets the blob back. */
module PackEntry {
  import opened Prelude
  import opened PackFormat

  const SUFFIX_BYTES := 16
  const MAX_BLOCK := 65535

  // ---------------------------------------------------------------------------------
  // What is written
  // ---------------------------------------------------------------------------------

  /** The continuation bytes of a size; empty for zero. */
  function SizeBytes(n: nat): (s: seq<Byte>)
    ensures s == [] <==> n == 0
  {
    if n == 0 then [] else [n % 128 + if n / 128 > 0 then 128 else 0] + SizeBytes(n / 128)
  }

  function EntryHeader(size: nat): seq<Byte> {
    [OBJ_BLOB * 16 + size % 16 + if size / 16 > 0 then 128 else 0] + SizeBytes(size / 16)
  }

  /** The length of the next stored block: never more than 65535, and never leaving between
      one and fifteen bytes for the blocks after it. */
  function NextCount(remaining: nat): (count: nat) {
    var count := if remaining < MAX_BLOCK then remaining else MAX_BLOCK;
    var left := remaining - count;
    if 0 < left < SUFFIX_BYTES then count - (SUFFIX_BYTES - left) else count
  }

  lemma NextCountShape(remaining: nat)
    requires remaining >= SUFFIX_BYTES
    ensures 1 <= NextCount(remaining) <= MAX_BLOCK && NextCount(remaining) <= remaining
    ensures NextCount(remaining) == remaining || remaining - NextCount(remaining) >= SUFFIX_BYTES
    ensures NextCount(remaining) == remaining ==> NextCount(remaining) >= SUFFIX_BYTES
  {
  }

  function BlockHeader(final: bool, count: nat): (s: seq<Byte>)
    requires count <= MAX_BLOCK
    ensures |s| == 5
  {
    var complement := MAX_BLOCK - count;
    [if final then 1 else 0, count % 256, count / 256, complement % 256, complement / 256]
  }

  /** The contents of the next block. */
  function BlockData(remaining: nat, suffix: seq<Byte>): seq<Byte>
    requires remaining >= SUFFIX_BYTES
  {
    var count := NextCount(remaining);
    if count == remaining then Zeros(count - SUFFIX_BYTES) + suffix else Zeros(count)
  }

  /** The contents of all the blocks still to come. */
  function Blocks(remaining: nat, suffix: seq<Byte>): seq<seq<Byte>>
    requires remaining >= SUFFIX_BYTES
  {
    NextCountShape(remaining);
    var count := NextCount(remaining);
    [BlockData(remaining, suffix)] + if count == remaining then [] else Blocks(remaining - count, suffix)
  }

  ghost predicate Storable(blocks: seq<seq<Byte>>) {
    blocks != [] && forall i | 0 <= i < |blocks| :: 1 <= |blocks[i]| <= MAX_BLOCK
  }

  /** A run of stored blocks, the last one marked final. */
  ghost function StoredBytes(blocks: seq<seq<Byte>>): seq<Byte>
    requires Storable(blocks)
  {
    BlockHeader(|blocks| == 1, |blocks[0]|) + blocks[0]
    + if |blocks| == 1 then [] else StoredBytes(blocks[1..])
  }

  /** The blob itself: zeros and then the suffix. */
  function Payload(size: nat, suffix: seq<Byte>): seq<Byte>
    requires size >= SUFFIX_BYTES
  {
    Zeros(size - SUFFIX_BYTES) + suffix
  }

  const ZLIB_HEADER: seq<Byte> := [0x78, 0x01]

  ghost function ZlibBytes(size: nat, suffix: seq<Byte>): seq<Byte>
    requires size >= SUFFIX_BYTES && |suffix| == SUFFIX_BYTES
  {
    BlocksShape(size, suffix);
    ZLIB_HEADER + StoredBytes(Blocks(size, suffix)) + BigEndian(Adler(1, Payload(size, suffix)), 4)
  }

  ghost function EntryBytes(size: nat, suffix: seq<Byte>): seq<Byte>
    requires size >= SUFFIX_BYTES && |suffix| == SUFFIX_BYTES
  {
    EntryHeader(size) + ZlibBytes(size, suffix)
  }

  // ---------------------------------------------------------------------------------
  // What a reader sees
  // ---------------------------------------------------------------------------------

  lemma {:induction false} ReadSizeBytes(n: nat, rest: seq<Byte>)
    requires n > 0
    ensures ReadSize(SizeBytes(n) + rest) == Some((n, rest))
  {
    var s := SizeBytes(n) + rest;
    assert s[1..] == SizeBytes(n / 128) + rest;
    if n / 128 == 0 {
      assert SizeBytes(n / 128) + rest == rest;
    } else {
      ReadSizeBytes(n / 128, rest);
    }
  }

  lemma ReadEntryHeader(size: nat, rest: seq<Byte>)
    ensures ReadHeader(EntryHeader(size) + rest) == Some(Header(OBJ_BLOB, size, rest))
  {
    var s := EntryHeader(size) + rest;
    assert s[1..] == SizeBytes(size / 16) + rest;
    if size / 16 > 0 {
      ReadSizeBytes(size / 16, rest);
    } else {
      assert SizeBytes(size / 16) + rest == rest;
    }
  }

  /** One stored block is read back whole. */
  lemma ReadOneBlock(final: bool, data: seq<Byte>, rest: seq<Byte>)
    requires |data| <= MAX_BLOCK
    ensures
      var s := BlockHeader(final, |data|) + data + rest;
      ReadStored(s) ==
        if final then Some(Inflated([data], rest))
        else match ReadStored(rest)
             case None => None
             case Some(tail) => Some(Inflated([data] + tail.blocks, tail.rest))
  {
    var h := BlockHeader(final, |data|);
    var s := h + data + rest;
    assert s[0] == h[0] && s[1] == h[1] && s[2] == h[2] && s[3] == h[3] && s[4] == h[4];
    assert Word(s[1], s[2]) == |data| && Word(s[3], s[4]) == MAX_BLOCK - |data|;
    assert s[5..5 + |data|] == data;
    assert s[5 + |data|..] == rest;
  }

  lemma ReadMoreBlocks(data: seq<Byte>, stored: seq<Byte>, rest: seq<Byte>, blocks: seq<seq<Byte>>)
    requires |data| <= MAX_BLOCK && ReadStored(stored + rest) == Some(Inflated(blocks, rest))
    ensures ReadStored(BlockHeader(false, |data|) + data + stored + rest) == Some(Inflated([data] + blocks, rest))
  {
    Associate(BlockHeader(false, |data|) + data, stored, rest);
    ReadOneBlock(false, data, stored + rest);
  }

  /** Stored blocks are read back one for one, up to the final one and not beyond. */
  lemma {:induction false} ReadStoredBytes(blocks: seq<seq<Byte>>, rest: seq<Byte>)
    requires Storable(blocks)
    ensures ReadStored(StoredBytes(blocks) + rest) == Some(Inflated(blocks, rest))
  {
    if |blocks| == 1 {
      assert StoredBytes(blocks) == BlockHeader(true, |blocks[0]|) + blocks[0];
      assert blocks == [blocks[0]];
      ReadOneBlock(true, blocks[0], rest);
    } else {
      ReadStoredBytes(blocks[1..], rest);
      ReadMoreBlocks(blocks[0], StoredBytes(blocks[1..]), rest, blocks[1..]);
      assert blocks == [blocks[0]] + blocks[1..];
    }
  }

  lemma PayloadSplit(count: nat, remaining: nat, suffix: seq<Byte>)
    requires count + SUFFIX_BYTES <= remaining
    ensures Zeros(count) + Payload(remaining - count, suffix) == Payload(remaining, suffix)
  {
    assert Zeros(count) + Zeros(remaining - count - SUFFIX_BYTES) == Zeros(remaining - SUFFIX_BYTES);
    Associate(Zeros(count), Zeros(remaining - count - SUFFIX_BYTES), suffix);
  }

  lemma {:induction false} BlocksHoldPayload(remaining: nat, suffix: seq<Byte>)
    requires remaining >= SUFFIX_BYTES && |suffix| == SUFFIX_BYTES
    ensures Flatten(Blocks(remaining, suffix)) == Payload(remaining, suffix)
  {
    NextCountShape(remaining);
    var count := NextCount(remaining);
    var data := BlockData(remaining, suffix);
    FlattenOne(data);
    if count < remaining {
      BlocksHoldPayload(remaining - count, suffix);
      FlattenConcat([data], Blocks(remaining - count, suffix));
      PayloadSplit(count, remaining, suffix);
    } else {
      assert Blocks(remaining, suffix) == [data];
    }
  }

  lemma FlattenOne<T>(x: seq<T>)
    ensures Flatten([x]) == x
  {
    FlattenSnoc([], x);
    assert [] + [x] == [x];
  }

  /** Every block but the last is all zeros, every block holds 1 to 65535 bytes, and the last
      one holds the whole suffix. */
  ghost predicate Split(blocks: seq<seq<Byte>>, suffix: seq<Byte>) {
    && Storable(blocks)
    && (forall i | 0 <= i < |blocks| - 1 :: blocks[i] == Zeros(|blocks[i]|))
    && var last := blocks[|blocks| - 1];
    |last| >= |suffix| && last == Zeros(|last| - |suffix|) + suffix
  }

  lemma SplitCons(data: seq<Byte>, tail: seq<seq<Byte>>, suffix: seq<Byte>)
    requires Split(tail, suffix) && 1 <= |data| <= MAX_BLOCK && data == Zeros(|data|)
    ensures Split([data] + tail, suffix)
  {
    var blocks := [data] + tail;
    assert blocks[|blocks| - 1] == tail[|tail| - 1];
    assert forall i | 0 < i < |blocks| :: blocks[i] == tail[i - 1];
  }

  lemma {:induction false} BlocksShape(remaining: nat, suffix: seq<Byte>)
    requires remaining >= SUFFIX_BYTES && |suffix| == SUFFIX_BYTES
    ensures Split(Blocks(remaining, suffix), suffix)
  {
    NextCountShape(remaining);
    var count, data := NextCount(remaining), BlockData(remaining, suffix);
    assert |data| == count;
    if count < remaining {
      BlocksShape(remaining - count, suffix);
      SplitCons(data, Blocks(remaining - count, suffix), suffix);
    } else {
      assert Blocks(remaining, suffix) == [data];
    }
  }

  lemma ZlibFrame(stored: seq<Byte>, check: seq<Byte>, rest: seq<Byte>)
    requires |check| == 4
    ensures
      var s := ZLIB_HEADER + stored + check + rest;
      && s[0] == 0x78 && s[1] == 0x01
      && s[2..] == stored + (check + rest)
      && (check + rest)[..4] == check && (check + rest)[4..] == rest
  {
  }

  lemma ReadZlibFrame(stored: seq<Byte>, check: seq<Byte>, rest: seq<Byte>, blocks: seq<seq<Byte>>)
    requires |check| == 4 && ReadBigEndian(check) == Adler(1, Flatten(blocks))
    requires ReadStored(stored + (check + rest)) == Some(Inflated(blocks, check + rest))
    ensures ReadZlib(ZLIB_HEADER + stored + check + rest) == Some(Inflated(blocks, rest))
  {
    ZlibFrame(stored, check, rest);
    ReadZlibParts(ZLIB_HEADER + stored + check + rest, blocks, check + rest);
  }

  lemma ReadZlibParts(s: seq<Byte>, blocks: seq<seq<Byte>>, tail: seq<Byte>)
    requires |s| >= 2 && s[0] == 0x78 && s[1] == 0x01 && ReadStored(s[2..]) == Some(Inflated(blocks, tail))
    requires |tail| >= 4 && ReadBigEndian(tail[..4]) == Adler(1, Flatten(blocks))
    ensures ReadZlib(s) == Some(Inflated(blocks, tail[4..]))
  {
    HeaderDivides(s[0], s[1]);
    ReadCheckedParts(s[2..], blocks, tail);
  }

  lemma ReadCheckedParts(s: seq<Byte>, blocks: seq<seq<Byte>>, tail: seq<Byte>)
    requires ReadStored(s) == Some(Inflated(blocks, tail))
    requires |tail| >= 4 && ReadBigEndian(tail[..4]) == Adler(1, Flatten(blocks))
    ensures ReadChecked(s) == Some(Inflated(blocks, tail[4..]))
  {
  }

  lemma HeaderDivides(info: Byte, flags: Byte)
    requires info == 0x78 && flags == 0x01
    ensures IsZlibHead(info, flags)
  {
    assert Word(flags, info) == 30721 == 31 * 991;
  }

  lemma ReadZlibStream(blocks: seq<seq<Byte>>, adler: nat, rest: seq<Byte>)
    requires Storable(blocks) && adler == Adler(1, Flatten(blocks))
    ensures ReadZlib(ZLIB_HEADER + StoredBytes(blocks) + BigEndian(adler, 4) + rest) == Some(Inflated(blocks, rest))
  {
    ReadStoredBytes(blocks, BigEndian(adler, 4) + rest);
    AdlerFits(1, Flatten(blocks));
    PowerFour();
    BigEndianReads(adler, 4);
    ReadZlibFrame(StoredBytes(blocks), BigEndian(adler, 4), rest, blocks);
  }

  lemma ReadZlibBytes(size: nat, suffix: seq<Byte>, rest: seq<Byte>)
    requires size >= SUFFIX_BYTES && |suffix| == SUFFIX_BYTES
    ensures ReadZlib(ZlibBytes(size, suffix) + rest) == Some(Inflated(Blocks(size, suffix), rest))
  {
    BlocksShape(size, suffix);
    BlocksHoldPayload(size, suffix);
    ReadZlibStream(Blocks(size, suffix), Adler(1, Payload(size, suffix)), rest);
  }

  lemma PowerFour()
    ensures Power256(4) == 0x1_0000_0000
  {
    assert Power256(4) == 256 * Power256(3) == 65536 * Power256(2);
  }

  lemma ReadEntryParts(size: nat, zlib: seq<Byte>, rest: seq<Byte>, blocks: seq<seq<Byte>>)
    requires ReadZlib(zlib + rest) == Some(Inflated(blocks, rest)) && |Flatten(blocks)| == size
    ensures ReadEntry(EntryHeader(size) + zlib + rest) == Some(Entry(OBJ_BLOB, blocks, rest))
  {
    Associate(EntryHeader(size), zlib, rest);
    ReadEntryHeader(size, zlib + rest);
    ReadEntryFrom(EntryHeader(size) + zlib + rest, Header(OBJ_BLOB, size, zlib + rest), Inflated(blocks, rest));
  }

  lemma ReadEntryFrom(s: seq<Byte>, h: Header, r: Inflated)
    requires ReadHeader(s) == Some(h) && ReadZlib(h.rest) == Some(r) && |Flatten(r.blocks)| == h.size
    ensures ReadEntry(s) == Some(Entry(h.kind, r.blocks, r.rest))
  {
  }

  /** For every size the generator can plan, a reader of the pack format finds a blob of that
      size, whose blocks concatenate to the zeros and the suffix, and nothing left over. */
  lemma ReadEntryBytes(size: nat, suffix: seq<Byte>, rest: seq<Byte>)
    requires size >= SUFFIX_BYTES && |suffix| == SUFFIX_BYTES
    ensures ReadEntry(EntryBytes(size, suffix) + rest) == Some(Entry(OBJ_BLOB, Blocks(size, suffix), rest))
    ensures Flatten(Blocks(size, suffix)) == Payload(size, suffix) && |Payload(size, suffix)| == size
  {
    ReadZlibBytes(size, suffix, rest);
    BlocksHoldPayload(size, suffix);
    ReadEntryParts(size, ZlibBytes(size, suffix), rest, Blocks(size, suffix));
  }
}
