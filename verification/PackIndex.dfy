/** The version 2 pack index: a fan-out table, then identities, CRCs and offsets of the sorted
    records in three passes, with offsets of 31 bits or more moved to a table of their own. */
module PackIndex {
  import opened Prelude
  import opened PackFormat
  import opened PackWriter
  import opened PackGenerate

  const LARGE := 0x8000_0000

  ghost predicate ValidRecord(r: Record) {
    |r.oid| == 20 && r.crc < 0x1_0000_0000 && r.offset < 0x1_0000_0000_0000_0000
  }

  // ---------------------------------------------------------------------------------
  // What is written
  // ---------------------------------------------------------------------------------

  /** `0x80000000 | n` for a 32-bit `n`. */
  function Tagged(n: nat): nat {
    LARGE + n % LARGE
  }

  /** How many of the first `i` records have a large offset. */
  function Rank(records: seq<Record>, i: nat): nat
    requires i <= |records|
  {
    if i == 0 then 0 else Rank(records, i - 1) + if records[i - 1].offset >= LARGE then 1 else 0
  }

  /** The 32-bit word written for row `i`. */
  function OffsetWord(records: seq<Record>, i: nat): nat
    requires i < |records|
  {
    if records[i].offset < LARGE then records[i].offset else Tagged(Rank(records, i))
  }

  function LargeOffsets(records: seq<Record>, n: nat): seq<nat>
    requires n <= |records|
  {
    if n == 0 then []
    else LargeOffsets(records, n - 1) + if records[n - 1].offset >= LARGE then [records[n - 1].offset] else []
  }

  /** The running total of the fan-out counts up to and including bucket `b`. */
  function Cumulative(fanout: seq<nat>, b: int): nat
    requires -1 <= b < |fanout|
    decreases b + 1
  {
    if b < 0 then 0 else Cumulative(fanout, b - 1) + fanout[b]
  }

  function Words(values: seq<nat>, width: nat): seq<seq<Byte>> {
    seq(|values|, i requires 0 <= i < |values| => BigEndian(values[i], width))
  }

  /** The tables of an index, in file order. */
  datatype Tables = Tables(
    fan: seq<seq<Byte>>, oids: seq<seq<Byte>>, crcs: seq<seq<Byte>>, offsets: seq<seq<Byte>>, large: seq<seq<Byte>>)

  ghost function TablesOf(records: seq<Record>, fanout: seq<nat>): Tables {
    var n := |records|;
    Tables(
      seq(|fanout|, b requires 0 <= b < |fanout| => BigEndian(Cumulative(fanout, b), 4)),
      seq(n, i requires 0 <= i < n => records[i].oid),
      seq(n, i requires 0 <= i < n => BigEndian(records[i].crc, 4)),
      seq(n, i requires 0 <= i < n => BigEndian(OffsetWord(records, i), 4)),
      Words(LargeOffsets(records, n), 8))
  }

  /** `b"\377tOc"` and version 2. */
  const INDEX_HEAD: seq<Byte> := [0xff, 0x74, 0x4f, 0x63, 0, 0, 0, 2]

  ghost function IndexBody(t: Tables): seq<Byte> {
    INDEX_HEAD + Flatten(t.fan) + Flatten(t.oids) + Flatten(t.crcs) + Flatten(t.offsets) + Flatten(t.large)
  }

  /** The fan-out pass: a running total over the 256 counts. */
  method WriteFanout(fanout: seq<nat>) returns (out: seq<Byte>)
    ensures out == Flatten(TablesOf([], fanout).fan)
  {
    out := [];
    var count := 0;
    ghost var rows := TablesOf([], fanout).fan;
    for b := 0 to |fanout|
      invariant count == Cumulative(fanout, b - 1) && out == Flatten(rows[..b])
    {
      count := count + fanout[b];
      RowsStep(rows, b);
      out := out + BigEndian(count, 4);
    }
    assert rows[..|fanout|] == rows;
  }

  lemma RowsStep<T>(rows: seq<seq<T>>, i: nat)
    requires i < |rows|
    ensures Flatten(rows[..i + 1]) == Flatten(rows[..i]) + rows[i]
  {
    assert rows[..i + 1] == rows[..i] + [rows[i]];
    FlattenSnoc(rows[..i], rows[i]);
  }

  /** The row that a pass writes for one record. */
  ghost function ColumnRow(records: seq<Record>, field: nat, i: nat): seq<Byte>
    requires i < |records|
  {
    if field == 0 then records[i].oid
    else if field == 1 then BigEndian(records[i].crc, 4)
    else BigEndian(OffsetWord(records, i), 4)
  }

  ghost function Column(records: seq<Record>, field: nat): seq<seq<Byte>> {
    seq(|records|, i requires 0 <= i < |records| => ColumnRow(records, field, i))
  }

  lemma ColumnsAreTables(records: seq<Record>, fanout: seq<nat>)
    ensures
      var t := TablesOf(records, fanout);
      t.oids == Column(records, 0) && t.crcs == Column(records, 1) && t.offsets == Column(records, 2)
  {
  }

  /** The large offsets met before record i, which only the third pass collects. */
  ghost predicate Collected(records: seq<Record>, field: nat, i: nat, count: nat, large: seq<Byte>)
    requires i <= |records|
  {
    if field == 2 then count == Rank(records, i) && large == Flatten(Words(LargeOffsets(records, i), 8))
    else count == 0 && large == []
  }

  /** One turn of a pass. */
  method WriteRow(records: seq<Record>, field: nat, i: nat, count: nat, before: seq<Byte>)
    returns (row: seq<Byte>, largeCount: nat, large: seq<Byte>)
    requires field < 3 && i < |records| && Collected(records, field, i, count, before)
    ensures row == ColumnRow(records, field, i) && Collected(records, field, i + 1, largeCount, large)
  {
    largeCount, large := count, before;
    if field == 0 {
      row := records[i].oid;
    } else if field == 1 {
      row := BigEndian(records[i].crc, 4);
    } else if records[i].offset < LARGE {
      row := BigEndian(records[i].offset, 4);
      assert LargeOffsets(records, i + 1) == LargeOffsets(records, i);
    } else {
      row := BigEndian(Tagged(largeCount), 4);
      WordsSnoc(LargeOffsets(records, i), records[i].offset, 8);
      large := large + BigEndian(records[i].offset, 8);
      largeCount := largeCount + 1;
    }
  }

  /** One of the three passes over the sorted records. */
  method WriteColumn(records: seq<Record>, field: nat) returns (out: seq<Byte>, large: seq<Byte>)
    requires field < 3
    ensures out == Flatten(Column(records, field))
    ensures large == if field == 2 then Flatten(Words(LargeOffsets(records, |records|), 8)) else []
  {
    out, large := [], [];
    var largeCount, row := 0, [];
    ghost var rows := Column(records, field);
    for i := 0 to |records|
      invariant out == Flatten(rows[..i]) && Collected(records, field, i, largeCount, large)
    {
      row, largeCount, large := WriteRow(records, field, i, largeCount, large);
      RowsStep(rows, i);
      out := out + row;
    }
    assert rows[..|records|] == rows;
  }

  lemma WordsSnoc(values: seq<nat>, v: nat, width: nat)
    ensures Flatten(Words(values + [v], width)) == Flatten(Words(values, width)) + BigEndian(v, width)
  {
    assert Words(values + [v], width) == Words(values, width) + [BigEndian(v, width)];
    FlattenSnoc(Words(values, width), BigEndian(v, width));
  }

  /** The whole index file: the tables, the pack's checksum and the index's own. */
  method WriteIndex(d: Digests, records: seq<Record>, fanout: seq<nat>, checksum: seq<Byte>) returns (index: seq<Byte>)
    ensures
      var body := IndexBody(TablesOf(records, fanout)) + checksum;
      index == body + d.sha1(body)
  {
    var fan := WriteFanout(fanout);
    var oids, _ := WriteColumn(records, 0);
    var crcs, _ := WriteColumn(records, 1);
    var offsets, large := WriteColumn(records, 2);
    ColumnsAreTables(records, fanout);
    index := INDEX_HEAD + fan + oids + crcs + offsets + large + checksum;
    index := index + d.sha1(index);
  }

  // ---------------------------------------------------------------------------------
  // What a reader of the format computes
  // ---------------------------------------------------------------------------------

  function WordAt(index: seq<Byte>, start: nat, width: nat): nat
    requires start + width <= |index|
  {
    ReadBigEndian(index[start..start + width])
  }

  /** Where each table of an index over `n` objects starts. */
  function OidsStart(): nat { 8 + 4 * 256 }
  function CrcsStart(n: nat): nat { OidsStart() + 20 * n }
  function OffsetsStart(n: nat): nat { CrcsStart(n) + 4 * n }
  function LargeStart(n: nat): nat { OffsetsStart(n) + 4 * n }

  /** The offset in row `i`: a word with the top bit set points into the large table. */
  function ReadOffset(index: seq<Byte>, n: nat, i: nat): Option<nat> {
    if OffsetsStart(n) + 4 * i + 4 > |index| then None
    else
      var word := WordAt(index, OffsetsStart(n) + 4 * i, 4);
      if word < LARGE then Some(word)
      else if LargeStart(n) + 8 * (word - LARGE) + 8 > |index| then None
      else Some(WordAt(index, LargeStart(n) + 8 * (word - LARGE), 8))
  }

  // ---------------------------------------------------------------------------------
  // Tables of fixed-width rows can be indexed
  // ---------------------------------------------------------------------------------

  ghost predicate Uniform(rows: seq<seq<Byte>>, width: nat) {
    forall i | 0 <= i < |rows| :: |rows[i]| == width
  }

  lemma {:induction false} UniformLength(rows: seq<seq<Byte>>, width: nat)
    requires Uniform(rows, width)
    ensures |Flatten(rows)| == width * |rows|
  {
    if rows != [] {
      var n := |rows| - 1;
      UniformLength(rows[..n], width);
      assert width * |rows| == width * n + width;
    }
  }

  ghost predicate SliceIs(index: seq<Byte>, start: int, row: seq<Byte>) {
    0 <= start && start + |row| <= |index| && index[start..start + |row|] == row
  }

  /** The rows of a table stand one after another from a given place on. */
  ghost predicate TableAt(index: seq<Byte>, start: nat, width: nat, rows: seq<seq<Byte>>) {
    forall i | 0 <= i < |rows| :: SliceIs(index, start + width * i, rows[i])
  }

  lemma SliceOfSlice<T>(s: seq<T>, i: nat, j: nat, k: nat, l: nat)
    requires i <= j <= |s| && k <= l <= j - i
    ensures s[i..j][k..l] == s[i + k..i + l]
  {
    var inner, outer := s[i..j][k..l], s[i + k..i + l];
    assert forall m | 0 <= m < l - k :: inner[m] == outer[m];
  }

  lemma Middle<T>(a: seq<T>, b: seq<T>, c: seq<T>)
    ensures (a + b + c)[|a|..|a| + |b|] == b
  {
  }

  lemma PartOfSlice(index: seq<Byte>, start: nat, slice: seq<Byte>, a: seq<Byte>, row: seq<Byte>, b: seq<Byte>)
    requires SliceIs(index, start, slice) && slice == a + row + b
    ensures SliceIs(index, start + |a|, row)
  {
    Middle(a, row, b);
    SliceOfSlice(index, start, start + |slice|, |a|, |a| + |row|);
  }

  lemma FlattenAround<T>(rows: seq<seq<T>>, i: nat)
    requires i < |rows|
    ensures Flatten(rows) == Flatten(rows[..i]) + rows[i] + Flatten(rows[i + 1..])
  {
    assert rows == rows[..i + 1] + rows[i + 1..];
    FlattenConcat(rows[..i + 1], rows[i + 1..]);
    RowsStep(rows, i);
  }

  lemma UniformPrefix(rows: seq<seq<Byte>>, width: nat, i: nat)
    requires Uniform(rows, width) && i <= |rows|
    ensures |Flatten(rows[..i])| == width * i
  {
    UniformLength(rows[..i], width);
  }

  /** Row `i` of a table that stands at a given place of a file. */
  lemma RowAt(index: seq<Byte>, start: nat, rows: seq<seq<Byte>>, i: nat)
    requires i < |rows| && SliceIs(index, start, Flatten(rows))
    ensures SliceIs(index, start + |Flatten(rows[..i])|, rows[i])
  {
    FlattenAround(rows, i);
    PartOfSlice(index, start, Flatten(rows), Flatten(rows[..i]), rows[i], Flatten(rows[i + 1..]));
  }

  lemma TableStands(index: seq<Byte>, start: nat, rows: seq<seq<Byte>>, width: nat)
    requires Uniform(rows, width) && SliceIs(index, start, Flatten(rows))
    ensures TableAt(index, start, width, rows)
  {
    forall i | 0 <= i < |rows| ensures SliceIs(index, start + width * i, rows[i]) {
      RowAt(index, start, rows, i);
      UniformPrefix(rows, width, i);
    }
  }

  lemma WordReads(n: nat)
    requires n < 0x1_0000_0000
    ensures ReadBigEndian(BigEndian(n, 4)) == n
  {
    assert Power256(4) == 256 * Power256(3) == 65536 * Power256(2) == 0x1_0000_0000;
    BigEndianReads(n, 4);
  }

  lemma LongReads(n: nat)
    requires n < 0x1_0000_0000_0000_0000
    ensures ReadBigEndian(BigEndian(n, 8)) == n
  {
    assert Power256(8) == 256 * Power256(7) == 65536 * Power256(6) == 65536 * 256 * Power256(5);
    assert Power256(5) == 256 * Power256(4) == 65536 * Power256(3) == 65536 * 256 * Power256(2);
    BigEndianReads(n, 8);
  }

  lemma OffsetWordFits(records: seq<Record>, i: nat)
    requires i < |records|
    ensures OffsetWord(records, i) < 0x1_0000_0000
  {
  }

  // ---------------------------------------------------------------------------------
  // Reading the written index
  // ---------------------------------------------------------------------------------

  /** The written index followed by its checksums. */
  ghost function IndexFile(records: seq<Record>, fanout: seq<nat>, trailer: seq<Byte>): seq<Byte> {
    IndexBody(TablesOf(records, fanout)) + trailer
  }

  ghost predicate Indexable(records: seq<Record>, fanout: seq<nat>) {
    |fanout| == 256 && forall i | 0 <= i < |records| :: ValidRecord(records[i])
  }

  ghost predicate HasTables(index: seq<Byte>, n: nat, t: Tables) {
    && TableAt(index, 8, 4, t.fan)
    && TableAt(index, OidsStart(), 20, t.oids)
    && TableAt(index, CrcsStart(n), 4, t.crcs)
    && TableAt(index, OffsetsStart(n), 4, t.offsets)
    && TableAt(index, LargeStart(n), 8, t.large)
  }

  ghost predicate Shaped(n: nat, t: Tables) {
    && |t.fan| == 256 && |t.oids| == |t.crcs| == |t.offsets| == n
    && Uniform(t.fan, 4) && Uniform(t.oids, 20) && Uniform(t.crcs, 4) && Uniform(t.offsets, 4) && Uniform(t.large, 8)
  }

  /** The parts of a file that is written one after another. */
  lemma Parts(a: seq<Byte>, b: seq<Byte>, c: seq<Byte>, d: seq<Byte>, e: seq<Byte>, f: seq<Byte>, g: seq<Byte>)
    ensures
      var s := a + b + c + d + e + f + g;
      && SliceIs(s, |a|, b) && SliceIs(s, |a| + |b|, c) && SliceIs(s, |a| + |b| + |c|, d)
      && SliceIs(s, |a| + |b| + |c| + |d|, e) && SliceIs(s, |a| + |b| + |c| + |d| + |e|, f)
  {
  }

  lemma IndexParts(t: Tables, trailer: seq<Byte>)
    ensures
      var index := IndexBody(t) + trailer;
      var b, c, d, e, f := Flatten(t.fan), Flatten(t.oids), Flatten(t.crcs), Flatten(t.offsets), Flatten(t.large);
      && SliceIs(index, 8, b) && SliceIs(index, 8 + |b|, c) && SliceIs(index, 8 + |b| + |c|, d)
      && SliceIs(index, 8 + |b| + |c| + |d|, e) && SliceIs(index, 8 + |b| + |c| + |d| + |e|, f)
  {
    var head := INDEX_HEAD;
    assert |head| == 8;
    Parts(head, Flatten(t.fan), Flatten(t.oids), Flatten(t.crcs), Flatten(t.offsets), Flatten(t.large), trailer);
  }

  lemma FanStands(index: seq<Byte>, n: nat, t: Tables, trailer: seq<Byte>)
    requires Shaped(n, t) && index == IndexBody(t) + trailer
    ensures TableAt(index, 8, 4, t.fan)
  {
    IndexParts(t, trailer);
    TableStands(index, 8, t.fan, 4);
  }

  lemma OidsStand(index: seq<Byte>, n: nat, t: Tables, trailer: seq<Byte>)
    requires Shaped(n, t) && index == IndexBody(t) + trailer
    ensures TableAt(index, OidsStart(), 20, t.oids)
  {
    IndexParts(t, trailer);
    UniformLength(t.fan, 4);
    TableStands(index, OidsStart(), t.oids, 20);
  }

  lemma CrcsStand(index: seq<Byte>, n: nat, t: Tables, trailer: seq<Byte>)
    requires Shaped(n, t) && index == IndexBody(t) + trailer
    ensures TableAt(index, CrcsStart(n), 4, t.crcs)
  {
    IndexParts(t, trailer);
    UniformLength(t.fan, 4);
    UniformLength(t.oids, 20);
    TableStands(index, CrcsStart(n), t.crcs, 4);
  }

  lemma OffsetsStand(index: seq<Byte>, n: nat, t: Tables, trailer: seq<Byte>)
    requires Shaped(n, t) && index == IndexBody(t) + trailer
    ensures TableAt(index, OffsetsStart(n), 4, t.offsets)
  {
    IndexParts(t, trailer);
    UniformLength(t.fan, 4);
    UniformLength(t.oids, 20);
    UniformLength(t.crcs, 4);
    TableStands(index, OffsetsStart(n), t.offsets, 4);
  }

  lemma LargeStands(index: seq<Byte>, n: nat, t: Tables, trailer: seq<Byte>)
    requires Shaped(n, t) && index == IndexBody(t) + trailer
    ensures TableAt(index, LargeStart(n), 8, t.large)
  {
    IndexParts(t, trailer);
    UniformLength(t.fan, 4);
    UniformLength(t.oids, 20);
    UniformLength(t.crcs, 4);
    UniformLength(t.offsets, 4);
    TableStands(index, LargeStart(n), t.large, 8);
  }

  /** Every table stands at the place that a reader computes. */
  lemma IndexHasTables(index: seq<Byte>, n: nat, t: Tables, trailer: seq<Byte>)
    requires Shaped(n, t) && index == IndexBody(t) + trailer
    ensures HasTables(index, n, t)
  {
    FanStands(index, n, t, trailer);
    OidsStand(index, n, t, trailer);
    CrcsStand(index, n, t, trailer);
    OffsetsStand(index, n, t, trailer);
    LargeStands(index, n, t, trailer);
  }

  /** What a reader finds in one row of each table. */
  ghost predicate FanRowIs(index: seq<Byte>, b: nat, count: nat) {
    8 + 4 * b + 4 <= |index| && WordAt(index, 8 + 4 * b, 4) == count
  }

  ghost predicate OidRowIs(index: seq<Byte>, i: nat, oid: seq<Byte>) {
    var start := OidsStart() + 20 * i;
    start + 20 <= |index| && index[start..start + 20] == oid
  }

  ghost predicate CrcRowIs(index: seq<Byte>, n: nat, i: nat, crc: nat) {
    var start := CrcsStart(n) + 4 * i;
    start + 4 <= |index| && WordAt(index, start, 4) == crc
  }

  ghost predicate OffsetRowIs(index: seq<Byte>, n: nat, i: nat, word: nat) {
    var start := OffsetsStart(n) + 4 * i;
    start + 4 <= |index| && WordAt(index, start, 4) == word
  }

  ghost predicate LargeRowIs(index: seq<Byte>, n: nat, r: nat, offset: nat) {
    var start := LargeStart(n) + 8 * r;
    start + 8 <= |index| && WordAt(index, start, 8) == offset
  }

  lemma {:induction false} LargeOffsetsFit(records: seq<Record>, n: nat, r: nat)
    requires n <= |records| && r < |LargeOffsets(records, n)|
    requires forall i | 0 <= i < |records| :: ValidRecord(records[i])
    ensures LargeOffsets(records, n)[r] < 0x1_0000_0000_0000_0000
  {
    if r < |LargeOffsets(records, n - 1)| {
      LargeOffsetsFit(records, n - 1, r);
    }
  }

  ghost predicate HasFan(index: seq<Byte>, fanout: seq<nat>)
    requires |fanout| == 256
  {
    forall b | 0 <= b < 256 && Cumulative(fanout, b) < 0x1_0000_0000 :: FanRowIs(index, b, Cumulative(fanout, b))
  }

  /** Row i of the three tables that have a row for every record. */
  ghost predicate RowOf(index: seq<Byte>, records: seq<Record>, i: nat)
    requires i < |records|
  {
    && OidRowIs(index, i, records[i].oid)
    && CrcRowIs(index, |records|, i, records[i].crc)
    && OffsetRowIs(index, |records|, i, OffsetWord(records, i))
  }

  /** Row r of the table of large offsets. */
  ghost predicate LargeRowOf(index: seq<Byte>, records: seq<Record>, r: nat)
    requires r < |LargeOffsets(records, |records|)|
  {
    LargeRowIs(index, |records|, r, LargeOffsets(records, |records|)[r])
  }

  /** The file answers every question a reader can put to its tables. */
  ghost predicate IsIndexOf(index: seq<Byte>, records: seq<Record>, fanout: seq<nat>)
    requires |fanout| == 256
  {
    && HasFan(index, fanout)
    && (forall i | 0 <= i < |records| :: RowOf(index, records, i))
    && (forall r | 0 <= r < |LargeOffsets(records, |records|)| :: LargeRowOf(index, records, r))
  }

  lemma FanRow(index: seq<Byte>, t: Tables, b: nat, count: nat)
    requires TableAt(index, 8, 4, t.fan) && b < |t.fan| && t.fan[b] == BigEndian(count, 4) && count < 0x1_0000_0000
    ensures FanRowIs(index, b, count)
  {
    assert SliceIs(index, 8 + 4 * b, t.fan[b]);
    WordReads(count);
  }

  lemma OidRow(index: seq<Byte>, t: Tables, i: nat)
    requires TableAt(index, OidsStart(), 20, t.oids) && i < |t.oids| && |t.oids[i]| == 20
    ensures OidRowIs(index, i, t.oids[i])
  {
    assert SliceIs(index, OidsStart() + 20 * i, t.oids[i]);
  }

  lemma CrcRow(index: seq<Byte>, n: nat, t: Tables, i: nat, crc: nat)
    requires TableAt(index, CrcsStart(n), 4, t.crcs) && i < |t.crcs| && t.crcs[i] == BigEndian(crc, 4)
    requires crc < 0x1_0000_0000
    ensures CrcRowIs(index, n, i, crc)
  {
    assert SliceIs(index, CrcsStart(n) + 4 * i, t.crcs[i]);
    WordReads(crc);
  }

  lemma OffsetRow(index: seq<Byte>, n: nat, t: Tables, i: nat, word: nat)
    requires TableAt(index, OffsetsStart(n), 4, t.offsets) && i < |t.offsets| && t.offsets[i] == BigEndian(word, 4)
    requires word < 0x1_0000_0000
    ensures OffsetRowIs(index, n, i, word)
  {
    assert SliceIs(index, OffsetsStart(n) + 4 * i, t.offsets[i]);
    WordReads(word);
  }

  lemma LargeRow(index: seq<Byte>, n: nat, t: Tables, r: nat, offset: nat)
    requires TableAt(index, LargeStart(n), 8, t.large) && r < |t.large| && t.large[r] == BigEndian(offset, 8)
    requires offset < 0x1_0000_0000_0000_0000
    ensures LargeRowIs(index, n, r, offset)
  {
    assert SliceIs(index, LargeStart(n) + 8 * r, t.large[r]);
    LongReads(offset);
  }

  lemma RowsAreRecords(index: seq<Byte>, records: seq<Record>, fanout: seq<nat>, i: nat)
    requires Indexable(records, fanout) && HasTables(index, |records|, TablesOf(records, fanout)) && i < |records|
    ensures RowOf(index, records, i)
  {
    var n, t := |records|, TablesOf(records, fanout);
    assert ValidRecord(records[i]);
    OidRow(index, t, i);
    CrcRow(index, n, t, i, records[i].crc);
    OffsetWordFits(records, i);
    OffsetRow(index, n, t, i, OffsetWord(records, i));
  }

  lemma IndexFileIsIndex(index: seq<Byte>, records: seq<Record>, fanout: seq<nat>, trailer: seq<Byte>)
    requires Indexable(records, fanout) && index == IndexFile(records, fanout, trailer)
    ensures IsIndexOf(index, records, fanout)
  {
    IndexHasTables(index, |records|, TablesOf(records, fanout), trailer);
    TablesAreIndex(index, records, fanout);
  }

  lemma TablesAreIndex(index: seq<Byte>, records: seq<Record>, fanout: seq<nat>)
    requires Indexable(records, fanout) && HasTables(index, |records|, TablesOf(records, fanout))
    ensures IsIndexOf(index, records, fanout)
  {
    var n, t, large := |records|, TablesOf(records, fanout), LargeOffsets(records, |records|);
    forall b | 0 <= b < 256 && Cumulative(fanout, b) < 0x1_0000_0000 ensures FanRowIs(index, b, Cumulative(fanout, b)) {
      FanRow(index, t, b, Cumulative(fanout, b));
    }
    forall i | 0 <= i < n ensures RowOf(index, records, i) {
      RowsAreRecords(index, records, fanout, i);
    }
    forall r | 0 <= r < |large| ensures LargeRowOf(index, records, r) {
      LargeOffsetsFit(records, n, r);
      LargeRow(index, n, t, r, large[r]);
    }
  }

  lemma {:induction false} LargeOffsetsAt(records: seq<Record>, n: nat, i: nat)
    requires i < n <= |records| && records[i].offset >= LARGE
    ensures Rank(records, i) < |LargeOffsets(records, n)| && LargeOffsets(records, n)[Rank(records, i)] == records[i].offset
    ensures |LargeOffsets(records, n)| == Rank(records, n)
  {
    RankCounts(records, n);
    RankCounts(records, i);
    if i < n - 1 {
      LargeOffsetsAt(records, n - 1, i);
    } else {
      RankCounts(records, n - 1);
    }
  }

  lemma {:induction false} RankCounts(records: seq<Record>, n: nat)
    requires n <= |records|
    ensures |LargeOffsets(records, n)| == Rank(records, n)
  {
    if n > 0 {
      RankCounts(records, n - 1);
    }
  }

  lemma FollowWord(index: seq<Byte>, n: nat, i: nat, word: nat, offset: nat)
    requires OffsetRowIs(index, n, i, word)
    requires if word < LARGE then offset == word else LargeRowIs(index, n, word - LARGE, offset)
    ensures ReadOffset(index, n, i) == Some(offset)
  {
  }

  /** A row's word leads to the offset of the large record whose rank it carries. */
  lemma OffsetFollowed(index: seq<Byte>, records: seq<Record>, fanout: seq<nat>, i: nat, k: nat)
    requires |fanout| == 256 && IsIndexOf(index, records, fanout) && i < |records| && k < |records|
    requires records[i].offset >= LARGE ==> records[k].offset >= LARGE && Rank(records, k) == Rank(records, i) % LARGE
    ensures ReadOffset(index, |records|, i) == Some(if records[i].offset < LARGE then records[i].offset else records[k].offset)
  {
    assert RowOf(index, records, i);
    if records[i].offset < LARGE {
      FollowWord(index, |records|, i, records[i].offset, records[i].offset);
    } else {
      LargeOffsetsAt(records, |records|, k);
      assert LargeRowOf(index, records, Rank(records, k));
      FollowWord(index, |records|, i, Tagged(Rank(records, i)), records[k].offset);
    }
  }

  lemma RowColumns(index: seq<Byte>, records: seq<Record>, fanout: seq<nat>, i: nat)
    requires |fanout| == 256 && IsIndexOf(index, records, fanout) && i < |records|
    ensures OidRowIs(index, i, records[i].oid) && CrcRowIs(index, |records|, i, records[i].crc)
  {
    assert RowOf(index, records, i);
  }

  lemma BelowModulus(rank: nat)
    ensures rank < LARGE ==> rank % LARGE == rank
  {
  }

  /** Every row of the index gives back its record, on both sides of 2^31, as long as fewer
      than 2^31 large offsets precede it. */
  lemma ReadRow(index: seq<Byte>, records: seq<Record>, fanout: seq<nat>, i: nat)
    requires |fanout| == 256 && IsIndexOf(index, records, fanout) && i < |records|
    requires records[i].offset >= LARGE ==> Rank(records, i) < LARGE
    ensures OidRowIs(index, i, records[i].oid) && CrcRowIs(index, |records|, i, records[i].crc)
    ensures ReadOffset(index, |records|, i) == Some(records[i].offset)
  {
    RowColumns(index, records, fanout, i);
    BelowModulus(Rank(records, i));
    OffsetFollowed(index, records, fanout, i, i);
  }

  ghost predicate DistinctOffsets(records: seq<Record>) {
    forall i, j | 0 <= i < j < |records| :: records[i].offset != records[j].offset
  }

  /** Every smaller rank belongs to some earlier large record. */
  lemma {:induction false} RankOnto(records: seq<Record>, n: nat, t: nat) returns (k: nat)
    requires n <= |records| && t < Rank(records, n)
    ensures k < n && records[k].offset >= LARGE && Rank(records, k) == t
  {
    if t == Rank(records, n - 1) {
      k := n - 1;
    } else {
      k := RankOnto(records, n - 1, t);
    }
  }

  lemma {:induction false} RankGrows(records: seq<Record>, i: nat, n: nat)
    requires i <= n <= |records|
    ensures Rank(records, i) <= Rank(records, n)
  {
    if i < n {
      RankGrows(records, i, n - 1);
    }
  }

  /** With at most 2^31 large records, fewer than 2^31 precede each of them. */
  lemma RankBelow(records: seq<Record>, i: nat)
    requires i < |records| && Rank(records, |records|) <= LARGE
    ensures records[i].offset >= LARGE ==> Rank(records, i) < LARGE
  {
    RankGrows(records, i + 1, |records|);
  }

  /** Past the bound the tag wraps round, and the row reads as the offset of an earlier row's object. */
  lemma ReadRowPastBound(index: seq<Byte>, records: seq<Record>, fanout: seq<nat>, i: nat) returns (k: nat)
    requires |fanout| == 256 && IsIndexOf(index, records, fanout) && i < |records|
    requires records[i].offset >= LARGE && Rank(records, i) >= LARGE
    ensures k < i && ReadOffset(index, |records|, i) == Some(records[k].offset)
  {
    k := RankOnto(records, i, Rank(records, i) % LARGE);
    OffsetFollowed(index, records, fanout, i, k);
  }

  ghost predicate ReadsBack(index: seq<Byte>, records: seq<Record>, i: nat)
    requires i < |records|
  {
    ReadOffset(index, |records|, i) == Some(records[i].offset)
  }

  /** A row gives back its offset if and only if the offset is below 2^31 or fewer than 2^31 large
      offsets precede it. */
  lemma RowReadsBackIff(index: seq<Byte>, records: seq<Record>, fanout: seq<nat>, i: nat)
    requires |fanout| == 256 && IsIndexOf(index, records, fanout) && DistinctOffsets(records) && i < |records|
    ensures ReadsBack(index, records, i) <==> records[i].offset < LARGE || Rank(records, i) < LARGE
  {
    if records[i].offset < LARGE || Rank(records, i) < LARGE {
      ReadRow(index, records, fanout, i);
    } else {
      var k := ReadRowPastBound(index, records, fanout, i);
    }
  }

  ghost predicate AllRowsReadBack(index: seq<Byte>, records: seq<Record>) {
    forall i | 0 <= i < |records| :: ReadsBack(index, records, i)
  }

  /** The whole index reads back if and only if it has at most 2^31 large offsets. */
  lemma IndexReadsBackIff(index: seq<Byte>, records: seq<Record>, fanout: seq<nat>)
    requires |fanout| == 256 && IsIndexOf(index, records, fanout) && DistinctOffsets(records)
    ensures AllRowsReadBack(index, records) <==> Rank(records, |records|) <= LARGE
  {
    if Rank(records, |records|) <= LARGE {
      forall i | 0 <= i < |records| ensures ReadsBack(index, records, i) {
        RankBelow(records, i);
        RowReadsBackIff(index, records, fanout, i);
      }
    } else {
      var k := RankOnto(records, |records|, LARGE);
      RowReadsBackIff(index, records, fanout, k);
    }
  }

  /** Sorting does not change how many offsets are large. */
  lemma {:induction false} RankWithout(records: seq<Record>, k: nat, j: nat)
    requires k < |records| && j < |records|
    ensures Rank(Without(records, k), j)
         == if j <= k then Rank(records, j)
            else Rank(records, j + 1) - if records[k].offset >= LARGE then 1 else 0
  {
    if j > 0 {
      RankWithout(records, k, j - 1);
    }
  }

  lemma {:induction false} RankOfPrefix(records: seq<Record>, n: nat, j: nat)
    requires j <= n <= |records|
    ensures Rank(records[..n], j) == Rank(records, j)
  {
    if j > 0 {
      RankOfPrefix(records, n, j - 1);
    }
  }

  lemma {:induction false} RankPermutation(records: seq<Record>, sorted: seq<Record>)
    requires multiset(records) == multiset(sorted)
    ensures |records| == |sorted| && Rank(records, |records|) == Rank(sorted, |sorted|)
    decreases |records|
  {
    SameLength(records, sorted);
    if records != [] {
      var n := |records| - 1;
      var k := MatchLast(records, sorted);
      RankPermutation(records[..n], Without(sorted, k));
      RankWithout(sorted, k, n);
      RankOfPrefix(records, n, n);
    }
  }

  // ---------------------------------------------------------------------------------
  // The fan-out table delimits the identities by their first byte
  // ---------------------------------------------------------------------------------

  predicate LexLeq(a: seq<Byte>, b: seq<Byte>) {
    a == [] || (b != [] && (a[0] < b[0] || (a[0] == b[0] && LexLeq(a[1..], b[1..]))))
  }

  ghost predicate Sorted(records: seq<Record>) {
    forall i, j | 0 <= i < j < |records| :: LexLeq(records[i].oid, records[j].oid)
  }

  /** How many records have an identity starting with `b` or less. */
  function CountUpTo(records: seq<Record>, b: int): nat
    requires forall r | r in records :: r.oid != []
  {
    if records == [] then 0
    else CountUpTo(records[..|records| - 1], b) + if records[|records| - 1].oid[0] <= b then 1 else 0
  }

  lemma {:induction false} CountUpToStep(records: seq<Record>, b: Byte)
    requires forall r | r in records :: r.oid != []
    ensures CountUpTo(records, b) == CountUpTo(records, b - 1) + CountFirst(records, b)
  {
    if records != [] {
      CountUpToStep(records[..|records| - 1], b);
    }
  }

  lemma {:induction false} CountUpToNone(records: seq<Record>)
    requires forall r | r in records :: r.oid != []
    ensures CountUpTo(records, -1) == 0
  {
    if records != [] {
      CountUpToNone(records[..|records| - 1]);
    }
  }

  lemma {:induction false} CumulativeCounts(records: seq<Record>, fanout: seq<nat>, b: int)
    requires |fanout| == 256 && -1 <= b < 256 && forall r | r in records :: r.oid != []
    requires forall k: Byte :: fanout[k] == CountFirst(records, k)
    ensures Cumulative(fanout, b) == CountUpTo(records, b)
    decreases b + 1
  {
    if b < 0 {
      CountUpToNone(records);
    } else {
      CumulativeCounts(records, fanout, b - 1);
      CountUpToStep(records, b);
    }
  }

  lemma {:induction false} SortedCounts(records: seq<Record>, b: int, i: nat)
    requires (forall r | r in records :: r.oid != []) && Sorted(records) && i < |records|
    ensures i < CountUpTo(records, b) <==> records[i].oid[0] <= b
    ensures CountUpTo(records, b) <= |records|
  {
    var n := |records| - 1;
    var front := records[..n];
    CountBound(front, b);
    if i < n {
      SortedCounts(front, b, i);
      assert LexLeq(records[i].oid, records[n].oid);
      if records[n].oid[0] <= b && n > 0 {
        SortedCounts(front, b, n - 1);
        assert LexLeq(records[n - 1].oid, records[n].oid);
      }
    } else if n > 0 {
      SortedCounts(front, b, n - 1);
      assert LexLeq(records[n - 1].oid, records[n].oid);
    }
  }

  lemma {:induction false} CountBound(records: seq<Record>, b: int)
    requires forall r | r in records :: r.oid != []
    ensures CountUpTo(records, b) <= |records|
  {
    if records != [] {
      CountBound(records[..|records| - 1], b);
    }
  }

  lemma CountFirstSnoc(records: seq<Record>, last: Record, b: Byte)
    requires last.oid != [] && forall r | r in records :: r.oid != []
    ensures forall r | r in records + [last] :: r.oid != []
    ensures CountFirst(records + [last], b) == CountFirst(records, b) + if last.oid[0] == b then 1 else 0
  {
    var all := records + [last];
    assert all[..|records|] == records && all[|records|] == last;
  }

  lemma {:induction false} CountFirstRemove(records: seq<Record>, k: nat, b: Byte)
    requires (forall r | r in records :: r.oid != []) && k < |records|
    ensures
      var rest := Without(records, k);
      && (forall r | r in rest :: r.oid != [])
      && CountFirst(records, b) == CountFirst(rest, b) + if records[k].oid[0] == b then 1 else 0
  {
    var n := |records| - 1;
    if k < n {
      CountFirstRemove(records[..n], k, b);
      assert Without(records, k) == Without(records[..n], k) + [records[n]];
      CountFirstSnoc(Without(records[..n], k), records[n], b);
    } else {
      assert Without(records, k) == records[..n];
    }
  }

  /** Sorting the records leaves the fan-out counts as the object loop left them. */
  lemma {:induction false} CountFirstPermutation(records: seq<Record>, sorted: seq<Record>, b: Byte)
    requires multiset(records) == multiset(sorted)
    requires forall r | r in records :: r.oid != []
    ensures forall r | r in sorted :: r.oid != []
    ensures CountFirst(records, b) == CountFirst(sorted, b)
    decreases |records|
  {
    forall r | r in sorted ensures r.oid != [] {
      SameElements(records, sorted, r);
    }
    if records == [] {
      SameLength(records, sorted);
    } else {
      var k := MatchLast(records, sorted);
      CountFirstPermutation(records[..|records| - 1], Without(sorted, k), b);
      CountFirstRemove(sorted, k, b);
    }
  }

  lemma CumulativeDelimits(records: seq<Record>, fanout: seq<nat>, b: Byte, i: nat)
    requires |fanout| == 256 && Sorted(records) && i < |records|
    requires forall r | r in records :: r.oid != []
    requires forall k: Byte :: fanout[k] == CountFirst(records, k)
    ensures Cumulative(fanout, b - 1) <= i < Cumulative(fanout, b) <==> records[i].oid[0] == b
    ensures Cumulative(fanout, b - 1) <= |records| && Cumulative(fanout, b) <= |records|
  {
    SortedCounts(records, b, i);
    SortedCounts(records, b - 1, i);
    CumulativeCounts(records, fanout, b);
    CumulativeCounts(records, fanout, b - 1);
  }

  /** For every first byte, the two neighbouring fan-out words enclose exactly the rows whose
      identity starts with that byte. */
  lemma FanoutDelimits(index: seq<Byte>, records: seq<Record>, fanout: seq<nat>, b: Byte, i: nat)
    returns (low: nat, high: nat)
    requires |fanout| == 256 && HasFan(index, fanout)
    requires Sorted(records) && i < |records| < 0x1_0000_0000
    requires forall r | r in records :: r.oid != []
    requires forall k: Byte :: fanout[k] == CountFirst(records, k)
    ensures (if b == 0 then low == 0 else FanRowIs(index, b - 1, low)) && FanRowIs(index, b, high)
    ensures low <= i < high <==> records[i].oid[0] == b
  {
    CumulativeDelimits(records, fanout, b, i);
    low, high := Cumulative(fanout, b - 1), Cumulative(fanout, b);
  }
}
