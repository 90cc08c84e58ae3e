/** The generator as a whole: the pack and its index together hold every planned object. */
module PackLookup {
  import opened Prelude
  import opened PackFormat
  import opened PackEntry
  import opened PackPlan
  import opened PackWriter
  import opened PackGenerate
  import opened PackIndex

  type Sort = seq<Record> -> seq<Record>

  /** The external sort: a permutation, ordered by identity. */
  ghost predicate Sorts(sort: Sort) {
    forall records :: multiset(sort(records)) == multiset(records) && Sorted(sort(records))
  }

  // ---------------------------------------------------------------------------------
  // Finding a record through the index
  // ---------------------------------------------------------------------------------

  /** Row k of the index holds this record. */
  ghost predicate HoldsAt(index: seq<Byte>, n: nat, k: nat, r: Record) {
    OidRowIs(index, k, r.oid) && CrcRowIs(index, n, k, r.crc) && ReadOffset(index, n, k) == Some(r.offset)
  }

  /** The fan-out table brackets row k for the first byte b. */
  ghost predicate Bracketed(index: seq<Byte>, k: nat, b: Byte) {
    exists low: nat, high: nat :: FanStart(index, b, low) && FanRowIs(index, b, high) && low <= k < high
  }

  ghost predicate FanStart(index: seq<Byte>, b: Byte, low: nat) {
    if b == 0 then low == 0 else FanRowIs(index, b - 1, low)
  }

  ghost predicate AllValid(records: seq<Record>) {
    forall i | 0 <= i < |records| :: ValidRecord(records[i])
  }

  ghost predicate Tallied(fanout: seq<nat>, records: seq<Record>)
    requires AllValid(records)
  {
    HaveIdentities(records);
    |fanout| == 256 && forall b: Byte :: fanout[b] == CountFirst(records, b)
  }

  lemma HaveIdentities(records: seq<Record>)
    requires AllValid(records)
    ensures forall r | r in records :: r.oid != []
  {
    forall r | r in records ensures r.oid != [] {
      var i :| 0 <= i < |records| && records[i] == r;
      assert ValidRecord(records[i]);
    }
  }

  lemma SortedKeeps(records: seq<Record>, sorted: seq<Record>, fanout: seq<nat>)
    requires multiset(records) == multiset(sorted) && AllValid(records) && Tallied(fanout, records)
    ensures |sorted| == |records| && AllValid(sorted) && Tallied(fanout, sorted)
  {
    SameLength(records, sorted);
    forall i | 0 <= i < |sorted| ensures ValidRecord(sorted[i]) {
      SameElements(sorted, records, sorted[i]);
    }
    HaveIdentities(records);
    HaveIdentities(sorted);
    forall b: Byte ensures fanout[b] == CountFirst(sorted, b) {
      CountFirstPermutation(records, sorted, b);
    }
  }

  lemma RowIsHeld(index: seq<Byte>, sorted: seq<Record>, fanout: seq<nat>, k: nat)
    requires |fanout| == 256 && IsIndexOf(index, sorted, fanout)
    requires k < |sorted| && Rank(sorted, |sorted|) <= LARGE
    ensures HoldsAt(index, |sorted|, k, sorted[k])
  {
    RankBelow(sorted, k);
    ReadRow(index, sorted, fanout, k);
  }

  lemma RowIsBracketed(index: seq<Byte>, sorted: seq<Record>, fanout: seq<nat>, k: nat)
    requires AllValid(sorted) && Sorted(sorted) && Tallied(fanout, sorted) && HasFan(index, fanout)
    requires k < |sorted| < 0x1_0000_0000 && sorted[k].oid != []
    ensures Bracketed(index, k, sorted[k].oid[0])
  {
    HaveIdentities(sorted);
    var b := sorted[k].oid[0];
    var low, high := FanoutDelimits(index, sorted, fanout, b, k);
    assert FanStart(index, b, low) && FanRowIs(index, b, high);
  }

  /** Every record is in some row of the index over its sorted records, in the bucket of its first byte. */
  lemma RecordIsFound(index: seq<Byte>, records: seq<Record>, sorted: seq<Record>, fanout: seq<nat>, i: nat)
    returns (k: nat)
    requires AllValid(records) && Tallied(fanout, records)
    requires multiset(records) == multiset(sorted) && Sorted(sorted)
    requires IsIndexOf(index, sorted, fanout) && i < |records| < 0x1_0000_0000
    requires Rank(records, |records|) <= LARGE
    ensures k < |records| && HoldsAt(index, |records|, k, records[i])
    ensures records[i].oid != [] && Bracketed(index, k, records[i].oid[0])
  {
    SortedKeeps(records, sorted, fanout);
    RankPermutation(records, sorted);
    SameElements(records, sorted, records[i]);
    k :| 0 <= k < |sorted| && sorted[k] == records[i];
    assert ValidRecord(sorted[k]);
    RowIsHeld(index, sorted, fanout, k);
    RowIsBracketed(index, sorted, fanout, k);
  }

  // ---------------------------------------------------------------------------------
  // The whole generator
  // ---------------------------------------------------------------------------------

  /** The bytes start with a pack entry that holds this blob: its type and size, and a zlib stream
      that inflates to it. */
  ghost predicate IsBlobAt(d: Digests, bytes: seq<Byte>, blob: seq<Byte>) {
    var h := ReadHeader(bytes);
    && h.Some? && h.value.kind == OBJ_BLOB && h.value.size == |blob|
    && var content := d.inflate(h.value.rest);
    content.Some? && content.value.0 == blob
  }

  lemma StoredIsBlob(d: Digests, o: Planned, rest: seq<Byte>)
    requires ValidDigests(d) && WellPlanned(o) && o.size > SUFFIX_BYTES
    ensures IsBlobAt(d, EntryOf(d, o) + rest, Payload(o.size, o.suffix))
  {
    ReadEntryBytes(o.size, o.suffix, rest);
  }

  lemma MinimalIsBlob(d: Digests, o: Planned, rest: seq<Byte>)
    requires ValidDigests(d) && WellPlanned(o) && o.size == SUFFIX_BYTES
    ensures IsBlobAt(d, EntryOf(d, o) + rest, Payload(o.size, o.suffix))
  {
    Associate(EntryHeader(o.size), d.compress(o.suffix), rest);
    ReadEntryHeader(o.size, d.compress(o.suffix) + rest);
    MinimalPayload(o.suffix);
  }

  lemma MinimalPayload(suffix: seq<Byte>)
    requires |suffix| == SUFFIX_BYTES
    ensures Payload(SUFFIX_BYTES, suffix) == suffix
  {
  }

  /** The record leads to the object: at its offset the pack holds the object's entry, with the CRC
      recorded for it, and the entry decodes to the object's content. */
  ghost predicate LeadsTo(d: Digests, pack: seq<Byte>, r: Record, o: Planned) {
    && WellPlanned(o) && r.oid == IdentityOf(d, o) && r.offset <= |pack|
    && EntryOf(d, o) <= pack[r.offset..] && r.crc == d.crc32(EntryOf(d, o))
    && IsBlobAt(d, pack[r.offset..], Payload(o.size, o.suffix))
  }

  /** The object is found: the index has a row for it, in the bucket of its identity's first byte, and
      that row leads to the object. */
  ghost predicate Found(d: Digests, pack: seq<Byte>, index: seq<Byte>, n: nat, o: Planned) {
    exists k: nat, r: Record ::
      k < n && HoldsAt(index, n, k, r) && r.oid != [] && Bracketed(index, k, r.oid[0]) && LeadsTo(d, pack, r, o)
  }

  lemma RecordLeads(
      d: Digests, head: seq<Byte>, plan: seq<Planned>, entries: seq<seq<Byte>>, records: seq<Record>, i: nat,
      trailer: seq<Byte>)
    requires ValidDigests(d) && Realizes(d, head, plan, entries, records) && i < |plan| == |records|
    ensures LeadsTo(d, Extended(head, entries, |entries|) + trailer, records[i], plan[i])
  {
    RecordedAt(d, head, plan, entries, records, i);
    OffsetsDelimitEntries(head, entries, i, trailer);
    RecordsOfAt(d, head, plan, entries, |plan|, i);
    var rest := (Extended(head, entries, |entries|) + trailer)[|Extended(head, entries, i + 1)|..];
    if plan[i].size > SUFFIX_BYTES {
      StoredIsBlob(d, plan[i], rest);
    } else {
      MinimalIsBlob(d, plan[i], rest);
    }
  }

  lemma ObjectIsFound(
      d: Digests, head: seq<Byte>, plan: seq<Planned>, entries: seq<seq<Byte>>, records: seq<Record>,
      sorted: seq<Record>, fanout: seq<nat>, index: seq<Byte>, trailer: seq<Byte>, i: nat)
    requires ValidDigests(d) && Realizes(d, head, plan, entries, records) && i < |plan| == |records| < 0x1_0000_0000
    requires AllValid(records) && Tallied(fanout, records) && Rank(records, |records|) <= LARGE
    requires multiset(records) == multiset(sorted) && Sorted(sorted) && IsIndexOf(index, sorted, fanout)
    ensures Found(d, Extended(head, entries, |entries|) + trailer, index, |plan|, plan[i])
  {
    RecordLeads(d, head, plan, entries, records, i, trailer);
    var k := RecordIsFound(index, records, sorted, fanout, i);
  }

  /** In a pack shorter than 2^64 bytes every record fits the index. */
  lemma RecordsAreValid(
      d: Digests, head: seq<Byte>, plan: seq<Planned>, entries: seq<seq<Byte>>, records: seq<Record>, trailer: seq<Byte>)
    requires Realizes(d, head, plan, entries, records) && ValidDigests(d)
    requires |Extended(head, entries, |entries|) + trailer| < 0x1_0000_0000_0000_0000
    ensures |records| == |plan| && AllValid(records)
  {
    forall i | 0 <= i < |records| ensures ValidRecord(records[i]) {
      RecordedAt(d, head, plan, entries, records, i);
      OffsetsDelimitEntries(head, entries, i, trailer);
      RecordsOfAt(d, head, plan, entries, |plan|, i);
    }
  }

  // ---------------------------------------------------------------------------------
  // How far apart entries are
  // ---------------------------------------------------------------------------------

  /** No entry is shorter than three bytes: two of header and one of content. */
  lemma EntryIsLong(d: Digests, o: Planned)
    requires ValidDigests(d) && WellPlanned(o)
    ensures |EntryOf(d, o)| >= 3
  {
    assert o.size / 16 > 0;
    assert |EntryHeader(o.size)| >= 2;
  }

  ghost predicate Spaced(entries: seq<seq<Byte>>) {
    forall i | 0 <= i < |entries| :: |entries[i]| >= 3
  }

  lemma RealizedIsSpaced(
      d: Digests, head: seq<Byte>, plan: seq<Planned>, entries: seq<seq<Byte>>, records: seq<Record>)
    requires ValidDigests(d) && Realizes(d, head, plan, entries, records)
    ensures Spaced(entries)
  {
    forall i | 0 <= i < |entries| ensures |entries[i]| >= 3 {
      EntryIsLong(d, plan[i]);
    }
  }

  /** Entry j starts at least three bytes after entry i for each entry in between. */
  lemma {:induction false} OffsetsSpread(head: seq<Byte>, entries: seq<seq<Byte>>, i: nat, j: nat)
    requires Spaced(entries) && i <= j <= |entries|
    ensures |Extended(head, entries, j)| >= |Extended(head, entries, i)| + 3 * (j - i)
    decreases j - i
  {
    if i < j {
      OffsetsSpread(head, entries, i, j - 1);
      ExtendedStep(head, entries, j - 1);
    }
  }

  lemma OffsetsAreDistinct(
      d: Digests, head: seq<Byte>, plan: seq<Planned>, entries: seq<seq<Byte>>, records: seq<Record>, sorted: seq<Record>)
    requires ValidDigests(d) && Realizes(d, head, plan, entries, records) && |records| == |plan|
    requires multiset(records) == multiset(sorted)
    ensures DistinctOffsets(sorted)
  {
    RealizedIsSpaced(d, head, plan, entries, records);
    forall i, j | 0 <= i < j < |records| ensures records[i].offset != records[j].offset {
      RecordedAt(d, head, plan, entries, records, i);
      RecordedAt(d, head, plan, entries, records, j);
      OffsetsSpread(head, entries, i, j);
    }
    DistinctAfterSort(records, sorted);
  }

  /** Distinctness of a key survives rearrangement: each element is still there once. */
  lemma DistinctAfterSort(records: seq<Record>, sorted: seq<Record>)
    requires multiset(records) == multiset(sorted) && DistinctOffsets(records)
    ensures DistinctOffsets(sorted)
  {
    forall i, j | 0 <= i < j < |sorted| ensures sorted[i].offset != sorted[j].offset {
      SameElements(records, sorted, sorted[i]);
      SameElements(records, sorted, sorted[j]);
      if sorted[i].offset == sorted[j].offset {
        OccursTwice(sorted, i, j);
        OccursOnce(records, sorted[i]);
        assert false;
      }
    }
  }

  lemma OccursTwice(s: seq<Record>, i: nat, j: nat)
    requires i < j < |s| && s[i] == s[j]
    ensures multiset(s)[s[i]] >= 2
  {
    assert s == s[..j] + s[j..];
    assert s[i] in s[..j] && s[j] in s[j..];
    assert multiset(s) == multiset(s[..j]) + multiset(s[j..]);
  }

  lemma {:induction false} OccursOnce(s: seq<Record>, r: Record)
    requires DistinctOffsets(s)
    ensures multiset(s)[r] <= 1
  {
    if s != [] {
      var front, last := s[..|s| - 1], s[|s| - 1];
      assert s == front + [last];
      OccursOnce(front, r);
      if r == last {
        assert r !in front;
      }
    }
  }

  // ---------------------------------------------------------------------------------
  // The whole generator
  // ---------------------------------------------------------------------------------

  ghost predicate AllPlanned(plan: seq<Planned>) {
    forall i | 0 <= i < |plan| :: WellPlanned(plan[i])
  }

  /** The records of a plan. */
  ghost function RecordsFor(d: Digests, plan: seq<Planned>): seq<Record>
    requires AllPlanned(plan)
  {
    RecordsOf(d, PackHead(|plan|), plan, EntriesOf(d, plan), |plan|)
  }

  /** How many of the planned objects start at 2^31 or beyond. */
  ghost function FarObjects(d: Digests, plan: seq<Planned>): nat
    requires AllPlanned(plan)
  {
    Rank(RecordsFor(d, plan), |plan|)
  }

  ghost predicate FindsAll(d: Digests, pack: seq<Byte>, index: seq<Byte>, plan: seq<Planned>) {
    forall i | 0 <= i < |plan| :: Found(d, pack, index, |plan|, plan[i])
  }

  /** The index and its rows, for a pack whose size and count the formats can express: every row gives
      back its offset if and only if at most 2^31 objects start at 2^31 or beyond, and then every
      object is found. */
  ghost predicate Serves(d: Digests, plan: seq<Planned>, pack: seq<Byte>, index: seq<Byte>, rows: seq<Record>)
    requires AllPlanned(plan)
  {
    && multiset(rows) == multiset(RecordsFor(d, plan)) && Sorted(rows)
    && (AllRowsReadBack(index, rows) <==> FarObjects(d, plan) <= LARGE)
    && (FarObjects(d, plan) <= LARGE ==> FindsAll(d, pack, index, plan))
  }

  lemma RepositoryServes(
      d: Digests, plan: seq<Planned>, head: seq<Byte>, entries: seq<seq<Byte>>, records: seq<Record>,
      sorted: seq<Record>, fanout: seq<nat>, index: seq<Byte>, trailer: seq<Byte>)
    requires ValidDigests(d) && AllPlanned(plan) && |plan| < 0x1_0000_0000
    requires head == PackHead(|plan|) && entries == EntriesOf(d, plan) && Realizes(d, head, plan, entries, records)
    requires |records| == |plan| && AllValid(records) && Tallied(fanout, records)
    requires multiset(records) == multiset(sorted) && Sorted(sorted) && IsIndexOf(index, sorted, fanout)
    ensures Serves(d, plan, Extended(head, entries, |entries|) + trailer, index, sorted)
  {
    SortedKeeps(records, sorted, fanout);
    RankPermutation(records, sorted);
    OffsetsAreDistinct(d, head, plan, entries, records, sorted);
    IndexReadsBackIff(index, sorted, fanout);
    if FarObjects(d, plan) <= LARGE {
      forall i | 0 <= i < |plan| ensures Found(d, Extended(head, entries, |entries|) + trailer, index, |plan|, plan[i]) {
        ObjectIsFound(d, head, plan, entries, records, sorted, fanout, index, trailer, i);
      }
    }
  }

  lemma WrittenIsIndex(d: Digests, sorted: seq<Record>, fanout: seq<nat>, checksum: seq<Byte>, index: seq<Byte>)
    requires AllValid(sorted) && |fanout| == 256
    requires
      var body := IndexBody(TablesOf(sorted, fanout)) + checksum;
      index == body + d.sha1(body)
    ensures IsIndexOf(index, sorted, fanout)
  {
    var tables := IndexBody(TablesOf(sorted, fanout));
    Associate(tables, checksum, d.sha1(tables + checksum));
    IndexFileIsIndex(index, sorted, fanout, checksum + d.sha1(tables + checksum));
  }

  /** Writes the pack and its index. */
  method WriteRepository(d: Digests, sort: Sort, plan: seq<Planned>)
    returns (file: SparseFile, index: seq<Byte>, ghost rows: seq<Record>)
    requires ValidDigests(d) && Sorts(sort) && AllPlanned(plan)
    ensures |plan| < 0x1_0000_0000 && |file.Contents()| < 0x1_0000_0000_0000_0000 ==>
      Serves(d, plan, file.Contents(), index, rows)
  {
    var records, fanout, checksum;
    file, records, fanout, checksum := WritePack(d, plan);
    var sorted := sort(records);
    index := WriteIndex(d, sorted, fanout[..], checksum);
    rows := sorted;
    if |plan| < 0x1_0000_0000 && |file.Contents()| < 0x1_0000_0000_0000_0000 {
      ghost var head, entries := PackHead(|plan|), EntriesOf(d, plan);
      RecordsAreValid(d, head, plan, entries, records, checksum);
      SortedKeeps(records, sorted, fanout[..]);
      WrittenIsIndex(d, sorted, fanout[..], checksum, index);
      RepositoryServes(d, plan, head, entries, records, sorted, fanout[..], index, checksum);
    }
  }

  /** The size and suffix of each object in turn. */
  method Plan(q: Request) returns (plan: seq<Planned>)
    requires Accepted(q)
    ensures plan == PlanOf(q)
  {
    plan := [];
    for i := 0 to q.objectCount
      invariant plan == PlanOf(q)[..i]
    {
      SizesHoldSuffix(q, i);
      plan := plan + [Planned(Size(q, i), Suffix(i))];
    }
  }

  lemma PlanIsPlanned(q: Request)
    requires Accepted(q)
    ensures AllPlanned(PlanOf(q))
  {
    forall i | 0 <= i < |PlanOf(q)| ensures WellPlanned(PlanOf(q)[i]) {
      PlanIsWritable(q, i);
    }
  }

  /** The generator: a request is refused exactly when its sizes do not fit; otherwise, for a pack
      below 2^64 bytes, every object it asks for is found through the index as long as at most 2^31
      objects start at 2^31 or beyond, and that bound is exact for the index's rows. */
  method Generate(d: Digests, sort: Sort, q: Request)
    returns (r: Option<(SparseFile, seq<Byte>)>, ghost rows: seq<Record>)
    requires ValidDigests(d) && Sorts(sort)
    ensures r.None? <==> !Accepted(q)
    ensures r.Some? ==> AllPlanned(PlanOf(q))
    ensures r.Some? && |r.value.0.Contents()| < 0x1_0000_0000_0000_0000 ==>
      Serves(d, PlanOf(q), r.value.0.Contents(), r.value.1, rows)
  {
    var largeCount := Validate(q);
    if largeCount.None? {
      return None, [];
    }
    var plan := Plan(q);
    PlanIsPlanned(q);
    var file, index;
    file, index, rows := WriteRepository(d, sort, plan);
    r := Some((file, index));
  }

  // ---------------------------------------------------------------------------------
  // The bound is within reach
  // ---------------------------------------------------------------------------------

  lemma {:induction false} RankOfFar(records: seq<Record>, m: nat, n: nat)
    requires m <= n <= |records| && forall i | m <= i < n :: records[i].offset >= LARGE
    ensures Rank(records, n) >= n - m
  {
    if m < n {
      RankOfFar(records, m, n - 1);
    }
  }

  /** From here on every object starts at 2^31 or beyond: entries are at least three bytes apart. */
  const FAR_FROM := 715_827_883

  /** Enough objects always pass the bound, however well the minimal ones compress. */
  lemma ManyObjectsPassBound(d: Digests, plan: seq<Planned>)
    requires ValidDigests(d) && AllPlanned(plan) && |plan| > LARGE + FAR_FROM
    ensures FarObjects(d, plan) > LARGE
  {
    var head, entries, records := PackHead(|plan|), EntriesOf(d, plan), RecordsFor(d, plan);
    assert Realizes(d, head, plan, entries, records);
    RealizedIsSpaced(d, head, plan, entries, records);
    forall i | FAR_FROM <= i < |plan| ensures records[i].offset >= LARGE {
      RecordedAt(d, head, plan, entries, records, i);
      OffsetsSpread(head, entries, 0, i);
    }
    RankOfFar(records, FAR_FROM, |plan|);
  }

  /** Such a request is accepted: then some row of the index reads as another object's offset. */
  lemma AcceptedRequestPassesBound(d: Digests, q: Request)
    requires ValidDigests(d) && q == Request(0xFFFF_FFFF, 32, 16, 32)
    ensures Accepted(q) && AllPlanned(PlanOf(q)) && FarObjects(d, PlanOf(q)) > LARGE
  {
    PlanIsPlanned(q);
    ManyObjectsPassBound(d, PlanOf(q));
  }

  // ---------------------------------------------------------------------------------
  // The assumptions on digests and compressors can be met
  // ---------------------------------------------------------------------------------

  ghost function StoredOnly(s: seq<Byte>): seq<Byte> {
    if |s| == SUFFIX_BYTES then ZlibBytes(SUFFIX_BYTES, s) else [0]
  }

  function InflateStored(s: seq<Byte>): Option<(seq<Byte>, seq<Byte>)> {
    match ReadZlib(s)
    case None => None
    case Some(r) => Some((Flatten(r.blocks), r.rest))
  }

  /** A compressor that only stores, with its inflater, meets them. */
  lemma DigestsExist(d: Digests)
    requires d == Digests(_ => Zeros(20), _ => 0, StoredOnly, InflateStored)
    ensures ValidDigests(d)
  {
    forall s: seq<Byte>, rest: seq<Byte> | |s| == SUFFIX_BYTES
      ensures d.inflate(d.compress(s) + rest) == Some((s, rest))
    {
      ReadZlibBytes(SUFFIX_BYTES, s, rest);
      BlocksHoldPayload(SUFFIX_BYTES, s);
      MinimalPayload(s);
    }
  }
}
