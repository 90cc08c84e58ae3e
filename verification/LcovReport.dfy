/** The counters of the coverage report: per file, per crate and in total. */
module LcovReport {
  import opened Prelude
  import opened LcovRead

  /** How many of a thing exist and how many were hit. */
  datatype Counter = Counter(count: int, covered: int, available: bool)

  datatype Summary = Summary(lines: Counter, functions: Counter, regions: Counter)

  const NO_COUNT := Counter(0, 0, true)
  const NO_SUMMARY := Summary(NO_COUNT, NO_COUNT, NO_COUNT)

  function AddCounter(a: Counter, b: Counter): Counter {
    Counter(a.count + b.count, a.covered + b.covered, a.available && b.available)
  }

  function Add(a: Summary, b: Summary): Summary {
    Summary(AddCounter(a.lines, b.lines), AddCounter(a.functions, b.functions), AddCounter(a.regions, b.regions))
  }

  lemma AddIsCommutative(a: Summary, b: Summary, c: Summary)
    ensures Add(Add(a, b), c) == Add(Add(a, c), b) == Add(a, Add(b, c))
    ensures Add(NO_SUMMARY, a) == a == Add(a, NO_SUMMARY)
  {
  }

  // ---------------------------------------------------------------------------------------
  // One file
  // ---------------------------------------------------------------------------------------

  function Covered<K(!new)>(hits: map<K, int>): set<K> {
    set k | k in hits && hits[k] > 0
  }

  /** The number of entries, and of those with a positive count. */
  function CounterOf<K(!new)>(hits: map<K, int>): Counter {
    Counter(|hits|, |Covered(hits)|, true)
  }

  function SummaryOf(record: Record): Summary {
    Summary(CounterOf(record.lines), CounterOf(record.functions), Counter(0, 0, false))
  }

  /** The loop that adds one for each positive count. */
  method CountCovered<K(==, !new)>(hits: map<K, int>) returns (covered: nat)
    ensures covered == CounterOf(hits).covered
  {
    covered := 0;
    var left := hits.Keys;
    ghost var done: set<K> := {};
    while left != {}
      invariant left <= hits.Keys && done <= Covered(hits) && done !! left
      invariant Covered(hits) <= done + left && covered == |done|
    {
      var k :| k in left;
      if hits[k] > 0 {
        covered, done := covered + 1, done + {k};
      }
      left := left - {k};
    }
    assert done == Covered(hits);
  }

  // ---------------------------------------------------------------------------------------
  // Sums over a set of files, in any order
  // ---------------------------------------------------------------------------------------

  ghost function Sum(keys: set<string>, f: string -> Summary): Summary {
    if keys == {} then NO_SUMMARY else var k :| k in keys; Add(f(k), Sum(keys - {k}, f))
  }

  lemma {:induction false} SumExtract(keys: set<string>, f: string -> Summary, k: string)
    requires k in keys
    ensures Sum(keys, f) == Add(f(k), Sum(keys - {k}, f))
  {
    var x :| x in keys && Sum(keys, f) == Add(f(x), Sum(keys - {x}, f));
    if x != k {
      SumExtract(keys - {x}, f, k);
      SumExtract(keys - {k}, f, x);
      assert keys - {x} - {k} == keys - {k} - {x};
      AddIsCommutative(f(x), f(k), Sum(keys - {x} - {k}, f));
      AddIsCommutative(f(k), f(x), Sum(keys - {x} - {k}, f));
    }
  }

  lemma {:induction false} SumAgrees(keys: set<string>, f: string -> Summary, g: string -> Summary)
    requires forall k :: k in keys ==> f(k) == g(k)
    ensures Sum(keys, f) == Sum(keys, g)
  {
    if keys != {} {
      var k :| k in keys;
      SumExtract(keys, f, k);
      SumExtract(keys, g, k);
      SumAgrees(keys - {k}, f, g);
    }
  }

  function SummaryIn(files: Files): string -> Summary {
    source => SummaryOf(RecordOf(files, source))
  }

  /** The report's counters over a whole measurement. */
  ghost function TotalOf(files: Files): Summary {
    Sum(files.Keys, SummaryIn(files))
  }

  // ---------------------------------------------------------------------------------------
  // The report
  // ---------------------------------------------------------------------------------------

  type FileSummaries = seq<(string, Summary)>

  /** The sum of the first n rows. */
  ghost function ListTotal(rows: FileSummaries, n: nat): Summary
    requires n <= |rows|
  {
    if n == 0 then NO_SUMMARY else Add(ListTotal(rows, n - 1), rows[n - 1].1)
  }

  lemma {:induction false} ListTotalKept(rows: FileSummaries, row: (string, Summary), n: nat)
    requires n <= |rows|
    ensures ListTotal(rows + [row], n) == ListTotal(rows, n)
  {
    if n > 0 {
      ListTotalKept(rows, row, n - 1);
    }
  }

  ghost predicate Lists(rows: FileSummaries, keys: set<string>, f: string -> Summary) {
    forall i :: 0 <= i < |rows| ==> rows[i].0 in keys && rows[i].1 == f(rows[i].0)
  }

  lemma MoveToList(rows: FileSummaries, left: set<string>, f: string -> Summary, row: (string, Summary))
    requires row.0 in left && row.1 == f(row.0)
    ensures Add(ListTotal(rows + [row], |rows| + 1), Sum(left - {row.0}, f))
         == Add(ListTotal(rows, |rows|), Sum(left, f))
  {
    SumExtract(left, f, row.0);
    ListTotalKept(rows, row, |rows|);
    AddIsCommutative(ListTotal(rows, |rows|), row.1, Sum(left - {row.0}, f));
  }

  method ListRows(keys: set<string>, f: string -> Summary) returns (rows: FileSummaries)
    ensures |rows| == |keys| && Lists(rows, keys, f)
    ensures ListTotal(rows, |rows|) == Sum(keys, f)
  {
    rows := [];
    var left := keys;
    AddIsCommutative(Sum(keys, f), NO_SUMMARY, NO_SUMMARY);
    while left != {}
      invariant left <= keys && |rows| + |left| == |keys| && Lists(rows, keys, f)
      invariant Add(ListTotal(rows, |rows|), Sum(left, f)) == Sum(keys, f)
    {
      var source :| source in left;
      MoveToList(rows, left, f, (source, f(source)));
      rows := rows + [(source, f(source))];
      left := left - {source};
    }
    AddIsCommutative(ListTotal(rows, |rows|), NO_SUMMARY, NO_SUMMARY);
  }

  /** The files of the measurement with their counters, each once. */
  method LcovDocument(files: Files) returns (rows: FileSummaries)
    ensures |rows| == |files| && Lists(rows, files.Keys, SummaryIn(files))
    ensures ListTotal(rows, |rows|) == TotalOf(files)
  {
    rows := ListRows(files.Keys, SummaryIn(files));
  }

  function Row(crates: map<string, Summary>): string -> Summary {
    crate => if crate in crates then crates[crate] else NO_SUMMARY
  }

  lemma RowAdded(crates: map<string, Summary>, crate: string, more: Summary)
    ensures
      var after := crates[crate := Add(Row(crates)(crate), more)];
      Sum(after.Keys, Row(after)) == Add(Sum(crates.Keys, Row(crates)), more)
  {
    var after := crates[crate := Add(Row(crates)(crate), more)];
    var others := crates.Keys - {crate};
    SumExtract(after.Keys, Row(after), crate);
    assert after.Keys - {crate} == others;
    SumAgrees(others, Row(after), Row(crates));
    AddIsCommutative(Row(crates)(crate), more, Sum(others, Row(crates)));
    if crate in crates {
      SumExtract(crates.Keys, Row(crates), crate);
    } else {
      assert others == crates.Keys;
      AddIsCommutative(more, Sum(others, Row(crates)), NO_SUMMARY);
    }
  }

  /** The sum of those of the first n rows that belong to one crate. */
  ghost function CrateTotal(rows: FileSummaries, n: nat, crateOf: string -> string, crate: string): Summary
    requires n <= |rows|
  {
    if n == 0 then NO_SUMMARY
    else if crateOf(rows[n - 1].0) == crate then Add(CrateTotal(rows, n - 1, crateOf, crate), rows[n - 1].1)
    else CrateTotal(rows, n - 1, crateOf, crate)
  }

  ghost predicate PerCrate(rows: FileSummaries, n: nat, crateOf: string -> string, crates: map<string, Summary>)
    requires n <= |rows|
  {
    forall crate :: Row(crates)(crate) == CrateTotal(rows, n, crateOf, crate)
  }

  lemma PerCrateMore(rows: FileSummaries, n: nat, crateOf: string -> string, crates: map<string, Summary>)
    requires n < |rows| && PerCrate(rows, n, crateOf, crates)
    ensures
      var crate := crateOf(rows[n].0);
      PerCrate(rows, n + 1, crateOf, crates[crate := Add(Row(crates)(crate), rows[n].1)])
  {
    var crate := crateOf(rows[n].0);
    var after := crates[crate := Add(Row(crates)(crate), rows[n].1)];
    forall c ensures Row(after)(c) == CrateTotal(rows, n + 1, crateOf, c) {
      assert Row(crates)(c) == CrateTotal(rows, n, crateOf, c);
    }
  }

  /** Each crate's summary is the sum over its own files, and whatever the crate of each file, the
      crates' summaries add up to the files' summaries. */
  method AggregateByCrate(rows: FileSummaries, crateOf: string -> string) returns (crates: map<string, Summary>)
    ensures Sum(crates.Keys, Row(crates)) == ListTotal(rows, |rows|)
    ensures PerCrate(rows, |rows|, crateOf, crates)
  {
    crates := map[];
    for i := 0 to |rows|
      invariant Sum(crates.Keys, Row(crates)) == ListTotal(rows, i)
      invariant PerCrate(rows, i, crateOf, crates)
    {
      var crate := crateOf(rows[i].0);
      RowAdded(crates, crate, rows[i].1);
      PerCrateMore(rows, i, crateOf, crates);
      crates := crates[crate := Add(Row(crates)(crate), rows[i].1)];
    }
  }

  /** The total row, adding up the crates in whatever order. */
  method TotalOfCrates(crates: map<string, Summary>) returns (total: Summary)
    ensures total == Sum(crates.Keys, Row(crates))
  {
    total := NO_SUMMARY;
    var left := crates.Keys;
    while left != {}
      invariant left <= crates.Keys
      invariant Add(total, Sum(left, Row(crates))) == Sum(crates.Keys, Row(crates))
    {
      var crate :| crate in left;
      SumExtract(left, Row(crates), crate);
      AddIsCommutative(total, crates[crate], Sum(left - {crate}, Row(crates)));
      total := Add(total, crates[crate]);
      left := left - {crate};
    }
    AddIsCommutative(total, NO_SUMMARY, NO_SUMMARY);
  }

  /** The report over a measurement: its total row is the sum over all files, however they are
      grouped into crates. */
  method Report(files: Files, crateOf: string -> string) returns (crates: map<string, Summary>, total: Summary)
    ensures total == TotalOf(files) == Sum(crates.Keys, Row(crates))
  {
    var rows := LcovDocument(files);
    crates := AggregateByCrate(rows, crateOf);
    total := TotalOfCrates(crates);
  }
}
