/** Merging LCOV inputs into one written file: what is read back from it, and what it declares. */
module LcovExport {
  import opened Prelude
  import opened Text
  import opened LcovText
  import opened LcovPaths
  import opened LcovRead
  import opened LcovReport
  import opened LcovWrite
  import LcovMerge

  /** Every record of the measurement can be written. */
  ghost predicate AllWritable(env: Env, files: Files) {
    forall source :: source in files ==> Writable(env, source, files[source])
  }

  /** No function start has a name that the reader would shorten: no first comma with a decimal number
      in front of it. */
  ghost predicate AllClean(env: Env, files: Files) {
    forall source, name :: source in files && name in files[source].starts ==> !Prefixed(env, name)
  }

  lemma CleanMeansUnprefixed(env: Env, names: set<string>)
    ensures Clean(Stripping(env), names) <==> forall name :: name in names ==> !Prefixed(env, name)
  {
    forall name ensures Stripping(env)(name) == name <==> !Prefixed(env, name) {
      PrefixIsStripped(env, name);
    }
  }

  ghost predicate FilesBack(env: Env, files: Files, back: Files) {
    forall source :: source in back ==> source in files && RecordBack(env, files[source], back[source])
  }

  lemma RecordReadsBack(env: Env, record: Record, back: Record)
    requires RecordBack(env, record, back)
    ensures back == record <==> Clean(Stripping(env), record.starts.Keys)
  {
    StrippingShortens(env);
    StartsReadBack(Stripping(env), record.starts, back.starts);
  }

  lemma FilesReadBack(env: Env, files: Files, back: Files)
    requires FilesBack(env, files, back) && back.Keys == files.Keys
    ensures back == files <==> AllClean(env, files)
  {
    forall source | source in files
      ensures back[source] == files[source] <==> Clean(Stripping(env), files[source].starts.Keys)
    {
      RecordReadsBack(env, files[source], back[source]);
    }
    forall source | source in files
      ensures Clean(Stripping(env), files[source].starts.Keys)
         <==> forall name :: name in files[source].starts ==> !Prefixed(env, name)
    {
      CleanMeansUnprefixed(env, files[source].starts.Keys);
    }
  }

  // ---------------------------------------------------------------------------------------
  // The counters declared and the counters reported
  // ---------------------------------------------------------------------------------------

  ghost predicate SameCounters(a: Summary, b: Summary) {
    a.lines == b.lines && a.functions == b.functions
  }

  /** The file declares counters for exactly these sources, and for each of them the counters that the
      report shows. */
  ghost predicate DeclaresReported(declared: Declarations, files: Files) {
    && declared.Keys == files.Keys
    && forall source :: source in files ==> SameCounters(declared[source], SummaryOf(files[source]))
  }

  function DeclaredFor(declared: Declarations): string -> Summary {
    source => if source in declared then declared[source] else NO_SUMMARY
  }

  lemma {:induction false} SumsAgree(keys: set<string>, f: string -> Summary, g: string -> Summary)
    requires forall k :: k in keys ==> SameCounters(f(k), g(k))
    ensures SameCounters(Sum(keys, f), Sum(keys, g))
  {
    if keys != {} {
      var k :| k in keys;
      SumExtract(keys, f, k);
      SumExtract(keys, g, k);
      SumsAgree(keys - {k}, f, g);
    }
  }

  /** Then the counter lines add up to the report's total row. */
  lemma DeclaredTotals(declared: Declarations, files: Files)
    requires DeclaresReported(declared, files)
    ensures SameCounters(Sum(declared.Keys, DeclaredFor(declared)), TotalOf(files))
  {
    SumsAgree(files.Keys, DeclaredFor(declared), SummaryIn(files));
  }

  // ---------------------------------------------------------------------------------------
  // The whole file
  // ---------------------------------------------------------------------------------------

  /** The records not in `left` are written. */
  ghost predicate Written(env: Env, files: Files, left: set<string>, back: Files, declared: Declarations) {
    && Apportioned(files, left, back.Keys) && declared.Keys == back.Keys
    && FilesBack(env, files, back) && DeclaredBack(files, declared)
  }

  ghost predicate DeclaredBack(files: Files, declared: Declarations) {
    forall source :: source in declared ==> source in files && declared[source] == DeclaredOf(files[source])
  }

  lemma FilesBackMore(env: Env, files: Files, back: Files, source: string, record: Record)
    requires FilesBack(env, files, back) && source in files && RecordBack(env, files[source], record)
    ensures FilesBack(env, files, back[source := record])
  {
  }

  lemma DeclaredBackMore(files: Files, declared: Declarations, source: string)
    requires DeclaredBack(files, declared) && source in files && source !in declared
    ensures DeclaredBack(files, Declare(declared, source, DeclaredOf(files[source])))
  {
    AddIsCommutative(DeclaredOf(files[source]), NO_SUMMARY, NO_SUMMARY);
  }

  /** Which records are written and which are left. */
  ghost predicate Apportioned(files: Files, left: set<string>, done: set<string>) {
    left <= files.Keys && done == files.Keys - left
  }

  lemma OneLess(files: Files, left: set<string>, done: set<string>, source: string)
    requires Apportioned(files, left, done) && source in left
    ensures Apportioned(files, left - {source}, done + {source})
  {
  }

  lemma KeysMore<V>(m: map<string, V>, source: string, v: V)
    ensures m[source := v].Keys == m.Keys + {source}
  {
  }

  lemma WrittenMore(
      env: Env, files: Files, left: set<string>, back: Files, declared: Declarations, source: string, record: Record)
    requires Written(env, files, left, back, declared) && source in left && RecordBack(env, files[source], record)
    ensures Written(env, files, left - {source}, back[source := record],
                    Declare(declared, source, DeclaredOf(files[source])))
  {
    FilesBackMore(env, files, back, source, record);
    DeclaredBackMore(files, declared, source);
    OneLess(files, left, back.Keys, source);
    KeysMore(back, source, record);
    KeysMore(declared, source, Declare(declared, source, DeclaredOf(files[source]))[source]);
  }

  method WriteNext(
      ghost env: Env, files: Files, left: set<string>, lines: seq<string>, ghost back: Files,
      ghost declared: Declarations, source: string)
    returns (lines': seq<string>, ghost back': Files, ghost declared': Declarations)
    requires Sane(env) && Written(env, files, left, back, declared) && Wrote(env, lines, back, None, declared)
    requires source in left && Writable(env, source, files[source])
    ensures Written(env, files, left - {source}, back', declared') && Wrote(env, lines', back', None, declared')
  {
    ghost var record;
    lines', record := WriteRecord(env, lines, back, source, files[source], declared);
    WrittenMore(env, files, left, back, declared, source, record);
    back', declared' := back[source := record], Declare(declared, source, DeclaredOf(files[source]));
  }

  method WriteAll(ghost env: Env, files: Files)
    returns (lines: seq<string>, ghost back: Files, ghost declared: Declarations)
    requires Sane(env) && AllWritable(env, files)
    ensures Written(env, files, {}, back, declared) && Wrote(env, lines, back, None, declared)
  {
    lines, back, declared := [], map[], map[];
    var left := files.Keys;
    NoLines(env, lines, back, declared);
    while left != {}
      invariant Written(env, files, left, back, declared)
      invariant Wrote(env, lines, back, None, declared)
    {
      var source :| source in left;
      lines, back, declared := WriteNext(env, files, left, lines, back, declared, source);
      left := left - {source};
    }
  }

  lemma NoLines(env: Env, lines: seq<string>, back: Files, declared: Declarations)
    requires lines == [] && back == map[] && declared == map[]
    ensures Wrote(env, lines, back, None, declared)
  {
    assert Scan(env, None, lines) == Some(Scanned(None, []));
  }

  ghost predicate SameHits(files: Files, back: Files) {
    && back.Keys == files.Keys
    && forall source :: source in files ==>
         back[source].lines == files[source].lines && back[source].functions == files[source].functions
  }

  /** Reading the written lines gives back the same files with the same hits, and the whole
      measurement exactly when no function start has a first comma with a decimal number in front of
      it. The counter lines of each record are the counters the report shows for it. */
  method WriteLcov(ghost env: Env, files: Files) returns (lines: seq<string>)
    requires Sane(env) && AllWritable(env, files)
    ensures NoBreaks(lines) && Measured(env, [lines]).Some?
    ensures SameHits(files, Measured(env, [lines]).value) && FilesBack(env, files, Measured(env, [lines]).value)
    ensures Measured(env, [lines]) == Some(files) <==> AllClean(env, files)
    ensures DeclaresReported(DeclaredIn(env, lines), files)
  {
    ghost var back, declared;
    lines, back, declared := WriteAll(env, files);
    OneInput(env, lines, back);
    FilesReadBack(env, files, back);
  }

  lemma OneInput(env: Env, lines: seq<string>, files: Files)
    requires Reads(env, lines, files, None)
    ensures Measured(env, [lines]) == Some(files)
  {
    assert [lines][..0] == [];
    assert Flatten([lines]) == [] + lines == lines;
  }

  // ---------------------------------------------------------------------------------------
  // Everything that is read can be written
  // ---------------------------------------------------------------------------------------

  ghost predicate FineEvent(env: Env, e: Event) {
    && NoBreak(e.source) && Resolve(env.root, e.source) == Kept(e.source)
    && (e.FunctionHit? || e.Start? ==> NoBreak(e.name))
  }

  ghost predicate FineSource(env: Env, current: Option<string>) {
    current.Some? ==> NoBreak(current.value) && Resolve(env.root, current.value) == Kept(current.value)
  }

  lemma CutHasNoBreak(s: string, c: char)
    requires NoBreak(s)
    ensures NoBreak(CutAt(s, c).head) && NoBreak(CutAt(s, c).tail)
  {
    var cut := CutAt(s, c);
    if cut.found {
      forall x | x in cut.head || x in cut.tail ensures x in s {
      }
    }
  }

  lemma BareHasNoBreak(env: Env, name: string)
    requires NoBreak(name)
    ensures NoBreak(Bare(env, name))
  {
    CutHasNoBreak(name, ',');
  }

  lemma CountedIsFine(env: Env, source: string, k: Kind, value: string)
    requires FineSource(env, Some(source)) && NoBreak(value) && k in {DA, FNDA, FN}
    requires EventOf(env, source, k, value).Some?
    ensures FineEvent(env, EventOf(env, source, k, value).value)
  {
    CutHasNoBreak(value, ',');
    BareHasNoBreak(env, CutAt(value, ',').tail);
  }

  lemma TurnIsFine(env: Env, current: Option<string>, line: Line)
    requires FineSource(env, current) && NoBreak(line.value) && ReadLine(env, current, line).Goes?
    ensures
      var turn := ReadLine(env, current, line);
      FineSource(env, turn.current) && (turn.event.Some? ==> FineEvent(env, turn.event.value))
  {
    if line.kind.SF? {
      if Resolve(env.root, line.value).Kept? {
        SourceIsStable(env.root, line.value);
        SourceHasNoBreak(env.root, line.value);
      }
    } else if current.Some? && line.kind in {DA, FNDA, FN} {
      CountedIsFine(env, current.value, line.kind, line.value);
    }
  }

  lemma ApplyStaysWritable(env: Env, files: Files, e: Event)
    requires AllWritable(env, files) && FineEvent(env, e)
    ensures AllWritable(env, Apply(files, e))
  {
  }

  lemma {:induction false} ScanIsWritable(env: Env, lines: seq<string>)
    requires NoBreaks(lines) && Scan(env, None, lines).Some?
    ensures FineSource(env, Scan(env, None, lines).value.current)
    ensures AllWritable(env, Build(Scan(env, None, lines).value.events))
  {
    if lines != [] {
      var front, text := lines[..|lines| - 1], lines[|lines| - 1];
      ScanIsWritable(env, front);
      var s := Scan(env, None, front).value;
      CutHasNoBreak(text, ':');
      TurnIsFine(env, s.current, Decode(text));
      var turn := ReadLine(env, s.current, Decode(text));
      BuildMore(s.events, turn.event);
      if turn.event.Some? {
        ApplyStaysWritable(env, Build(s.events), turn.event.value);
      }
    }
  }

  // ---------------------------------------------------------------------------------------
  // From texts to text
  // ---------------------------------------------------------------------------------------

  function Inputs(texts: seq<string>): seq<seq<string>> {
    seq(|texts|, i requires 0 <= i < |texts| => SplitLines(texts[i]))
  }

  ghost predicate AllNoBreaks(inputs: seq<seq<string>>) {
    forall i :: 0 <= i < |inputs| ==> NoBreaks(inputs[i])
  }

  lemma InputsHaveNoBreak(texts: seq<string>)
    ensures AllNoBreaks(Inputs(texts))
  {
    forall i | 0 <= i < |texts| ensures NoBreaks(Inputs(texts)[i]) {
      LinesHaveNoBreak(texts[i]);
    }
  }

  lemma {:induction false} FlattenHasNoBreak(inputs: seq<seq<string>>)
    requires AllNoBreaks(inputs)
    ensures NoBreaks(Flatten(inputs))
  {
    if inputs != [] {
      FlattenHasNoBreak(inputs[..|inputs| - 1]);
    }
  }

  /** The merged measurement of any texts can be written. */
  lemma MeasuredIsWritable(env: Env, texts: seq<string>)
    requires Measured(env, Inputs(texts)).Some?
    ensures AllWritable(env, Measured(env, Inputs(texts)).value)
  {
    InputsHaveNoBreak(texts);
    FlattenHasNoBreak(Inputs(texts));
    ScanIsWritable(env, Flatten(Inputs(texts)));
  }

  lemma OneText(text: string, lines: seq<string>)
    requires SplitLines(text) == lines
    ensures Inputs([text]) == [lines]
  {
  }

  /** Merging export texts into one: it fails exactly when reading them does; the text written, read
      again, gives the same measurement exactly when no function start has a first comma with a
      decimal number in front of it; its counter lines are, record by record, the counters of the
      report; and the report's total row is the total over the measurement. */
  method Merge(env: Env, texts: seq<string>, crateOf: string -> string)
    returns (result: Option<string>, total: Summary)
    requires Sane(env)
    ensures result.None? <==> Measured(env, Inputs(texts)).None?
    ensures result.Some? ==>
      var files := Measured(env, Inputs(texts)).value;
      && (Measured(env, Inputs([result.value])) == Some(files) <==> AllClean(env, files))
      && DeclaresReported(DeclaredIn(env, SplitLines(result.value)), files)
      && total == TotalOf(files)
  {
    var files := ReadLcov(env, Inputs(texts));
    total := NO_SUMMARY;
    if files.None? {
      return None, total;
    }
    MeasuredIsWritable(env, texts);
    var crates;
    crates, total := Report(files.value, crateOf);
    var lines := WriteLcov(env, files.value);
    LinesReadBack(lines);
    result := Some(Joined(lines));
    OneText(result.value, lines);
  }

  // ---------------------------------------------------------------------------------------
  // The order of the texts does not matter
  // ---------------------------------------------------------------------------------------

  lemma InputsWithout(texts: seq<string>, k: nat)
    requires k < |texts|
    ensures Without(Inputs(texts), k) == Inputs(Without(texts, k))
  {
    assert forall i | 0 <= i < |texts| - 1 :: Without(Inputs(texts), k)[i] == SplitLines(Without(texts, k)[i]);
  }

  lemma {:induction false} InputsPermute(a: seq<string>, b: seq<string>)
    requires multiset(a) == multiset(b)
    ensures multiset(Inputs(a)) == multiset(Inputs(b))
  {
    SameLength(a, b);
    if a != [] {
      var n := |a| - 1;
      var k := MatchLast(a, b);
      InputsPermute(a[..n], Without(b, k));
      assert Without(a, n) == a[..n];
      InputsWithout(a, n);
      InputsWithout(b, k);
      WithoutMultiset(Inputs(a), n);
      WithoutMultiset(Inputs(b), k);
    }
  }

  /** Texts whose records are all ended can be merged in any order: the merge fails for every order or
      for none, and every order reports the same files and the same total. */
  lemma MergeIgnoresOrder(env: Env, a: seq<string>, b: seq<string>)
    requires multiset(a) == multiset(b) && LcovMerge.AllWellTerminated(env, Inputs(a))
    ensures Measured(env, Inputs(a)).None? <==> Measured(env, Inputs(b)).None?
    ensures Measured(env, Inputs(a)).Some? ==>
      && Measured(env, Inputs(a)).value.Keys == Measured(env, Inputs(b)).value.Keys
      && TotalOf(Measured(env, Inputs(a)).value) == TotalOf(Measured(env, Inputs(b)).value)
  {
    InputsPermute(a, b);
    LcovMerge.OrderIsIrrelevant(env, Inputs(a), Inputs(b));
    if Measured(env, Inputs(a)).Some? {
      LcovMerge.SameReport(Measured(env, Inputs(a)).value, Measured(env, Inputs(b)).value);
    }
  }

  // ---------------------------------------------------------------------------------------
  // A measurement that is not read back
  // ---------------------------------------------------------------------------------------

  /** A start line with two numbers in front of the name. */
  function TwoNumbers(end: string, number: string, name: string): string {
    end + [','] + (number + [','] + name)
  }

  lemma SecondNumberStays(env: Env, source: string, end: string, number: string, name: string, n: int)
    requires Sane(env) && ',' !in end && ',' !in number && env.isDecimal(end) && env.isDecimal(number)
    ensures ReadFn(env, source, Pair(n, TwoNumbers(end, number, name))) == Some(Start(source, number + [','] + name, n))
    ensures Prefixed(env, number + [','] + name) && Bare(env, number + [','] + name) == name
  {
    FnReads(env, source, TwoNumbers(end, number, name), n);
    CutJoined(end, ',', number + [','] + name);
    CutJoined(number, ',', name);
  }

  lemma NumberedFits(number: string, name: string)
    requires NoBreak(number) && NoBreak(name)
    ensures NoBreak(number + [','] + name)
  {
    assert !IsBreak(',');
  }

  function OneStart(source: string, name: string, n: int): Files {
    map[source := Record(map[], map[], map[name := n])]
  }

  /** The lines of an export with one such start. */
  function Example(source: string, end: string, number: string, name: string, n: int): seq<string> {
    [Encode(SF, source)] + [Encode(FN, Pair(n, TwoNumbers(end, number, name)))] + [Spelling(EndOfRecord)]
  }

  lemma ExampleReads(env: Env, source: string, end: string, number: string, name: string, n: int)
    requires Sane(env) && NoBreak(source) && Resolve(env.root, source) == Kept(source)
    requires ',' !in end && ',' !in number && env.isDecimal(end) && env.isDecimal(number)
    requires NoBreak(end) && NoBreak(number) && NoBreak(name)
    ensures Reads(env, Example(source, end, number, name, n), OneStart(source, number + [','] + name, n), None)
  {
    var none: seq<string>, base: Files, declared: Declarations := [], map[], map[];
    NoLines(env, none, base, declared);
    WroteSource(env, none, base, declared, source);
    assert none + [Encode(SF, source)] == [Encode(SF, source)];
    var value, start := TwoNumbers(end, number, name), number + [','] + name;
    NumberedFits(number, name);
    NumberedFits(end, start);
    SecondNumberStays(env, source, end, number, name, n);
    WroteEvent(env, [Encode(SF, source)], base, source, EMPTY, declared, FN, Pair(n, value), Start(source, start, n));
    WroteEnd(env, [Encode(SF, source)] + [Encode(FN, Pair(n, value))], base, source,
             After(EMPTY, Start(source, start, n)), declared);
  }

  /** For every source, numbers and name: the export reads as a start whose name keeps the second number,
      and the file written from it reads back as the bare name. */
  method LeadingNumberIsLost(ghost env: Env, source: string, end: string, number: string, name: string, n: int)
    returns (input: seq<string>, output: seq<string>)
    requires Sane(env) && NoBreak(source) && Resolve(env.root, source) == Kept(source)
    requires ',' !in end && ',' !in number && env.isDecimal(end) && env.isDecimal(number)
    requires NoBreak(end) && NoBreak(number) && NoBreak(name)
    ensures Measured(env, [input]) == Some(OneStart(source, number + [','] + name, n))
    ensures
      var back := Measured(env, [output]);
      back.Some? && back.value.Keys == {source} && back.value[source].starts.Keys == {name}
  {
    input := Example(source, end, number, name, n);
    ExampleReads(env, source, end, number, name, n);
    var start := number + [','] + name;
    var files := OneStart(source, start, n);
    OneInput(env, input, files);
    NumberedFits(number, name);
    ExampleIsWritable(env, source, start, n);
    output := WriteLcov(env, files);
    SecondNumberStays(env, source, end, number, name, n);
    ExampleIsLost(env, source, start, n, Measured(env, [output]).value);
  }

  lemma ExampleIsWritable(env: Env, source: string, start: string, n: int)
    requires NoBreak(source) && Resolve(env.root, source) == Kept(source) && NoBreak(start)
    ensures AllWritable(env, OneStart(source, start, n))
  {
  }

  lemma ExampleIsLost(env: Env, source: string, start: string, n: int, back: Files)
    requires SameHits(OneStart(source, start, n), back) && FilesBack(env, OneStart(source, start, n), back)
    ensures back.Keys == {source} && back[source].starts.Keys == {Bare(env, start)}
  {
    var files := OneStart(source, start, n);
    assert source in files && files[source].starts.Keys == {start};
    assert Stripped(Stripping(env), {start}) == {Bare(env, start)};
  }
}
