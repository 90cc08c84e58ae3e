/** Writing the merged measurement, and reading it back. Items are written in whatever order their
    dictionary is enumerated, so the sorted order is one case. */
module LcovWrite {
  import opened Prelude
  import opened Text
  import opened LcovText
  import opened LcovPaths
  import opened LcovRead
  import opened LcovReport

  /** Python's `int` reads back what `str` prints. */
  ghost predicate Sane(env: Env) {
    forall n: int :: env.toInt(Shown(n)) == Some(n)
  }

  lemma PlainNumeralsAreSane(env: Env)
    requires env.toInt == PlainInt
    ensures Sane(env)
  {
    forall n: int ensures env.toInt(Shown(n)) == Some(n) {
      PlainIntReadsShown(n);
    }
  }

  // ---------------------------------------------------------------------------------------
  // What a written file declares in its counter lines
  // ---------------------------------------------------------------------------------------

  function ValueOf(env: Env, text: string): int {
    if env.toInt(text).Some? then env.toInt(text).value else 0
  }

  function Note(env: Env, line: Line): Summary {
    var n := ValueOf(env, line.value);
    match line.kind
    case LF => NO_SUMMARY.(lines := Counter(n, 0, true))
    case LH => NO_SUMMARY.(lines := Counter(0, n, true))
    case FNF => NO_SUMMARY.(functions := Counter(n, 0, true))
    case FNH => NO_SUMMARY.(functions := Counter(0, n, true))
    case _ => NO_SUMMARY
  }

  /** What has been declared for each source. */
  type Declarations = map<string, Summary>

  function Declare(declared: Declarations, source: string, more: Summary): Declarations {
    declared[source := Add(if source in declared then declared[source] else NO_SUMMARY, more)]
  }

  lemma DeclareTwice(declared: Declarations, source: string, a: Summary, b: Summary)
    ensures Declare(Declare(declared, source, a), source, b) == Declare(declared, source, Add(a, b))
  {
  }

  predicate Declaring(k: Kind) {
    k == LF || k == LH || k == FNF || k == FNH
  }

  /** A counter line declares for the record that is open. */
  function DeclaredBy(env: Env, declared: Declarations, current: Option<string>, line: Line): Declarations {
    if current.Some? && Declaring(line.kind) then Declare(declared, current.value, Note(env, line)) else declared
  }

  /** The record left open by these lines. */
  function OpenAfter(env: Env, lines: seq<string>): Option<string> {
    match Scan(env, None, lines)
    case None => None
    case Some(s) => s.current
  }

  /** The `LF`, `LH`, `FNF` and `FNH` lines of each record, added up per source. */
  function DeclaredIn(env: Env, lines: seq<string>): Declarations {
    if lines == [] then map[]
    else
      var front := lines[..|lines| - 1];
      DeclaredBy(env, DeclaredIn(env, front), OpenAfter(env, front), Decode(lines[|lines| - 1]))
  }

  // ---------------------------------------------------------------------------------------
  // Lines written so far, as they will be read
  // ---------------------------------------------------------------------------------------

  ghost predicate Wrote(env: Env, lines: seq<string>, files: Files, current: Option<string>, declared: Declarations) {
    Reads(env, lines, files, current) && DeclaredIn(env, lines) == declared && NoBreaks(lines)
  }

  lemma DeclaredSnoc(env: Env, lines: seq<string>, text: string)
    ensures DeclaredIn(env, lines + [text]) == DeclaredBy(env, DeclaredIn(env, lines), OpenAfter(env, lines), Decode(text))
  {
    var all := lines + [text];
    assert all[..|all| - 1] == lines;
  }

  lemma {:induction false} WroteText(
      env: Env, lines: seq<string>, files: Files, current: Option<string>, declared: Declarations, text: string, line: Line)
    requires Wrote(env, lines, files, current, declared) && NoBreak(text) && line == Decode(text)
    requires ReadLine(env, current, line).Goes?
    ensures
      var turn := ReadLine(env, current, line);
      Wrote(env, lines + [text], Applied(files, turn.event), turn.current, DeclaredBy(env, declared, current, line))
  {
    ReadsMore(env, lines, files, current, text, ReadLine(env, current, line));
    DeclaredSnoc(env, lines, text);
  }

  /** A record being written: the files before it, and what is written of it. */
  ghost predicate Here(env: Env, lines: seq<string>, base: Files, source: string, r: Record, declared: Declarations) {
    Wrote(env, lines, base[source := r], Some(source), declared)
  }

  /** A number, a comma and a text. */
  function Pair(n: int, text: string): (r: string)
    ensures NoBreak(text) ==> NoBreak(r)
  {
    assert !IsBreak(',');
    Shown(n) + [','] + text
  }

  lemma PairCuts(n: int, text: string)
    ensures CutAt(Pair(n, text), ',') == Cut(Shown(n), true, text)
  {
    CutJoined(Shown(n), ',', text);
  }

  lemma WroteLine(
      env: Env, lines: seq<string>, files: Files, current: Option<string>, declared: Declarations, k: Kind, value: string)
    requires Wrote(env, lines, files, current, declared) && !k.Other? && NoBreak(value)
    requires ReadLine(env, current, Line(k, value)).Goes?
    ensures
      var turn := ReadLine(env, current, Line(k, value));
      Wrote(env, lines + [Encode(k, value)], Applied(files, turn.event), turn.current,
            DeclaredBy(env, declared, current, Line(k, value)))
  {
    DecodeEncode(k, value);
    WroteText(env, lines, files, current, declared, Encode(k, value), Line(k, value));
  }

  /** A line that declares nothing, with the turn it takes. */
  lemma WrotePlain(
      env: Env, lines: seq<string>, files: Files, current: Option<string>, declared: Declarations, text: string,
      line: Line, turn: Turn)
    requires Wrote(env, lines, files, current, declared) && NoBreak(text) && line == Decode(text) && !Declaring(line.kind)
    requires turn == ReadLine(env, current, line) && turn.Goes?
    ensures Wrote(env, lines + [text], Applied(files, turn.event), turn.current, declared)
  {
    WroteText(env, lines, files, current, declared, text, line);
  }

  lemma EventTurn(env: Env, source: string, k: Kind, value: string)
    requires k in {DA, FNDA, FN} && EventOf(env, source, k, value).Some?
    ensures ReadLine(env, Some(source), Line(k, value)) == Goes(Some(source), EventOf(env, source, k, value))
  {
  }

  lemma WroteSource(env: Env, lines: seq<string>, base: Files, declared: Declarations, source: string)
    requires Wrote(env, lines, base, None, declared) && source !in base
    requires NoBreak(source) && Resolve(env.root, source) == Kept(source)
    ensures Here(env, lines + [Encode(SF, source)], base, source, EMPTY, declared)
  {
    DecodeEncode(SF, source);
    WrotePlain(env, lines, base, None, declared, Encode(SF, source), Line(SF, source), Goes(Some(source), Some(Open(source))));
  }

  lemma DaReads(env: Env, source: string, n: int, hits: int)
    requires Sane(env)
    ensures ReadDa(env, source, Pair(n, Shown(hits))) == Some(LineHit(source, n, hits))
  {
    PairCuts(n, Shown(hits));
    CutNothing(Shown(hits), ',');
  }

  lemma FndaReads(env: Env, source: string, name: string, n: int)
    requires Sane(env)
    ensures ReadFnda(env, source, Pair(n, name)) == Some(FunctionHit(source, name, n))
  {
    PairCuts(n, name);
  }

  lemma FnReads(env: Env, source: string, name: string, n: int)
    requires Sane(env)
    ensures ReadFn(env, source, Pair(n, name)) == Some(Start(source, Bare(env, name), n))
  {
    PairCuts(n, name);
  }

  /** What a counting line adds to the open record. */
  function EventOf(env: Env, source: string, k: Kind, value: string): Option<Event>
    requires k in {DA, FNDA, FN}
  {
    if k == DA then ReadDa(env, source, value)
    else if k == FNDA then ReadFnda(env, source, value)
    else ReadFn(env, source, value)
  }

  /** A line that adds one event to the record. */
  lemma WroteEvent(
      env: Env, lines: seq<string>, base: Files, source: string, r: Record, declared: Declarations,
      k: Kind, value: string, e: Event)
    requires Here(env, lines, base, source, r, declared) && k in {DA, FNDA, FN} && NoBreak(value)
    requires EventOf(env, source, k, value) == Some(e) && e.source == source
    ensures Here(env, lines + [Encode(k, value)], base, source, After(r, e), declared)
  {
    DecodeEncode(k, value);
    EventTurn(env, source, k, value);
    ApplyLocal(base, source, r, e);
    WrotePlain(env, lines, base[source := r], Some(source), declared, Encode(k, value), Line(k, value),
               Goes(Some(source), Some(e)));
  }

  /** An event changes only the record of its own source. */
  lemma ApplyLocal(base: Files, source: string, r: Record, e: Event)
    requires e.source == source
    ensures Apply(base[source := r], e) == base[source := After(r, e)]
  {
  }

  lemma WroteDa(
      env: Env, lines: seq<string>, base: Files, source: string, r: Record, declared: Declarations, n: int, hits: int)
    requires Sane(env) && Here(env, lines, base, source, r, declared)
    ensures Here(env, lines + [Encode(DA, Pair(n, Shown(hits)))], base, source,
                 r.(lines := Added(r.lines, n, hits)), declared)
  {
    DaReads(env, source, n, hits);
    WroteEvent(env, lines, base, source, r, declared, DA, Pair(n, Shown(hits)), LineHit(source, n, hits));
  }

  lemma WroteFnda(
      env: Env, lines: seq<string>, base: Files, source: string, r: Record, declared: Declarations, name: string, hits: int)
    requires Sane(env) && Here(env, lines, base, source, r, declared) && NoBreak(name)
    ensures Here(env, lines + [Encode(FNDA, Pair(hits, name))], base, source,
                 r.(functions := Added(r.functions, name, hits)), declared)
  {
    FndaReads(env, source, name, hits);
    WroteEvent(env, lines, base, source, r, declared, FNDA, Pair(hits, name), FunctionHit(source, name, hits));
  }

  lemma WroteFn(
      env: Env, lines: seq<string>, base: Files, source: string, r: Record, declared: Declarations, name: string, n: int)
    requires Sane(env) && Here(env, lines, base, source, r, declared) && NoBreak(name)
    ensures Here(env, lines + [Encode(FN, Pair(n, name))], base, source,
                 r.(starts := r.starts[Bare(env, name) := n]), declared)
  {
    FnReads(env, source, name, n);
    WroteEvent(env, lines, base, source, r, declared, FN, Pair(n, name), Start(source, Bare(env, name), n));
  }

  lemma WroteCount(
      env: Env, lines: seq<string>, base: Files, source: string, r: Record, declared: Declarations, k: Kind, n: int)
    requires Sane(env) && Here(env, lines, base, source, r, declared) && k in {LF, LH, FNF, FNH}
    ensures Here(env, lines + [Encode(k, Shown(n))], base, source, r,
                 Declare(declared, source, Note(env, Line(k, Shown(n)))))
  {
    WroteLine(env, lines, base[source := r], Some(source), declared, k, Shown(n));
  }

  lemma WroteEnd(env: Env, lines: seq<string>, base: Files, source: string, r: Record, declared: Declarations)
    requires Here(env, lines, base, source, r, declared)
    ensures Wrote(env, lines + [Spelling(EndOfRecord)], base[source := r], None, declared)
  {
    DecodeEnd();
    SpellingHasNoBreak(EndOfRecord);
    WroteClosing(env, lines, base[source := r], source, declared, Spelling(EndOfRecord));
  }

  lemma WroteClosing(env: Env, lines: seq<string>, files: Files, source: string, declared: Declarations, text: string)
    requires Wrote(env, lines, files, Some(source), declared) && Decode(text).kind == EndOfRecord && NoBreak(text)
    ensures Wrote(env, lines + [text], files, None, declared)
  {
    WrotePlain(env, lines, files, Some(source), declared, text, Decode(text), Goes(None, None));
  }

  // ---------------------------------------------------------------------------------------
  // Function starts lose a leading number and comma when they are read back
  // ---------------------------------------------------------------------------------------

  function Stripping(env: Env): string -> string {
    name => Bare(env, name)
  }

  /** Stripping changes none of the names. */
  ghost predicate Clean(strip: string -> string, names: set<string>) {
    forall name :: name in names ==> strip(name) == name
  }

  ghost predicate Shortens(strip: string -> string) {
    forall name :: strip(name) == name || |strip(name)| < |name|
  }

  /** The reader's guard: a comma with a decimal number in front of it. */
  predicate Prefixed(env: Env, name: string) {
    CutAt(name, ',').found && env.isDecimal(CutAt(name, ',').head)
  }

  lemma PrefixIsStripped(env: Env, name: string)
    ensures Stripping(env)(name) == name <==> !Prefixed(env, name)
  {
  }

  lemma StrippingShortens(env: Env)
    ensures Shortens(Stripping(env))
  {
  }

  ghost function Stripped(strip: string -> string, names: set<string>): set<string> {
    set name | name in names :: strip(name)
  }

  /** What is read back of the starts written so far. */
  ghost predicate StartsBack(strip: string -> string, starts: map<string, int>, done: set<string>, back: map<string, int>) {
    back.Keys == Stripped(strip, done) && (Clean(strip, starts.Keys) ==> Preserved(starts, done, back))
  }

  ghost predicate Preserved(starts: map<string, int>, done: set<string>, back: map<string, int>) {
    forall name :: name in done ==> name in starts && name in back && back[name] == starts[name]
  }

  lemma StartsBackMore(
      strip: string -> string, starts: map<string, int>, done: set<string>, back: map<string, int>, name: string)
    requires StartsBack(strip, starts, done, back) && name in starts
    ensures StartsBack(strip, starts, done + {name}, back[strip(name) := starts[name]])
  {
    assert Stripped(strip, done + {name}) == Stripped(strip, done) + {strip(name)};
  }

  lemma {:induction false} LongestOf(names: set<string>) returns (m: string)
    requires names != {}
    ensures m in names && forall n :: n in names ==> |n| <= |m|
  {
    m :| m in names;
    if names != {m} {
      var rest := names - {m};
      var other := LongestOf(rest);
      m := if |other| > |m| then other else m;
      assert forall n :: n in names ==> n in rest || names - {n} == rest;
    }
  }

  lemma {:induction false} StripsNothing(strip: string -> string, names: set<string>, name: string, bound: nat)
    requires Shortens(strip) && Stripped(strip, names) == names && name in names
    requires forall n :: n in names ==> |n| <= bound
    ensures strip(name) == name
    decreases bound - |name|
  {
    var longer :| longer in names && strip(longer) == name;
    if longer != name {
      StripsNothing(strip, names, longer, bound);
    }
  }

  /** Stripping maps a set of names onto itself only when it changes none of them. */
  lemma StrippedStays(strip: string -> string, names: set<string>)
    requires Shortens(strip) && Stripped(strip, names) == names
    ensures Clean(strip, names)
  {
    forall name | name in names ensures strip(name) == name {
      var longest := LongestOf(names);
      StripsNothing(strip, names, name, |longest|);
    }
  }

  lemma StartsReadBack(strip: string -> string, starts: map<string, int>, back: map<string, int>)
    requires Shortens(strip) && StartsBack(strip, starts, starts.Keys, back)
    ensures back == starts <==> Clean(strip, starts.Keys)
  {
    if back == starts {
      StrippedStays(strip, starts.Keys);
    }
    if Clean(strip, starts.Keys) {
      forall name ensures name in Stripped(strip, starts.Keys) <==> name in starts {
        if name in starts {
          assert strip(name) == name;
        }
      }
    }
  }

  // ---------------------------------------------------------------------------------------
  // The writer
  // ---------------------------------------------------------------------------------------

  /** The entries of a dictionary that have been written. */
  function Part<K(!new), V>(m: map<K, V>, done: set<K>): map<K, V> {
    map k | k in m && k in done :: m[k]
  }

  lemma PartAdded<K(!new)>(m: map<K, int>, done: set<K>, k: K)
    requires k in m && k !in done
    ensures Added(Part(m, done), k, m[k]) == Part(m, done + {k})
  {
  }

  ghost predicate AllNamesFit(names: set<string>) {
    forall name :: name in names ==> NoBreak(name)
  }

  method WriteFn(
      ghost env: Env, lines: seq<string>, ghost base: Files, ghost source: string, ghost back: map<string, int>,
      ghost declared: Declarations, name: string, n: int)
    returns (lines': seq<string>)
    requires Sane(env) && Here(env, lines, base, source, EMPTY.(starts := back), declared) && NoBreak(name)
    ensures Here(env, lines', base, source, EMPTY.(starts := back[Bare(env, name) := n]), declared)
  {
    WroteFn(env, lines, base, source, EMPTY.(starts := back), declared, name, n);
    lines' := lines + [Encode(FN, Pair(n, name))];
  }

  method WriteFnda(
      ghost env: Env, lines: seq<string>, ghost base: Files, ghost source: string, functions: map<string, int>,
      ghost r: Record, ghost declared: Declarations, ghost done: set<string>, name: string)
    returns (lines': seq<string>)
    requires Sane(env) && Here(env, lines, base, source, r.(functions := Part(functions, done)), declared)
    requires name in functions && name !in done && NoBreak(name)
    ensures Here(env, lines', base, source, r.(functions := Part(functions, done + {name})), declared)
  {
    WroteFnda(env, lines, base, source, r.(functions := Part(functions, done)), declared, name, functions[name]);
    PartAdded(functions, done, name);
    lines' := lines + [Encode(FNDA, Pair(functions[name], name))];
  }

  method WriteDa(
      ghost env: Env, lines: seq<string>, ghost base: Files, ghost source: string, hits: map<int, int>,
      ghost r: Record, ghost declared: Declarations, ghost done: set<int>, n: int)
    returns (lines': seq<string>)
    requires Sane(env) && Here(env, lines, base, source, r.(lines := Part(hits, done)), declared)
    requires n in hits && n !in done
    ensures Here(env, lines', base, source, r.(lines := Part(hits, done + {n})), declared)
  {
    WroteDa(env, lines, base, source, r.(lines := Part(hits, done)), declared, n, hits[n]);
    PartAdded(hits, done, n);
    lines' := lines + [Encode(DA, Pair(n, Shown(hits[n])))];
  }

  method WriteStarts(
      ghost env: Env, lines: seq<string>, ghost base: Files, ghost source: string, starts: map<string, int>,
      ghost declared: Declarations)
    returns (lines': seq<string>, ghost back: map<string, int>)
    requires Sane(env) && Here(env, lines, base, source, EMPTY, declared) && AllNamesFit(starts.Keys)
    ensures Here(env, lines', base, source, EMPTY.(starts := back), declared)
    ensures StartsBack(Stripping(env), starts, starts.Keys, back)
  {
    lines', back := lines, map[];
    var left := starts.Keys;
    ghost var done: set<string> := {};
    while left != {}
      invariant done == starts.Keys - left && left <= starts.Keys
      invariant Here(env, lines', base, source, EMPTY.(starts := back), declared)
      invariant StartsBack(Stripping(env), starts, done, back)
    {
      var name :| name in left;
      StartsBackMore(Stripping(env), starts, done, back, name);
      lines' := WriteFn(env, lines', base, source, back, declared, name, starts[name]);
      back := back[Bare(env, name) := starts[name]];
      left, done := left - {name}, done + {name};
    }
    assert done == starts.Keys;
  }

  method WriteFunctions(
      ghost env: Env, lines: seq<string>, ghost base: Files, ghost source: string, functions: map<string, int>,
      ghost r: Record, ghost declared: Declarations)
    returns (lines': seq<string>)
    requires Sane(env) && Here(env, lines, base, source, r, declared) && r.functions == map[]
    requires AllNamesFit(functions.Keys)
    ensures Here(env, lines', base, source, r.(functions := functions), declared)
  {
    lines' := lines;
    var left := functions.Keys;
    ghost var done: set<string> := {};
    assert r.(functions := Part(functions, done)) == r;
    while left != {}
      invariant done == functions.Keys - left && left <= functions.Keys
      invariant Here(env, lines', base, source, r.(functions := Part(functions, done)), declared)
    {
      var name :| name in left;
      lines' := WriteFnda(env, lines', base, source, functions, r, declared, done, name);
      left, done := left - {name}, done + {name};
    }
    assert Part(functions, done) == functions;
  }

  method PickFrom<K(==)>(left: set<K>) returns (k: K)
    requires left != {}
    ensures k in left
  {
    k :| k in left;
  }

  method WriteLines(
      ghost env: Env, lines: seq<string>, ghost base: Files, ghost source: string, hits: map<int, int>,
      ghost r: Record, ghost declared: Declarations)
    returns (lines': seq<string>)
    requires Sane(env) && Here(env, lines, base, source, r, declared) && r.lines == map[]
    ensures Here(env, lines', base, source, r.(lines := hits), declared)
  {
    lines' := lines;
    var left := hits.Keys;
    ghost var done: set<int> := {};
    assert r.(lines := Part(hits, done)) == r;
    while left != {}
      invariant done == hits.Keys - left && left <= hits.Keys
      invariant Here(env, lines', base, source, r.(lines := Part(hits, done)), declared)
    {
      var n := PickFrom(left);
      lines' := WriteDa(env, lines', base, source, hits, r, declared, done, n);
      left, done := left - {n}, done + {n};
    }
    assert Part(hits, done) == hits;
  }

  /** What one record declares in its four counter lines. */
  function DeclaredOf(record: Record): Summary {
    Summary(CounterOf(record.lines), CounterOf(record.functions), NO_COUNT)
  }

  function Functions(record: Record): Summary {
    NO_SUMMARY.(functions := CounterOf(record.functions))
  }

  function LinesOnly(record: Record): Summary {
    NO_SUMMARY.(lines := CounterOf(record.lines))
  }

  lemma NotesAddUp(env: Env, n: int, hit: int)
    requires Sane(env)
    ensures Add(Note(env, Line(FNF, Shown(n))), Note(env, Line(FNH, Shown(hit))))
         == NO_SUMMARY.(functions := Counter(n, hit, true))
    ensures Add(Note(env, Line(LF, Shown(n))), Note(env, Line(LH, Shown(hit))))
         == NO_SUMMARY.(lines := Counter(n, hit, true))
  {
  }

  method WriteFunctionCounts(
      ghost env: Env, lines: seq<string>, ghost base: Files, ghost source: string, record: Record, ghost r: Record,
      ghost declared: Declarations)
    returns (lines': seq<string>)
    requires Sane(env) && Here(env, lines, base, source, r, declared)
    ensures Here(env, lines', base, source, r, Declare(declared, source, Functions(record)))
  {
    var n := |record.functions|;
    var hit := CountCovered(record.functions);
    WroteCount(env, lines, base, source, r, declared, FNF, n);
    lines' := lines + [Encode(FNF, Shown(n))];
    WroteCount(env, lines', base, source, r, Declare(declared, source, Note(env, Line(FNF, Shown(n)))), FNH, hit);
    lines' := lines' + [Encode(FNH, Shown(hit))];
    NotesAddUp(env, n, hit);
    DeclareTwice(declared, source, Note(env, Line(FNF, Shown(n))), Note(env, Line(FNH, Shown(hit))));
  }

  method WriteLineCounts(
      ghost env: Env, lines: seq<string>, ghost base: Files, ghost source: string, record: Record, ghost r: Record,
      ghost declared: Declarations)
    returns (lines': seq<string>)
    requires Sane(env) && Here(env, lines, base, source, r, declared)
    ensures Here(env, lines', base, source, r, Declare(declared, source, LinesOnly(record)))
  {
    var n := |record.lines|;
    var hit := CountCovered(record.lines);
    WroteCount(env, lines, base, source, r, declared, LF, n);
    lines' := lines + [Encode(LF, Shown(n))];
    WroteCount(env, lines', base, source, r, Declare(declared, source, Note(env, Line(LF, Shown(n)))), LH, hit);
    lines' := lines' + [Encode(LH, Shown(hit))];
    NotesAddUp(env, n, hit);
    DeclareTwice(declared, source, Note(env, Line(LF, Shown(n))), Note(env, Line(LH, Shown(hit))));
  }

  /** A record as it is read back: the hits are the same, the starts lose their leading numbers. */
  ghost predicate RecordBack(env: Env, record: Record, back: Record) {
    && back.lines == record.lines && back.functions == record.functions
    && StartsBack(Stripping(env), record.starts, record.starts.Keys, back.starts)
  }

  /** The names can be written on one line, and the source resolves to itself. */
  ghost predicate Writable(env: Env, source: string, record: Record) {
    && NoBreak(source) && Resolve(env.root, source) == Kept(source)
    && AllNamesFit(record.functions.Keys) && AllNamesFit(record.starts.Keys)
  }

  method WriteRecord(
      ghost env: Env, lines: seq<string>, ghost base: Files, source: string, record: Record, ghost declared: Declarations)
    returns (lines': seq<string>, ghost back: Record)
    requires Sane(env) && Wrote(env, lines, base, None, declared) && source !in base
    requires Writable(env, source, record)
    ensures Wrote(env, lines', base[source := back], None, Declare(declared, source, DeclaredOf(record)))
    ensures RecordBack(env, record, back)
  {
    WroteSource(env, lines, base, declared, source);
    ghost var starts;
    lines', starts := WriteStarts(env, lines + [Encode(SF, source)], base, source, record.starts, declared);
    back := Record(map[], map[], starts);
    lines' := WriteFunctions(env, lines', base, source, record.functions, back, declared);
    back := back.(functions := record.functions);
    lines' := WriteFunctionCounts(env, lines', base, source, record, back, declared);
    lines', back := WriteRest(env, lines', base, source, record, back, declared);
  }

  /** The line hits, their counters and the end of the record. */
  method WriteRest(
      ghost env: Env, lines: seq<string>, ghost base: Files, ghost source: string, record: Record, ghost r: Record,
      ghost declared: Declarations)
    returns (lines': seq<string>, ghost back: Record)
    requires Sane(env) && Here(env, lines, base, source, r, Declare(declared, source, Functions(record))) && r.lines == map[]
    ensures back == r.(lines := record.lines)
    ensures Wrote(env, lines', base[source := back], None, Declare(declared, source, DeclaredOf(record)))
  {
    ghost var declared' := DeclaredInTwo(declared, source, record);
    lines' := WriteLineSection(env, lines, base, source, record, r, declared');
    back := r.(lines := record.lines);
    lines' := EndRecord(env, lines', base, source, back, Declare(declared', source, LinesOnly(record)));
  }

  lemma DeclaredInTwo(declared: Declarations, source: string, record: Record) returns (part: Declarations)
    ensures part == Declare(declared, source, Functions(record))
    ensures Declare(part, source, LinesOnly(record)) == Declare(declared, source, DeclaredOf(record))
  {
    part := Declare(declared, source, Functions(record));
    DeclareTwice(declared, source, Functions(record), LinesOnly(record));
    SectionsAddUp(record);
  }

  lemma SectionsAddUp(record: Record)
    ensures Add(Functions(record), LinesOnly(record)) == DeclaredOf(record)
  {
  }

  method WriteLineSection(
      ghost env: Env, lines: seq<string>, ghost base: Files, ghost source: string, record: Record, ghost r: Record,
      ghost declared: Declarations)
    returns (lines': seq<string>)
    requires Sane(env) && Here(env, lines, base, source, r, declared) && r.lines == map[]
    ensures Here(env, lines', base, source, r.(lines := record.lines), Declare(declared, source, LinesOnly(record)))
  {
    lines' := WriteLines(env, lines, base, source, record.lines, r, declared);
    lines' := WriteLineCounts(env, lines', base, source, record, r.(lines := record.lines), declared);
  }

  method EndRecord(
      ghost env: Env, lines: seq<string>, ghost base: Files, ghost source: string, ghost r: Record,
      ghost declared: Declarations)
    returns (lines': seq<string>)
    requires Here(env, lines, base, source, r, declared)
    ensures Wrote(env, lines', base[source := r], None, declared)
  {
    WroteEnd(env, lines, base, source, r, declared);
    lines' := lines + [Spelling(EndOfRecord)];
  }
}
