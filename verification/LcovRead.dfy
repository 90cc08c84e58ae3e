/** Reading and merging LCOV exports. `int` and `str.isdecimal` are parameters of the model, so
    whatever Python accepts beyond plain numerals is covered. */
module LcovRead {
  import opened Prelude
  import opened LcovText
  import opened LcovPaths

  datatype Env = Env(root: seq<string>, toInt: string -> Option<int>, isDecimal: string -> bool)

  /** One source file: hits per line, hits per function, and where functions start. */
  datatype Record = Record(lines: map<int, int>, functions: map<string, int>, starts: map<string, int>)

  type Files = map<string, Record>

  const EMPTY := Record(map[], map[], map[])

  /** What one line adds to the measurement. */
  datatype Event =
    | Open(source: string)
    | LineHit(source: string, number: int, hits: int)
    | FunctionHit(source: string, name: string, hits: int)
    | Start(source: string, name: string, number: int)

  // ---------------------------------------------------------------------------------------
  // One line, given the record that is open
  // ---------------------------------------------------------------------------------------

  function ReadDa(env: Env, source: string, value: string): Option<Event> {
    var cut := CutAt(value, ',');
    var number, hits := env.toInt(cut.head), env.toInt(CutAt(cut.tail, ',').head);
    if cut.found && number.Some? && hits.Some? then Some(LineHit(source, number.value, hits.value)) else None
  }

  function ReadFnda(env: Env, source: string, value: string): Option<Event> {
    var cut := CutAt(value, ',');
    var hits := env.toInt(cut.head);
    if cut.found && hits.Some? then Some(FunctionHit(source, cut.tail, hits.value)) else None
  }

  /** LLVM may put an end line before the function name. */
  function Bare(env: Env, name: string): string {
    var cut := CutAt(name, ',');
    if cut.found && env.isDecimal(cut.head) then cut.tail else name
  }

  function ReadFn(env: Env, source: string, value: string): Option<Event> {
    var cut := CutAt(value, ',');
    var number := env.toInt(cut.head);
    if cut.found && number.Some? then Some(Start(source, Bare(env, cut.tail), number.value)) else None
  }

  /** A line raises, or leaves a record open and may add an event. */
  datatype Turn = Raises | Goes(current: Option<string>, event: Option<Event>)

  function Counted(current: Option<string>, event: Option<Event>): Turn {
    if event.None? then Raises else Goes(current, event)
  }

  function ReadLine(env: Env, current: Option<string>, line: Line): Turn {
    match line.kind
    case SF => (
      match Resolve(env.root, line.value)
      case Kept(source) => Goes(Some(source), Some(Open(source)))
      case Skipped => Goes(None, None)
      case Broken => Raises)
    case EndOfRecord => Goes(None, None)
    case DA => if current.None? then Goes(None, None) else Counted(current, ReadDa(env, current.value, line.value))
    case FNDA => if current.None? then Goes(None, None) else Counted(current, ReadFnda(env, current.value, line.value))
    case FN => if current.None? then Goes(None, None) else Counted(current, ReadFn(env, current.value, line.value))
    case FNF => Goes(current, None)
    case FNH => Goes(current, None)
    case LF => Goes(current, None)
    case LH => Goes(current, None)
    case Other => Goes(current, None)
  }

  // ---------------------------------------------------------------------------------------
  // Many lines
  // ---------------------------------------------------------------------------------------

  datatype Scanned = Scanned(current: Option<string>, events: seq<Event>)

  function ScanMore(env: Env, s: Scanned, line: string): Option<Scanned> {
    match ReadLine(env, s.current, Decode(line))
    case Raises => None
    case Goes(current, event) =>
      Some(Scanned(current, if event.Some? then s.events + [event.value] else s.events))
  }

  function Scan(env: Env, start: Option<string>, lines: seq<string>): Option<Scanned> {
    if lines == [] then Some(Scanned(start, []))
    else
      match Scan(env, start, lines[..|lines| - 1])
      case None => None
      case Some(s) => ScanMore(env, s, lines[|lines| - 1])
  }

  lemma ScanSnoc(env: Env, start: Option<string>, lines: seq<string>, line: string)
    ensures Scan(env, start, lines + [line])
         == match Scan(env, start, lines) case None => None case Some(s) => ScanMore(env, s, line)
  {
    var all := lines + [line];
    assert all[..|all| - 1] == lines;
  }

  /** Two stretches of lines, the second read with the record the first leaves open. */
  function Then(env: Env, first: Option<Scanned>, lines: seq<string>): Option<Scanned> {
    match first
    case None => None
    case Some(a) =>
      match Scan(env, a.current, lines)
      case None => None
      case Some(b) => Some(Scanned(b.current, a.events + b.events))
  }

  lemma {:induction false} ScanConcat(env: Env, start: Option<string>, a: seq<string>, b: seq<string>)
    ensures Scan(env, start, a + b) == Then(env, Scan(env, start, a), b)
    decreases |b|
  {
    if b == [] {
      assert a + b == a;
      ThenNothing(env, Scan(env, start, a));
    } else {
      var front, line := b[..|b| - 1], b[|b| - 1];
      ScanConcat(env, start, a, front);
      ScanLast(env, start, a, b);
      ThenMore(env, Scan(env, start, a), b);
    }
  }

  lemma ScanLast(env: Env, start: Option<string>, a: seq<string>, b: seq<string>)
    requires b != []
    ensures Scan(env, start, a + b)
         == match Scan(env, start, a + b[..|b| - 1]) case None => None case Some(s) => ScanMore(env, s, b[|b| - 1])
  {
    assert (a + b[..|b| - 1]) + [b[|b| - 1]] == a + b;
    ScanSnoc(env, start, a + b[..|b| - 1], b[|b| - 1]);
  }

  lemma ThenNothing(env: Env, first: Option<Scanned>)
    ensures Then(env, first, []) == first
  {
    if first.Some? {
      assert first.value.events + [] == first.value.events;
    }
  }

  lemma ThenMore(env: Env, first: Option<Scanned>, b: seq<string>)
    requires b != []
    ensures Then(env, first, b)
         == match Then(env, first, b[..|b| - 1]) case None => None case Some(s) => ScanMore(env, s, b[|b| - 1])
  {
    if first.Some? && Scan(env, first.value.current, b).Some? {
      var x := Scan(env, first.value.current, b[..|b| - 1]).value;
      var turn := ReadLine(env, x.current, Decode(b[|b| - 1]));
      if turn.event.Some? {
        assert first.value.events + (x.events + [turn.event.value]) == (first.value.events + x.events) + [turn.event.value];
      }
    }
  }

  // ---------------------------------------------------------------------------------------
  // The measurement the events build
  // ---------------------------------------------------------------------------------------

  function RecordOf(files: Files, source: string): Record {
    if source in files then files[source] else EMPTY
  }

  function Added<K(==)>(hits: map<K, int>, key: K, more: int): map<K, int> {
    hits[key := (if key in hits then hits[key] else 0) + more]
  }

  /** What an event does to the record of its source. */
  function After(record: Record, e: Event): Record {
    match e
    case Open(_) => record
    case LineHit(_, number, hits) => record.(lines := Added(record.lines, number, hits))
    case FunctionHit(_, name, hits) => record.(functions := Added(record.functions, name, hits))
    case Start(_, name, number) => record.(starts := record.starts[name := number])
  }

  function Apply(files: Files, e: Event): Files {
    files[e.source := After(RecordOf(files, e.source), e)]
  }

  function Build(events: seq<Event>): Files {
    if events == [] then map[] else Apply(Build(events[..|events| - 1]), events[|events| - 1])
  }

  lemma BuildSnoc(events: seq<Event>, e: Event)
    ensures Build(events + [e]) == Apply(Build(events), e)
  {
    var all := events + [e];
    assert all[..|all| - 1] == events;
  }

  // ---------------------------------------------------------------------------------------
  // The reader
  // ---------------------------------------------------------------------------------------

  /** The open record is always one of the files. */
  ghost predicate IsOpen(files: Files, current: Option<string>) {
    current.Some? ==> current.value in files
  }

  ghost predicate Reads(env: Env, lines: seq<string>, files: Files, current: Option<string>) {
    var s := Scan(env, None, lines);
    s.Some? && s.value.current == current && files == Build(s.value.events) && IsOpen(files, current)
  }

  function Applied(files: Files, event: Option<Event>): Files {
    if event.Some? then Apply(files, event.value) else files
  }

  lemma StaysOpen(env: Env, files: Files, current: Option<string>, line: Line)
    requires IsOpen(files, current) && ReadLine(env, current, line).Goes?
    ensures
      var turn := ReadLine(env, current, line);
      IsOpen(Applied(files, turn.event), turn.current)
  {
  }

  lemma {:induction false} ReadsMore(
      env: Env, lines: seq<string>, files: Files, current: Option<string>, line: string, turn: Turn)
    requires Reads(env, lines, files, current) && turn == ReadLine(env, current, Decode(line))
    ensures turn.Raises? ==> Scan(env, None, lines + [line]).None?
    ensures turn.Goes? ==> Reads(env, lines + [line], Applied(files, turn.event), turn.current)
  {
    ScanSnoc(env, None, lines, line);
    if turn.Goes? {
      StaysOpen(env, files, current, Decode(line));
      BuildMore(Scan(env, None, lines).value.events, turn.event);
    }
  }

  lemma BuildMore(events: seq<Event>, event: Option<Event>)
    ensures Build(if event.Some? then events + [event.value] else events) == Applied(Build(events), event)
  {
    if event.Some? {
      BuildSnoc(events, event.value);
    }
  }

  method OpenSource(env: Env, files: Files, value: string)
    returns (ok: bool, files': Files, current: Option<string>)
    ensures Agrees(ReadLine(env, None, Line(SF, value)), files, ok, files', current)
  {
    files' := files;
    match Resolve(env.root, value)
    case Kept(source) =>
      if source !in files {
        files' := files[source := EMPTY];
      }
      ok, current := true, Some(source);
      assert files' == Apply(files, Open(source));
    case Skipped => ok, current := true, None;
    case Broken => ok, current := false, None;
  }

  /** A step of the reader does what the line says. */
  ghost predicate Agrees(turn: Turn, files: Files, ok: bool, files': Files, current: Option<string>) {
    match turn
    case Raises => !ok
    case Goes(now, event) =>
      && ok && current == now
      && files' == Applied(files, event)
  }

  /** A line that counts for the open record. */
  method CountLine(env: Env, files: Files, source: string, line: Line) returns (ok: bool, files': Files)
    requires source in files && line.kind in {DA, FNDA, FN}
    ensures Agrees(ReadLine(env, Some(source), line), files, ok, files', Some(source))
  {
    var record := files[source];
    ok, files' := false, files;
    var cut := CutAt(line.value, ',');
    var first := env.toInt(cut.head);
    if !cut.found || first.None? {
      return;
    }
    if line.kind == DA {
      var hits := env.toInt(CutAt(cut.tail, ',').head);
      if hits.None? {
        return;
      }
      record := record.(lines := Added(record.lines, first.value, hits.value));
    } else if line.kind == FNDA {
      record := record.(functions := Added(record.functions, cut.tail, first.value));
    } else {
      record := record.(starts := record.starts[Bare(env, cut.tail) := first.value]);
    }
    ok, files' := true, files[source := record];
  }

  method TakeLine(env: Env, files: Files, current: Option<string>, text: string)
    returns (ok: bool, files': Files, current': Option<string>)
    requires IsOpen(files, current)
    ensures Agrees(ReadLine(env, current, Decode(text)), files, ok, files', current')
  {
    var line := Decode(text);
    ok, files', current' := true, files, current;
    if line.kind == SF {
      ok, files', current' := OpenSource(env, files, line.value);
    } else if line.kind == EndOfRecord {
      current' := None;
    } else if current.Some? && line.kind in {DA, FNDA, FN} {
      ok, files' := CountLine(env, files, current.value, line);
    }
  }

  /** The next line of the inputs. */
  method Advance(env: Env, files: Files, current: Option<string>, ghost lines: seq<string>, text: string)
    returns (ok: bool, files': Files, current': Option<string>)
    requires Reads(env, lines, files, current)
    ensures ok ==> Reads(env, lines + [text], files', current')
    ensures !ok ==> Scan(env, None, lines + [text]).None?
  {
    ReadsMore(env, lines, files, current, text, ReadLine(env, current, Decode(text)));
    ok, files', current' := TakeLine(env, files, current, text);
  }

  /** One input file. */
  method ReadInput(env: Env, files: Files, current: Option<string>, ghost before: seq<string>, input: seq<string>)
    returns (ok: bool, files': Files, current': Option<string>)
    requires Reads(env, before, files, current)
    ensures ok ==> Reads(env, before + input, files', current')
    ensures !ok ==> Scan(env, None, before + input).None?
  {
    files', current' := files, current;
    assert before + input[..0] == before;
    for j := 0 to |input|
      invariant Reads(env, before + input[..j], files', current')
    {
      OneMore(before, input, j);
      ok, files', current' := Advance(env, files', current', before + input[..j], input[j]);
      if !ok {
        RaisesWithin(env, before, input, j + 1);
        return;
      }
    }
    assert input[..|input|] == input;
    ok := true;
  }

  lemma OneMore(before: seq<string>, input: seq<string>, j: nat)
    requires j < |input|
    ensures before + input[..j + 1] == before + input[..j] + [input[j]]
  {
  }

  lemma RaisesForGood(env: Env, a: seq<string>, b: seq<string>)
    requires Scan(env, None, a).None?
    ensures Scan(env, None, a + b).None?
  {
    ScanConcat(env, None, a, b);
  }

  lemma RaisesWithin(env: Env, before: seq<string>, input: seq<string>, j: nat)
    requires j <= |input| && Scan(env, None, before + input[..j]).None?
    ensures Scan(env, None, before + input).None?
  {
    Resplit(before, input, j);
    RaisesForGood(env, before + input[..j], input[j..]);
  }

  lemma Resplit(before: seq<string>, input: seq<string>, j: nat)
    requires j <= |input|
    ensures before + input == (before + input[..j]) + input[j..]
  {
  }

  lemma InputRaises(env: Env, inputs: seq<seq<string>>, i: nat)
    requires i < |inputs| && Scan(env, None, Flatten(inputs[..i]) + inputs[i]).None?
    ensures Measured(env, inputs).None?
  {
    var a, x, b := inputs[..i], inputs[i], inputs[i + 1..];
    Around(inputs, i);
    FlattenThree(a, x, b);
    RaisesForGood(env, Flatten(a) + x, Flatten(b));
  }

  lemma Around(inputs: seq<seq<string>>, i: nat)
    requires i < |inputs|
    ensures inputs == (inputs[..i] + [inputs[i]]) + inputs[i + 1..]
  {
  }

  lemma FlattenThree(a: seq<seq<string>>, x: seq<string>, b: seq<seq<string>>)
    ensures Flatten((a + [x]) + b) == (Flatten(a) + x) + Flatten(b)
  {
    FlattenConcat(a + [x], b);
    FlattenSnoc(a, x);
  }

  /** The merge of all inputs, as the lines of each in order. The open record carries over from one
      input to the next. */
  method ReadLcov(env: Env, inputs: seq<seq<string>>) returns (result: Option<Files>)
    ensures result == Measured(env, inputs)
  {
    var files: Files, current: Option<string> := map[], None;
    for i := 0 to |inputs|
      invariant Reads(env, Flatten(inputs[..i]), files, current)
    {
      assert inputs[..i + 1][..i] == inputs[..i];
      var ok;
      ok, files, current := ReadInput(env, files, current, Flatten(inputs[..i]), inputs[i]);
      if !ok {
        InputRaises(env, inputs, i);
        return None;
      }
    }
    assert inputs[..|inputs|] == inputs;
    result := Some(files);
  }

  /** What reading all the lines of all the inputs gives. */
  function Measured(env: Env, inputs: seq<seq<string>>): Option<Files> {
    match Scan(env, None, Flatten(inputs))
    case None => None
    case Some(s) => Some(Build(s.events))
  }
}
