/** The text side of LCOV: lines, `kind:value` fields and source paths. */
module LcovText {
  import opened Prelude
  import opened Text

  // ---------------------------------------------------------------------------------------
  // Cutting at the first occurrence of a character
  // ---------------------------------------------------------------------------------------

  /** `str.partition`: the part before the first separator and the part after it. */
  datatype Cut = Cut(head: string, found: bool, tail: string)

  function CutAt(s: string, c: char): (r: Cut)
    ensures c !in r.head
    ensures r.found ==> s == r.head + [c] + r.tail
    ensures !r.found ==> s == r.head && r.tail == ""
  {
    if s == "" then Cut("", false, "")
    else if s[0] == c then Cut("", true, s[1..])
    else
      var r := CutAt(s[1..], c);
      Cut([s[0]] + r.head, r.found, r.tail)
  }

  lemma {:induction false} CutJoined(a: string, c: char, b: string)
    requires c !in a
    ensures CutAt(a + [c] + b, c) == Cut(a, true, b)
  {
    var s := a + [c] + b;
    if a == "" {
      assert s[1..] == b;
    } else {
      assert s[1..] == a[1..] + [c] + b;
      CutJoined(a[1..], c, b);
      assert [a[0]] + a[1..] == a;
    }
  }

  lemma CutNothing(s: string, c: char)
    requires c !in s
    ensures CutAt(s, c) == Cut(s, false, "")
  {
  }

  // ---------------------------------------------------------------------------------------
  // Kinds of line
  // ---------------------------------------------------------------------------------------

  datatype Kind = SF | DA | FNDA | FN | FNF | FNH | LF | LH | EndOfRecord | Other

  function Spelling(k: Kind): string
    requires !k.Other?
  {
    match k
    case SF => "SF"
    case DA => "DA"
    case FNDA => "FNDA"
    case FN => "FN"
    case FNF => "FNF"
    case FNH => "FNH"
    case LF => "LF"
    case LH => "LH"
    case EndOfRecord => "end_of_record"
  }

  function KindOf(s: string): Kind {
    if s == "SF" then SF
    else if s == "end_of_record" then EndOfRecord
    else if s == "DA" then DA
    else if s == "FNDA" then FNDA
    else if s == "FN" then FN
    else if s == "FNF" then FNF
    else if s == "FNH" then FNH
    else if s == "LF" then LF
    else if s == "LH" then LH
    else Other
  }

  lemma KindIsSpelled(k: Kind)
    requires !k.Other?
    ensures KindOf(Spelling(k)) == k && ':' !in Spelling(k)
  {
  }

  lemma SpellingHasNoBreak(k: Kind)
    requires !k.Other?
    ensures NoBreak(Spelling(k))
  {
  }

  /** A line as read: its kind and what follows the first colon. */
  datatype Line = Line(kind: Kind, value: string)

  function Decode(line: string): Line {
    var cut := CutAt(line, ':');
    Line(KindOf(cut.head), cut.tail)
  }

  /** A line as written. */
  function Encode(k: Kind, value: string): string
    requires !k.Other?
  {
    Spelling(k) + ":" + value
  }

  lemma DecodeEncode(k: Kind, value: string)
    requires !k.Other?
    ensures Decode(Encode(k, value)) == Line(k, value)
    ensures NoBreak(value) ==> NoBreak(Encode(k, value))
  {
    KindIsSpelled(k);
    SpellingHasNoBreak(k);
    CutJoined(Spelling(k), ':', value);
    assert !IsBreak(':');
  }

  lemma DecodeEnd()
    ensures Decode(Spelling(EndOfRecord)).kind == EndOfRecord
  {
    KindIsSpelled(EndOfRecord);
    CutNothing(Spelling(EndOfRecord), ':');
  }

  // ---------------------------------------------------------------------------------------
  // Numbers
  // ---------------------------------------------------------------------------------------

  /** `str(n)`. */
  function Shown(n: int): (s: string)
    ensures s != "" && ',' !in s && NoBreak(s)
  {
    if n < 0 then "-" + Decimal(-n) else Decimal(n)
  }

  /** Plain numerals, with a sign for negative numbers; Python's `int` accepts these and more. */
  function PlainInt(s: string): Option<int> {
    if AllDigits(s) then Some(DigitsValue(s))
    else if s != "" && s[0] == '-' && AllDigits(s[1..]) then (var n: int := DigitsValue(s[1..]); Some(-n))
    else None
  }

  predicate AllDigits(s: string) {
    s != "" && forall c | c in s :: IsDigit(c)
  }

  lemma PlainIntReadsShown(n: int)
    ensures PlainInt(Shown(n)) == Some(n)
  {
    if n < 0 {
      DecimalValue(-n);
      assert Shown(n)[1..] == Decimal(-n);
      assert !IsDigit('-') && Shown(n)[0] == '-';
    } else {
      DecimalValue(n);
    }
  }

  // ---------------------------------------------------------------------------------------
  // Lines of a text
  // ---------------------------------------------------------------------------------------

  datatype Splitting = Splitting(lines: seq<string>, current: string)

  /** `str.splitlines`, one character at a time: a line feed after a carriage return ends nothing. */
  function Split(s: string): Splitting {
    if s == "" then Splitting([], "")
    else
      var before, c := Split(s[..|s| - 1]), s[|s| - 1];
      if !IsBreak(c) then Splitting(before.lines, before.current + [c])
      else if c == '\n' && |s| >= 2 && s[|s| - 2] == '\r' then before
      else Splitting(before.lines + [before.current], "")
  }

  function SplitLines(s: string): seq<string> {
    var r := Split(s);
    if r.current == "" then r.lines else r.lines + [r.current]
  }

  /** The text of a file to which each line was written with its line feed. */
  function Joined(lines: seq<string>): string {
    if lines == [] then "" else Joined(lines[..|lines| - 1]) + lines[|lines| - 1] + "\n"
  }

  lemma {:induction false} SplitAppends(s: string, line: string)
    requires NoBreak(line)
    ensures Split(s + line) == Splitting(Split(s).lines, Split(s).current + line)
  {
    if line == "" {
      assert s + line == s;
      assert Split(s).current + line == Split(s).current;
    } else {
      var front, c := line[..|line| - 1], line[|line| - 1];
      var all := s + line;
      assert all[..|all| - 1] == s + front;
      SplitAppends(s, front);
      assert Split(s).current + line == Split(s).current + front + [c];
    }
  }

  lemma SplitEndsLine(s: string)
    requires s == "" || s[|s| - 1] != '\r'
    ensures Split(s + "\n") == Splitting(Split(s).lines + [Split(s).current], "")
  {
    var all := s + "\n";
    assert all[..|all| - 1] == s;
  }

  ghost predicate NoBreaks(lines: seq<string>) {
    forall i :: 0 <= i < |lines| ==> NoBreak(lines[i])
  }

  ghost predicate EndsLine(s: string) {
    s == "" || s[|s| - 1] == '\n'
  }

  /** The text splits into exactly these lines. */
  ghost predicate IsSplit(text: string, lines: seq<string>) {
    EndsLine(text) && Split(text) == Splitting(lines, "")
  }

  lemma OneMoreLine(s: string, line: string, lines: seq<string>)
    requires NoBreak(line) && IsSplit(s, lines)
    ensures IsSplit(s + line + "\n", lines + [line])
  {
    SplitAppends(s, line);
    var text := s + line;
    if line != "" {
      assert text[|text| - 1] == line[|line| - 1] && line[|line| - 1] in line;
    }
    SplitEndsLine(text);
    assert "" + line == line;
  }

  lemma {:induction false} JoinedSplits(lines: seq<string>, text: string)
    requires NoBreaks(lines) && text == Joined(lines)
    ensures IsSplit(text, lines)
  {
    if lines != [] {
      var front, line := lines[..|lines| - 1], lines[|lines| - 1];
      var before := Joined(front);
      JoinedSplits(front, before);
      OneMoreLine(before, line, front);
      LastLine(lines, front, line);
    }
  }

  lemma LastLine(lines: seq<string>, front: seq<string>, line: string)
    requires lines != [] && front == lines[..|lines| - 1] && line == lines[|lines| - 1]
    ensures front + [line] == lines
  {
  }

  /** Reading a written file gives back the lines, if none of them holds a line boundary. */
  lemma {:induction false} LinesReadBack(lines: seq<string>)
    requires NoBreaks(lines)
    ensures SplitLines(Joined(lines)) == lines
  {
    JoinedSplits(lines, Joined(lines));
  }

  /** No line that is read holds a line boundary. */
  lemma {:induction false} LinesHaveNoBreak(s: string)
    ensures NoBreaks(Split(s).lines) && NoBreak(Split(s).current)
  {
    if s != "" {
      LinesHaveNoBreak(s[..|s| - 1]);
    }
  }
}
