/** Source paths of an LCOV export: which files count, and the name each is recorded under. */
module LcovPaths {
  import opened Prelude
  import opened Text
  import opened LcovText

  /** The components of a POSIX path: empty ones and single dots disappear. */
  function Parts(s: string): (r: seq<string>)
    ensures AllPlain(r)
    decreases |s|
  {
    if s == "" then []
    else
      var cut := CutAt(s, '/');
      if cut.head == "" || cut.head == "." then Parts(cut.tail) else [cut.head] + Parts(cut.tail)
  }

  predicate Plain(p: string) {
    p != "" && p != "." && '/' !in p
  }

  predicate AllPlain(parts: seq<string>) {
    forall i :: 0 <= i < |parts| ==> Plain(parts[i])
  }

  function Path(parts: seq<string>): string {
    if parts == [] then "" else if |parts| == 1 then parts[0] else parts[0] + ['/'] + Path(parts[1..])
  }

  /** Under `apps` or `crates`, and neither a dedicated test nor a benchmark. */
  predicate Included(parts: seq<string>)
    requires parts != []
  {
    && (parts[0] == "apps" || parts[0] == "crates")
    && "tests" !in parts && "benches" !in parts
    && !EndsWith(parts[|parts| - 1], "tests.rs")
  }

  predicate EndsWith(s: string, suffix: string) {
    |suffix| <= |s| && s[|s| - |suffix|..] == suffix
  }

  /** What an `SF` line means: a file that is counted, one that is not, or an error. */
  datatype Origin = Kept(source: string) | Skipped | Broken

  predicate Absolute(value: string) {
    value != "" && value[0] == '/'
  }

  /** Exactly two leading slashes make a root of their own. */
  predicate OtherRoot(value: string) {
    |value| >= 2 && value[0] == '/' && value[1] == '/' && (|value| == 2 || value[2] != '/')
  }

  function Place(parts: seq<string>): Origin {
    if parts == [] then Broken else if Included(parts) then Kept(Path(parts)) else Skipped
  }

  function Resolve(root: seq<string>, value: string): Origin {
    if !Absolute(value) then Place(Parts(value))
    else if OtherRoot(value) || !(root <= Parts(value)) then Skipped
    else Place(Parts(value)[|root|..])
  }

  lemma {:induction false} PartsOfPath(parts: seq<string>)
    requires AllPlain(parts)
    ensures Parts(Path(parts)) == parts
  {
    if parts != [] {
      assert Plain(parts[0]);
      if |parts| == 1 {
        CutNothing(parts[0], '/');
        assert parts == [parts[0]];
      } else {
        PartsOfPath(parts[1..]);
        CutJoined(parts[0], '/', Path(parts[1..]));
        assert parts == [parts[0]] + parts[1..];
      }
    }
  }

  lemma PathIsRelative(parts: seq<string>)
    requires AllPlain(parts) && parts != []
    ensures !Absolute(Path(parts))
  {
    assert Plain(parts[0]);
  }

  lemma {:induction false} PlacedIsStable(root: seq<string>, parts: seq<string>)
    requires AllPlain(parts) && Place(parts).Kept?
    ensures Resolve(root, Place(parts).source) == Place(parts)
  {
    PartsOfPath(parts);
    PathIsRelative(parts);
  }

  /** The name under which a file is recorded resolves to itself. */
  lemma {:induction false} SourceIsStable(root: seq<string>, value: string)
    requires Resolve(root, value).Kept?
    ensures Resolve(root, Resolve(root, value).source) == Resolve(root, value)
  {
    if !Absolute(value) {
      PlacedIsStable(root, Parts(value));
    } else {
      PlacedIsStable(root, Parts(value)[|root|..]);
    }
  }

  ghost predicate AllNoBreak(parts: seq<string>) {
    forall i :: 0 <= i < |parts| ==> NoBreak(parts[i])
  }

  lemma {:induction false} PartsHaveNoBreak(s: string)
    requires NoBreak(s)
    ensures AllNoBreak(Parts(s))
    decreases |s|
  {
    if s != "" {
      var cut := CutAt(s, '/');
      PiecesHaveNoBreak(s, cut);
      PartsHaveNoBreak(cut.tail);
    }
  }

  lemma PiecesHaveNoBreak(s: string, cut: Cut)
    requires NoBreak(s) && (s == cut.head + ['/'] + cut.tail || (s == cut.head && cut.tail == ""))
    ensures NoBreak(cut.head) && NoBreak(cut.tail)
  {
    forall c | c in cut.head ensures c in s {
    }
    forall c | c in cut.tail ensures c in s {
    }
  }

  lemma {:induction false} PathHasNoBreak(parts: seq<string>)
    requires AllNoBreak(parts)
    ensures NoBreak(Path(parts))
  {
    if |parts| > 1 {
      PathHasNoBreak(parts[1..]);
      assert !IsBreak('/');
    }
  }

  lemma SourceHasNoBreak(root: seq<string>, value: string)
    requires NoBreak(value) && Resolve(root, value).Kept?
    ensures NoBreak(Resolve(root, value).source)
  {
    PartsHaveNoBreak(value);
    if !Absolute(value) {
      PathHasNoBreak(Parts(value));
    } else {
      PathHasNoBreak(Parts(value)[|root|..]);
    }
  }
}
