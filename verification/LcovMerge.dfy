/** The merged measurement does not depend on the order of the inputs. */
module LcovMerge {
  import opened Prelude
  import opened LcovText
  import opened LcovRead
  import opened LcovReport

  // ---------------------------------------------------------------------------------------
  // Looking into a measurement
  // ---------------------------------------------------------------------------------------

  /** Something a measurement may hold. */
  datatype Target =
    | SourceFile(source: string)
    | LineOf(source: string, number: int)
    | FunctionOf(source: string, name: string)
    | StartOf(source: string, name: string)

  /** The hits recorded for a target, zero for one that has none to count, nothing if it is absent. */
  function Probe(files: Files, t: Target): Option<int> {
    if t.source !in files then None
    else
      match t
      case SourceFile(_) => Some(0)
      case LineOf(source, number) => Entry(files[source].lines, number)
      case FunctionOf(source, name) => Entry(files[source].functions, name)
      case StartOf(source, name) => if name in files[source].starts then Some(0) else None
  }

  function Entry<K(==)>(hits: map<K, int>, key: K): Option<int> {
    if key in hits then Some(hits[key]) else None
  }

  /** What one event contributes to a target. */
  function Contribution(e: Event, t: Target): Option<int> {
    if e.source != t.source then None
    else
      match t
      case SourceFile(_) => Some(0)
      case LineOf(_, number) => if e.LineHit? && e.number == number then Some(e.hits) else None
      case FunctionOf(_, name) => if e.FunctionHit? && e.name == name then Some(e.hits) else None
      case StartOf(_, name) => if e.Start? && e.name == name then Some(0) else None
  }

  /** Contributions add up; nothing is the neutral one. */
  function Plus(a: Option<int>, b: Option<int>): Option<int> {
    if a.None? then b else if b.None? then a else Some(a.value + b.value)
  }

  function Tally(events: seq<Event>, t: Target): Option<int> {
    if events == [] then None
    else Plus(Tally(events[..|events| - 1], t), Contribution(events[|events| - 1], t))
  }

  lemma EventAdds(files: Files, e: Event, t: Target)
    ensures Probe(Apply(files, e), t) == Plus(Probe(files, t), Contribution(e, t))
  {
  }

  /** What is recorded for a target is the sum of what the events contribute to it. */
  lemma {:induction false} BuildAddsUp(events: seq<Event>, t: Target)
    ensures Probe(Build(events), t) == Tally(events, t)
  {
    if events != [] {
      var front, e := events[..|events| - 1], events[|events| - 1];
      BuildAddsUp(front, t);
      EventAdds(Build(front), e, t);
    }
  }

  lemma {:induction false} TallyConcat(a: seq<Event>, b: seq<Event>, t: Target)
    ensures Tally(a + b, t) == Plus(Tally(a, t), Tally(b, t))
    decreases |b|
  {
    if b == [] {
      assert a + b == a;
    } else {
      var front := b[..|b| - 1];
      var all := a + b;
      assert all[..|all| - 1] == a + front;
      TallyConcat(a, front, t);
    }
  }

  // ---------------------------------------------------------------------------------------
  // Inputs that leave no record open
  // ---------------------------------------------------------------------------------------

  function Own(env: Env, input: seq<string>): Option<Scanned> {
    Scan(env, None, input)
  }

  predicate Readable(env: Env, input: seq<string>) {
    Own(env, input).Some?
  }

  /** Every record of the input is ended. */
  predicate WellTerminated(env: Env, input: seq<string>) {
    Readable(env, input) ==> Own(env, input).value.current.None?
  }

  ghost predicate AllWellTerminated(env: Env, inputs: seq<seq<string>>) {
    forall i :: 0 <= i < |inputs| ==> WellTerminated(env, inputs[i])
  }

  /** What one input alone holds for a target. */
  function Share(env: Env, t: Target): seq<string> -> Option<int> {
    input => if Readable(env, input) then Tally(Own(env, input).value.events, t) else None
  }

  function Shares(share: seq<string> -> Option<int>, inputs: seq<seq<string>>): Option<int> {
    if inputs == [] then None else Plus(Shares(share, inputs[..|inputs| - 1]), share(inputs[|inputs| - 1]))
  }

  ghost predicate AllReadable(env: Env, inputs: seq<seq<string>>) {
    forall i :: 0 <= i < |inputs| ==> Readable(env, inputs[i])
  }

  ghost predicate ScansTo(env: Env, lines: seq<string>, t: Target, total: Option<int>) {
    var s := Scan(env, None, lines);
    s.Some? && s.value.current.None? && Tally(s.value.events, t) == total
  }

  lemma {:induction false} InputsAddUp(env: Env, inputs: seq<seq<string>>, t: Target)
    requires AllWellTerminated(env, inputs)
    ensures AllReadable(env, inputs) ==> ScansTo(env, Flatten(inputs), t, Shares(Share(env, t), inputs))
    ensures !AllReadable(env, inputs) ==> Scan(env, None, Flatten(inputs)).None?
  {
    if inputs != [] {
      var front, last := inputs[..|inputs| - 1], inputs[|inputs| - 1];
      InputsAddUp(env, front, t);
      OneMoreInput(env, Flatten(front), last, t, Shares(Share(env, t), front));
      LastReadable(env, inputs);
    }
  }

  lemma LastReadable(env: Env, inputs: seq<seq<string>>)
    requires inputs != []
    ensures AllReadable(env, inputs) <==> AllReadable(env, inputs[..|inputs| - 1]) && Readable(env, inputs[|inputs| - 1])
  {
  }

  lemma OneMoreInput(env: Env, head: seq<string>, last: seq<string>, t: Target, total: Option<int>)
    requires WellTerminated(env, last)
    ensures Scan(env, None, head).None? ==> Scan(env, None, head + last).None?
    ensures ScansTo(env, head, t, total) && !Readable(env, last) ==> Scan(env, None, head + last).None?
    ensures ScansTo(env, head, t, total) && Readable(env, last) ==>
      ScansTo(env, head + last, t, Plus(total, Share(env, t)(last)))
  {
    ScanConcat(env, None, head, last);
    if ScansTo(env, head, t, total) && Readable(env, last) {
      TallyConcat(Scan(env, None, head).value.events, Own(env, last).value.events, t);
    }
  }

  // ---------------------------------------------------------------------------------------
  // Any order of the inputs
  // ---------------------------------------------------------------------------------------

  lemma {:induction false} SharesWithout(share: seq<string> -> Option<int>, inputs: seq<seq<string>>, k: nat)
    requires k < |inputs|
    ensures Shares(share, inputs) == Plus(Shares(share, Without(inputs, k)), share(inputs[k]))
  {
    var front := inputs[..|inputs| - 1];
    var less := Without(inputs, k);
    if k == |inputs| - 1 {
      assert less == front;
    } else {
      assert less[..|less| - 1] == Without(front, k);
      SharesWithout(share, front, k);
    }
  }

  lemma {:induction false} SharesPermute(share: seq<string> -> Option<int>, a: seq<seq<string>>, b: seq<seq<string>>)
    requires multiset(a) == multiset(b)
    ensures Shares(share, a) == Shares(share, b)
  {
    if a == [] {
      SameLength(a, b);
    } else {
      var k := MatchLast(a, b);
      SharesPermute(share, a[..|a| - 1], Without(b, k));
      SharesWithout(share, b, k);
    }
  }

  lemma PermutedElements(env: Env, a: seq<seq<string>>, b: seq<seq<string>>)
    requires multiset(a) == multiset(b)
    ensures AllReadable(env, a) ==> AllReadable(env, b)
    ensures AllWellTerminated(env, a) ==> AllWellTerminated(env, b)
  {
    forall i | 0 <= i < |b| ensures b[i] in a {
      SameElements(a, b, b[i]);
    }
  }

  /** The same files, the same lines with the same hits, the same functions with the same hits, and
      the same functions with a known start. */
  ghost predicate SameMeasurement(a: Files, b: Files) {
    forall t :: Probe(a, t) == Probe(b, t)
  }

  /** For inputs whose records are all ended, every order fails or every order gives the same
      measurement. Only the line at which a function starts may differ: the last input wins. */
  lemma {:induction false} OrderIsIrrelevant(env: Env, a: seq<seq<string>>, b: seq<seq<string>>)
    requires multiset(a) == multiset(b) && AllWellTerminated(env, a)
    ensures Measured(env, a).None? <==> Measured(env, b).None?
    ensures Measured(env, a).Some? ==> SameMeasurement(Measured(env, a).value, Measured(env, b).value)
  {
    PermutedElements(env, a, b);
    PermutedElements(env, b, a);
    forall t: Target
      ensures Measured(env, a).None? <==> Measured(env, b).None?
      ensures Measured(env, a).Some? ==> Probe(Measured(env, a).value, t) == Probe(Measured(env, b).value, t)
    {
      SameTarget(env, a, b, t);
    }
    SameTarget(env, a, b, SourceFile(""));
  }

  lemma SameTarget(env: Env, a: seq<seq<string>>, b: seq<seq<string>>, t: Target)
    requires multiset(a) == multiset(b) && AllWellTerminated(env, a) && AllWellTerminated(env, b)
    requires AllReadable(env, a) <==> AllReadable(env, b)
    ensures Measured(env, a).None? <==> Measured(env, b).None?
    ensures Measured(env, a).Some? ==> Probe(Measured(env, a).value, t) == Probe(Measured(env, b).value, t)
  {
    InputsAddUp(env, a, t);
    InputsAddUp(env, b, t);
    SharesPermute(Share(env, t), a, b);
    if AllReadable(env, a) {
      BuildAddsUp(Scan(env, None, Flatten(a)).value.events, t);
      BuildAddsUp(Scan(env, None, Flatten(b)).value.events, t);
    }
  }

  /** Measurements that agree on every target give the same report: the same files, and the same
      total of every counter. */
  lemma {:induction false} SameReport(a: Files, b: Files)
    requires SameMeasurement(a, b)
    ensures a.Keys == b.Keys && TotalOf(a) == TotalOf(b)
  {
    forall source ensures source in a <==> source in b {
      assert Probe(a, SourceFile(source)) == Probe(b, SourceFile(source));
    }
    forall source | source in a ensures SummaryIn(a)(source) == SummaryIn(b)(source) {
      SameCounts(a, b, source);
    }
    assert a.Keys == b.Keys;
    SumAgrees(a.Keys, SummaryIn(a), SummaryIn(b));
  }

  lemma SameCounts(a: Files, b: Files, source: string)
    requires SameMeasurement(a, b) && source in a && source in b
    ensures a[source].lines == b[source].lines && a[source].functions == b[source].functions
  {
    forall n ensures Entry(a[source].lines, n) == Entry(b[source].lines, n) {
      assert Probe(a, LineOf(source, n)) == Probe(b, LineOf(source, n));
    }
    forall f ensures Entry(a[source].functions, f) == Entry(b[source].functions, f) {
      assert Probe(a, FunctionOf(source, f)) == Probe(b, FunctionOf(source, f));
    }
    SameEntries(a[source].lines, b[source].lines);
    SameEntries(a[source].functions, b[source].functions);
  }

  lemma SameEntries<K(!new)>(a: map<K, int>, b: map<K, int>)
    requires forall k :: Entry(a, k) == Entry(b, k)
    ensures a == b
  {
    forall k ensures k in a <==> k in b {
      assert Entry(a, k) == Entry(b, k);
    }
    forall k | k in a ensures a[k] == b[k] {
      assert Entry(a, k) == Entry(b, k);
    }
  }
}
