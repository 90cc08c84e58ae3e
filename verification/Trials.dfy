/** Bounded admission of evaluation trials. Cases are taken in order by a pool of workers; when a
    trial fails and its judgment may still be active, nothing more is admitted and the cases left
    over are reported as not submitted. A case is named by its position, and a trial by its case. */
module Trials {
  import opened Prelude

  datatype Outcome = Success | Failure(error: string, terminal: bool)

  /** Either the text of the trial's own error or the fixed message for a case held back while a
      failed trial may remain active. */
  datatype Reason = Raised(text: string) | HeldBack

  datatype Report = Report(case_: nat, reason: Reason)

  datatype Event = Submit(case_: nat) | Finish(case_: nat, outcome: Outcome)

  /** Everything the scheduler holds, with the events so far. */
  datatype Progress = Progress(
    next: nat, pending: set<nat>, failures: seq<Report>, unresolved: bool, log: seq<Event>)

  // ---------------------------------------------------------------------------------------
  // What a log says, independently of the scheduler
  // ---------------------------------------------------------------------------------------

  /** The trials submitted and not yet finished. */
  ghost function InFlight(log: seq<Event>): set<nat> {
    if log == [] then {}
    else
      var before, last := InFlight(log[..|log| - 1]), log[|log| - 1];
      if last.Submit? then before + {last.case_} else before - {last.case_}
  }

  /** A failure whose judgment may still be running. */
  predicate Unsettled(e: Event) {
    e.Finish? && e.outcome.Failure? && !e.outcome.terminal
  }

  ghost predicate Submitted(log: seq<Event>, i: nat) {
    exists k :: 0 <= k < |log| && log[k] == Submit(i)
  }

  ghost function Succeeded(log: seq<Event>): multiset<nat> {
    if log == [] then multiset{}
    else
      var before, last := Succeeded(log[..|log| - 1]), log[|log| - 1];
      if last.Finish? && last.outcome.Success? then before + multiset{last.case_} else before
  }

  ghost function Failed(log: seq<Event>): seq<Report> {
    if log == [] then []
    else
      var before, last := Failed(log[..|log| - 1]), log[|log| - 1];
      if last.Finish? && last.outcome.Failure? then before + [Report(last.case_, Raised(last.outcome.error))] else before
  }

  /** Each of the cases from `from` up to `to`, once. */
  ghost function Upto(from: nat, to: nat): multiset<nat>
    requires from <= to
  {
    if from == to then multiset{} else Upto(from, to - 1) + multiset{to - 1}
  }

  lemma {:induction false} UptoOnce(from: nat, to: nat, i: nat)
    requires from <= to
    ensures Upto(from, to)[i] == if from <= i < to then 1 else 0
  {
    if from < to {
      UptoOnce(from, to - 1, i);
    }
  }

  /** The cases reported, as often as they are reported. */
  ghost function Cases(reports: seq<Report>): multiset<nat> {
    if reports == [] then multiset{} else Cases(reports[..|reports| - 1]) + multiset{reports[|reports| - 1].case_}
  }

  lemma CasesSnoc(reports: seq<Report>, r: Report)
    ensures Cases(reports + [r]) == Cases(reports) + multiset{r.case_}
  {
    var all := reports + [r];
    assert all[..|all| - 1] == reports;
  }

  /** No more than `workers` trials are in flight after any event. */
  ghost predicate Bounded(workers: nat, log: seq<Event>) {
    forall k :: 0 <= k <= |log| ==> |InFlight(log[..k])| <= workers
  }

  /** Nothing is submitted after a failure that may still be active. */
  ghost predicate FailStop(log: seq<Event>) {
    forall j, k :: 0 <= j < k < |log| && Unsettled(log[j]) ==> !log[k].Submit?
  }

  /** Each trial finishes with its own outcome. */
  ghost predicate Honest(outcome: nat -> Outcome, log: seq<Event>) {
    forall k :: 0 <= k < |log| && log[k].Finish? ==> log[k].outcome == outcome(log[k].case_)
  }

  /** Submissions are exactly the first `next` cases. */
  ghost predicate SubmitsPrefix(log: seq<Event>, next: nat) {
    forall i: nat :: Submitted(log, i) <==> i < next
  }

  // ---------------------------------------------------------------------------------------
  // The state kept in step with the log
  // ---------------------------------------------------------------------------------------

  ghost predicate Recorded(p: Progress) {
    && p.pending == InFlight(p.log)
    && p.failures == Failed(p.log)
    && (p.unresolved <==> exists k :: 0 <= k < |p.log| && Unsettled(p.log[k]))
    && SubmitsPrefix(p.log, p.next)
    && forall i :: i in p.pending ==> i < p.next
  }

  /** Every admitted case is in exactly one of the three places. */
  ghost predicate Conserved(p: Progress) {
    Succeeded(p.log) + Cases(p.failures) + multiset(p.pending) == Upto(0, p.next)
  }

  ghost predicate Valid(workers: nat, outcome: nat -> Outcome, p: Progress) {
    Recorded(p) && Conserved(p) && Bounded(workers, p.log) && FailStop(p.log) && Honest(outcome, p.log)
  }

  lemma LogGrows(p: Progress, e: Event, q: Progress)
    requires q.log == p.log + [e]
    ensures q.log[..|q.log| - 1] == p.log && q.log[|q.log| - 1] == e
  {
  }

  lemma {:induction false} SubmitKeepsRecord(p: Progress, q: Progress)
    requires Recorded(p) && !p.unresolved
    requires q == p.(next := p.next + 1, pending := p.pending + {p.next}, log := p.log + [Submit(p.next)])
    ensures Recorded(q)
  {
    LogGrows(p, Submit(p.next), q);
    forall i: nat ensures Submitted(q.log, i) <==> i < q.next {
      if Submitted(p.log, i) {
        var k :| 0 <= k < |p.log| && p.log[k] == Submit(i);
        assert q.log[k] == Submit(i);
      }
      if i == p.next {
        assert q.log[|p.log|] == Submit(i);
      }
    }
  }

  lemma {:induction false} SubmitConserves(p: Progress, q: Progress)
    requires Recorded(p) && Conserved(p)
    requires q == p.(next := p.next + 1, pending := p.pending + {p.next}, log := p.log + [Submit(p.next)])
    ensures Conserved(q)
  {
    LogGrows(p, Submit(p.next), q);
    assert multiset(q.pending) == multiset(p.pending) + multiset{p.next};
  }

  lemma {:induction false} BoundGrows(workers: nat, p: Progress, e: Event, q: Progress)
    requires Bounded(workers, p.log) && q.log == p.log + [e] && |InFlight(q.log)| <= workers
    ensures Bounded(workers, q.log)
  {
    forall k | 0 <= k <= |q.log| ensures |InFlight(q.log[..k])| <= workers {
      if k == |q.log| {
        assert q.log[..k] == q.log;
      } else {
        assert q.log[..k] == p.log[..k];
      }
    }
  }

  lemma OrderGrows(outcome: nat -> Outcome, p: Progress, e: Event, q: Progress)
    requires FailStop(p.log) && Honest(outcome, p.log) && q.log == p.log + [e]
    requires e.Submit? ==> forall k :: 0 <= k < |p.log| ==> !Unsettled(p.log[k])
    requires e.Finish? ==> e.outcome == outcome(e.case_)
    ensures FailStop(q.log) && Honest(outcome, q.log)
  {
  }

  lemma FinishKeepsRecord(p: Progress, e: Event, q: Progress)
    requires Recorded(p) && e.Finish? && e.case_ in p.pending
    requires q == Settled(p, e.case_, e.outcome)
    ensures Recorded(q)
  {
    LogGrows(p, e, q);
    forall i: nat ensures Submitted(q.log, i) <==> i < q.next {
      if Submitted(p.log, i) {
        var k :| 0 <= k < |p.log| && p.log[k] == Submit(i);
        assert q.log[k] == Submit(i);
      }
    }
    if p.unresolved {
      var k :| 0 <= k < |p.log| && Unsettled(p.log[k]);
      assert Unsettled(q.log[k]);
    }
    assert q.log[|p.log|] == e;
  }

  lemma FinishConserves(p: Progress, e: Event, q: Progress)
    requires Recorded(p) && Conserved(p) && e.Finish? && e.case_ in p.pending
    requires q == Settled(p, e.case_, e.outcome)
    ensures Conserved(q)
  {
    LogGrows(p, e, q);
    var i := multiset{e.case_};
    assert multiset(p.pending) == multiset(q.pending) + i;
    if e.outcome.Failure? {
      CasesSnoc(p.failures, Report(e.case_, Raised(e.outcome.error)));
      Reassociate(Succeeded(p.log), Cases(p.failures), multiset(q.pending), i);
    } else {
      Reassociate(Succeeded(p.log), Cases(p.failures), multiset(q.pending), i);
    }
  }

  lemma Reassociate(a: multiset<nat>, b: multiset<nat>, c: multiset<nat>, i: multiset<nat>)
    ensures a + b + (c + i) == (a + i) + b + c == a + (b + i) + c
  {
  }

  /** What one completed future does to the scheduler. */
  function Settled(p: Progress, i: nat, outcome: Outcome): Progress {
    var finished := p.(pending := p.pending - {i}, log := p.log + [Finish(i, outcome)]);
    if outcome.Success? then finished
    else finished.(failures := p.failures + [Report(i, Raised(outcome.error))],
                   unresolved := p.unresolved || !outcome.terminal)
  }

  // ---------------------------------------------------------------------------------------
  // The scheduler
  // ---------------------------------------------------------------------------------------

  method SubmitNext(workers: nat, ghost outcome: nat -> Outcome, p: Progress) returns (q: Progress)
    requires Valid(workers, outcome, p) && |p.pending| < workers && !p.unresolved
    ensures Valid(workers, outcome, q)
    ensures q == p.(next := p.next + 1, pending := p.pending + {p.next}, log := p.log + [Submit(p.next)])
    ensures |q.pending| == |p.pending| + 1
  {
    q := p.(next := p.next + 1, pending := p.pending + {p.next}, log := p.log + [Submit(p.next)]);
    SubmitKeepsRecord(p, q);
    SubmitConserves(p, q);
    BoundGrows(workers, p, Submit(p.next), q);
    OrderGrows(outcome, p, Submit(p.next), q);
  }

  method Admit(workers: nat, count: nat, ghost outcome: nat -> Outcome, p: Progress) returns (q: Progress)
    requires Valid(workers, outcome, p) && |p.pending| < workers && p.next <= count && !p.unresolved
    ensures Valid(workers, outcome, q) && p.next <= q.next <= count && !q.unresolved
    ensures q.next == count || |q.pending| == workers
    ensures 2 * (count - q.next) + |q.pending| <= 2 * (count - p.next) + |p.pending|
  {
    q := p;
    while q.next < count
      invariant Valid(workers, outcome, q) && p.next <= q.next <= count && !q.unresolved
      invariant |q.pending| < workers
      invariant 2 * (count - q.next) + |q.pending| <= 2 * (count - p.next) + |p.pending|
    {
      q := SubmitNext(workers, outcome, q);
      if |q.pending| == workers {
        break;
      }
    }
  }

  method Settle(workers: nat, outcome: nat -> Outcome, p: Progress, i: nat) returns (q: Progress)
    requires Valid(workers, outcome, p) && i in p.pending
    ensures Valid(workers, outcome, q) && q == Settled(p, i, outcome(i))
    ensures q.pending == p.pending - {i} && q.next == p.next
  {
    q := Settled(p, i, outcome(i));
    FinishKeeps(workers, outcome, p, Finish(i, outcome(i)), q);
  }

  lemma FinishKeeps(workers: nat, outcome: nat -> Outcome, p: Progress, e: Event, q: Progress)
    requires Valid(workers, outcome, p) && e.Finish? && e.case_ in p.pending
    requires e.outcome == outcome(e.case_) && q == Settled(p, e.case_, e.outcome)
    ensures Valid(workers, outcome, q)
  {
    FinishKeepsRecord(p, e, q);
    FinishConserves(p, e, q);
    FinishStaysBounded(workers, p, e, q);
    OrderGrows(outcome, p, e, q);
  }

  lemma FinishStaysBounded(workers: nat, p: Progress, e: Event, q: Progress)
    requires Recorded(p) && Bounded(workers, p.log) && e.Finish? && e.case_ in p.pending
    requires q == Settled(p, e.case_, e.outcome)
    ensures Bounded(workers, q.log)
  {
    LogGrows(p, e, q);
    assert p.log[..|p.log|] == p.log;
    assert InFlight(q.log) == InFlight(p.log) - {e.case_};
    BoundGrows(workers, p, e, q);
  }

  /** The completed futures are handled in whatever order the set yields them. */
  method SettleAll(workers: nat, outcome: nat -> Outcome, p: Progress, completed: set<nat>) returns (q: Progress)
    requires Valid(workers, outcome, p) && completed <= p.pending
    ensures Valid(workers, outcome, q) && q.next == p.next
    ensures q.pending == p.pending - completed
  {
    q := p;
    var left := completed;
    while left != {}
      invariant Valid(workers, outcome, q) && q.next == p.next && left <= completed
      invariant q.pending == p.pending - (completed - left)
    {
      var i :| i in left;
      q := Settle(workers, outcome, q, i);
      left := left - {i};
    }
  }

  /** One round: some pending trials complete, and admission goes on unless a failure may be active. */
  method Round(workers: nat, count: nat, outcome: nat -> Outcome, p: Progress) returns (q: Progress)
    requires Valid(workers, outcome, p) && p.next <= count && p.pending != {}
    ensures Valid(workers, outcome, q) && q.next <= count
    ensures q.unresolved || q.next == count || |q.pending| == workers
    ensures 2 * (count - q.next) + |q.pending| < 2 * (count - p.next) + |p.pending|
  {
    assert p.pending <= p.pending;
    var completed :| completed <= p.pending && completed != {};
    q := SettleAll(workers, outcome, p, completed);
    assert |p.pending| <= workers by { assert p.log[..|p.log|] == p.log; }
    Shrinks(p.pending, completed);
    if !q.unresolved {
      q := Admit(workers, count, outcome, q);
    }
  }

  /** The cases never taken from the iterator. */
  method ReportRest(failed: seq<Report>, next: nat, count: nat, ghost done: multiset<nat>)
    returns (failures: seq<Report>)
    requires next <= count && done + Cases(failed) == Upto(0, next)
    ensures failures == failed + NotSubmitted(next, count)
    ensures done + Cases(failures) == Upto(0, count)
  {
    failures := failed;
    for i := next to count
      invariant failures == failed + NotSubmitted(next, i)
    {
      OneMoreHeldBack(failed, next, i);
      failures := failures + [Report(i, HeldBack)];
    }
    AllReported(done, failed, next, count);
  }

  lemma AllReported(done: multiset<nat>, failed: seq<Report>, next: nat, count: nat)
    requires next <= count && done + Cases(failed) == Upto(0, next)
    ensures done + Cases(failed + NotSubmitted(next, count)) == Upto(0, count)
  {
    CasesHeldBack(failed, next, count, NotSubmitted(next, count));
    UptoConcat(0, next, count);
    AddCases(done, Cases(failed), Upto(next, count));
  }

  lemma {:induction false} CasesHeldBack(failed: seq<Report>, next: nat, count: nat, held: seq<Report>)
    requires next <= count && held == NotSubmitted(next, count)
    ensures Cases(failed + held) == Cases(failed) + Upto(next, count)
  {
    if next == count {
      assert failed + held == failed;
    } else {
      var front, last := NotSubmitted(next, count - 1), Report(count - 1, HeldBack);
      CasesHeldBack(failed, next, count - 1, front);
      CasesGrow(failed, front, last, Upto(next, count - 1));
    }
  }

  lemma CasesGrow(failed: seq<Report>, held: seq<Report>, last: Report, cases: multiset<nat>)
    requires Cases(failed + held) == Cases(failed) + cases
    ensures Cases(failed + (held + [last])) == Cases(failed) + (cases + multiset{last.case_})
  {
    Associate(failed, held, [last]);
    CasesSnoc(failed + held, last);
    AddCases(Cases(failed), cases, multiset{last.case_});
  }

  lemma {:induction false} UptoConcat(a: nat, b: nat, c: nat)
    requires a <= b <= c
    ensures Upto(a, b) + Upto(b, c) == Upto(a, c)
  {
    if b < c {
      UptoConcat(a, b, c - 1);
      AddCases(Upto(a, b), Upto(b, c - 1), multiset{c - 1});
    }
  }

  lemma OneMoreHeldBack(failed: seq<Report>, next: nat, i: nat)
    requires next <= i
    ensures failed + NotSubmitted(next, i) + [Report(i, HeldBack)] == failed + NotSubmitted(next, i + 1)
  {
    Associate(failed, NotSubmitted(next, i), [Report(i, HeldBack)]);
  }

  lemma NothingPending(p: Progress)
    requires Conserved(p) && p.pending == {}
    ensures Succeeded(p.log) + Cases(p.failures) == Upto(0, p.next)
  {
    assert multiset(p.pending) == multiset{};
  }

  lemma AddCases(a: multiset<nat>, b: multiset<nat>, c: multiset<nat>)
    ensures (a + b) + c == a + (b + c)
  {
  }

  /** Whatever completes first, and whichever trials fail: at most `workers` trials are ever in
      flight, nothing is submitted after a failure that may still be active, every submitted trial
      has finished, each case is accounted for exactly once as a success or a reported failure,
      the cases not submitted are reported last, and without such a failure every case is submitted. */
  method RunTrials(workers: nat, count: nat, outcome: nat -> Outcome)
    returns (failures: seq<Report>, log: seq<Event>, next: nat)
    requires workers >= 1
    ensures Bounded(workers, log) && FailStop(log) && Honest(outcome, log) && InFlight(log) == {}
    ensures next <= count && SubmitsPrefix(log, next)
    ensures next < count ==> exists k :: 0 <= k < |log| && Unsettled(log[k])
    ensures failures == Failed(log) + NotSubmitted(next, count)
    ensures Succeeded(log) + Cases(failures) == Upto(0, count)
  {
    var p := Progress(0, {}, [], false, []);
    p := Admit(workers, count, outcome, p);
    while p.pending != {}
      invariant Valid(workers, outcome, p) && p.next <= count
      invariant p.unresolved || p.next == count || |p.pending| == workers
      decreases 2 * (count - p.next) + |p.pending|
    {
      p := Round(workers, count, outcome, p);
    }
    log, next := p.log, p.next;
    NothingPending(p);
    failures := ReportRest(p.failures, p.next, count, Succeeded(p.log));
  }

  lemma Shrinks(pending: set<nat>, completed: set<nat>)
    requires completed <= pending && completed != {}
    ensures |pending - completed| < |pending|
  {
    var i :| i in completed;
    assert pending - completed <= pending - {i};
    Fewer(pending - completed, pending - {i});
  }

  lemma {:induction false} Fewer(a: set<nat>, b: set<nat>)
    requires a <= b
    ensures |a| <= |b|
    decreases a
  {
    if a != {} {
      var i :| i in a;
      Fewer(a - {i}, b - {i});
    }
  }

  function NotSubmitted(from: nat, to: nat): (r: seq<Report>)
    requires from <= to
    ensures |r| == to - from
  {
    if from == to then [] else NotSubmitted(from, to - 1) + [Report(to - 1, HeldBack)]
  }
}
