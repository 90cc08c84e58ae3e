/** Crash-safe replay of one named mutation of a trial. The request is recorded before it is sent
    and the response after it arrives, each by writing a temporary file and renaming it into place.
    The run may die between any two file steps and be started again, with the same arguments or
    with others. Documents are compared as values. */
module Replay {
  import opened Prelude

  /** A file is either whole or what an interrupted write left behind. */
  datatype File = Torn | Whole(text: string)

  datatype Slot = Request | Response

  /** Where the call in progress stands. */
  datatype Phase = Idle | Comparing | Writing(slot: Slot) | Renaming(slot: Slot) | Looking | Awaiting | Finishing

  /** The four files of the mutation, the call in progress, and what the daemon and the caller saw. */
  datatype State = State(
    phase: Phase, identity: string, reply: string,
    request: Option<File>, response: Option<File>,
    requestDraft: Option<File>, responseDraft: Option<File>,
    sent: seq<string>, returned: seq<string>)

  const START := State(Idle, "", "", None, None, None, None, [], [])

  datatype Step =
    | Call(identity: string)   // mutate is called
    | Reject                   // a recorded request differs: the call raises
    | Accept                   // no recorded request, or the same one
    | Open                     // the temporary file is truncated
    | Fill                     // the temporary file is complete
    | Rename                   // the temporary file replaces the destination
    | Recall                   // a response is already recorded
    | Send                     // the request goes to the daemon
    | Fail                     // no connection, or an error instead of a response
    | Receive(reply: string)   // the daemon's response
    | Return                   // the recorded response is read back
    | Crash                    // the process dies; only the files remain

  predicate Enabled(s: State, step: Step) {
    match step
    case Call(_) => s.phase.Idle?
    case Reject => s.phase.Comparing? && s.request.Some? && s.request != Some(Whole(s.identity))
    case Accept => s.phase.Comparing? && (s.request.None? || s.request == Some(Whole(s.identity)))
    case Open => s.phase.Writing?
    case Fill => s.phase.Writing?
    case Rename => s.phase.Renaming?
    case Recall => s.phase.Looking? && s.response.Some?
    case Send => s.phase.Looking? && s.response.None?
    case Fail => (s.phase.Looking? && s.response.None?) || s.phase.Awaiting?
    case Receive(_) => s.phase.Awaiting?
    case Return => s.phase.Finishing? && s.response.Some? && s.response.value.Whole?
    case Crash => true
  }

  /** A write of the call's document into a temporary file. */
  function Drafted(s: State, slot: Slot, file: File): State {
    match slot
    case Request => s.(requestDraft := Some(file))
    case Response => s.(responseDraft := Some(file))
  }

  function Document(s: State, slot: Slot): string {
    if slot.Request? then s.identity else s.reply
  }

  /** The rename moves whatever the temporary file holds. */
  function Renamed(s: State, slot: Slot): State {
    match slot
    case Request => s.(request := s.requestDraft, requestDraft := None, phase := Looking)
    case Response => s.(response := s.responseDraft, responseDraft := None, phase := Finishing)
  }

  function After(s: State, step: Step): State {
    match step
    case Call(identity) => s.(identity := identity, phase := Comparing)
    case Reject => s.(phase := Idle)
    case Accept => s.(phase := Writing(Request))
    case Open => if s.phase.Writing? then Drafted(s, s.phase.slot, Torn) else s
    case Fill =>
      if s.phase.Writing? then
        Drafted(s, s.phase.slot, Whole(Document(s, s.phase.slot))).(phase := Renaming(s.phase.slot))
      else s
    case Rename => if s.phase.Renaming? then Renamed(s, s.phase.slot) else s
    case Recall => s.(phase := Finishing)
    case Send => s.(sent := s.sent + [s.identity], phase := Awaiting)
    case Fail => s.(phase := Idle)
    case Receive(reply) => s.(reply := reply, phase := Writing(Response))
    case Return =>
      if s.response.Some? && s.response.value.Whole? then
        s.(returned := s.returned + [s.response.value.text], phase := Idle)
      else s
    case Crash => s.(phase := Idle, identity := "", reply := "")
  }

  ghost predicate IsRun(steps: seq<Step>) {
    steps == [] || (IsRun(steps[..|steps| - 1]) && Enabled(StateAfter(steps[..|steps| - 1]), steps[|steps| - 1]))
  }

  ghost function StateAfter(steps: seq<Step>): State {
    if steps == [] then START else After(StateAfter(steps[..|steps| - 1]), steps[|steps| - 1])
  }

  // ---------------------------------------------------------------------------------------
  // What every step keeps
  // ---------------------------------------------------------------------------------------

  /** A recorded file is never one that an interrupted write left behind. */
  ghost predicate NeverTorn(s: State) {
    s.request != Some(Torn) && s.response != Some(Torn)
  }

  /** Everything sent and everything returned is what is recorded. */
  ghost predicate Consistent(s: State) {
    && (forall i :: 0 <= i < |s.sent| ==> s.request == Some(Whole(s.sent[i])))
    && (forall i :: 0 <= i < |s.returned| ==> s.response == Some(Whole(s.returned[i])))
  }

  ghost predicate Recorded(s: State) {
    s.request == Some(Whole(s.identity))
  }

  /** What has been established by the time a call reaches each phase. */
  ghost predicate OnCourse(s: State) {
    match s.phase
    case Idle => true
    case Comparing => true
    case Writing(slot) => if slot.Request? then s.request.None? || Recorded(s) else Recorded(s) && s.response.None?
    case Renaming(slot) =>
      if slot.Request? then (s.request.None? || Recorded(s)) && s.requestDraft == Some(Whole(s.identity))
      else Recorded(s) && s.response.None? && s.responseDraft == Some(Whole(s.reply))
    case Looking => Recorded(s)
    case Awaiting => Recorded(s) && s.response.None?
    case Finishing => Recorded(s) && s.response.Some?
  }

  ghost predicate Sound(s: State) {
    NeverTorn(s) && Consistent(s) && OnCourse(s)
  }

  lemma StepIsSound(s: State, step: Step)
    requires Sound(s) && Enabled(s, step)
    ensures Sound(After(s, step))
  {
  }

  /** Once recorded, neither document changes, and a recorded response ends all sending. */
  ghost predicate Settled(s: State, t: State) {
    && (s.request.Some? ==> t.request == s.request)
    && (s.response.Some? ==> t.response == s.response && t.sent == s.sent)
    && s.sent <= t.sent
  }

  lemma StepSettles(s: State, step: Step)
    requires Sound(s) && Enabled(s, step)
    ensures Settled(s, After(s, step))
  {
  }

  // ---------------------------------------------------------------------------------------
  // Every run, over any number of crashes and restarts
  // ---------------------------------------------------------------------------------------

  lemma {:induction false} RunsAreSound(steps: seq<Step>, s: State)
    requires IsRun(steps) && s == StateAfter(steps)
    ensures Sound(s)
  {
    if steps != [] {
      var front := steps[..|steps| - 1];
      RunsAreSound(front, StateAfter(front));
      StepIsSound(StateAfter(front), steps[|steps| - 1]);
    }
  }

  /** All requests ever sent carry the same identity, the one on record, and every call that
      returned gave the same response. */
  lemma {:induction false} SentIsOneIdentity(steps: seq<Step>, s: State, i: nat, j: nat)
    requires IsRun(steps) && s == StateAfter(steps)
    ensures i < |s.sent| && j < |s.sent| ==> s.sent[i] == s.sent[j]
    ensures i < |s.sent| ==> s.request == Some(Whole(s.sent[i]))
    ensures i < |s.returned| && j < |s.returned| ==> s.returned[i] == s.returned[j]
  {
    RunsAreSound(steps, s);
  }

  /** A call whose arguments differ from the recorded request is still comparing, and can only be
      rejected or die: it never sends. */
  lemma {:induction false} ChangedReplayIsRejected(steps: seq<Step>, s: State, step: Step)
    requires IsRun(steps) && s == StateAfter(steps)
    requires !s.phase.Idle? && s.request.Some? && !Recorded(s) && Enabled(s, step)
    ensures s.phase.Comparing? && (step.Reject? || step.Crash?)
    ensures After(s, step).phase.Idle? && After(s, step).sent == s.sent && After(s, step).request == s.request
  {
    RunsAreSound(steps, s);
  }

  /** From any point of a run on: the recorded request stays as it is, and once a response is
      recorded nothing more is ever sent. */
  lemma {:induction false} RecordsStay(steps: seq<Step>, k: nat, s: State, t: State)
    requires k <= |steps| && IsRun(steps) && s == StateAfter(steps[..k]) && t == StateAfter(steps)
    ensures Settled(s, t)
  {
    if k == |steps| {
      assert steps[..k] == steps;
    } else {
      var front, step := steps[..|steps| - 1], steps[|steps| - 1];
      assert front[..k] == steps[..k];
      RecordsStay(front, k, s, StateAfter(front));
      RunsAreSound(front, StateAfter(front));
      StepSettles(StateAfter(front), step);
    }
  }

  // ---------------------------------------------------------------------------------------
  // One uninterrupted call
  // ---------------------------------------------------------------------------------------

  /** What the socket does when the request is made. */
  datatype Exchange = NoConnection | NoAnswer | Answer(reply: string)

  datatype Outcome = Returned(text: string) | ChangedReplay | Failed

  ghost predicate Changed(s: State, identity: string) {
    s.request.Some? && s.request != Some(Whole(identity))
  }

  class Trial {
    var state: State
    ghost var trace: seq<Step>

    /** The files are in a state that some run of the protocol leads to. */
    ghost predicate Valid() reads this {
      IsRun(trace) && state == StateAfter(trace)
    }

    method Do(step: Step)
      requires Valid() && Enabled(state, step)
      modifies this
      ensures Valid() && state == After(old(state), step)
    {
      ghost var longer := trace + [step];
      assert longer[..|longer| - 1] == trace;
      trace := longer;
      state := After(state, step);
    }

    /** The temporary file is written and then renamed into place. */
    method AtomicJson(slot: Slot)
      requires Valid() && state.phase == Writing(slot)
      modifies this
      ensures Valid()
      ensures slot.Request? ==> state == old(state).(
        request := Some(Whole(old(state.identity))), requestDraft := None, phase := Looking)
      ensures slot.Response? ==> state == old(state).(
        response := Some(Whole(old(state.reply))), responseDraft := None, phase := Finishing)
    {
      Do(Open);
      Do(Fill);
      Do(Rename);
    }

    /** The request is made and its answer recorded. */
    method SendRequest(exchange: Exchange) returns (ok: bool)
      requires Valid() && state.phase.Looking? && state.response.None?
      modifies this
      ensures Valid() && ok == exchange.Answer? && state.request == old(state.request)
      ensures state.sent == if exchange.NoConnection? then old(state.sent) else old(state.sent) + [old(state.identity)]
      ensures ok ==> state.phase.Finishing? && state.response == Some(Whole(exchange.reply))
      ensures !ok ==> state.phase.Idle? && state.response.None?
    {
      ok := false;
      if exchange.NoConnection? {
        Do(Fail);
        return;
      }
      Do(Send);
      if exchange.NoAnswer? {
        Do(Fail);
        return;
      }
      Do(Receive(exchange.reply));
      AtomicJson(Response);
      ok := true;
    }

    /** A changed replay is refused and nothing is sent; otherwise the request is on record, it is
        sent only when no response is recorded, and the recorded response is what is returned. */
    method Mutate(identity: string, exchange: Exchange) returns (outcome: Outcome)
      requires Valid() && state.phase.Idle?
      modifies this
      ensures Valid() && state.phase.Idle?
      ensures outcome.ChangedReplay? <==> old(Changed(state, identity))
      ensures outcome.ChangedReplay? ==> state.sent == old(state.sent) && state.request == old(state.request)
      ensures !outcome.ChangedReplay? ==> state.request == Some(Whole(identity))
      ensures outcome.Returned? ==> state.response == Some(Whole(outcome.text))
      ensures old(state.response.Some?) ==> state.response == old(state.response) && state.sent == old(state.sent)
      ensures !old(Changed(state, identity)) && old(state.response.None?) ==>
        && outcome.Returned? == exchange.Answer?
        && (exchange.Answer? ==> outcome.text == exchange.reply)
        && state.sent == old(state.sent) + if exchange.NoConnection? then [] else [identity]
      ensures !old(Changed(state, identity)) && old(state.response.Some?) ==> outcome.Returned?
    {
      RunsAreSound(trace, state);
      Do(Call(identity));
      if state.request.Some? && state.request != Some(Whole(identity)) {
        Do(Reject);
        return ChangedReplay;
      }
      Do(Accept);
      AtomicJson(Request);
      if state.response.None? {
        var ok := SendRequest(exchange);
        if !ok {
          return Failed;
        }
      } else {
        Do(Recall);
      }
      outcome := Returned(state.response.value.text);
      Do(Return);
    }
  }
}
