/** Which turn the chat waits for, which one runs, and whether it awaits an approval, as told
    by local commands, session events and transcript snapshots; and what an interrupt does. */
module ChatTurns {
  import opened Prelude

  type TurnId = nat
  type RequestId = nat

  datatype Turns = Turns(awaited: Option<TurnId>, active: Option<TurnId>, approval: Option<RequestId>)

  const IDLE := Turns(None, None, None)

  datatype Status = Queued(turn: TurnId) | Active(turn: TurnId) | AwaitingApproval(turn: TurnId, request: RequestId)

  datatype SessionEvent =
    | InputAccepted(turn: TurnId)
    | GoalTurnRetired(turn: TurnId)
    | TurnActivated(turn: TurnId)
    | TurnTerminal(turn: TurnId)
    | ToolApprovalDecided(turn: TurnId, request: RequestId)
    | ChildTerminalized
    | OtherEvent

  /** The bounded projection of the current turn that a transcript snapshot carries. */
  datatype Snapshot = Snapshot(active: Option<(TurnId, Option<RequestId>)>, firstQueued: Option<TurnId>)

  datatype Effect = NoEffect | Activated(turn: TurnId) | ApprovalDecided | Ready

  /** Everything that moves the tracker. */
  datatype Move = Event(event: SessionEvent) | Queue(turn: TurnId) | Resync(snapshot: Snapshot)

  // ---------------------------------------------------------------------------------
  // Transitions
  // ---------------------------------------------------------------------------------

  function StatusOf(t: Turns): Option<Status> {
    if t.active.Some? && t.approval.Some? then Some(AwaitingApproval(t.active.value, t.approval.value))
    else if t.active.Some? then Some(Active(t.active.value))
    else if t.awaited.Some? then Some(Queued(t.awaited.value))
    else None
  }

  function Controllable(t: Turns): Option<TurnId> {
    if t.approval.Some? then None else t.active
  }

  function AfterEvent(t: Turns, e: SessionEvent): (Turns, Effect) {
    match e
    case InputAccepted(turn) => (if t.awaited.None? then Turns(Some(turn), None, None) else t, NoEffect)
    case GoalTurnRetired(turn) =>
      if t.awaited == Some(turn) && t.active.None? then (Turns(None, t.active, None), Ready) else (t, NoEffect)
    case TurnActivated(turn) =>
      if t.awaited.None? || t.awaited == Some(turn) then (Turns(Some(turn), Some(turn), None), Activated(turn))
      else (t, NoEffect)
    case TurnTerminal(turn) =>
      var u := if t.active == Some(turn) then Turns(t.awaited, None, None) else t;
      if u.awaited == Some(turn) then (u.(awaited := None), Ready) else (u, NoEffect)
    case ToolApprovalDecided(turn, request) =>
      (if t.active == Some(turn) && t.approval == Some(request) then t.(approval := None) else t, ApprovalDecided)
    case ChildTerminalized => (t, Ready)
    case OtherEvent => (t, NoEffect)
  }

  function AfterResync(s: Snapshot): Turns {
    match s.active
    case Some((turn, request)) => Turns(Some(turn), Some(turn), request)
    case None => Turns(s.firstQueued, None, None)
  }

  function After(t: Turns, m: Move): Turns {
    match m
    case Event(e) => AfterEvent(t, e).0
    case Queue(turn) => Turns(Some(turn), None, None)
    case Resync(s) => AfterResync(s)
  }

  function RunOf(start: Turns, moves: seq<Move>): Turns {
    if moves == [] then start else After(RunOf(start, moves[..|moves| - 1]), moves[|moves| - 1])
  }

  /** A pending approval belongs to an active turn, and the active turn is the awaited one. */
  predicate Consistent(t: Turns) {
    && (t.approval.Some? ==> t.active.Some?)
    && (t.active.Some? ==> t.awaited == t.active)
  }

  /** The turn a status is about. */
  function TurnShown(status: Option<Status>): Option<TurnId> {
    if status.Some? then Some(status.value.turn) else None
  }

  /** The status shown to the user determines a consistent tracker completely. */
  lemma StatusDeterminesTurns(t: Turns, u: Turns)
    requires Consistent(t) && Consistent(u) && StatusOf(t) == StatusOf(u)
    ensures t == u
  {
  }

  // ---------------------------------------------------------------------------------
  // The tracker as the client keeps it. A consistent tracker is determined by the status it
  // shows, so its methods say what becomes of that status.
  // ---------------------------------------------------------------------------------

  class Tracker {
    var awaited: Option<TurnId>
    var active: Option<TurnId>
    var approval: Option<RequestId>

    constructor ()
      ensures Valid() && Shown() == None
    {
      awaited, active, approval := None, None, None;
    }

    function View(): Turns
      reads this
    {
      Turns(awaited, active, approval)
    }

    predicate Valid()
      reads this
    {
      Consistent(View())
    }

    function Shown(): Option<Status>
      reads this
    {
      StatusOf(View())
    }

    /** A turn the user submitted is shown as queued, whatever was shown before. */
    method Queued(turn: TurnId)
      modifies this
      ensures Valid() && Shown() == Some(Status.Queued(turn))
    {
      awaited := Some(turn);
      active := None;
      approval := None;
    }

    /** An accepted input is shown only when nothing else is. */
    method Accepted(turn: TurnId)
      requires Valid()
      modifies this
      ensures Valid() && Shown() == if old(Shown()).None? then Some(Status.Queued(turn)) else old(Shown())
    {
      if awaited.None? {
        Queued(turn);
      }
    }

    /** A turn becomes active exactly when it is the one shown or nothing is; any other activation
        leaves what is shown alone. */
    method BecameActive(turn: TurnId) returns (changed: bool)
      requires Valid()
      modifies this
      ensures Valid()
      ensures changed <==> old(Shown()).None? || TurnShown(old(Shown())) == Some(turn)
      ensures Shown() == if changed then Some(Active(turn)) else old(Shown())
    {
      if awaited.None? || awaited == Some(turn) {
        awaited := Some(turn);
        active := Some(turn);
        approval := None;
        return true;
      }
      return false;
    }

    /** Only a turn shown as queued can be retired; then nothing is shown. */
    method Retired(turn: TurnId) returns (changed: bool)
      requires Valid()
      modifies this
      ensures Valid()
      ensures changed <==> old(Shown()) == Some(Status.Queued(turn))
      ensures Shown() == if changed then None else old(Shown())
    {
      if awaited == Some(turn) && active.None? {
        awaited := None;
        approval := None;
        return true;
      }
      return false;
    }

    /** The end of the turn shown, in whatever state, shows nothing; the end of another changes
        nothing. */
    method Terminalized(turn: TurnId) returns (changed: bool)
      requires Valid()
      modifies this
      ensures Valid()
      ensures changed <==> TurnShown(old(Shown())) == Some(turn)
      ensures Shown() == if changed then None else old(Shown())
    {
      if active == Some(turn) {
        active := None;
        approval := None;
      }
      if awaited == Some(turn) {
        awaited := None;
        return true;
      }
      return false;
    }

    /** A decision returns the turn to active exactly when that request of that turn is shown. */
    method Decided(turn: TurnId, request: RequestId) returns (changed: bool)
      requires Valid()
      modifies this
      ensures Valid()
      ensures changed <==> old(Shown()) == Some(AwaitingApproval(turn, request))
      ensures Shown() == if changed then Some(Active(turn)) else old(Shown())
    {
      if active == Some(turn) && approval == Some(request) {
        approval := None;
        return true;
      }
      return false;
    }

    /** From any state, consistent or not, a snapshot's active turn is shown with its approval, or
        else its first queued turn, or else nothing. */
    method Resynchronize(s: Snapshot)
      modifies this
      ensures Valid()
      ensures forall turn: TurnId :: Shown() == Some(Active(turn)) <==> s.active == Some((turn, None))
      ensures forall turn: TurnId, request: RequestId ::
        Shown() == Some(AwaitingApproval(turn, request)) <==> s.active == Some((turn, Some(request)))
      ensures forall turn: TurnId :: Shown() == Some(Status.Queued(turn)) <==> s.active.None? && s.firstQueued == Some(turn)
    {
      match s.active {
        case Some((turn, request)) =>
          awaited := Some(turn);
          active := Some(turn);
          approval := request;
        case None =>
          active := None;
          approval := None;
          awaited := s.firstQueued;
      }
    }

    method UpdateFromEvent(e: SessionEvent) returns (effect: Effect)
      requires Valid()
      modifies this
      ensures Valid()
      ensures (View(), effect) == AfterEvent(old(View()), e)
    {
      ghost var next := AfterEvent(View(), e).0;
      effect := NoEffect;
      match e {
        case InputAccepted(turn) =>
          Accepted(turn);
        case GoalTurnRetired(turn) =>
          var changed := Retired(turn);
          if changed { effect := Ready; }
        case TurnActivated(turn) =>
          var changed := BecameActive(turn);
          if changed { effect := Activated(turn); }
        case TurnTerminal(turn) =>
          var changed := Terminalized(turn);
          if changed { effect := Ready; }
        case ToolApprovalDecided(turn, request) =>
          var _ := Decided(turn, request);
          effect := ApprovalDecided;
        case ChildTerminalized =>
          effect := Ready;
        case OtherEvent =>
      }
      StatusDeterminesTurns(View(), next);
    }

    /** Whatever commands, events and snapshots come, the tracker follows the run and stays
        consistent. */
    method Follow(moves: seq<Move>)
      requires Valid()
      modifies this
      ensures Valid() && View() == RunOf(old(View()), moves)
    {
      for i := 0 to |moves|
        invariant Valid() && View() == RunOf(old(View()), moves[..i])
      {
        assert moves[..i + 1][..i] == moves[..i];
        match moves[i]
        case Event(e) => var _ := UpdateFromEvent(e);
        case Queue(turn) => Queued(turn);
        case Resync(s) => Resynchronize(s);
        StatusDeterminesTurns(View(), RunOf(old(View()), moves[..i + 1]));
      }
      assert moves[..|moves|] == moves;
    }
  }

  // ---------------------------------------------------------------------------------
  // What every run keeps
  // ---------------------------------------------------------------------------------

  /** However commands, events and snapshots are interleaved, the tracker stays consistent. */
  lemma {:induction false} RunsStayConsistent(start: Turns, moves: seq<Move>)
    requires Consistent(start)
    ensures Consistent(RunOf(start, moves))
  {
    if moves != [] {
      RunsStayConsistent(start, moves[..|moves| - 1]);
    }
  }

  predicate About(e: SessionEvent, turn: TurnId) {
    match e
    case InputAccepted(t) => t == turn
    case GoalTurnRetired(t) => t == turn
    case TurnActivated(t) => t == turn
    case TurnTerminal(t) => t == turn
    case ToolApprovalDecided(t, _) => t == turn
    case ChildTerminalized => false
    case OtherEvent => false
  }

  /** Once a turn is awaited, no run of events about other turns can touch it: a late event of a
      stopped or finished turn never steals or clears its successor. */
  lemma {:induction false} ForeignEventsChangeNothing(start: Turns, turn: TurnId, moves: seq<Move>)
    requires Consistent(start) && start.awaited == Some(turn)
    requires forall i | 0 <= i < |moves| :: moves[i].Event? && !About(moves[i].event, turn)
    ensures RunOf(start, moves) == start
  {
    if moves != [] {
      ForeignEventsChangeNothing(start, turn, moves[..|moves| - 1]);
    }
  }

  /** In every run from an idle chat, a turn can be stopped or steered exactly when it is shown
      as active; an approval in progress forbids both. */
  lemma ControllableIsActive(moves: seq<Move>, turn: TurnId)
    ensures Controllable(RunOf(IDLE, moves)) == Some(turn) <==> StatusOf(RunOf(IDLE, moves)) == Some(Active(turn))
  {
    RunsStayConsistent(IDLE, moves);
  }

  // ---------------------------------------------------------------------------------
  // Interrupts
  // ---------------------------------------------------------------------------------

  datatype Action = OfferStop | OfferApproval(request: RequestId) | ExitActive | ExitQueued | ExitIdle

  predicate Offerable(s: Option<Status>) {
    s.Some? && !s.value.Queued?
  }

  /** What is offered for a status that can be left. */
  function OfferFor(status: Status): Action {
    if status.AwaitingApproval? then OfferApproval(status.request) else OfferStop
  }

  /** An idle or queued chat is left at once; otherwise the first interrupt in a status makes an
      offer and the next one in the same status leaves. */
  function Interrupted(offered: Option<Status>, status: Option<Status>): (Action, Option<Status>) {
    if status.None? then (ExitIdle, None)
    else if !Offerable(status) then (ExitQueued, None)
    else (if offered == status then ExitActive else OfferFor(status.value), status)
  }

  class InterruptState {
    var offeredFor: Option<Status>

    constructor ()
      ensures Valid() && offeredFor == None
    {
      offeredFor := None;
    }

    /** An offer stands only for a turn that could be stopped or an approval that could be given. */
    predicate Valid()
      reads this
    {
      offeredFor.Some? ==> Offerable(offeredFor)
    }

    /** A running turn is left exactly when the standing offer was made for this very status; after
        any interrupt exactly the current status, if it can be left, has a standing offer. */
    method Received(status: Option<Status>) returns (action: Action)
      requires Valid()
      modifies this
      ensures Valid() && offeredFor == if Offerable(status) then status else None
      ensures action == ExitActive <==> Offerable(status) && old(offeredFor) == status
      ensures Offerable(status) && old(offeredFor) != status ==> action == OfferFor(status.value)
      ensures !Offerable(status) ==> action == if status.None? then ExitIdle else ExitQueued
      ensures (action, offeredFor) == Interrupted(old(offeredFor), status)
    {
      if offeredFor != status {
        offeredFor := None;
      }
      match status {
        case None => return ExitIdle;
        case Some(Queued(_)) => return ExitQueued;
        case Some(Active(_)) =>
          if offeredFor.None? {
            offeredFor := status;
            return OfferStop;
          }
          return ExitActive;
        case Some(AwaitingApproval(_, request)) =>
          if offeredFor.None? {
            offeredFor := status;
            return OfferApproval(request);
          }
          return ExitActive;
      }
    }

    method Reset()
      modifies this
      ensures Valid() && offeredFor == None
    {
      offeredFor := None;
    }
  }

  /** An interrupt received with some status, or a reset after the state changed. */
  datatype Signal = Interrupt(status: Option<Status>) | Reset

  function OfferAfter(signals: seq<Signal>): Option<Status> {
    if signals == [] then None
    else
      match signals[|signals| - 1]
      case Reset => None
      case Interrupt(status) => Interrupted(OfferAfter(signals[..|signals| - 1]), status).1
  }

  function ActionAt(signals: seq<Signal>, k: nat): Action
    requires k < |signals| && signals[k].Interrupt?
  {
    Interrupted(OfferAfter(signals[..k]), signals[k].status).0
  }

  /** A standing offer was made by an interrupt with the same status, and nothing but further
      interrupts with that status has come since. */
  lemma {:induction false} OfferWasMade(signals: seq<Signal>, status: Option<Status>) returns (j: nat)
    requires Offerable(status) && OfferAfter(signals) == status
    ensures j < |signals| && signals[j] == Interrupt(status)
    ensures ActionAt(signals, j).OfferStop? || ActionAt(signals, j).OfferApproval?
    ensures forall i | j <= i < |signals| :: signals[i] == Interrupt(status)
  {
    var n := |signals| - 1;
    var front := signals[..n];
    if OfferAfter(front) == status {
      j := OfferWasMade(front, status);
      assert signals[..j] == front[..j];
    } else {
      j := n;
    }
  }

  /** The chat never leaves a running turn on one interrupt: an exit is always preceded by an
      offer made for exactly the same turn and approval, undisturbed in between. */
  lemma ExitNeedsStandingOffer(signals: seq<Signal>, k: nat) returns (j: nat)
    requires k < |signals| && signals[k].Interrupt? && ActionAt(signals, k) == ExitActive
    ensures j < k && signals[j] == signals[k]
    ensures ActionAt(signals, j).OfferStop? || ActionAt(signals, j).OfferApproval?
    ensures forall i | j <= i <= k :: signals[i] == signals[k]
  {
    j := OfferWasMade(signals[..k], signals[k].status);
    assert signals[..k][..j] == signals[..j];
    forall i | j <= i <= k ensures signals[i] == signals[k] {
      if i < k {
        assert signals[..k][i] == signals[i];
      }
    }
  }
}
