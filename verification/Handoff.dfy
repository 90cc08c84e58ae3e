/** The channel between the thread that reads standard input and the chat loop. With capacity
    zero a send completes only after the reader has taken the chunk: one slot carries the chunk
    and a second channel carries the acknowledgement back. */
module Handoff {
  import opened Prelude

  datatype Capacity = Rendezvous | Bounded(slots: nat) | Unbounded

  /** How many chunks may be queued. */
  predicate HasRoom(c: Capacity, queued: nat) {
    match c
    case Rendezvous => queued < 1
    case Bounded(slots) => queued < slots
    case Unbounded => true
  }

  /** The producer reads the next chunk, offers it, waits for the acknowledgement where there is
      one, and stops when the other end is gone. */
  datatype Producer = Reading | Blocked(chunk: seq<Byte>) | AwaitingAck | Stopped

  /** Both ends of the channel, with what has happened on it so far. */
  datatype State = State(
    producer: Producer, queue: seq<seq<Byte>>, acks: nat, readerAlive: bool,
    offered: seq<seq<Byte>>, received: seq<seq<Byte>>, completed: nat)

  const START := State(Reading, [], 0, true, [], [], 0)

  datatype Step =
    | Read(chunk: seq<Byte>)   // the producer has a chunk to send
    | Enqueue                  // blocking_send finds room
    | Take                     // the reader polls and gets a chunk
    | Acknowledge              // the producer sees its acknowledgement
    | DropReader               // the chat loop goes away
    | NoticeDrop               // the producer's send fails
    | EndOfInput               // the producer has nothing more to send

  /** The steps that can happen, in any order the two threads take. */
  predicate Enabled(c: Capacity, s: State, step: Step) {
    match step
    case Read(_) => s.producer.Reading?
    case Enqueue => s.producer.Blocked? && s.readerAlive && HasRoom(c, |s.queue|)
    case Take => s.readerAlive && s.queue != []
    case Acknowledge => s.producer.AwaitingAck? && s.acks > 0
    case DropReader => s.readerAlive
    case NoticeDrop => !s.readerAlive && (s.producer.Blocked? || (s.producer.AwaitingAck? && s.acks == 0))
    case EndOfInput => s.producer.Reading?
  }

  function After(c: Capacity, s: State, step: Step): State {
    match step
    case Read(chunk) => s.(producer := Blocked(chunk))
    case Enqueue =>
      if !s.producer.Blocked? then s
      else
        var t := s.(queue := s.queue + [s.producer.chunk], offered := s.offered + [s.producer.chunk]);
        if c.Rendezvous? then t.(producer := AwaitingAck) else t.(producer := Reading, completed := s.completed + 1)
    case Take =>
      if s.queue == [] then s
      else
        s.(queue := s.queue[1..], received := s.received + [s.queue[0]],
           acks := if c.Rendezvous? then s.acks + 1 else s.acks)
    case Acknowledge =>
      if s.acks == 0 then s else s.(producer := Reading, acks := s.acks - 1, completed := s.completed + 1)
    case DropReader => s.(readerAlive := false)
    case NoticeDrop => s.(producer := Stopped)
    case EndOfInput => s.(producer := Stopped)
  }

  /** Every step of the run was possible when it was taken. */
  ghost predicate IsRun(c: Capacity, steps: seq<Step>) {
    steps == [] || (IsRun(c, steps[..|steps| - 1]) && Enabled(c, StateAfter(c, steps[..|steps| - 1]), steps[|steps| - 1]))
  }

  ghost function StateAfter(c: Capacity, steps: seq<Step>): State {
    if steps == [] then START else After(c, StateAfter(c, steps[..|steps| - 1]), steps[|steps| - 1])
  }

  /** Chunks are neither lost, repeated nor reordered between the two ends. */
  ghost predicate Ordered(s: State) {
    s.offered == s.received + s.queue
  }

  /** How far the producer may be ahead of the reader. */
  ghost predicate InStep(c: Capacity, s: State) {
    match c
    case Rendezvous =>
      && |s.queue| <= 1
      && s.completed + s.acks == |s.received|
      && s.completed <= |s.offered| <= s.completed + 1
      && (s.producer.Reading? || s.producer.Blocked? ==> |s.offered| == s.completed)
      && (s.producer.AwaitingAck? ==> |s.offered| == s.completed + 1)
    case Bounded(slots) => |s.queue| <= slots && Direct(s)
    case Unbounded => Direct(s)
  }

  /** Without acknowledgements a send completes as soon as its chunk is queued. */
  ghost predicate Direct(s: State) {
    s.completed == |s.offered| && s.acks == 0 && !s.producer.AwaitingAck?
  }

  lemma StepKeepsOrder(c: Capacity, s: State, step: Step)
    requires Ordered(s) && Enabled(c, s, step)
    ensures Ordered(After(c, s, step))
  {
    if step.Take? {
      assert s.queue == [s.queue[0]] + s.queue[1..];
    }
  }

  lemma StepKeepsStep(c: Capacity, s: State, step: Step)
    requires Ordered(s) && InStep(c, s) && Enabled(c, s, step)
    ensures InStep(c, After(c, s, step))
  {
  }

  lemma {:induction false} RunsKeepOrder(c: Capacity, steps: seq<Step>)
    requires IsRun(c, steps)
    ensures Ordered(StateAfter(c, steps)) && InStep(c, StateAfter(c, steps))
  {
    if steps != [] {
      var front, step := steps[..|steps| - 1], steps[|steps| - 1];
      RunsKeepOrder(c, front);
      StepKeepsOrder(c, StateAfter(c, front), step);
      StepKeepsStep(c, StateAfter(c, front), step);
    }
  }

  /** Neither end is further ahead than the channel allows. */
  ghost predicate Synchronous(s: State) {
    s.completed <= |s.received| <= |s.offered| <= s.completed + 1 && s.received <= s.offered
  }

  ghost predicate Buffered(s: State, slots: nat) {
    |s.received| <= s.completed == |s.offered| <= |s.received| + slots && s.received <= s.offered
  }

  lemma StateLimits(c: Capacity, s: State)
    requires Ordered(s) && InStep(c, s)
    ensures c.Rendezvous? ==> Synchronous(s)
    ensures c.Bounded? ==> Buffered(s, c.slots)
  {
  }

  /** In every interleaving of the zero-capacity handoff, completed sends never outnumber the
      chunks taken, at most one chunk is offered beyond the completed sends, and what has been
      received is a prefix of what was offered: no send completes before its chunk is taken.
      A buffered channel promises less: sends complete up to its capacity ahead of the reader. */
  lemma {:induction false} RunsAreSynchronous(c: Capacity, steps: seq<Step>, s: State)
    requires IsRun(c, steps) && s == StateAfter(c, steps)
    ensures c.Rendezvous? ==> Synchronous(s)
    ensures c.Bounded? ==> Buffered(s, c.slots)
  {
    RunsKeepOrder(c, steps);
    StateLimits(c, s);
  }
}
