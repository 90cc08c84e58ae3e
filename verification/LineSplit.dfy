/** Cutting a byte stream at line feeds. `judge` decides what becomes of one raw line; its
    second argument says whether a line feed ended it. */
module LineSplit {
  import opened Prelude
  import ClientErrors

  const LF: Byte := 10

  type Judge<!R> = (seq<Byte>, bool) -> R

  /** The position of the first line feed, or the length. */
  function Newline(s: seq<Byte>): (n: nat)
    ensures n <= |s| && (n < |s| ==> s[n] == LF) && forall k | 0 <= k < n :: s[k] != LF
  {
    NewlineFrom(s, 0)
  }

  function NewlineFrom(s: seq<Byte>, i: nat): (n: nat)
    requires i <= |s|
    ensures i <= n <= |s| && (n < |s| ==> s[n] == LF) && forall k | i <= k < n :: s[k] != LF
    decreases |s| - i
  {
    if i == |s| || s[i] == LF then i else NewlineFrom(s, i + 1)
  }

  /** Every line of a finished stream, in order; the unterminated tail counts as one. */
  function Split<R>(judge: Judge<R>, s: seq<Byte>): seq<R>
    decreases |s|
  {
    var n := Newline(s);
    if s == [] then []
    else if n < |s| then [judge(s[..n], true)] + Split(judge, s[n + 1..])
    else [judge(s, false)]
  }

  /** How the bytes that have arrived end: more may come, the sender is gone, or a read error
      is next in the channel. */
  datatype Ending = Open | Closed | Failing

  datatype Outcome<R> = Got(line: R) | End | Pending | Failed

  datatype Next<R> = Next(outcome: Outcome<R>, left: seq<Byte>)

  /** One call, on the bytes that have arrived and are not yet part of a returned line. */
  function NextOf<R>(judge: Judge<R>, s: seq<Byte>, ending: Ending): Next<R> {
    var n := Newline(s);
    if n < |s| then Next(Got(judge(s[..n], true)), s[n + 1..])
    else
      match ending
      case Open => Next(Pending, s)
      case Failing => Next(Failed, s)
      case Closed => if s == [] then Next(End, []) else Next(Got(judge(s, false)), [])
  }

  lemma NewlineIsUnique(s: seq<Byte>, n: nat)
    requires n <= |s| && (n < |s| ==> s[n] == LF) && forall k | 0 <= k < n :: s[k] != LF
    ensures Newline(s) == n
  {
  }

  lemma NoNewline(raw: seq<Byte>)
    requires LF !in raw
    ensures Newline(raw) == |raw|
  {
    NewlineIsUnique(raw, |raw|);
  }

  /** A line feed that has been seen stays the first one, whatever arrives later. */
  lemma NewlineStays(s: seq<Byte>, more: seq<Byte>)
    requires Newline(s) < |s|
    ensures Newline(s + more) == Newline(s)
    ensures (s + more)[..Newline(s)] == s[..Newline(s)]
    ensures (s + more)[Newline(s) + 1..] == s[Newline(s) + 1..] + more
  {
    NewlineIsUnique(s + more, Newline(s));
  }

  lemma NewlineAfter(raw: seq<Byte>, piece: seq<Byte>)
    requires LF !in raw && Newline(piece) < |piece|
    ensures
      var n := Newline(piece);
      && Newline(raw + piece) == |raw| + n
      && (raw + piece)[..|raw| + n] == raw + piece[..n]
      && (raw + piece)[|raw| + n + 1..] == piece[n + 1..]
  {
    NewlineIsUnique(raw + piece, |raw| + Newline(piece));
  }

  /** What a call makes of a line whose end is in the piece at hand. */
  lemma NextAtNewline<R>(judge: Judge<R>, raw: seq<Byte>, piece: seq<Byte>, rest: seq<Byte>, ending: Ending)
    requires LF !in raw && Newline(piece) < |piece|
    ensures
      var n := Newline(piece);
      NextOf(judge, raw + piece + rest, ending) == Next(Got(judge(raw + piece[..n], true)), piece[n + 1..] + rest)
  {
    var n := Newline(piece);
    NewlineAfter(raw, piece);
    NewlineStays(raw + piece, rest);
    NextIs(judge, raw + piece + rest, raw + piece[..n], piece[n + 1..] + rest, ending);
  }

  lemma NextIs<R>(judge: Judge<R>, s: seq<Byte>, line: seq<Byte>, left: seq<Byte>, ending: Ending)
    requires Newline(s) == |line| < |s| && s[..|line|] == line && s[|line| + 1..] == left
    ensures NextOf(judge, s, ending) == Next(Got(judge(line, true)), left)
  {
  }

  // ---------------------------------------------------------------------------------
  // A channel of chunks and read errors
  // ---------------------------------------------------------------------------------

  datatype Message = Chunk(bytes: seq<Byte>) | ReadError(kind: ClientErrors.IoKind)

  /** The bytes in front of the first read error. */
  function Ahead(inbox: seq<Message>): seq<Byte> {
    if inbox == [] || inbox[0].ReadError? then [] else inbox[0].bytes + Ahead(inbox[1..])
  }

  /** The messages from the first read error on. */
  function FromError(inbox: seq<Message>): (r: seq<Message>)
    ensures r == [] || r[0].ReadError?
  {
    if inbox == [] || inbox[0].ReadError? then inbox else FromError(inbox[1..])
  }

  /** All bytes in the channel, whatever errors lie between them. */
  function AllBytes(inbox: seq<Message>): seq<Byte> {
    if inbox == [] then [] else BytesOf(inbox[0]) + AllBytes(inbox[1..])
  }

  function BytesOf(m: Message): seq<Byte> {
    if m.Chunk? then m.bytes else []
  }

  lemma {:induction false} AheadAndBehind(inbox: seq<Message>)
    ensures AllBytes(inbox) == Ahead(inbox) + AllBytes(FromError(inbox))
  {
    if inbox != [] && inbox[0].Chunk? {
      AheadAndBehind(inbox[1..]);
      Associate(inbox[0].bytes, Ahead(inbox[1..]), AllBytes(FromError(inbox[1..])));
    }
  }

  lemma {:induction false} AllBytesSnoc(inbox: seq<Message>, m: Message)
    ensures AllBytes(inbox + [m]) == AllBytes(inbox) + BytesOf(m)
  {
    var all := inbox + [m];
    if inbox == [] {
      assert all[1..] == [];
    } else {
      assert all[1..] == inbox[1..] + [m];
      AllBytesSnoc(inbox[1..], m);
      Associate(BytesOf(inbox[0]), AllBytes(inbox[1..]), BytesOf(m));
    }
  }

  /** A new message joins the bytes in front of the first error, or waits behind it. */
  lemma {:induction false} AheadSnoc(inbox: seq<Message>, m: Message)
    ensures FromError(inbox) == [] && m.Chunk? ==>
      Ahead(inbox + [m]) == Ahead(inbox) + m.bytes && FromError(inbox + [m]) == []
    ensures FromError(inbox) != [] || m.ReadError? ==>
      Ahead(inbox + [m]) == Ahead(inbox) && FromError(inbox + [m]) == FromError(inbox) + [m]
  {
    var all := inbox + [m];
    if inbox == [] {
      assert all[1..] == [];
    } else if inbox[0].Chunk? {
      assert all[1..] == inbox[1..] + [m];
      AheadSnoc(inbox[1..], m);
      if m.Chunk? {
        Associate(inbox[0].bytes, Ahead(inbox[1..]), m.bytes);
      }
    }
  }

  /** The input as a reader sees it: the bytes it can still get before an error or the end, the
      messages from the first error on, and whether the sender is gone. */
  datatype Feed = Feed(pending: seq<Byte>, queue: seq<Message>, closed: bool)

  predicate WellFormed(i: Feed) {
    i.queue == [] || i.queue[0].ReadError?
  }

  function EndingOf(i: Feed): Ending {
    if i.queue != [] then Failing else if i.closed then Closed else Open
  }

  /** Everything that has arrived and is not part of a returned line. */
  function Held(i: Feed): seq<Byte> {
    i.pending + AllBytes(i.queue)
  }

  function Delivered(i: Feed, m: Message): Feed {
    if i.closed then i
    else if i.queue == [] && m.Chunk? then i.(pending := i.pending + m.bytes)
    else i.(queue := i.queue + [m])
  }

  /** A call takes its line, or the error in front of it; it never takes bytes it does not return. */
  function AfterCall<R>(i: Feed, next: Next<R>): Feed {
    if next.outcome.Failed? && i.queue != [] then
      Feed(i.pending + Ahead(i.queue[1..]), FromError(i.queue[1..]), i.closed)
    else i.(pending := next.left)
  }

  function NextIn<R>(judge: Judge<R>, i: Feed): Next<R> {
    NextOf(judge, i.pending, EndingOf(i))
  }

  lemma DeliveredHolds(i: Feed, m: Message)
    requires WellFormed(i)
    ensures WellFormed(Delivered(i, m))
    ensures Held(Delivered(i, m)) == Held(i) + if i.closed then [] else BytesOf(m)
  {
    if !i.closed {
      AllBytesSnoc(i.queue, m);
      if i.queue == [] && m.Chunk? {
        assert AllBytes([]) == [];
        assert i.pending + m.bytes + [] == i.pending + [] + m.bytes;
      } else {
        Associate(i.pending, AllBytes(i.queue), BytesOf(m));
      }
    } else {
      assert Held(i) + [] == Held(i);
    }
  }

  lemma FailureHolds(i: Feed)
    requires WellFormed(i) && i.queue != []
    ensures Held(Feed(i.pending + Ahead(i.queue[1..]), FromError(i.queue[1..]), i.closed)) == Held(i)
  {
    var rest := i.queue[1..];
    AheadAndBehind(rest);
    Associate(i.pending, Ahead(rest), AllBytes(FromError(rest)));
    assert [] + AllBytes(rest) == AllBytes(rest);
  }

  lemma SplitAtNewline<R>(judge: Judge<R>, s: seq<Byte>, more: seq<Byte>)
    requires Newline(s) < |s|
    ensures Split(judge, s + more) == [judge(s[..Newline(s)], true)] + Split(judge, s[Newline(s) + 1..] + more)
  {
    NewlineStays(s, more);
  }

  /** The line a call returns is the first of everything held, whatever follows it. */
  lemma CallSplits<R>(judge: Judge<R>, i: Feed, more: seq<Byte>)
    requires WellFormed(i) && (i.closed ==> more == [])
    ensures WellFormed(AfterCall(i, NextIn(judge, i)))
    ensures
      var next := NextIn(judge, i);
      var rest := Split(judge, Held(AfterCall(i, next)) + more);
      Split(judge, Held(i) + more) == if next.outcome.Got? then [next.outcome.line] + rest else rest
  {
    if Newline(i.pending) < |i.pending| {
      SplitsLine(judge, i.pending, AllBytes(i.queue), more);
    } else if i.queue != [] {
      FailureHolds(i);
    } else if i.closed && i.pending != [] {
      TailSplits(judge, i.pending);
      assert Held(i) + more == i.pending && [] + [] + more == [];
    }
  }

  lemma SplitsLine<R>(judge: Judge<R>, s: seq<Byte>, later: seq<Byte>, more: seq<Byte>)
    requires Newline(s) < |s|
    ensures Split(judge, s + later + more)
         == [judge(s[..Newline(s)], true)] + Split(judge, s[Newline(s) + 1..] + later + more)
  {
    Associate(s, later, more);
    Associate(s[Newline(s) + 1..], later, more);
    SplitAtNewline(judge, s, later + more);
  }

  lemma TailSplits<R>(judge: Judge<R>, s: seq<Byte>)
    requires s != [] && Newline(s) == |s|
    ensures Split(judge, s) == [judge(s, false)] + Split(judge, [])
  {
  }

  // ---------------------------------------------------------------------------------
  // Whole runs: any chunking, any interleaving of arrivals, read errors and calls
  // ---------------------------------------------------------------------------------

  /** A call to the reader, a message in the channel, or the end of input. */
  datatype Event = Arrive(message: Message) | Close | Call

  /** The reader between events, and what it has returned so far. */
  datatype State<R> = State(input: Feed, lines: seq<R>, ended: bool)

  function Step<R>(judge: Judge<R>, s: State<R>, e: Event): State<R> {
    match e
    case Arrive(message) => s.(input := Delivered(s.input, message))
    case Close => s.(input := s.input.(closed := true))
    case Call =>
      var next := NextIn(judge, s.input);
      State(AfterCall(s.input, next), if next.outcome.Got? then s.lines + [next.outcome.line] else s.lines,
            s.ended || next.outcome.End?)
  }

  function Run<R>(judge: Judge<R>, events: seq<Event>): State<R> {
    if events == [] then State(Feed([], [], false), [], false)
    else Step(judge, Run(judge, events[..|events| - 1]), events[|events| - 1])
  }

  predicate Closes(events: seq<Event>) {
    events != [] && (events[|events| - 1].Close? || Closes(events[..|events| - 1]))
  }

  /** All bytes that arrived before the end of input. */
  function Arrived(events: seq<Event>): seq<Byte> {
    if events == [] then [] else Arrived(events[..|events| - 1]) + ArrivedBy(events)
  }

  function ArrivedBy(events: seq<Event>): seq<Byte>
    requires events != []
  {
    var last := events[|events| - 1];
    if last.Arrive? && !Closes(events[..|events| - 1]) then BytesOf(last.message) else []
  }

  ghost predicate Ends<R>(s: State<R>) {
    s.ended ==> s.input.closed && Held(s.input) == []
  }

  lemma StepKeeps<R>(judge: Judge<R>, s: State<R>, e: Event)
    requires WellFormed(s.input) && Ends(s)
    ensures WellFormed(Step(judge, s, e).input) && Ends(Step(judge, s, e))
    ensures Step(judge, s, e).input.closed <==> s.input.closed || e.Close?
  {
    match e
    case Arrive(message) => DeliveredHolds(s.input, message);
    case Close =>
    case Call => EndHolds(judge, s.input);
  }

  lemma EndHolds<R>(judge: Judge<R>, i: Feed)
    requires WellFormed(i)
    ensures WellFormed(AfterCall(i, NextIn(judge, i))) && AfterCall(i, NextIn(judge, i)).closed == i.closed
    ensures NextIn(judge, i).outcome.End? ==> i.closed && Held(AfterCall(i, NextIn(judge, i))) == []
    ensures i.closed && Held(i) == [] ==> Held(AfterCall(i, NextIn(judge, i))) == []
  {
    if Newline(i.pending) == |i.pending| && i.queue != [] {
      FailureHolds(i);
    }
  }

  lemma {:induction false} RunKeeps<R>(judge: Judge<R>, events: seq<Event>, s: State<R>)
    requires s == Run(judge, events)
    ensures WellFormed(s.input) && Ends(s) && (s.input.closed <==> Closes(events))
  {
    if events != [] {
      var front := events[..|events| - 1];
      RunKeeps(judge, front, Run(judge, front));
      StepKeeps(judge, Run(judge, front), events[|events| - 1]);
    }
  }

  /** What one event does to the lines returned and the lines still to come. */
  lemma StepSplits<R>(judge: Judge<R>, s: State<R>, e: Event, arrived: seq<Byte>, more: seq<Byte>)
    requires WellFormed(s.input) && (Step(judge, s, e).input.closed ==> more == [])
    requires arrived == if e.Arrive? && !s.input.closed then BytesOf(e.message) else []
    ensures
      var t := Step(judge, s, e);
      t.lines + Split(judge, Held(t.input) + more) == s.lines + Split(judge, Held(s.input) + (arrived + more))
  {
    match e
    case Arrive(message) =>
      DeliveredHolds(s.input, message);
      Associate(Held(s.input), arrived, more);
    case Close =>
      assert arrived + more == more;
    case Call =>
      assert arrived + more == more;
      CallSplits(judge, s.input, more);
      var next := NextIn(judge, s.input);
      if next.outcome.Got? {
        Associate(s.lines, [next.outcome.line], Split(judge, Held(AfterCall(s.input, next)) + more));
      }
  }

  /** Whatever the chunks, the read errors and the calls: the lines returned so far, followed by
      the lines of what is held, are the lines of the whole stream, for every continuation of it. */
  lemma {:induction false} RunSplitsStream<R>(judge: Judge<R>, events: seq<Event>, more: seq<Byte>, s: State<R>)
    requires s == Run(judge, events) && (s.input.closed ==> more == [])
    ensures s.lines + Split(judge, Held(s.input) + more) == Split(judge, Arrived(events) + more)
    decreases |events|
  {
    if events == [] {
      assert Held(s.input) == [] && [] + Split(judge, [] + more) == Split(judge, [] + more);
    } else {
      var front, e := events[..|events| - 1], events[|events| - 1];
      var before := Run(judge, front);
      var arrived := ArrivedBy(events);
      RunKeeps(judge, front, before);
      RunSplitsStream(judge, front, arrived + more, before);
      StepSplits(judge, before, e, arrived, more);
      Associate(Arrived(front), arrived, more);
    }
  }

  /** Once a call has reported the end, every line of the input has been returned, in order
      and exactly once, whatever errors came between. */
  lemma EndMeansAllLines<R>(judge: Judge<R>, events: seq<Event>, s: State<R>)
    requires s == Run(judge, events) && s.ended
    ensures s.lines == Split(judge, Arrived(events))
  {
    RunKeeps(judge, events, s);
    RunSplitsStream(judge, events, [], s);
    assert Arrived(events) + [] == Arrived(events);
    assert Held(s.input) + [] == [] && s.lines + [] == s.lines;
  }
}
