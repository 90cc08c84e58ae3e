/** The framed connection to the daemon: newline-terminated frames of bounded length read
    from a socket that delivers bytes in arbitrary pieces, the correlation of responses with
    requests, and the bounded reconnection schedule. */
module Frames {
  import opened Prelude
  import opened LineSplit
  import opened ClientErrors

  // ---------------------------------------------------------------------------------
  // One frame, on the bytes that have arrived and are not yet part of a returned frame
  // ---------------------------------------------------------------------------------

  /** How the bytes that have arrived end. */
  datatype End = Waiting | AtEof | Broken(kind: IoKind)

  /** `NoFrameYet` is a read that was given up: the bytes so far are kept for the next call. */
  datatype Read = Frame(bytes: seq<Byte>) | NoFrameYet | Refused(error: ClientError)

  predicate TooLong(e: ClientError) {
    e == Protocol(Exceeded) || e == Protocol(Unterminated)
  }

  /** Whether the first line of a stream is longer than a frame may be. */
  predicate Oversized(s: seq<Byte>) {
    Newline(s) >= MAX_FRAME_BYTES
  }

  /** What a read yields, as a function of the bytes alone. An oversized line may be reported
      with either of two messages, depending on the pieces. */
  predicate Yields(s: seq<Byte>, end: End, r: Read) {
    var n := Newline(s);
    if Oversized(s) then r.Refused? && TooLong(r.error)
    else if n < |s| then r == Frame(s[..n + 1])
    else
      match end
      case Waiting => r == NoFrameYet
      case AtEof => r == Refused(if s == [] then ConnectionClosed else Protocol(Truncated))
      case Broken(kind) => r == Refused(if s == [] then DaemonIo(kind) else Protocol(Truncated))
  }

  /** The bytes after a read. */
  function Left(s: seq<Byte>, r: Read): seq<Byte> {
    if r.Frame? && |r.bytes| <= |s| then s[|r.bytes|..] else s
  }

  /** How the bytes in front of the first fault end. */
  function EndOf(i: Feed): End {
    if i.queue != [] && i.queue[0].ReadError? then Broken(i.queue[0].kind) else if i.closed then AtEof else Waiting
  }

  /** A read takes its frame, or the fault it reports; an oversized line and the end stay, and no
      byte is dropped in any case. */
  function AfterRead(i: Feed, r: Read): Feed {
    if r.Refused? && !Oversized(i.pending) && i.queue != [] then
      Feed(i.pending + Ahead(i.queue[1..]), FromError(i.queue[1..]), i.closed)
    else i.(pending := Left(i.pending, r))
  }

  // ---------------------------------------------------------------------------------
  // The buffered socket
  // ---------------------------------------------------------------------------------

  datatype Poll = NotReady | Available(bytes: seq<Byte>) | Error(kind: IoKind)

  class BufReader {
    var available: seq<Byte>
    var inbox: seq<Message>
    var eof: bool

    constructor ()
      ensures Valid() && View() == Feed([], [], false)
    {
      available, inbox, eof := [], [], false;
    }

    /** A read that delivers no bytes is the end of the stream, so data is never empty. */
    ghost predicate Valid()
      reads this
    {
      forall m | m in inbox :: m.Chunk? ==> m.bytes != []
    }

    ghost function Unread(): seq<Byte>
      reads this
    {
      available + Ahead(inbox)
    }

    ghost function View(): Feed
      reads this
    {
      Feed(Unread(), FromError(inbox), eof)
    }

    /** The socket has bytes, or fails. */
    method Deliver(m: Message)
      requires Valid() && (m.Chunk? ==> m.bytes != [])
      modifies this
      ensures Valid() && View() == Delivered(old(View()), m) && available == old(available)
    {
      if !eof {
        AheadSnoc(inbox, m);
        if m.Chunk? {
          Associate(available, Ahead(inbox), m.bytes);
        }
        inbox := inbox + [m];
      }
    }

    /** The daemon closes its end. */
    method Close()
      requires Valid()
      modifies this
      ensures Valid() && View() == old(View()).(closed := true) && available == old(available)
    {
      eof := true;
    }

    method FillBuf() returns (r: Poll)
      requires Valid()
      modifies this
      ensures Valid() && eof == old(eof)
      ensures !r.Error? ==> View() == old(View())
      ensures r.Available? ==> r.bytes == available && (r.bytes == [] ==> Unread() == [] && EndOf(View()) == AtEof)
      ensures r.NotReady? ==> Unread() == [] && EndOf(View()) == Waiting
      ensures r.Error? ==> old(Unread()) == available == [] && EndOf(old(View())) == Broken(r.kind)
      ensures r.Error? ==> old(View()).queue != [] && old(View()).queue[1..] == inbox
    {
      if available == [] {
        if inbox == [] {
          return if eof then Available([]) else NotReady;
        }
        var message := inbox[0];
        inbox := inbox[1..];
        match message {
          case Chunk(bytes) => available := bytes;
          case ReadError(kind) => return Error(kind);
        }
      }
      r := Available(available);
    }

    method Consume(count: nat)
      requires Valid() && count <= |available|
      modifies this`available
      ensures Valid() && available == old(available)[count..] && Unread() == old(Unread())[count..]
    {
      available := available[count..];
    }
  }

  // ---------------------------------------------------------------------------------
  // The incremental reader
  // ---------------------------------------------------------------------------------

  class FrameReader {
    const reader: BufReader
    var partial: seq<Byte>

    constructor (reader: BufReader)
      requires reader.Valid()
      ensures this.reader == reader && partial == [] && Valid()
    {
      this.reader, partial := reader, [];
    }

    /** The partial line never reaches the bound and never holds a line feed. */
    ghost predicate Valid()
      reads this, reader
    {
      reader.Valid() && |partial| < MAX_FRAME_BYTES && LF !in partial
    }

    ghost function Stream(): seq<Byte>
      reads this, reader
    {
      partial + reader.Unread()
    }

    /** The whole input, the partial line included. */
    ghost function View(): Feed
      reads this, reader
    {
      reader.View().(pending := Stream())
    }

    /** Works off the bytes at hand: a whole frame, a refusal, or nothing yet. */
    method TakePiece(available: seq<Byte>, ghost end: End) returns (r: Option<Read>)
      requires Valid() && available == reader.available != []
      modifies this, reader`available
      ensures Valid()
      ensures r.None? ==> Stream() == old(Stream()) && |reader.Unread()| < |old(reader.Unread())|
      ensures r.Some? ==> !r.value.NoFrameYet? && Yields(old(Stream()), end, r.value)
      ensures r.Some? ==> Stream() == Left(old(Stream()), r.value) && (r.value.Refused? ==> Oversized(old(Stream())))
    {
      ghost var rest := Ahead(reader.inbox);
      PieceYields(partial, available, rest, end);
      var newline := Newline(available);
      if newline < |available| {
        var consumed := newline + 1;
        if |partial| + consumed > MAX_FRAME_BYTES {
          return Some(Refused(Protocol(Exceeded)));
        }
        var line := partial + available[..consumed];
        reader.Consume(consumed);
        partial := [];
        return Some(Frame(line));
      }
      if |partial| + |available| >= MAX_FRAME_BYTES {
        return Some(Refused(Protocol(Unterminated)));
      }
      partial := partial + available;
      reader.Consume(|available|);
      r := None;
    }

    /** Reads one frame. The result depends only on the bytes and on how they end, never on the
        pieces they came in or on earlier reads that were given up part-way; and no read drops a
        byte it does not return, a refused one included. */
    method ReadFrameLine() returns (r: Read)
      requires Valid()
      modifies this, reader
      ensures Valid()
      ensures Yields(old(Stream()), EndOf(old(View())), r)
      ensures View() == AfterRead(old(View()), r)
    {
      ghost var before := View();
      while true
        invariant Valid() && View() == before
        decreases |reader.Unread()|
      {
        var polled := reader.FillBuf();
        if !polled.Available? || polled.bytes == [] {
          r := Stop(polled, before);
          return;
        }
        var piece := TakePiece(polled.bytes, EndOf(before));
        if piece.Some? {
          return piece.value;
        }
      }
    }

    /** There are no bytes at hand: the input is idle, ended or broken. */
    method Stop(polled: Poll, ghost before: Feed) returns (r: Read)
      requires Valid() && reader.available == [] && before.pending == partial
      requires polled.NotReady? ==> EndOf(before) == Waiting && View() == before
      requires polled.Available? ==> polled.bytes == [] && EndOf(before) == AtEof && View() == before
      requires polled.Error? ==> EndOf(before) == Broken(polled.kind)
      requires polled.Error? ==> before.queue != [] && before.queue[1..] == reader.inbox && before.closed == reader.eof
      ensures Yields(before.pending, EndOf(before), r) && View() == AfterRead(before, r)
    {
      NoNewline(partial);
      assert [] + Ahead(reader.inbox) == Ahead(reader.inbox);
      match polled
      case NotReady => r := NoFrameYet;
      case Error(kind) => r := Refused(if partial == [] then DaemonIo(kind) else Protocol(Truncated));
      case Available(_) => r := Refused(if partial == [] then ConnectionClosed else Protocol(Truncated));
    }

    /** Whatever pieces and faults the socket delivers and whenever reads are started and given up in
        between: the frames returned are complete lines within the bound and, with what is still held,
        are exactly the bytes that arrived, in order. */
    method Drive(events: seq<Event>) returns (frames: seq<seq<Byte>>)
      requires Valid() && View() == Feed([], [], false)
      requires forall i | 0 <= i < |events| && events[i].Arrive? :: Solid(events[i].message)
      modifies this, reader
      ensures Valid() && FrameState(View(), frames) == FrameRun(events)
      ensures Flatten(frames) + Held(View()) == Arrived(events)
      ensures forall i | 0 <= i < |frames| :: IsFrame(frames[i])
    {
      frames := [];
      for i := 0 to |events|
        invariant Valid() && FrameState(View(), frames) == FrameRun(events[..i])
      {
        assert events[..i + 1][..i] == events[..i];
        frames := Handle(events[i], frames);
      }
      assert events[..|events|] == events;
      FramesConserveBytes(events, FrameState(View(), frames));
    }

    /** One event of a run. */
    method Handle(e: Event, frames: seq<seq<Byte>>) returns (frames': seq<seq<Byte>>)
      requires Valid() && (e.Arrive? ==> Solid(e.message))
      modifies this, reader
      ensures Valid() && FrameState(View(), frames') == FrameStep(FrameState(old(View()), frames), e)
    {
      frames' := frames;
      match e
      case Arrive(message) =>
        assert partial + (reader.Unread() + BytesOf(message)) == Stream() + BytesOf(message);
        reader.Deliver(message);
      case Close =>
        reader.Close();
      case Call =>
        ghost var before := View();
        var r := ReadFrameLine();
        ReadsFrameIn(before.pending, EndOf(before), r);
        if r.Frame? {
          frames' := frames + [r.bytes];
        }
    }
  }

  /** A message a socket can deliver. */
  predicate Solid(m: Message) {
    m.Chunk? ==> m.bytes != []
  }

  lemma NewlineBeyond(partial: seq<Byte>, piece: seq<Byte>, rest: seq<Byte>)
    requires LF !in partial && Newline(piece) == |piece|
    ensures Newline(partial + (piece + rest)) >= |partial| + |piece| && LF !in piece
    ensures partial + piece + rest == partial + (piece + rest)
  {
    var s := partial + (piece + rest);
    assert forall k | 0 <= k < |partial| + |piece| :: s[k] != LF;
  }

  /** What the bytes at hand settle about the whole stream. */
  lemma PieceYields(partial: seq<Byte>, piece: seq<Byte>, rest: seq<Byte>, end: End)
    requires LF !in partial
    ensures
      var n, s := Newline(piece), partial + (piece + rest);
      && (n < |piece| && |partial| + n + 1 > MAX_FRAME_BYTES ==> Oversized(s))
      && (n < |piece| && |partial| + n + 1 <= MAX_FRAME_BYTES ==>
            var frame := Frame(partial + piece[..n + 1]);
            Yields(s, end, frame) && Left(s, frame) == [] + (piece[n + 1..] + rest))
      && (n == |piece| && |partial| + |piece| >= MAX_FRAME_BYTES ==> Oversized(s))
      && (n == |piece| ==> LF !in piece && partial + piece + ([] + rest) == s)
  {
    if Newline(piece) < |piece| {
      PieceEndsLine(partial, piece, rest);
    } else {
      NewlineBeyond(partial, piece, rest);
      assert [] + rest == rest;
    }
  }

  lemma PieceEndsLine(partial: seq<Byte>, piece: seq<Byte>, rest: seq<Byte>)
    requires LF !in partial && Newline(piece) < |piece|
    ensures
      var n, s := Newline(piece), partial + (piece + rest);
      && Newline(s) == |partial| + n
      && s[..|partial| + n + 1] == partial + piece[..n + 1]
      && s[|partial| + n + 1..] == [] + (piece[n + 1..] + rest)
  {
    var n, s := Newline(piece), partial + (piece + rest);
    NewlineAfter(partial, piece);
    NewlineStays(partial + piece, rest);
    Associate(partial, piece, rest);
    assert s[..|partial| + n + 1] == partial + piece[..n + 1];
    assert s[|partial| + n + 1..] == piece[n + 1..] + rest == [] + (piece[n + 1..] + rest);
  }
  // ---------------------------------------------------------------------------------
  // Whole runs: any pieces, any number of abandoned reads
  // ---------------------------------------------------------------------------------

  /** The frame a read returns from these bytes, if it returns one. */
  function FrameIn(s: seq<Byte>): Option<seq<Byte>> {
    var n := Newline(s);
    if n < |s| && n < MAX_FRAME_BYTES then Some(s[..n + 1]) else None
  }

  lemma ReadsFrameIn(s: seq<Byte>, end: End, r: Read)
    requires Yields(s, end, r)
    ensures r.Frame? <==> FrameIn(s).Some?
    ensures r.Frame? ==> r.bytes == FrameIn(s).value && Left(s, r) == s[|r.bytes|..]
  {
  }

  /** The input, and the frames returned so far. */
  datatype FrameState = FrameState(input: Feed, frames: seq<seq<Byte>>)

  /** The input after a read that returns no frame. */
  function Unframed(i: Feed): Feed {
    if Oversized(i.pending) || i.queue == [] then i
    else Feed(i.pending + Ahead(i.queue[1..]), FromError(i.queue[1..]), i.closed)
  }

  function FrameStep(s: FrameState, e: Event): FrameState {
    match e
    case Arrive(message) => s.(input := Delivered(s.input, message))
    case Close => s.(input := s.input.(closed := true))
    case Call =>
      match FrameIn(s.input.pending)
      case None => s.(input := Unframed(s.input))
      case Some(f) => FrameState(s.input.(pending := s.input.pending[|f|..]), s.frames + [f])
  }

  function FrameRun(events: seq<Event>): FrameState {
    if events == [] then FrameState(Feed([], [], false), [])
    else FrameStep(FrameRun(events[..|events| - 1]), events[|events| - 1])
  }

  /** A frame: one line, with its line feed, within the bound. */
  ghost predicate IsFrame(f: seq<Byte>) {
    0 < |f| <= MAX_FRAME_BYTES && Newline(f) == |f| - 1
  }

  lemma FrameInIsFrame(s: seq<Byte>)
    requires FrameIn(s).Some?
    ensures IsFrame(FrameIn(s).value) && FrameIn(s).value <= s
  {
    NewlineIsUnique(FrameIn(s).value, Newline(s));
  }

  ghost predicate AllFrames(frames: seq<seq<Byte>>) {
    forall i | 0 <= i < |frames| :: IsFrame(frames[i])
  }

  /** Complete lines within the bound, which with the bytes still held are the bytes sent, in order. */
  ghost predicate Conserves(s: FrameState, sent: seq<Byte>) {
    Flatten(s.frames) + Held(s.input) == sent && AllFrames(s.frames) && WellFormed(s.input)
  }

  lemma TakenConserves(s: FrameState, f: seq<Byte>, sent: seq<Byte>)
    requires Conserves(s, sent) && FrameIn(s.input.pending) == Some(f)
    ensures Conserves(FrameState(s.input.(pending := s.input.pending[|f|..]), s.frames + [f]), sent)
  {
    FrameInIsFrame(s.input.pending);
    FlattenSnoc(s.frames, f);
    var rest, later := s.input.pending[|f|..], AllBytes(s.input.queue);
    assert s.input.pending == f + rest;
    Associate(f, rest, later);
    Associate(Flatten(s.frames), f, rest + later);
  }

  lemma UnframedConserves(s: FrameState, sent: seq<Byte>)
    requires Conserves(s, sent)
    ensures Conserves(s.(input := Unframed(s.input)), sent)
  {
    if !Oversized(s.input.pending) && s.input.queue != [] {
      FailureHolds(s.input);
    }
  }

  lemma ArrivalConserves(s: FrameState, m: Message, sent: seq<Byte>)
    requires Conserves(s, sent)
    ensures Conserves(s.(input := Delivered(s.input, m)), sent + if s.input.closed then [] else BytesOf(m))
  {
    DeliveredHolds(s.input, m);
    Associate(Flatten(s.frames), Held(s.input), if s.input.closed then [] else BytesOf(m));
  }

  lemma StepConserves(s: FrameState, e: Event, sent: seq<Byte>)
    requires Conserves(s, sent)
    ensures Conserves(FrameStep(s, e), sent + if e.Arrive? && !s.input.closed then BytesOf(e.message) else [])
    ensures FrameStep(s, e).input.closed <==> s.input.closed || e.Close?
  {
    assert sent + [] == sent;
    match e
    case Arrive(message) => ArrivalConserves(s, message, sent);
    case Close =>
    case Call =>
      if FrameIn(s.input.pending).Some? {
        TakenConserves(s, FrameIn(s.input.pending).value, sent);
      } else {
        UnframedConserves(s, sent);
      }
  }

  /** In every run the frames returned are complete lines within the bound, and together with
      the bytes still held they are exactly the bytes that arrived, in order. */
  lemma {:induction false} FramesConserveBytes(events: seq<Event>, s: FrameState)
    requires s == FrameRun(events)
    ensures Conserves(s, Arrived(events)) && (s.input.closed <==> Closes(events))
  {
    if events != [] {
      var front := events[..|events| - 1];
      FramesConserveBytes(front, FrameRun(front));
      StepConserves(FrameRun(front), events[|events| - 1], Arrived(front));
    }
  }

  /** A line that has outgrown the bound is refused for good, whatever arrives later. */
  lemma OversizedStays(s: seq<Byte>, more: seq<Byte>)
    requires Oversized(s)
    ensures Oversized(s + more) && FrameIn(s + more).None?
  {
    assert forall k | 0 <= k < MAX_FRAME_BYTES :: (s + more)[k] == s[k] != LF;
  }

  // ---------------------------------------------------------------------------------
  // Reconnecting
  // ---------------------------------------------------------------------------------

  predicate Disconnected(e: ClientError) {
    e.ConnectionClosed? || (e.DaemonIo? && e.kind != OtherKind)
  }

  /** The finite schedule, in milliseconds. */
  const DELAYS: seq<nat> := [250, 750, 2000]

  function Least(a: nat, b: nat): nat {
    if a < b then a else b
  }

  class FollowRetry {
    var failures: nat
    /** The delays granted so far, and the disconnections reported. */
    ghost var granted: seq<nat>
    ghost var disconnections: nat

    constructor ()
      ensures Valid() && disconnections == 0
    {
      failures, granted, disconnections := 0, [], 0;
    }

    /** The schedule has been granted in order, once per disconnection while it lasted. */
    ghost predicate Valid()
      reads this
    {
      && failures == |granted| == Least(disconnections, |DELAYS|)
      && granted == DELAYS[..failures]
    }

    /** A delay is granted exactly for a disconnection while the schedule lasts; any other error, and
        every error after the third delay, goes back to the caller. */
    method NextDelay(error: ClientError) returns (r: Result<nat, ClientError>)
      requires Valid()
      modifies this
      ensures Valid() && disconnections == old(disconnections) + if Disconnected(error) then 1 else 0
      ensures r.Ok? <==> Disconnected(error) && old(disconnections) < |DELAYS|
      ensures r.Ok? ==> granted == old(granted) + [r.value]
      ensures r.Err? ==> r.error == error && granted == old(granted)
    {
      if Disconnected(error) {
        disconnections := disconnections + 1;
      }
      if !Disconnected(error) || failures == |DELAYS| {
        return Err(error);
      }
      assert DELAYS[..failures] + [DELAYS[failures]] == DELAYS[..failures + 1];
      r := Ok(DELAYS[failures]);
      granted := granted + [DELAYS[failures]];
      failures := failures + 1;
    }

    /** Over any sequence of errors the object grants the schedule in order, once: as many delays as
        there were disconnections, but never more than three. */
    method NextDelays(errors: seq<ClientError>) returns (delays: seq<nat>)
      requires Valid() && disconnections == 0
      modifies this
      ensures Valid() && delays == DELAYS[..Least(CountDisconnected(errors, |errors|), |DELAYS|)]
    {
      delays := [];
      for i := 0 to |errors|
        invariant Valid() && delays == granted && disconnections == CountDisconnected(errors, i)
      {
        var r := NextDelay(errors[i]);
        if r.Ok? {
          delays := delays + [r.value];
        }
      }
    }
  }

  /** How many of the first n errors are disconnections. */
  function CountDisconnected(errors: seq<ClientError>, n: nat): nat
    requires n <= |errors|
  {
    if n == 0 then 0 else CountDisconnected(errors, n - 1) + if Disconnected(errors[n - 1]) then 1 else 0
  }

  /** A refused read counts as a disconnection, and so may be retried, exactly when nothing of a frame
      had arrived and the stream ended or broke as a lost connection does: a stream that ends inside a
      frame, and an oversized one, never do. */
  lemma TruncationIsNotRetried(s: seq<Byte>, end: End, r: Read)
    requires Yields(s, end, r) && r.Refused?
    ensures Disconnected(r.error) <==> s == [] && (end == AtEof || (end.Broken? && end.kind != OtherKind))
  {
  }

  // ---------------------------------------------------------------------------------
  // Request identities
  // ---------------------------------------------------------------------------------

  class ProcessClient {
    var nextRequestId: nat

    constructor ()
      ensures nextRequestId == 1
    {
      nextRequestId := 1;
    }

    /** Issues an identity; exhaustion is an error and changes nothing. */
    method NextRequestId() returns (r: Option<nat>)
      requires 0 < nextRequestId <= U64_MAX
      modifies this
      ensures 0 < nextRequestId <= U64_MAX
      ensures r == if old(nextRequestId) < U64_MAX then Some(old(nextRequestId)) else None
      ensures nextRequestId == old(nextRequestId) + if r.Some? then 1 else 0
    {
      if nextRequestId == U64_MAX {
        return None;
      }
      r := Some(nextRequestId);
      nextRequestId := nextRequestId + 1;
    }
  }

  /** A response that was taken, with the number of requests written before it. */
  datatype Acceptance = Acceptance(identity: nat, after: nat)

  class Connection {
    const client: ProcessClient
    var requestId: nat
    /** Every identity written over the connection, and every response taken from it. */
    ghost var written: seq<nat>
    ghost var accepted: seq<Acceptance>

    /** A connection is opened by a written request. */
    constructor (client: ProcessClient, requestId: nat)
      requires 0 < requestId < client.nextRequestId <= U64_MAX
      ensures Valid() && this.client == client && written == [requestId] && accepted == []
    {
      this.client, this.requestId := client, requestId;
      written, accepted := [requestId], [];
    }

    /** Written identities strictly increase, and each response was taken for the request last written
        before it. */
    ghost predicate Valid()
      reads this, client
    {
      && written != [] && requestId == written[|written| - 1] < client.nextRequestId <= U64_MAX
      && (forall i, j | 0 <= i < j < |written| :: written[i] < written[j])
      && (forall k | 0 <= k < |accepted| ::
            0 < accepted[k].after <= |written| && accepted[k].identity == written[accepted[k].after - 1])
    }

    /** Sends a further request. Only a request that was written is waited for, under an identity never
        used before on the connection. */
    method Send(writes: bool) returns (ok: bool)
      requires Valid() && 0 < client.nextRequestId
      modifies this, client
      ensures Valid() && 0 < client.nextRequestId && accepted == old(accepted)
      ensures ok <==> writes && old(client.nextRequestId) < U64_MAX
      ensures !ok ==> written == old(written)
      ensures ok ==> |written| == |old(written)| + 1 && old(written) <= written && requestId !in old(written)
    {
      var id := client.NextRequestId();
      ok := id.Some? && writes;
      if ok {
        requestId := id.value;
        written := written + [requestId];
      }
    }

    /** A response is taken exactly when it carries the identity of the request last written. */
    method Receive(identity: nat) returns (ok: bool)
      requires Valid()
      modifies this
      ensures Valid() && written == old(written)
      ensures ok <==> identity == written[|written| - 1]
      ensures accepted == if ok then old(accepted) + [Acceptance(identity, |written|)] else old(accepted)
    {
      ok := identity == requestId;
      if ok {
        accepted := accepted + [Acceptance(identity, |written|)];
      }
    }

    /** In every exchange of requests, writes that fail and responses that may carry any identity, a late
        answer to an earlier request is never taken for the answer to a later one. */
    method Converse(exchanges: seq<Exchange>)
      requires Valid() && 0 < client.nextRequestId
      modifies this, client
      ensures Valid() && old(written) <= written && old(accepted) <= accepted
    {
      for i := 0 to |exchanges|
        invariant Valid() && 0 < client.nextRequestId && old(written) <= written && old(accepted) <= accepted
      {
        match exchanges[i]
        case Request(writes) => var _ := Send(writes);
        case Response(identity) => var _ := Receive(identity);
      }
    }
  }

  /** A request sent over the connection, which may fail to be written, or a response with some
      identity. */
  datatype Exchange = Request(writes: bool) | Response(identity: nat)
}
