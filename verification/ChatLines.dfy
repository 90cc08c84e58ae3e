/** Terminal input for the chat loop: chunks arrive from a thread over a channel, and lines
    of bounded length are cut out of them, however the chunks happen to fall. */
module ChatLines {
  import opened Prelude
  import opened LineSplit
  import ClientErrors

  const MAX_CHAT_LINE_BYTES := ClientErrors.MAX_FRAME_BYTES / 4 * 3 + 7
  const CR: Byte := 13

  // ---------------------------------------------------------------------------------
  // Reference: the lines of a whole stream
  // ---------------------------------------------------------------------------------

  predicate Continuation(b: Byte) {
    128 <= b < 192
  }

  /** Well-formed UTF-8: no overlong forms, no surrogates, nothing above U+10FFFF. */
  predicate ValidUtf8(s: seq<Byte>) {
    if s == [] then true
    else if s[0] < 128 then ValidUtf8(s[1..])
    else if 194 <= s[0] < 224 then |s| >= 2 && Continuation(s[1]) && ValidUtf8(s[2..])
    else if 224 <= s[0] < 240 then
      && |s| >= 3 && Continuation(s[1]) && Continuation(s[2])
      && (s[0] == 224 ==> s[1] >= 160) && (s[0] == 237 ==> s[1] < 160)
      && ValidUtf8(s[3..])
    else if 240 <= s[0] < 245 then
      && |s| >= 4 && Continuation(s[1]) && Continuation(s[2]) && Continuation(s[3])
      && (s[0] == 240 ==> s[1] >= 144) && (s[0] == 244 ==> s[1] < 144)
      && ValidUtf8(s[4..])
    else false
  }

  datatype LineRead = Line(text: seq<Byte>) | TooLong | NotUtf8

  /** What becomes of one raw line: the bytes up to a line feed, or the unterminated tail. */
  function Classify(raw: seq<Byte>, terminated: bool): LineRead {
    if |raw| > MAX_CHAT_LINE_BYTES then TooLong
    else
      var line := if terminated && raw != [] && raw[|raw| - 1] == CR then raw[..|raw| - 1] else raw;
      if ValidUtf8(line) then Line(line) else NotUtf8
  }

  function LineJudge(): Judge<LineRead> {
    (raw, terminated) => Classify(raw, terminated)
  }

  // ---------------------------------------------------------------------------------
  // The channel end
  // ---------------------------------------------------------------------------------

  datatype Poll = NotReady | Available(bytes: seq<Byte>) | Error

  class TerminalInput {
    var inbox: seq<Message>
    var closed: bool
    var chunk: seq<Byte>
    var consumed: nat

    constructor ()
      ensures Valid() && chunk == [] && consumed == 0 && inbox == [] && !closed
    {
      inbox, closed, chunk, consumed := [], false, [], 0;
    }

    ghost predicate Valid()
      reads this
    {
      consumed <= |chunk|
    }

    /** The bytes the reader can still get before an error or the end. */
    ghost function Unread(): seq<Byte>
      requires Valid()
      reads this
    {
      chunk[consumed..] + Ahead(inbox)
    }

    ghost function Ends(): Ending
      reads this
    {
      EndingOf(Feed([], FromError(inbox), closed))
    }

    /** The sending thread puts a chunk or a read error into the channel. */
    method Deliver(m: Message)
      requires Valid()
      modifies this
      ensures Valid() && closed == old(closed)
      ensures Feed(Unread(), FromError(inbox), closed) == Delivered(old(Feed(Unread(), FromError(inbox), closed)), m)
    {
      if !closed {
        AheadSnoc(inbox, m);
        if m.Chunk? {
          Associate(chunk[consumed..], Ahead(inbox), m.bytes);
        }
        inbox := inbox + [m];
      }
    }

    /** The sending thread is gone. */
    method Close()
      requires Valid()
      modifies this
      ensures Valid() && closed && Unread() == old(Unread()) && FromError(inbox) == old(FromError(inbox))
    {
      closed := true;
    }

    /** Yields unconsumed bytes, taking chunks off the channel until one is not empty. No bytes
        means the end of input, which an empty chunk never is. */
    method FillBuf() returns (r: Poll)
      requires Valid()
      modifies this
      ensures Valid() && closed == old(closed)
      ensures !r.Error? ==> Unread() == old(Unread()) && FromError(inbox) == old(FromError(inbox))
      ensures r.Available? ==> r.bytes == chunk[consumed..] && (r.bytes == [] ==> Unread() == [] && Ends() == Closed)
      ensures r.NotReady? ==> Unread() == [] && Ends() == Open
      ensures r.Error? ==> old(Unread()) == [] && chunk[consumed..] == [] && old(FromError(inbox)) != [] && old(FromError(inbox))[1..] == inbox
    {
      while true
        invariant Valid() && closed == old(closed)
        invariant Unread() == old(Unread()) && FromError(inbox) == old(FromError(inbox))
        decreases |inbox|
      {
        if consumed < |chunk| {
          return Available(chunk[consumed..]);
        }
        if inbox == [] {
          return if closed then Available([]) else NotReady;
        }
        var message := inbox[0];
        inbox := inbox[1..];
        match message {
          case Chunk(bytes) =>
            chunk, consumed := bytes, 0;
          case ReadError(_) =>
            return Error;
        }
      }
    }

    /** Takes bytes off the front of what is unread; a surplus amount stops at the end of the chunk,
        so nothing that was not offered is ever skipped. */
    method Consume(amount: nat)
      requires Valid()
      modifies this`consumed
      ensures Valid()
      ensures
        var taken := if amount < |old(chunk[consumed..])| then amount else |old(chunk[consumed..])|;
        chunk[consumed..] == old(chunk[consumed..])[taken..] && Unread() == old(Unread())[taken..]
    {
      consumed := if consumed + amount < |chunk| then consumed + amount else |chunk|;
    }
  }

  // ---------------------------------------------------------------------------------
  // The line reader
  // ---------------------------------------------------------------------------------

  /** The part of a raw line that is kept. */
  function Kept(raw: seq<Byte>): seq<Byte> {
    if |raw| <= MAX_CHAT_LINE_BYTES then raw else raw[..MAX_CHAT_LINE_BYTES]
  }

  class BoundedLines {
    const reader: TerminalInput
    var buffer: seq<Byte>
    var discarding: bool
    /** The bytes of the current line consumed so far. */
    ghost var raw: seq<Byte>

    constructor (reader: TerminalInput)
      requires reader.Valid()
      ensures this.reader == reader && Valid() && raw == []
    {
      this.reader := reader;
      buffer, discarding, raw := [], false, [];
    }

    /** The buffer holds the current line, cut off at the bound. */
    ghost predicate Valid()
      reads this, reader
    {
      reader.Valid() && buffer == Kept(raw) && (discarding <==> |raw| > MAX_CHAT_LINE_BYTES) && LF !in raw
    }

    /** What has arrived in front of an error or the end and is not yet part of a returned line. */
    ghost function Stream(): seq<Byte>
      requires Valid()
      reads this, reader
    {
      raw + reader.Unread()
    }

    /** The whole input, as it stands between calls. */
    ghost function View(): Feed
      requires Valid()
      reads this, reader
    {
      Feed(Stream(), FromError(reader.inbox), reader.closed)
    }

    method TakeLine(strip: bool) returns (line: LineRead)
      requires Valid() && !discarding
      modifies this
      ensures Valid() && raw == [] && line == Classify(old(raw), strip)
    {
      if strip && buffer != [] && buffer[|buffer| - 1] == CR {
        buffer := buffer[..|buffer| - 1];
      }
      line := if ValidUtf8(buffer) then Line(buffer) else NotUtf8;
      buffer, raw := [], [];
    }

    /** Ends the current line: an over-long one is rejected, once. */
    method Finish(terminated: bool) returns (line: LineRead)
      requires Valid()
      modifies this
      ensures Valid() && raw == [] && line == LineJudge()(old(raw), terminated)
    {
      if discarding {
        discarding, buffer, raw := false, [], [];
        line := TooLong;
      } else {
        line := TakeLine(terminated);
      }
    }

    /** Adds the content of one piece to the current line, as far as the bound allows. */
    method Absorb(content: seq<Byte>)
      requires Valid() && LF !in content
      modifies this
      ensures Valid() && raw == old(raw) + content
    {
      if !discarding {
        var remaining := if |buffer| < MAX_CHAT_LINE_BYTES then MAX_CHAT_LINE_BYTES - |buffer| else 0;
        var copied := if |content| < remaining then |content| else remaining;
        buffer := buffer + content[..copied];
        if copied < |content| {
          discarding := true;
        }
      }
      raw := raw + content;
    }

    /** The bytes at hand end the current line. */
    method TakeToNewline(available: seq<Byte>, newline: nat, ghost ending: Ending) returns (line: LineRead)
      requires Valid() && available == reader.chunk[reader.consumed..]
      requires newline == Newline(available) < |available|
      modifies this, reader`consumed
      ensures Valid() && Next(Got(line), Stream()) == NextOf(LineJudge(), old(Stream()), ending)
    {
      ghost var rest := Ahead(reader.inbox);
      NextAtNewline(LineJudge(), raw, available, rest, ending);
      Associate(raw, available, rest);
      Absorb(available[..newline]);
      reader.Consume(newline + 1);
      line := Finish(true);
      assert Stream() == available[newline + 1..] + rest;
    }

    /** The bytes at hand all belong to the current line. */
    method TakeAll(available: seq<Byte>)
      requires Valid() && available == reader.chunk[reader.consumed..] != []
      requires Newline(available) == |available|
      modifies this, reader`consumed
      ensures Valid() && Stream() == old(Stream()) && |reader.Unread()| < |old(reader.Unread())|
    {
      Associate(raw, available, Ahead(reader.inbox));
      Absorb(available);
      reader.Consume(|available|);
    }

    /** Works off the bytes at hand, up to and including the first line feed among them. */
    method TakePiece(available: seq<Byte>, ghost ending: Ending) returns (line: Option<LineRead>)
      requires Valid() && available == reader.chunk[reader.consumed..] != []
      modifies this, reader`consumed
      ensures Valid()
      ensures line.None? ==> Stream() == old(Stream()) && |reader.Unread()| < |old(reader.Unread())|
      ensures line.Some? ==> Next(Got(line.value), Stream()) == NextOf(LineJudge(), old(Stream()), ending)
    {
      var newline := Newline(available);
      if newline < |available| {
        var taken := TakeToNewline(available, newline, ending);
        line := Some(taken);
      } else {
        TakeAll(available);
        line := None;
      }
    }

    /** What is left of the current line when the input ends. */
    method TakeTail() returns (r: Outcome<LineRead>)
      requires Valid() && reader.Unread() == []
      modifies this
      ensures Valid() && reader.Unread() == []
      ensures Next(r, Stream()) == NextOf(LineJudge(), old(Stream()), Closed)
    {
      NoNewline(raw);
      assert raw + [] == raw;
      if !discarding && buffer == [] {
        r := End;
      } else {
        var line := Finish(false);
        r := Got(line);
      }
    }

    /** The next line, or the end, or an error, or nothing yet. A call that finds nothing or meets an
        error keeps what it has read, so a caller may abandon it and call again. */
    method NextLine() returns (r: Outcome<LineRead>)
      requires Valid()
      modifies this, reader
      ensures Valid() && |buffer| <= MAX_CHAT_LINE_BYTES
      ensures
        var next := NextIn(LineJudge(), old(View()));
        r == next.outcome && View() == AfterCall(old(View()), next)
    {
      ghost var before := View();
      while true
        invariant Valid() && View() == before
        decreases |reader.Unread()|
      {
        var polled := reader.FillBuf();
        if !polled.Available? || polled.bytes == [] {
          r := Stop(polled, before);
          return;
        }
        var line := TakePiece(polled.bytes, EndingOf(before));
        if line.Some? {
          return Got(line.value);
        }
      }
    }

    /** There are no bytes at hand: the input is idle, broken or ended. */
    method Stop(polled: Poll, ghost before: Feed) returns (r: Outcome<LineRead>)
      requires Valid() && before.pending == raw && reader.chunk[reader.consumed..] == []
      requires polled.Available? ==> polled.bytes == [] && reader.Unread() == [] && EndingOf(before) == Closed
      requires polled.NotReady? ==> EndingOf(before) == Open
      requires !polled.Error? ==> View() == before
      requires polled.Error? ==> before.queue != [] && before.queue[1..] == reader.inbox && before.closed == reader.closed
      modifies this
      ensures Valid()
      ensures r == NextIn(LineJudge(), before).outcome && View() == AfterCall(before, NextIn(LineJudge(), before))
    {
      NoNewline(raw);
      assert [] + Ahead(reader.inbox) == Ahead(reader.inbox);
      match polled
      case NotReady => r := Pending;
      case Error => r := Failed;
      case Available(_) => r := TakeTail();
    }

    /** Whatever chunks and read errors arrive, wherever they are cut, and whenever calls are made in
        between: the reader goes through the run, and once it has reported the end it has returned
        the lines of everything that arrived, in order and exactly once. Over-long lines are reported
        as such once, a carriage return is dropped only in front of a line feed, text that is not
        UTF-8 costs only its own line, and an unterminated tail is delivered. */
    method Drive(events: seq<Event>) returns (lines: seq<LineRead>, ended: bool)
      requires Valid() && View() == Feed([], [], false)
      modifies this, reader
      ensures Valid() && State(View(), lines, ended) == Run(LineJudge(), events)
      ensures ended ==> lines == Split(LineJudge(), Arrived(events))
      ensures !Closes(events) ==> forall more ::
        lines + Split(LineJudge(), Held(View()) + more) == Split(LineJudge(), Arrived(events) + more)
    {
      lines, ended := [], false;
      for i := 0 to |events|
        invariant Valid() && State(View(), lines, ended) == Run(LineJudge(), events[..i])
      {
        assert events[..i + 1][..i] == events[..i];
        lines, ended := Handle(events[i], lines, ended);
      }
      assert events[..|events|] == events;
      ghost var s := State(View(), lines, ended);
      RunKeeps(LineJudge(), events, s);
      if ended {
        EndMeansAllLines(LineJudge(), events, s);
      }
      if !Closes(events) {
        forall more ensures lines + Split(LineJudge(), Held(View()) + more) == Split(LineJudge(), Arrived(events) + more) {
          RunSplitsStream(LineJudge(), events, more, s);
        }
      }
    }

    /** One event of a run. */
    method Handle(e: Event, lines: seq<LineRead>, ended: bool) returns (lines': seq<LineRead>, ended': bool)
      requires Valid()
      modifies this, reader
      ensures Valid() && State(View(), lines', ended') == Step(LineJudge(), State(old(View()), lines, ended), e)
    {
      lines', ended' := lines, ended;
      match e
      case Arrive(message) =>
        assert raw + (reader.Unread() + BytesOf(message)) == Stream() + BytesOf(message);
        reader.Deliver(message);
      case Close =>
        reader.Close();
      case Call =>
        var r := NextLine();
        if r.Got? {
          lines' := lines + [r.line];
        }
        ended' := ended || r.End?;
    }
  }
}
