/** Uploading a blob: begin, append chunk by chunk, commit, and one guarded restart. The daemon and
    the file are scripts that may hold anything: the daemon answers, fails or stays silent at every
    request, and the file may change between passes and while it is read. */
module BlobUpload {
  import opened Prelude
  import opened ClientErrors

  const MAX_BLOB_CHUNK_BYTES := MAX_FRAME_BYTES / 2
  const BLOB_HASH_BUFFER_BYTES := 64 * 1024

  type Digest = string
  type Sha = seq<Byte> -> Digest

  datatype Request = Begin(digest: Digest, length: nat) | Append(chunk: seq<Byte>) | Commit

  datatype Response =
    | Begun(digest: Digest, length: nat)
    | AlreadyPresent(digest: Digest, length: nat)
    | Appended(admitted: nat)
    | Committed(digest: Digest, length: nat)
    | Refused(code: ErrorCode)
    | Unexpected

  /** Why no usable frame came back. */
  datatype Lost = Closed | Undecodable | Violated(violation: Violation) | Broken(kind: IoKind) {
    function Error(): ClientError {
      match this
      case Closed => ConnectionClosed
      case Undecodable => Decode
      case Violated(violation) => Protocol(violation)
      case Broken(kind) => DaemonIo(kind)
    }
  }

  /** What becomes of a request: it is not sent at all, its write fails, its answer is lost, or it
      is answered. */
  datatype Reply = Unsent(why: Lost) | WriteFailed(kind: IoKind) | NoAnswer(why: Lost) | Answer(response: Response)

  datatype Exchange = Exchange(request: Request, reply: Reply)

  // ---------------------------------------------------------------------------------------
  // The file and the daemon
  // ---------------------------------------------------------------------------------------

  datatype Piece = Data(bytes: seq<Byte>) | ReadError

  /** One reading of the file from its start. */
  datatype Pass = Pass(seeks: bool, pieces: seq<Piece>)

  function Remaining(pieces: seq<Piece>): nat {
    if pieces == [] then 0
    else Remaining(pieces[1..]) + 1 + if pieces[0].Data? then |pieces[0].bytes| else 0
  }

  class BlobFile {
    var passes: seq<Pass>
    var pieces: seq<Piece>
    /** The bytes read since the start of this pass. */
    ghost var read: seq<Byte>

    method Rewind() returns (ok: bool)
      modifies this
      ensures read == []
    {
      read := [];
      if passes == [] {
        pieces := [];
        return true;
      }
      ok, pieces, passes := passes[0].seeks, passes[0].pieces, passes[1..];
    }

    /** At most `limit` bytes; none at the end of the file. */
    method ReadChunk(limit: nat) returns (r: Result<seq<Byte>, ClientError>)
      requires limit > 0
      modifies this
      ensures r.Ok? ==> |r.value| <= limit && read == old(read) + r.value
      ensures r.Err? ==> r.error == SourceFile && read == old(read)
      ensures r.Ok? && r.value != [] ==> Remaining(pieces) < old(Remaining(pieces))
    {
      if pieces == [] {
        return Ok([]);
      }
      match pieces[0]
      case ReadError =>
        pieces := pieces[1..];
        r := Err(SourceFile);
      case Data(bytes) =>
        if |bytes| <= limit {
          pieces := pieces[1..];
          read := read + bytes;
          r := Ok(bytes);
        } else {
          ghost var rest := pieces[1..];
          pieces := [Data(bytes[limit..])] + pieces[1..];
          assert pieces[1..] == rest;
          read := read + bytes[..limit];
          r := Ok(bytes[..limit]);
        }
    }
  }

  /** A commit may already have taken effect when its receipt is lost. */
  function Delivered(mutation: bool, error: ClientError): ClientError {
    if mutation then error.Mutation() else error
  }

  class Daemon {
    var script: seq<Reply>
    /** What went over the open connection, and over each connection before it. */
    ghost var log: seq<Exchange>
    ghost var closed: seq<seq<Exchange>>

    method NextReply() returns (reply: Reply)
      modifies `script
    {
      reply := NoAnswer(Closed);
      if script != [] {
        reply, script := script[0], script[1..];
      }
    }

    /** Opens a connection with its first request. */
    method Open(request: Request) returns (r: Result<Response, ClientError>, ghost reply: Reply)
      modifies this
      ensures log == [Exchange(request, reply)] && closed == old(closed) + [old(log)]
      ensures r == Outcome(reply, false)
    {
      var next := NextReply();
      reply := next;
      closed := closed + [log];
      log := [Exchange(request, reply)];
      r := Outcome(next, false);
    }

    /** A further request on the open connection. */
    method Ask(request: Request, mutation: bool) returns (r: Result<Response, ClientError>, ghost reply: Reply)
      modifies this
      ensures log == old(log) + [Exchange(request, reply)] && closed == old(closed)
      ensures r == Outcome(reply, mutation)
    {
      var next := NextReply();
      reply := next;
      log := log + [Exchange(request, reply)];
      r := Outcome(next, mutation);
    }
  }

  function Outcome(reply: Reply, mutation: bool): Result<Response, ClientError> {
    match reply
    case Unsent(why) => Err(why.Error())
    case WriteFailed(kind) => Err(Delivered(mutation, DaemonIo(kind)))
    case NoAnswer(why) => Err(Delivered(mutation, why.Error()))
    case Answer(response) => Ok(response)
  }

  // ---------------------------------------------------------------------------------------
  // What an attempt looks like from outside
  // ---------------------------------------------------------------------------------------

  /** The bytes carried by a list of appends. */
  ghost function Assembled(log: seq<Exchange>): seq<Byte> {
    if log == [] then []
    else Assembled(log[..|log| - 1]) + if log[|log| - 1].request.Append? then log[|log| - 1].request.chunk else []
  }

  /** Every append carries a nonempty bounded chunk and is acknowledged with the exact length so far. */
  ghost predicate Acknowledged(log: seq<Exchange>) {
    log == [] ||
    (var last := log[|log| - 1];
     && Acknowledged(log[..|log| - 1])
     && last.request.Append? && 0 < |last.request.chunk| <= MAX_BLOB_CHUNK_BYTES
     && last.reply == Answer(Appended(|Assembled(log)|)))
  }

  /** Append by append: the chunk is nonempty and bounded, and the acknowledgement is the length of
      everything appended up to it. */
  lemma {:induction false} EachIsAcknowledged(log: seq<Exchange>, i: nat)
    requires Acknowledged(log) && i < |log|
    ensures log[i].request.Append? && 0 < |log[i].request.chunk| <= MAX_BLOB_CHUNK_BYTES
    ensures log[i].reply == Answer(Appended(|Assembled(log[..i + 1])|))
  {
    if i < |log| - 1 {
      var front := log[..|log| - 1];
      EachIsAcknowledged(front, i);
      assert front[..i + 1] == log[..i + 1];
    } else {
      assert log[..i + 1] == log;
    }
  }

  /** The daemon already had the blob. */
  ghost predicate WasPresent(attempt: seq<Exchange>, d: Digest, n: nat) {
    attempt == [Exchange(Begin(d, n), Answer(AlreadyPresent(d, n)))]
  }

  /** The daemon accepted the beginning and all appends so far. */
  ghost predicate Transferred(attempt: seq<Exchange>, d: Digest, n: nat, bytes: seq<Byte>) {
    && attempt != [] && attempt[0] == Exchange(Begin(d, n), Answer(Begun(d, n)))
    && Acknowledged(attempt[1..]) && Assembled(attempt[1..]) == bytes
  }

  ghost predicate CommitSent(attempt: seq<Exchange>, d: Digest, n: nat, bytes: seq<Byte>) {
    && attempt != [] && attempt[|attempt| - 1].request.Commit?
    && Transferred(attempt[..|attempt| - 1], d, n, bytes)
  }

  /** A reply to a commit after which the blob may or may not have been stored. */
  predicate Uncertain(reply: Reply, d: Digest, n: nat) {
    match reply
    case Unsent(_) => false
    case WriteFailed(_) => true
    case NoAnswer(_) => true
    case Answer(Committed(digest, length)) => digest != d || length != n
    case Answer(Refused(code)) => code == PublicationAmbiguous || code == CommitAmbiguous
    case Answer(_) => true
  }

  /** Begun, transferred and committed, with the daemon echoing what was asked. */
  ghost predicate WasCommitted(attempt: seq<Exchange>, d: Digest, n: nat, bytes: seq<Byte>) {
    CommitSent(attempt, d, n, bytes) && attempt[|attempt| - 1].reply == Answer(Committed(d, n))
  }

  lemma TransferredMore(attempt: seq<Exchange>, d: Digest, n: nat, bytes: seq<Byte>, e: Exchange)
    requires Transferred(attempt, d, n, bytes) && e.request.Append? && 0 < |e.request.chunk| <= MAX_BLOB_CHUNK_BYTES
    requires e.reply == Answer(Appended(|bytes + e.request.chunk|))
    ensures Transferred(attempt + [e], d, n, bytes + e.request.chunk)
  {
    var appends := (attempt + [e])[1..];
    assert appends == attempt[1..] + [e];
    assert appends[..|appends| - 1] == attempt[1..];
  }

  lemma NotAcknowledged(attempt: seq<Exchange>, d: Digest, n: nat, bytes: seq<Byte>, e: Exchange)
    requires Transferred(attempt, d, n, bytes) && e.request.Append?
    requires e.reply != Answer(Appended(|bytes + e.request.chunk|))
    ensures !Cooperative(attempt + [e], d, n)
  {
    var appends := (attempt + [e])[1..];
    assert appends == attempt[1..] + [e];
    assert appends[..|appends| - 1] == attempt[1..];
  }

  /** Errors that come from the file itself. */
  predicate SourceError(error: ClientError) {
    error == SourceFile || error == Protocol(LengthOverflow) || error == Input(SourceChanged)
  }

  /** Every request on the connection got the answer the client hopes for. */
  ghost predicate Cooperative(attempt: seq<Exchange>, d: Digest, n: nat) {
    && attempt != [] && attempt[0].request == Begin(d, n)
    && (attempt[0].reply == Answer(AlreadyPresent(d, n)) || attempt[0].reply == Answer(Begun(d, n)))
    && (attempt[|attempt| - 1].request.Commit? ==>
          attempt[|attempt| - 1].reply == Answer(Committed(d, n)) && Acknowledged(attempt[1..|attempt| - 1]))
    && (!attempt[|attempt| - 1].request.Commit? ==> Acknowledged(attempt[1..]))
  }

  /** Requests other than the first are appends, and a commit comes last. */
  ghost predicate WellFormed(attempt: seq<Exchange>) {
    && (attempt != [] ==> attempt[0].request.Begin?)
    && forall i :: 0 < i < |attempt| ==>
         attempt[i].request.Append? || (attempt[i].request.Commit? && i == |attempt| - 1)
  }

  ghost predicate OnlyAppends(attempt: seq<Exchange>) {
    attempt != [] && attempt[0].request.Begin? && forall i :: 0 < i < |attempt| ==> attempt[i].request.Append?
  }

  // ---------------------------------------------------------------------------------------
  // The upload
  // ---------------------------------------------------------------------------------------

  class Uploader {
    const file: BlobFile
    const daemon: Daemon
    const sha: Sha
    const prints: bool

    constructor (file: BlobFile, daemon: Daemon, sha: Sha, prints: bool)
      ensures this.file == file && this.daemon == daemon && this.sha == sha && this.prints == prints
    {
      this.file, this.daemon, this.sha, this.prints := file, daemon, sha, prints;
    }

    /** Everything from here to the end of the file, with its digest and length. */
    method HashSource() returns (r: Result<(Digest, nat), ClientError>)
      requires file.read == []
      modifies file
      ensures r.Ok? ==> r.value == (sha(file.read), |file.read|)
      ensures r.Err? ==> r.error == SourceFile || r.error == Protocol(LengthOverflow)
    {
      var hashed: seq<Byte>, length: nat := [], 0;
      while true
        invariant hashed == file.read && length == |hashed|
        decreases Remaining(file.pieces)
      {
        var chunk := file.ReadChunk(BLOB_HASH_BUFFER_BYTES);
        if chunk.Err? {
          return Err(chunk.error);
        }
        if chunk.value == [] {
          assert hashed + chunk.value == hashed;
          return Ok((sha(hashed), length));
        }
        if length + |chunk.value| > U64_MAX {
          return Err(Protocol(LengthOverflow));
        }
        length, hashed := length + |chunk.value|, hashed + chunk.value;
      }
    }

    /** The file, read again from its start, still has the expected digest and length. */
    method VerifyUnchanged(d: Digest, n: nat) returns (r: Result<(), ClientError>)
      modifies file
      ensures r.Ok? ==> sha(file.read) == d && |file.read| == n
      ensures r.Err? ==> SourceError(r.error)
    {
      var ok := file.Rewind();
      if !ok {
        return Err(SourceFile);
      }
      var again := HashSource();
      if again.Err? {
        return Err(again.error);
      }
      r := if again.value != (d, n) then Err(Input(SourceChanged)) else Ok(());
    }

    method Print() returns (r: Result<(), ClientError>)
      ensures r == if prints then Ok(()) else Err(Io(OtherKind))
    {
      r := if prints then Ok(()) else Err(Io(OtherKind));
    }

    /** One append; `total` is the running length that must come back. */
    method AppendChunk(chunk: seq<Byte>, total: nat) returns (r: Result<(), ClientError>, ghost e: Exchange)
      modifies daemon
      ensures daemon.log == old(daemon.log) + [e] && daemon.closed == old(daemon.closed) && e.request == Append(chunk)
      ensures r.Ok? <==> e.reply == Answer(Appended(total))
      ensures r.Err? ==> !r.error.AmbiguousMutation?
    {
      ghost var reply;
      var answer;
      answer, reply := daemon.Ask(Append(chunk), false);
      e := Exchange(Append(chunk), reply);
      if answer.Err? {
        return Err(answer.error), e;
      }
      match answer.value
      case Appended(admitted) => r := if admitted == total then Ok(()) else Err(Protocol(UnexpectedAppend));
      case Refused(code) => r := Err(Remote(code));
      case _ => r := Err(Protocol(UnexpectedAppend));
    }

    /** The append loop, up to the end of the file. */
    method AppendAll(d: Digest, n: nat) returns (r: Result<(), ClientError>)
      requires file.read == [] && daemon.log == [Exchange(Begin(d, n), Answer(Begun(d, n)))]
      modifies file, daemon
      ensures daemon.closed == old(daemon.closed) && OnlyAppends(daemon.log)
      ensures r.Ok? ==> Transferred(daemon.log, d, n, file.read)
      ensures r.Err? ==> !r.error.AmbiguousMutation? && (SourceError(r.error) || !Cooperative(daemon.log, d, n))
    {
      var assembled: nat := 0;
      while true
        invariant Transferred(daemon.log, d, n, file.read) && assembled == |file.read|
        invariant daemon.closed == old(daemon.closed) && OnlyAppends(daemon.log)
        decreases Remaining(file.pieces)
      {
        ghost var sent, before := file.read, daemon.log;
        var chunk := file.ReadChunk(MAX_BLOB_CHUNK_BYTES);
        if chunk.Err? {
          return Err(chunk.error);
        }
        if chunk.value == [] {
          assert sent + chunk.value == sent;
          return Ok(());
        }
        if assembled + |chunk.value| > U64_MAX {
          return Err(Protocol(LengthOverflow));
        }
        assembled := assembled + |chunk.value|;
        ghost var e;
        r, e := AppendChunk(chunk.value, assembled);
        if r.Err? {
          NotAcknowledged(before, d, n, sent, e);
          return;
        }
        TransferredMore(before, d, n, sent, e);
      }
    }

    /** The commit and its receipt. */
    method CommitBlob(d: Digest, n: nat, ghost bytes: seq<Byte>) returns (r: Result<(), ClientError>)
      requires Transferred(daemon.log, d, n, bytes) && OnlyAppends(daemon.log)
      modifies daemon
      ensures daemon.closed == old(daemon.closed) && WellFormed(daemon.log)
      ensures CommitSent(daemon.log, d, n, bytes)
      ensures r.Ok? <==> WasCommitted(daemon.log, d, n, bytes) && prints
      ensures r.Err? && prints ==> !Cooperative(daemon.log, d, n)
      ensures r == Err(AmbiguousMutation) <==> Uncertain(daemon.log[|daemon.log| - 1].reply, d, n)
    {
      ghost var before := daemon.log;
      ghost var reply;
      var answer;
      answer, reply := daemon.Ask(Commit, true);
      assert daemon.log[..|daemon.log| - 1] == before;
      if answer.Err? {
        return Err(answer.error);
      }
      match answer.value
      case Committed(digest, length) =>
        if digest == d && length == n {
          r := Print();
        } else {
          r := Err(Protocol(UnexpectedCommit).Mutation());
        }
      case Refused(code) => r := Err(Remote(code).Mutation());
      case _ => r := Err(Protocol(UnexpectedCommit).Mutation());
    }

    /** The first request and its answer: whether to go on appending. */
    method BeginBlob(d: Digest, n: nat) returns (r: Result<bool, ClientError>)
      modifies daemon
      ensures daemon.closed == old(daemon.closed) + [old(daemon.log)] && WellFormed(daemon.log)
      ensures r == Ok(true) <==> daemon.log == [Exchange(Begin(d, n), Answer(Begun(d, n)))]
      ensures r == Ok(false) <==> WasPresent(daemon.log, d, n)
      ensures r.Err? ==> !Cooperative(daemon.log, d, n)
      ensures r.Err? ==> !r.error.AmbiguousMutation?
    {
      ghost var reply;
      var answer;
      answer, reply := daemon.Open(Begin(d, n));
      if answer.Err? {
        return Err(answer.error);
      }
      match answer.value
      case AlreadyPresent(digest, length) =>
        r := if digest == d && length == n then Ok(false) else Err(Protocol(UnexpectedBegin));
      case Begun(digest, length) =>
        r := if digest == d && length == n then Ok(true) else Err(Protocol(UnexpectedBegin));
      case Refused(code) => r := Err(Remote(code));
      case _ => r := Err(Protocol(UnexpectedBegin));
    }

    /** What success of an attempt means. */
    ghost predicate Stored(d: Digest, n: nat)
      reads file, daemon
    {
      || (WasPresent(daemon.log, d, n) && sha(file.read) == d && |file.read| == n)
      || WasCommitted(daemon.log, d, n, file.read)
    }

    /** The attempt sent a commit of everything it read and cannot know what became of it. */
    ghost predicate Unresolved(d: Digest, n: nat)
      reads file, daemon
    {
      CommitSent(daemon.log, d, n, file.read) && Uncertain(daemon.log[|daemon.log| - 1].reply, d, n)
    }

    /** One attempt on one connection. */
    method UploadOnce(d: Digest, n: nat) returns (r: Result<(), ClientError>)
      modifies file, daemon
      ensures
        || (daemon.log == old(daemon.log) && daemon.closed == old(daemon.closed) && r == Err(SourceFile))
        || (daemon.closed == old(daemon.closed) + [old(daemon.log)] && WellFormed(daemon.log))
      ensures r.Ok? ==> Stored(d, n)
      ensures r == Err(AmbiguousMutation) ==> Unresolved(d, n)
      ensures r.Err? && prints && !SourceError(r.error) ==> !Cooperative(daemon.log, d, n)
    {
      var ok := file.Rewind();
      if !ok {
        return Err(SourceFile);
      }
      var begun := BeginBlob(d, n);
      if begun.Err? {
        return Err(begun.error);
      }
      if !begun.value {
        r := VerifyUnchanged(d, n);
        if r.Ok? {
          r := Print();
        }
        return;
      }
      r := AppendAll(d, n);
      if r.Ok? {
        r := CommitBlob(d, n, file.read);
      }
    }

    /** Whatever the daemon answers and however the file changes: success means the daemon already
        had the blob and the file still hashes to it, or that everything read from the start of the
        file was appended in nonempty bounded chunks, each acknowledged with the exact length so
        far, and committed with a matching echo. There are at most two attempts; the second happens
        only when the first sent a commit whose outcome is uncertain, after the file was read again
        and found to have the digest and length of the first reading. */
    method UploadBlob() returns (r: Result<(), ClientError>, ghost hashed: seq<Byte>, ghost again: seq<Byte>)
      requires file.read == [] && daemon.log == [] && daemon.closed == []
      modifies file, daemon
      ensures |daemon.closed| <= 2 && WellFormed(daemon.log)
      ensures r.Ok? ==> hashed != [] && Stored(sha(hashed), |hashed|) && |daemon.closed| > 0
      ensures |daemon.closed| == 2 ==>
        Restarted(daemon.closed[1], sha, hashed, again)
      ensures hashed == [] ==> daemon.closed == [] && r.Err?
      ensures r == Err(AmbiguousMutation) ==> |daemon.closed| == 2
      ensures r.Err? && prints && hashed != [] && !SourceError(r.error) ==>
        !Cooperative(daemon.log, sha(hashed), |hashed|)
    {
      hashed, again := [], [];
      var first := HashSource();
      if first.Err? {
        return Err(first.error), [], [];
      }
      var (d, n) := first.value;
      hashed := file.read;
      if n == 0 {
        return Err(Input(EmptySource)), hashed, again;
      }
      r := UploadOnce(d, n);
      if r == Err(AmbiguousMutation) {
        ghost var log, sent := daemon.log, file.read;
        assert daemon.closed == [[]];
        r := VerifyUnchanged(d, n);
        if r.Err? {
          return;
        }
        again := file.read;
        assert CommitSent(log, d, n, sent);
        r := UploadOnce(d, n);
      }
    }
  }

  /** The first attempt ended in an uncertain commit, and the file was found unchanged after it. */
  ghost predicate Restarted(first: seq<Exchange>, sha: Sha, hashed: seq<Byte>, again: seq<Byte>) {
    && WellFormed(first)
    && (exists sent :: CommitSent(first, sha(hashed), |hashed|, sent))
    && Uncertain(first[|first| - 1].reply, sha(hashed), |hashed|)
    && sha(again) == sha(hashed) && |again| == |hashed|
  }
}
