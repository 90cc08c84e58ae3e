/** The client's error classes, and how a lost mutation receipt becomes ambiguous. */
module ClientErrors {

  const MAX_FRAME_BYTES := 8 * 1024 * 1024

  datatype IoKind =
    | ConnectionReset | ConnectionAborted | BrokenPipe | NotConnected | ConnectionRefused | NotFound
    | OtherKind

  datatype ErrorCode = PublicationAmbiguous | CommitAmbiguous | OtherCode

  /** The protocol violations the modelled code reports, one per message. */
  datatype Violation =
    | Truncated | Exceeded | Unterminated
    | VersionMismatch | IdentityMismatch | IdentityExhausted
    | UnexpectedBegin | UnexpectedAppend | UnexpectedCommit | LengthOverflow

  datatype Problem = EmptySource | SourceChanged

  /** Errors are told apart as far as retrying and mutation receipts do; `SourceFile` stands for the
      file errors a mutation passes through unchanged. */
  datatype ClientError =
    | Io(kind: IoKind)
    | DaemonIo(kind: IoKind)
    | SourceFile
    | SourceExceedsFrame
    | Encode
    | Decode
    | Protocol(violation: Violation)
    | ConnectionClosed
    | Remote(code: ErrorCode)
    | AmbiguousMutation
    | Input(problem: Problem)
  {
    /** What an error means once a mutation may have reached the daemon. */
    function Mutation(): ClientError {
      match this
      case Remote(code) => if code == PublicationAmbiguous || code == CommitAmbiguous then AmbiguousMutation else this
      case SourceFile => this
      case SourceExceedsFrame => this
      case _ => AmbiguousMutation
    }
  }
}
