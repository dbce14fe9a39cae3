/** Failure categories, and which connection failures may be retried. */
module Domain {

  datatype Category =
    | ConnectionTimeout
    | ConnectionRefused
    | DnsFailure
    | AuthFailed
    | HostKeyMismatch
    | HostKeyUnknown
    | HandshakeFailed
    | SessionFailed
    | CommandTimeout
    | CommandFailed
    | TemplateError
    | Cancelled
    | InternalError
  {
    predicate Retryable() {
      ConnectionTimeout? || ConnectionRefused? || HandshakeFailed? || SessionFailed?
    }

    /** No use in dialing again, and for a host key no permission to: a wait for the host gives up. */
    predicate Fatal() {
      AuthFailed? || HostKeyMismatch? || HostKeyUnknown?
    }
  }
}
