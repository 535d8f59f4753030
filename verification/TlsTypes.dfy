/** Values shared by the models: bytes, POSIX codes, event masks, OpenSSL verdicts. */
module TlsTypes {

  type byte = x: int | 0 <= x < 256

  datatype Option<+T> = None | Some(value: T)

  /** A list that grows at its end: what has happened so far, newest entry outermost. */
  datatype Log<+T> = Start | Then(earlier: Log<T>, last: T)

  /** The POSIX codes the sources compare against; every other code is OtherErrno. */
  datatype Errno =
    | NoErrno | EAGAIN | EWOULDBLOCK | EINPROGRESS | EALREADY | EPROTO | EINTR
    | ECONNRESET | ECONNABORTED | EIO | EINVAL | OtherErrno(code: nat)

  /** An OR-ed combination of TCL_READABLE, TCL_WRITABLE and TCL_EXCEPTION. */
  datatype Mask = Mask(readable: bool, writable: bool, exception: bool)

  const NO_EVENTS := Mask(false, false, false)

  /** The values of SSL_get_error. */
  datatype SslError =
    | ErrorNone | ErrorSsl | ErrorSyscall | ZeroReturn
    | WantRead | WantWrite | WantConnect | WantAccept | WantX509Lookup
    | WantAsync | WantAsyncJob | WantClientHelloCb | WantRetryVerify | UnknownError

  /** Everything the driver observes after one SSL_accept, SSL_connect, BIO_read or BIO_write:
      the result, SSL_get_error, ERR_get_error (0 when the queue is empty), whether its reason is
      SSL_R_UNEXPECTED_EOF_WHILE_READING, BIO_should_retry and errno. */
  datatype Outcome = Outcome(ret: int, rc: SslError, err: nat, unexpectedEof: bool, bioRetry: bool, errno: Errno)

  /** What SSL_get_error promises: SSL_ERROR_NONE exactly for a positive result. */
  predicate Genuine(o: Outcome) {
    o.rc.ErrorNone? <==> o.ret > 0
  }

  /** The BIO retry flag accompanies only an operation that did not complete. */
  predicate Honest(o: Outcome) {
    o.bioRetry ==> !(o.rc.ErrorNone? || o.rc.ErrorSsl? || o.rc.ErrorSyscall? || o.rc.ZeroReturn?)
  }
}
