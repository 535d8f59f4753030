/** The transport BIO of generic/tlsBIO.c: its retry and end-of-file flags over any call sequence. */
module TlsBio {
  import opened TlsTypes

  // ----- specification on values

  datatype Bio = Bio(retryRead: bool, retryWrite: bool, shouldRetry: bool, inEof: bool,
                     attached: bool, enabled: bool, shutdown: bool)

  /** What one Tcl_WriteRaw or Tcl_ReadRaw on the parent channel shows: its result, then
      Tcl_Eof, Tcl_InputBlocked and Tcl_GetErrno. */
  datatype Raw = Raw(ret: int, eof: bool, blocked: bool, errno: Errno)

  datatype BioCall =
    | Write(raw: Raw)
    | Read(hasBuffer: bool, raw: Raw)
    | QueryEof(chanEof: bool)
    | SetClose(close: bool)
    | Free

  predicate RetryableErrno(code: Errno) {
    code.EWOULDBLOCK? || code.EINPROGRESS? || code.EALREADY? || code.EAGAIN? || code.EPROTO? || code.EINTR?
  }

  /** The call found the parent channel at end of file. */
  predicate SawEof(call: BioCall) {
    (call.Write? || (call.Read? && call.hasBuffer)) && call.raw.ret == 0 && call.raw.eof
  }

  /** The parent channel moved nothing now but may do so later. */
  predicate WouldBlock(call: BioCall) {
    || (call.Write? && call.raw.ret == 0 && !call.raw.eof)
    || (call.Read? && call.hasBuffer && call.raw.ret == 0 && !call.raw.eof && call.raw.blocked)
    || ((call.Write? || (call.Read? && call.hasBuffer)) && call.raw.ret < 0 && RetryableErrno(call.raw.errno))
  }

  /** The call asked the parent channel for a transfer. */
  predicate Transfers(call: BioCall) {
    call.Write? || (call.Read? && call.hasBuffer)
  }

  function StepBio(b: Bio, call: BioCall): Bio {
    match call
    case Write(raw) =>
      var c := b.(retryRead := false, retryWrite := false, shouldRetry := false);
      if raw.ret == 0 && raw.eof then c.(inEof := true)
      else if raw.ret == 0 then c.(retryRead := true, retryWrite := true, shouldRetry := true)
      else if raw.ret < 0 && RetryableErrno(raw.errno) then c.(retryWrite := true, shouldRetry := true)
      else c
    case Read(hasBuffer, raw) =>
      var c := b.(retryRead := false, retryWrite := false, shouldRetry := false);
      if !hasBuffer then b
      else if raw.ret == 0 && raw.eof then c.(inEof := true)
      else if (raw.ret == 0 && raw.blocked) || (raw.ret < 0 && RetryableErrno(raw.errno)) then
        c.(retryRead := true, shouldRetry := true)
      else c
    case QueryEof(_) => b
    case SetClose(close) => b.(shutdown := close)
    case Free => if b.shutdown then Bio(false, false, false, false, false, false, true) else b
  }

  /** BIO_new_tcl with BIO_NOCLOSE. */
  function NewBio(): Bio {
    Bio(false, false, false, false, true, true, false)
  }

  ghost function RunBio(calls: seq<BioCall>): Bio {
    if calls == [] then NewBio() else StepBio(RunBio(calls[..|calls| - 1]), calls[|calls| - 1])
  }

  predicate EofAnswer(b: Bio, chanEof: bool) {
    chanEof || b.inEof
  }

  // ----- main results

  /** The BIO is never set to close with its stream. */
  predicate NeverClosed(calls: seq<BioCall>) {
    forall i | 0 <= i < |calls| :: calls[i] != SetClose(true)
  }

  /** Over every call sequence on a BIO_NOCLOSE BIO, the end-of-file query answers 1 exactly when
      the channel is at end of file now or any earlier call saw its end: once 1, always 1. */
  lemma {:induction false} EofIsRemembered(calls: seq<BioCall>, chanEof: bool)
    requires NeverClosed(calls)
    ensures EofAnswer(RunBio(calls), chanEof) <==> chanEof || exists i :: 0 <= i < |calls| && SawEof(calls[i])
    ensures !RunBio(calls).shutdown
  {
    if calls == [] {
    } else {
      var before, last := calls[..|calls| - 1], calls[|calls| - 1];
      EofIsRemembered(before, false);
      assert forall i | 0 <= i < |before| :: before[i] == calls[i];
      assert SawEof(last) ==> SawEof(calls[|calls| - 1]);
      assert last != SetClose(true);
    }
  }

  /** The last call that asked the parent channel for a transfer would have blocked: it moved no byte
      and saw no end of file. */
  ghost predicate LastBlocked(calls: seq<BioCall>) {
    exists i :: && 0 <= i < |calls| && WouldBlock(calls[i])
                && Transfers(calls[i]) && calls[i].raw.ret <= 0 && !SawEof(calls[i])
                && forall j | i < j < |calls| :: !Transfers(calls[j])
  }

  lemma LastBlockedThen(before: seq<BioCall>, last: BioCall)
    ensures LastBlocked(before + [last]) <==> if Transfers(last) then WouldBlock(last) else LastBlocked(before)
  {
    var calls, n := before + [last], |before|;
    assert calls[n] == last && forall i | 0 <= i < n :: calls[i] == before[i];
    if Transfers(last) {
      assert WouldBlock(last) ==> WouldBlock(calls[n]);
    } else if LastBlocked(before) {
      var i :| 0 <= i < n && WouldBlock(before[i]) && forall j | i < j < n :: !Transfers(before[j]);
      assert WouldBlock(calls[i]);
    } else {
      forall i | 0 <= i < n && WouldBlock(calls[i])
        ensures exists j :: i < j < |calls| && Transfers(calls[j])
      {
        assert WouldBlock(before[i]);
        var j :| i < j < n && Transfers(before[j]);
        assert Transfers(calls[j]);
      }
    }
  }

  /** Over every call sequence, BIO_should_retry holds exactly when the last transfer would have
      blocked. */
  lemma {:induction false} RetryDescribesLastTransfer(calls: seq<BioCall>)
    requires NeverClosed(calls)
    ensures RunBio(calls).shouldRetry <==> LastBlocked(calls)
  {
    if calls == [] {
    } else {
      var n := |calls| - 1;
      var before, last := calls[..n], calls[n];
      assert calls == before + [last];
      RetryDescribesLastTransfer(before);
      EofIsRemembered(before, false);
      LastBlockedThen(before, last);
      assert last != SetClose(true);
    }
  }

  // ----- which way to wait

  /** The codes after which a transfer may be tried again. */
  const TEMPORARY := {EAGAIN, EWOULDBLOCK, EINPROGRESS, EALREADY, EPROTO, EINTR}

  predicate WriteBlocked(raw: Raw) {
    (raw.ret == 0 && !raw.eof) || (raw.ret < 0 && raw.errno in TEMPORARY)
  }

  predicate ReadBlocked(raw: Raw) {
    (raw.ret == 0 && !raw.eof && raw.blocked) || (raw.ret < 0 && raw.errno in TEMPORARY)
  }

  /** The call is the last that asked the parent channel for a transfer. */
  predicate IsLast(calls: seq<BioCall>, i: nat) {
    && i < |calls|
    && (calls[i].Write? || (calls[i].Read? && calls[i].hasBuffer))
    && forall j | i < j < |calls| :: !(calls[j].Write? || (calls[j].Read? && calls[j].hasBuffer))
  }

  /** What the retry flags say after this transfer. */
  predicate Directs(call: BioCall, b: Bio) {
    match call
    case Write(raw) =>
      && (b.retryWrite <==> WriteBlocked(raw))
      && (b.retryRead <==> raw.ret == 0 && !raw.eof)
      && (b.shouldRetry <==> WriteBlocked(raw))
    case Read(_, raw) =>
      && !b.retryWrite
      && (b.retryRead <==> ReadBlocked(raw))
      && (b.shouldRetry <==> ReadBlocked(raw))
    case _ => true
  }

  lemma TransferDirects(b: Bio, call: BioCall)
    requires Transfers(call)
    ensures Directs(call, StepBio(b, call))
  {}

  lemma OthersKeepDirection(b: Bio, call: BioCall)
    requires !Transfers(call) && !b.shutdown
    ensures var b' := StepBio(b, call);
      b'.retryRead == b.retryRead && b'.retryWrite == b.retryWrite && b'.shouldRetry == b.shouldRetry
  {}

  /** Over every call sequence the last transfer decides which way SSL_get_error makes the driver wait:
      to write after a write that would have blocked, to read after a read that would have, both after a
      write of no bytes. */
  lemma {:induction false} LastTransferDirects(calls: seq<BioCall>, i: nat)
    requires NeverClosed(calls) && IsLast(calls, i)
    ensures Directs(calls[i], RunBio(calls))
    decreases |calls|
  {
    var n := |calls| - 1;
    var before, last := calls[..n], calls[n];
    if i == n {
      TransferDirects(RunBio(before), last);
    } else {
      assert IsLast(before, i) && before[i] == calls[i];
      LastTransferDirects(before, i);
      EofIsRemembered(before, false);
      OthersKeepDirection(RunBio(before), last);
    }
  }

  /** Before the first transfer there is nothing to wait for. */
  lemma {:induction false} NoTransferNoRetry(calls: seq<BioCall>)
    requires NeverClosed(calls) && forall i | 0 <= i < |calls| :: !Transfers(calls[i])
    ensures var b := RunBio(calls); !b.retryRead && !b.retryWrite && !b.shouldRetry
    decreases |calls|
  {
    if calls == [] {
    } else {
      var before := calls[..|calls| - 1];
      NoTransferNoRetry(before);
      EofIsRemembered(before, false);
      OthersKeepDirection(RunBio(before), calls[|calls| - 1]);
    }
  }

  // ----- the BIO object

  const BIO_FLAGS_READ: bv16 := 0x01
  const BIO_FLAGS_WRITE: bv16 := 0x02
  const BIO_FLAGS_IO_SPECIAL: bv16 := 0x04
  const BIO_FLAGS_SHOULD_RETRY: bv16 := 0x08
  const BIO_FLAGS_IN_EOF: bv16 := 0x800

  class BioObject {
    var flags: bv16
    var data: bool      // the State pointer is set
    var init: bool
    var shutdown: bool  // BIO_CLOSE
    var errno: Errno

    ghost function View(): Bio
      reads this
    {
      Bio(flags & BIO_FLAGS_READ != 0, flags & BIO_FLAGS_WRITE != 0, flags & BIO_FLAGS_SHOULD_RETRY != 0,
          flags & BIO_FLAGS_IN_EOF != 0, data, init, shutdown)
    }

    /** BioNew followed by the settings of BIO_new_tcl with BIO_NOCLOSE. */
    constructor ()
      ensures View() == NewBio()
    {
      flags, data, init, shutdown, errno := 0, true, true, false, NoErrno;
    }

    method ClearRetryFlags()
      modifies `flags
      ensures View() == old(View()).(retryRead := false, retryWrite := false, shouldRetry := false)
    {
      flags := flags & !(BIO_FLAGS_READ | BIO_FLAGS_WRITE | BIO_FLAGS_IO_SPECIAL | BIO_FLAGS_SHOULD_RETRY);
    }

    method SetRetryWrite()
      modifies `flags
      ensures View() == old(View()).(retryWrite := true, shouldRetry := true)
    {
      flags := flags | BIO_FLAGS_WRITE | BIO_FLAGS_SHOULD_RETRY;
    }

    method SetRetryRead()
      modifies `flags
      ensures View() == old(View()).(retryRead := true, shouldRetry := true)
    {
      flags := flags | BIO_FLAGS_READ | BIO_FLAGS_SHOULD_RETRY;
    }

    method SetInEof()
      modifies `flags
      ensures View() == old(View()).(inEof := true)
    {
      flags := flags | BIO_FLAGS_IN_EOF;
    }

    method BioOutput(raw: Raw) returns (ret: int)
      modifies `flags, `errno
      ensures View() == StepBio(old(View()), Write(raw)) && ret == raw.ret
      ensures errno == if raw.ret == 0 && raw.eof then ECONNRESET else raw.errno
      ensures Directs(Write(raw), View())
      ensures View().inEof == (old(View()).inEof || (raw.ret == 0 && raw.eof))
    {
      ClearRetryFlags();
      ret, errno := raw.ret, raw.errno;
      if ret > 0 {
      } else if ret == 0 {
        if raw.eof {
          errno := ECONNRESET;
          SetInEof();
        } else {
          SetRetryWrite();
          SetRetryRead();
        }
      } else {
        if RetryableErrno(raw.errno) {
          SetRetryWrite();
        }
      }
    }

    method BioInput(hasBuffer: bool, raw: Raw) returns (ret: int)
      modifies `flags, `errno
      ensures View() == StepBio(old(View()), Read(hasBuffer, raw)) && ret == (if hasBuffer then raw.ret else 0)
      ensures !hasBuffer ==> View() == old(View()) && errno == old(errno)
      ensures hasBuffer ==>
        && errno == (if raw.ret == 0 && raw.eof then ECONNRESET else raw.errno)
        && Directs(Read(true, raw), View())
        && View().inEof == (old(View()).inEof || (raw.ret == 0 && raw.eof))
    {
      if !hasBuffer {
        return 0;
      }
      ClearRetryFlags();
      ret, errno := raw.ret, raw.errno;
      if ret > 0 {
      } else if ret == 0 {
        if raw.eof {
          errno := ECONNRESET;
          SetInEof();
        } else if raw.blocked {
          SetRetryRead();
        }
      } else {
        if RetryableErrno(raw.errno) {
          SetRetryRead();
        }
      }
    }

    /** The BIO_CTRL_EOF case of BioCtrl; the parent channel exists. */
    method BioCtrlEof(chanEof: bool) returns (answer: int)
      ensures answer == if EofAnswer(View(), chanEof) then 1 else 0
      ensures answer == 1 <==> chanEof || flags & 0x800 != 0
    {
      answer := if chanEof || flags & BIO_FLAGS_IN_EOF != 0 then 1 else 0;
    }

    method BioCtrlSetClose(num: int) returns (ret: int)
      modifies `shutdown
      ensures View() == StepBio(old(View()), SetClose(num != 0)) && ret == 1
      ensures shutdown == (num != 0)
    {
      shutdown := num != 0;
      ret := 1;
    }

    method BioFree() returns (ret: int)
      modifies this
      ensures View() == StepBio(old(View()), Free) && ret == 1
      ensures if old(shutdown) then !data && !init && flags == 0 else View() == old(View())
    {
      if shutdown {
        data := false;
        flags := 0;
        init := false;
      }
      ret := 1;
    }
  }
}
