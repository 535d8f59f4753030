/** What the driver answers, said over the results of OpenSSL alone: counts, error codes, flags and the
    events wanted afterwards, for every value of SSL_get_error. */
module TlsAnswers {
  import opened TlsTypes
  import opened TlsMachine
  import opened TlsDrive

  // ----- Tls_WaitForConnect

  /** The loop may call SSL_accept or SSL_connect again. */
  predicate MayRepeat(o: Outcome) {
    o.bioRetry || (o.ret <= 0 && o.rc in {WantConnect, WantAccept, WantRead, WantWrite})
  }

  /** The loop stops at attempt `tries`: at once in non-blocking mode, otherwise at the first attempt
      that may not be repeated or after ten repetitions. */
  ghost predicate Decided(attempts: nat -> Outcome, async: bool, tries: nat) {
    && tries <= 10 && (async ==> tries == 0)
    && (forall i: nat | i < tries :: MayRepeat(attempts(i)))
    && (!async && tries < 10 ==> !MayRepeat(attempts(tries)))
  }

  /** The socket failed, as opposed to having come to its end. */
  predicate SocketError(o: Outcome) {
    o.rc == ErrorSyscall && (o.err != 0 || o.ret != 0)
  }

  predicate WaitAnswer(o: Outcome, async: bool, result: int, error: Errno) {
    if async && MayRepeat(o) then result == 0 && error == EAGAIN
    else
      && (o.rc == ErrorNone ==> result == 1 && error == NoErrno)
      && (o.rc == ErrorSsl ==> result == -1 && error == ECONNABORTED)
      && (SocketError(o) ==> result == -1 && error == if o.errno == ECONNRESET then ECONNABORTED else o.errno)
      && (o.rc == ErrorSyscall && !SocketError(o) ==> result == -1 && error == ECONNRESET)
      && (o.rc == ZeroReturn ==> result == -1 && error == ECONNRESET)
      && (o.rc !in {ErrorNone, ErrorSsl, ErrorSyscall, ZeroReturn} ==> result == 0 && error == EAGAIN)
  }

  /** The wait changes INIT, FATAL_ERROR and EOF by its last attempt, and wants what any attempt asked
      for. */
  ghost predicate WaitFlags(attempts: nat -> Outcome, tries: nat, c: Conn, c': Conn) {
    var o := attempts(tries);
    var left := c.async && MayRepeat(o);
    && c'.init == (left || o.rc != ErrorNone)
    && c'.fatal == (!left && (o.rc == ErrorSsl || SocketError(o)))
    && c'.eof == (c.eof || (!left && o.rc in {ErrorSsl, ErrorSyscall, ZeroReturn}))
    && (c'.want.readable <==> c.want.readable || exists i: nat :: i <= tries && attempts(i).rc == WantRead)
    && (c'.want.writable <==> c.want.writable || exists i: nat :: i <= tries && attempts(i).rc == WantWrite)
    && c'.want.exception == c.want.exception
    && c'.async == c.async && c'.callback == c.callback && c'.closed == c.closed
    && c'.watchMask == c.watchMask && c'.timer == c.timer
  }

  /** From INIT set and FATAL_ERROR clear, a wait ends with this result and these fields. */
  ghost predicate Waited(env: Env, c: Conn, result: int, error: Errno, c': Conn) {
    exists tries: nat ::
      && Decided(env.attempts, c.async, tries)
      && WaitAnswer(env.attempts(tries), c.async, result, error)
      && WaitFlags(env.attempts, tries, c, c')
  }

  /** Tls_WaitForConnect from any state; `permanent` is how its caller wants a failure reported. */
  ghost predicate WaitMeans(env: Env, c: Conn, permanent: bool, result: int, error: Errno, c': Conn) {
    if !c.init then result == 1 && error == NoErrno && c' == c
    else if c.fatal then result == -1 && error == (if permanent then ECONNABORTED else ECONNRESET) && c' == c
    else Waited(env, c, result, error, c')
  }

  // ----- BIO_read and BIO_write

  /** The flags after a transfer; a read may meet the peer's end of file without a close notice. */
  predicate TransferFlags(o: Outcome, reading: bool, c: Conn, c': Conn) {
    && c'.fatal == (c.fatal || (o.rc == ErrorSsl && !(reading && o.unexpectedEof)) || SocketError(o))
    && c'.eof == (c.eof || o.rc in {ErrorSsl, ErrorSyscall, ZeroReturn})
    && c'.want == Mask(c.want.readable || o.rc == WantRead, c.want.writable || o.rc == WantWrite, c.want.exception)
    && c'.init == c.init && c'.async == c.async && c'.callback == c.callback && c'.closed == c.closed
    && c'.watchMask == c.watchMask && c'.timer == c.timer
  }

  predicate ReadAnswer(o: Outcome, data: seq<byte>, n: int, error: Errno, buf: seq<byte>) {
    && (o.rc == ErrorNone ==> n == o.ret && error == NoErrno && buf == data)
    && (o.rc != ErrorNone ==> buf == [])
    && (o.rc in {WantRead, WantWrite, WantX509Lookup} ==> n == -1 && error == EAGAIN)
    && (o.rc == WantAsync ==> n == 0 && error == EAGAIN)
    && (o.rc == ErrorSsl && !o.unexpectedEof ==> n == -1 && error == ECONNABORTED)
    && (SocketError(o) ==> n == -1 && error == o.errno)
    && (o.rc == ErrorSsl && o.unexpectedEof ==> n == 0 && error == NoErrno)
    && (o.rc == ErrorSyscall && !SocketError(o) ==> n == 0 && error == NoErrno)
    && (o.rc in {ZeroReturn, WantConnect, WantAccept, WantAsyncJob, WantClientHelloCb, WantRetryVerify, UnknownError}
        ==> n == 0 && error == NoErrno)
  }

  predicate WriteAnswer(o: Outcome, n: int, error: Errno) {
    && (o.rc == ErrorNone ==> n == o.ret && error == NoErrno)
    && (o.rc in {WantRead, WantWrite, WantX509Lookup} ==> n == -1 && error == EAGAIN)
    && (o.rc == WantAsync ==> n == 0 && error == EAGAIN)
    && (o.rc == ErrorSsl ==> n == -1 && error == ECONNABORTED)
    && (SocketError(o) ==> n == -1 && error == o.errno)
    && (o.rc == ErrorSyscall && !SocketError(o) ==> n == 0 && error == NoErrno)
    && (o.rc in {ZeroReturn, WantConnect, WantAccept, WantAsyncJob, WantClientHelloCb, WantRetryVerify, UnknownError}
        ==> n == 0 && error == NoErrno)
  }

  // ----- whole calls

  /** TlsInputProc from the fields c answers r and leaves c'. */
  ghost predicate InputAnswer(env: Env, c: Conn, r: Return, c': Conn) {
    if c.callback || c.fatal || c.eof then r == InputRet(0, NoErrno, []) && c' == c
    else if !c.init then
      r.InputRet? && ReadAnswer(env.io, env.data, r.n, r.error, r.data) && TransferFlags(env.io, true, c, c')
    else
      exists result: int, error: Errno, c1: Conn :: Waited(env, c, result, error, c1) &&
        if result > 0 then
          r.InputRet? && ReadAnswer(env.io, env.data, r.n, r.error, r.data) && TransferFlags(env.io, true, c1, c')
        else if result < 0 && error == ECONNRESET then r == InputRet(0, NoErrno, []) && c' == c1.(eof := true)
        else r == InputRet(-1, error, []) && c' == c1
  }

  /** The write itself; nothing to send is a flush. */
  ghost predicate Sent(env: Env, buf: seq<byte>, c: Conn, r: Return, c': Conn) {
    if buf == [] then r == (if env.flushOk then OutputRet(0, NoErrno, []) else OutputRet(-1, EIO, [])) && c' == c
    else r.OutputRet? && r.offered == buf && WriteAnswer(env.io, r.n, r.error) && TransferFlags(env.io, false, c, c')
  }

  ghost predicate OutputAnswer(env: Env, buf: seq<byte>, c: Conn, r: Return, c': Conn) {
    if c.callback then r == OutputRet(-1, EAGAIN, buf) && c' == c
    else if c.fatal then r == OutputRet(-1, ECONNABORTED, buf) && c' == c
    else if !c.init then Sent(env, buf, c, r, c')
    else
      exists result: int, error: Errno, c1: Conn :: Waited(env, c, result, error, c1) &&
        if result > 0 then Sent(env, buf, c1, r, c')
        else if result < 0 && error == ECONNRESET then r == OutputRet(0, NoErrno, buf) && c' == c1.(eof := true)
        else r == OutputRet(-1, error, buf) && c' == c1
  }

  /** TlsNotifyProc passes its mask up unless a callback is running or the handshake wants another try. */
  ghost predicate NotifyAnswer(env: Env, mask: Mask, c: Conn, passed: Mask, c': Conn) {
    if c.callback then passed == Mask(false, false, false) && c' == c.(timer := None)
    else
      exists result: int, error: Errno ::
        && WaitMeans(env, c.(timer := None), true, result, error, c')
        && passed == if result < 1 && error == EAGAIN then Mask(false, false, false) else mask
  }

  /** The answer of tls::handshake, None for a Tcl error. */
  ghost predicate HandshakeMeans(env: Env, c: Conn, answer: Option<int>, c': Conn) {
    exists result: int, error: Errno ::
      && WaitMeans(env, c, true, result, error, c')
      && answer == if result <= 0 && c.async && error == EAGAIN then Some(0)
                   else if result < 0 then None
                   else Some(1)
  }

  // ----- the switches

  lemma WaitSwitchAnswers(o: Outcome, async: bool, caller: Caller)
    requires !(async && MayRepeat(o))
    ensures var v := WaitVerdict(o, caller);
      v.next.ToCaller? && v.next.caller == caller && WaitAnswer(o, async, v.next.result, v.next.error)
  {}

  lemma WaitSwitchSets(c: Conn, o: Outcome, caller: Caller)
    requires c.init && !c.fatal && Genuine(o)
    ensures var c' := Concluded(AfterAttempt(c, o), WaitVerdict(o, caller));
      c' == c.(init := o.rc != ErrorNone, fatal := o.rc == ErrorSsl || SocketError(o),
               eof := c.eof || o.rc in {ErrorSsl, ErrorSyscall, ZeroReturn}, want := AfterAttempt(c, o).want)
  {}

  lemma ReadSwitchAnswers(o: Outcome, data: seq<byte>)
    ensures var v := ReadVerdict(o, data);
      && v.next.ToApp? && v.next.ret.InputRet?
      && ReadAnswer(o, data, v.next.ret.n, v.next.ret.error, v.next.ret.data)
  {}

  lemma ReadSwitchSets(c: Conn, o: Outcome, data: seq<byte>)
    ensures TransferFlags(o, true, c, Concluded(c, ReadVerdict(o, data)))
  {}

  lemma WriteSwitchAnswers(o: Outcome, buf: seq<byte>)
    ensures var v := WriteVerdict(o, buf);
      && v.next.ToApp? && v.next.ret.OutputRet? && v.next.ret.offered == buf
      && WriteAnswer(o, v.next.ret.n, v.next.ret.error)
  {}

  lemma WriteSwitchSets(c: Conn, o: Outcome, buf: seq<byte>)
    ensures TransferFlags(o, false, c, Concluded(c, WriteVerdict(o, buf)))
  {}

  // ----- the loop

  /** What `k` attempts have left wanted. */
  ghost predicate WantedBy(env: Env, k: nat, c: Conn, c': Conn) {
    && c' == c.(want := c'.want)
    && (c'.want.readable <==> c.want.readable || exists i: nat :: i < k && env.attempts(i).rc == WantRead)
    && (c'.want.writable <==> c.want.writable || exists i: nat :: i < k && env.attempts(i).rc == WantWrite)
    && c'.want.exception == c.want.exception
  }

  lemma WantedNext(env: Env, k: nat, c: Conn, c1: Conn)
    requires WantedBy(env, k, c, c1) && Genuine(env.attempts(k))
    ensures WantedBy(env, k + 1, c, AfterAttempt(c1, env.attempts(k)))
  {
    var o := env.attempts(k);
    assert AfterAttempt(c1, o).want
        == Mask(c1.want.readable || o.rc == WantRead, c1.want.writable || o.rc == WantWrite, c1.want.exception);
  }

  lemma LastWaited(env: Env, k: nat, c: Conn, c': Conn, result: int, error: Errno)
    requires Decided(env.attempts, c.async, k) && WaitAnswer(env.attempts(k), c.async, result, error)
    requires c.init && !c.fatal
    requires WantedBy(env, k + 1, c, c.(want := c'.want))
    requires var o := env.attempts(k); var left := c.async && MayRepeat(o);
      c' == c.(want := c'.want, init := left || o.rc != ErrorNone,
               fatal := !left && (o.rc == ErrorSsl || SocketError(o)),
               eof := c.eof || (!left && o.rc in {ErrorSsl, ErrorSyscall, ZeroReturn}))
    ensures Waited(env, c, result, error, c')
  {
    assert WaitFlags(env.attempts, k, c, c');
  }

  /** Inside the loop after `k` attempts, none of which stopped it; c are the fields before the first. */
  ghost predicate InLoop(w: World, below: Stack, env: Env, k: nat, c: Conn) {
    && Running(w, below, env) && w.frames != below && w.frames.top.WaitFrame?
    && w.frames.top.retries + k == 10 && (c.async ==> k == 0)
    && (forall i: nat | i < k :: MayRepeat(env.attempts(i)))
    && c.init && !c.fatal && WantedBy(env, k, c, w.conn)
  }

  /** The last attempt of a loop in terms of its own result. */
  lemma LastAttemptLeaves(w: World, below: Stack, env: Env, k: nat) returns (result: int, error: Errno)
    requires Running(w, below, env) && w.frames != below && w.frames.top.WaitFrame?
    requires w.conn.init && !w.conn.fatal
    requires !(MayRepeat(env.attempts(k)) && (w.conn.async || w.frames.top.retries > 0))
    ensures var w', o := Drive(w, below, env, k, true), env.attempts(k);
      && w'.frames == Cons(WaitDone(w.frames.top.caller, result, error), below) && w'.results == w.results
      && WaitAnswer(o, w.conn.async, result, error)
      && w'.conn == w.conn.(init := o.rc != ErrorNone, fatal := o.rc == ErrorSsl || SocketError(o),
                            eof := w.conn.eof || o.rc in {ErrorSsl, ErrorSyscall, ZeroReturn},
                            want := AfterAttempt(w.conn, o).want)
  {
    var o, caller := env.attempts(k), w.frames.top.caller;
    Advances(w, below, env, k);
    AttemptConcludes(w, below, env, k + 1, o);
    WaitSwitchAnswers(o, w.conn.async, caller);
    WaitSwitchSets(w.conn, o, caller);
    result, error := WaitVerdict(o, caller).next.result, WaitVerdict(o, caller).next.error;
  }

  lemma StopsHere(w: World, below: Stack, env: Env, k: nat, c: Conn) returns (result: int, error: Errno)
    requires InLoop(w, below, env, k, c)
    requires !(MayRepeat(env.attempts(k)) && (c.async || w.frames.top.retries > 0))
    ensures var w' := Drive(w, below, env, k, true);
      && w'.frames == Cons(WaitDone(w.frames.top.caller, result, error), below) && w'.results == w.results
      && Waited(env, c, result, error, w'.conn)
  {
    result, error := LastAttemptLeaves(w, below, env, k);
    WantedNext(env, k, c, w.conn);
    LastWaited(env, k, c, Drive(w, below, env, k, true).conn, result, error);
  }

  lemma LeavesForNow(w: World, below: Stack, env: Env, k: nat, c: Conn)
    requires InLoop(w, below, env, k, c) && c.async && MayRepeat(env.attempts(k))
    ensures var w' := Drive(w, below, env, k, true);
      && w'.frames == Cons(WaitDone(w.frames.top.caller, 0, EAGAIN), below) && w'.results == w.results
      && Waited(env, c, 0, EAGAIN, w'.conn)
  {
    var w' := WaitReturns(w, env.attempts(k));
    Advances(w, below, env, k);
    BelowDiffers(w'.frames);
    WantedNext(env, k, c, w.conn);
    LastWaited(env, k, c, w'.conn, 0, EAGAIN);
  }

  lemma {:induction false} LoopAnswers(w: World, below: Stack, env: Env, k: nat, c: Conn)
    returns (result: int, error: Errno)
    requires InLoop(w, below, env, k, c)
    ensures var w' := Drive(w, below, env, k, true);
      && w'.frames == Cons(WaitDone(w.frames.top.caller, result, error), below) && w'.results == w.results
      && Waited(env, c, result, error, w'.conn)
    decreases w.frames.top.retries
  {
    if !(MayRepeat(env.attempts(k)) && (c.async || w.frames.top.retries > 0)) {
      result, error := StopsHere(w, below, env, k, c);
    } else if c.async {
      LeavesForNow(w, below, env, k, c);
      result, error := 0, EAGAIN;
    } else {
      Advances(w, below, env, k);
      var w' := WaitReturns(w, env.attempts(k));
      BelowDiffers(w'.frames);
      WantedNext(env, k, c, w.conn);
      result, error := LoopAnswers(w', below, env, k + 1, c);
    }
  }

  // ----- main results

  /** Tls_WaitForConnect, for every environment. */
  lemma WaitAnswers(w: World, caller: Caller, env: Env) returns (result: int, error: Errno)
    requires Running(EnterWait(w, caller), w.frames, env)
    ensures var w' := Drive(EnterWait(w, caller), w.frames, env, 0, true);
      && w'.frames == Cons(WaitDone(caller, result, error), w.frames) && w'.results == w.results
      && WaitMeans(env, w.conn, !caller.ForInput?, result, error, w'.conn)
  {
    var start := EnterWait(w, caller);
    BelowDiffers(start.frames);
    if w.conn.init && !w.conn.fatal {
      result, error := LoopAnswers(start, w.frames, env, 0, w.conn);
    } else {
      result, error := start.frames.top.result, start.frames.top.error;
    }
  }

  /** The wait of a whole call, and the call from there on. */
  lemma CallWaits(w: World, caller: Caller, env: Env) returns (w2: World, result: int, error: Errno)
    requires Running(EnterWait(w, caller), w.frames, env)
    ensures w2.frames == Cons(WaitDone(caller, result, error), w.frames) && w2.results == w.results
    ensures WaitMeans(env, w.conn, !caller.ForInput?, result, error, w2.conn)
    ensures Running(w2, w.frames, env) && Running(Resumed(w2), w.frames, env)
    ensures Drive(EnterWait(w, caller), w.frames, env, 0, false) == Drive(Resumed(w2), w.frames, env, 0, false)
  {
    var start := EnterWait(w, caller);
    w2 := Drive(start, w.frames, env, 0, true);
    result, error := WaitAnswers(w, caller, env);
    BelowDiffers(w2.frames);
    WaitPassed(start, w2, w.frames, env);
  }

  /** A read that has reached BIO_read. */
  lemma ReadEnds(w: World, below: Stack, env: Env)
    requires Running(w, below, env) && w.frames != below && w.frames.top.ReadFrame?
    ensures var w' := Drive(w, below, env, 0, false);
      && w'.results.Then? && w'.results.earlier == w.results && w'.results.last.InputRet?
      && ReadAnswer(env.io, env.data, w'.results.last.n, w'.results.last.error, w'.results.last.data)
      && TransferFlags(env.io, true, w.conn, w'.conn)
  {
    IoConcludes(w, below, env, ReadVerdict(env.io, env.data));
    ReadSwitchAnswers(env.io, env.data);
    ReadSwitchSets(w.conn, env.io, env.data);
  }

  /** TlsInputProc, for every environment. */
  lemma InputAnswers(w: World, size: int, env: Env)
    requires Callable(w, Input(size), env)
    ensures var w' := AfterCall(w, Input(size), env);
      && w'.results.Then? && w'.results.earlier == w.results
      && InputAnswer(env, w.conn, w'.results.last, w'.conn)
  {
    CallRuns(w, Input(size), env);
    if w.conn.callback || w.conn.fatal || w.conn.eof {
    } else if !w.conn.init {
      BelowDiffers(Cons(ReadFrame(size), w.frames));
      ReadEnds(EnterInput(w, size), w.frames, env);
    } else {
      var w2, result, error := CallWaits(w, ForInput(size), env);
      assert Waited(env, w.conn, result, error, w2.conn);
      if result > 0 {
        BelowDiffers(Cons(ReadFrame(size), w.frames));
        ReadEnds(Resumed(w2), w.frames, env);
      } else {
        assert AfterCall(w, Input(size), env) == Resumed(w2);
      }
    }
  }

  /** A write that has reached BIO_write or BIO_flush. */
  lemma WriteEnds(w: World, below: Stack, env: Env, buf: seq<byte>)
    requires Running(w, below, env) && w.frames != below
    requires w.frames.top == if buf == [] then FlushFrame else WriteFrame(buf)
    ensures var w' := Drive(w, below, env, 0, false);
      w'.results.Then? && w'.results.earlier == w.results && Sent(env, buf, w.conn, w'.results.last, w'.conn)
  {
    if buf == [] {
      FlushEnds(w, below, env);
    } else {
      IoConcludes(w, below, env, WriteVerdict(env.io, buf));
      WriteSwitchAnswers(env.io, buf);
      WriteSwitchSets(w.conn, env.io, buf);
    }
  }

  /** TlsOutputProc, for every environment. */
  lemma OutputAnswers(w: World, buf: seq<byte>, env: Env)
    requires Callable(w, Output(buf), env)
    ensures var w' := AfterCall(w, Output(buf), env);
      && w'.results.Then? && w'.results.earlier == w.results
      && OutputAnswer(env, buf, w.conn, w'.results.last, w'.conn)
  {
    CallRuns(w, Output(buf), env);
    BelowDiffers(Cons(if buf == [] then FlushFrame else WriteFrame(buf), w.frames));
    if w.conn.callback || w.conn.fatal {
    } else if !w.conn.init {
      WriteEnds(EnterOutput(w, buf), w.frames, env, buf);
    } else {
      var w2, result, error := CallWaits(w, ForOutput(buf), env);
      assert Waited(env, w.conn, result, error, w2.conn);
      if result > 0 {
        WriteEnds(Resumed(w2), w.frames, env, buf);
      } else {
        assert AfterCall(w, Output(buf), env) == Resumed(w2);
      }
    }
  }

  /** TlsNotifyProc, for every environment. */
  lemma NotifyAnswers(w: World, mask: Mask, env: Env)
    requires Callable(w, Notify(mask), env)
    ensures var w' := AfterCall(w, Notify(mask), env);
      && w'.results.Then? && w'.results.earlier == w.results && w'.results.last.NotifyRet?
      && NotifyAnswer(env, mask, w.conn, w'.results.last.mask, w'.conn)
  {
    CallRuns(w, Notify(mask), env);
    var w1 := NotifyWaits(w, mask, env);
    if w.conn.callback {
    } else if w.conn.init {
      var w2, result, error := CallWaits(w1, ForNotify(mask), env);
      assert AfterCall(w, Notify(mask), env) == Resumed(w2);
    } else {
      assert WaitMeans(env, w1.conn, true, 1, NoErrno, w1.conn);
    }
  }

  /** tls::handshake, for every environment. */
  lemma HandshakeAnswers(w: World, env: Env)
    requires Callable(w, Handshake, env)
    ensures var w' := AfterCall(w, Handshake, env);
      && w'.results.Then? && w'.results.earlier == w.results
      && (w'.results.last.HandshakeRet? || w'.results.last.HandshakeFailed?)
      && HandshakeMeans(env, w.conn, if w'.results.last.HandshakeRet? then Some(w'.results.last.value) else None,
                        w'.conn)
  {
    CallRuns(w, Handshake, env);
    var w2, result, error := CallWaits(w, ForHandshake, env);
    assert AfterCall(w, Handshake, env) == Resumed(w2);
  }
}
