/** The driver procedures of generic/tlsIO.c over the fields of the C State, proved to make exactly
    the steps of TlsMachine. The flag word is kept as one boolean field per flag. */
module TlsChannel {
  import opened TlsTypes
  import opened TlsMachine
  import opened TlsFlags
  import opened TlsDrive
  import opened TlsLifetime
  import opened TlsAnswers

  lemma WatchStep(w: World, mask: Mask) returns (w': World)
    requires Enabled(w, Watch(mask))
    ensures w' == Step(w, Watch(mask))
    ensures w.conn.callback ==> w'.conn == w.conn
    ensures !w.conn.callback && w.conn.fatal ==>
      w'.conn == w.conn.(watchMask := NO_EVENTS) && w'.core.parentWatch == NO_EVENTS
    ensures !w.conn.callback && !w.conn.fatal ==>
      && w'.conn == w.conn.(watchMask := mask, timer := if mask.readable then Some(w.core.nextToken) else None)
      && w'.core.parentWatch == mask
  {
    w' := Step(w, Watch(mask));
    WatchSets(w, mask);
  }

  lemma TimerStep(w: World, token: nat, outPending: bool, inPending: bool) returns (w': World)
    requires Enabled(w, TimerFires(token, outPending, inPending))
    ensures w' == Step(w, TimerFires(token, outPending, inPending))
    ensures w'.frames == Cons(TimerFrame(w.conn.timer.Some?), w.frames) && w'.conn == w.conn.(timer := None)
    ensures w'.results == Then(w.results, Raised(Mask(w.conn.want.readable || (inPending && !w.conn.closed),
                                                      w.conn.want.writable || (outPending && !w.conn.eof),
                                                      w.conn.want.exception)))
  {
    w' := Step(w, TimerFires(token, outPending, inPending));
  }

  class State {
    var async: bool       // TLS_TCL_ASYNC
    var init: bool        // TLS_TCL_INIT
    var callback: bool    // TLS_TCL_CALLBACK
    var fatal: bool       // TLS_TCL_FATAL_ERROR
    var eof: bool         // TLS_TCL_EOF
    var closed: bool      // TLS_TCL_CLOSED
    var want: Mask
    var watchMask: Mask
    var timer: Option<nat>

    /** The same channel in the machine, with everything around the fields. */
    ghost var w: World

    ghost function View(): Conn
      reads this
    {
      Conn(async, init, callback, fatal, eof, closed, want, watchMask, timer)
    }

    ghost predicate Valid()
      reads this
    {
      w.conn == View()
    }

    /** The State of tls::import: all zero but INIT, then the blocking mode of the parent. */
    constructor (nonblocking: bool)
      ensures Valid() && w == Imported(nonblocking)
    {
      async, init, callback, fatal, eof, closed := nonblocking, true, false, false, false, false;
      want, watchMask, timer := NO_EVENTS, NO_EVENTS, None;
      w := Imported(nonblocking);
    }

    method TlsBlockModeProc(nonblocking: bool)
      requires Valid() && Enabled(w, BlockMode(nonblocking))
      modifies this
      ensures Valid() && w == Step(old(w), BlockMode(nonblocking))
      ensures View() == old(View()).(async := nonblocking)
    {
      if nonblocking {
        async := true;
      } else {
        async := false;
      }
      w := Step(w, BlockMode(nonblocking));
    }

    /** `registered` is the interest passed down to the watch procedure of the parent, if any. */
    method TlsWatchProc(mask: Mask, newToken: nat) returns (registered: Option<Mask>)
      requires Valid() && Enabled(w, Watch(mask))
      requires newToken == w.core.nextToken  // the token Tcl_CreateTimerHandler hands out
      modifies this
      ensures Valid() && w == Step(old(w), Watch(mask))
      ensures registered.None? <==> callback
      ensures registered.Some? ==> registered.value == w.core.parentWatch == watchMask
      ensures old(callback) ==> View() == old(View())
      ensures !old(callback) && old(fatal) ==> View() == old(View()).(watchMask := Mask(false, false, false))
      ensures !old(callback) && !old(fatal) ==>
        View() == old(View()).(watchMask := mask, timer := if mask.readable then Some(newToken) else None)
    {
      w := WatchStep(w, mask);
      if callback {
        return None;
      }
      if fatal {
        watchMask := NO_EVENTS;
        return Some(NO_EVENTS);
      }
      watchMask := mask;
      if timer.Some? {
        timer := None;
      }
      if mask.readable {
        timer := Some(newToken);
      }
      return Some(mask);
    }

    // ----- Tls_WaitForConnect

    /** What one attempt leaves wanted, and whether it should be repeated. */
    method NoteAttempt(o: Outcome) returns (bioShouldRetry: bool)
      modifies `want
      ensures bioShouldRetry == Retryable(o)
      ensures View() == AfterAttempt(old(View()), o)
    {
      bioShouldRetry := o.bioRetry;
      if o.ret <= 0 {
        if o.rc.WantConnect? || o.rc.WantAccept? {
          bioShouldRetry := true;
        } else if o.rc.WantRead? {
          bioShouldRetry := true;
          want := want.(readable := true);
        } else if o.rc.WantWrite? {
          bioShouldRetry := true;
          want := want.(writable := true);
        }
      }
    }

    /** The switch of Tls_WaitForConnect on the last attempt. */
    method ConcludeWait(o: Outcome, ghost caller: Caller) returns (result: int, errorCode: Errno)
      modifies `init, `fatal, `eof, `want
      ensures View() == Concluded(old(View()), WaitVerdict(o, caller))
      ensures WaitVerdict(o, caller).next == ToCaller(caller, result, errorCode)
    {
      match o.rc
      case ErrorNone =>
        init := false;
        result, errorCode := 1, NoErrno;
      case ErrorSsl =>
        fatal := true;
        eof := true;
        result, errorCode := -1, ECONNABORTED;
      case ErrorSyscall =>
        if o.err == 0 && o.ret == 0 {
          errorCode := ECONNRESET;
        } else {
          errorCode := o.errno;
          if errorCode == ECONNRESET {
            errorCode := ECONNABORTED;
          }
          fatal := true;
        }
        eof := true;
        result := -1;
      case ZeroReturn =>
        eof := true;
        result, errorCode := -1, ECONNRESET;
      case WantRead =>
        want := want.(readable := true);
        result, errorCode := 0, EAGAIN;
      case WantWrite =>
        want := want.(writable := true);
        result, errorCode := 0, EAGAIN;
      case _ =>
        result, errorCode := 0, EAGAIN;
    }

    /** The loop over SSL_accept or SSL_connect, then the switch. */
    method TlsWaitForConnect(handshakeFailureIsPermanent: bool, ghost caller: Caller, env: Env)
      returns (result: int, errorCode: Errno)
      requires Valid()
      requires handshakeFailureIsPermanent == !caller.ForInput?
      requires Running(EnterWait(w, caller), w.frames, env)
      modifies this
      ensures Valid()
      ensures w == Drive(EnterWait(old(w), caller), old(w).frames, env, 0, true)
      ensures w.frames == Cons(WaitDone(caller, result, errorCode), old(w).frames) && w.results == old(w).results
      ensures WaitMeans(env, old(View()), handshakeFailureIsPermanent, result, errorCode, View())
    {
      ghost var r, e := WaitAnswers(w, caller, env);
      ghost var start, below := EnterWait(w, caller), w.frames;
      w := start;
      BelowDiffers(w.frames);
      if !init {
        return 1, NoErrno;
      }
      if fatal {
        if handshakeFailureIsPermanent {
          return -1, ECONNABORTED;
        } else {
          return -1, ECONNRESET;
        }
      }

      var attempt, retries, o := 0, RETRIES, env.attempts(0);
      while true
        invariant 0 <= retries && Valid() && w.frames == Cons(WaitFrame(caller, retries), below)
        invariant w.frames != below && w.results == start.results
        invariant Running(w, below, env) && Drive(w, below, env, attempt, true) == Drive(start, below, env, 0, true)
        decreases retries
      {
        o := env.attempts(attempt);
        Advances(w, below, env, attempt);
        ghost var before := w;
        w := WaitReturns(w, o);
        attempt := attempt + 1;
        var bioShouldRetry := NoteAttempt(o);
        if bioShouldRetry {
          if async {
            BelowDiffers(w.frames);
            return 0, EAGAIN;
          } else if retries > 0 {
            BelowDiffers(w.frames);
            retries := retries - 1;
            continue;
          }
        }
        AttemptConcludes(before, below, env, attempt, o);
        result, errorCode := ConcludeWait(o, caller);
        if w.frames.top.Settling? {
          w := Settled(w);
        }
        return;
      }
    }

    // ----- TlsInputProc

    method ConcludeRead(o: Outcome, data: seq<byte>)
      returns (bytesRead: int, errorCode: Errno, buf: seq<byte>)
      modifies `fatal, `eof, `want
      ensures View() == Concluded(old(View()), ReadVerdict(o, data))
      ensures ReadVerdict(o, data).next == ToApp(InputRet(bytesRead, errorCode, buf))
    {
      match o.rc
      case ErrorNone =>
        return o.ret, NoErrno, data;
      case ErrorSsl =>
        if o.unexpectedEof {
          bytesRead, errorCode := 0, NoErrno;
        } else {
          bytesRead, errorCode := -1, ECONNABORTED;
          fatal := true;
        }
        eof := true;
        return bytesRead, errorCode, [];
      case WantRead =>
        want := want.(readable := true);
        return -1, EAGAIN, [];
      case WantWrite =>
        want := want.(writable := true);
        return -1, EAGAIN, [];
      case WantX509Lookup =>
        return -1, EAGAIN, [];
      case ErrorSyscall =>
        if o.err == 0 && o.ret == 0 {
          bytesRead, errorCode := 0, NoErrno;
        } else {
          bytesRead, errorCode := -1, o.errno;
          fatal := true;
        }
        eof := true;
        return bytesRead, errorCode, [];
      case ZeroReturn =>
        eof := true;
        return 0, NoErrno, [];
      case WantAsync =>
        return 0, EAGAIN, [];
      case _ =>
        return 0, NoErrno, [];
    }

    /** TlsInputProc once no flag stands against reading. */
    method ConnectThenRead(bufSize: int, env: Env) returns (bytesRead: int, errorCode: Errno, buf: seq<byte>)
      requires Valid() && Callable(w, Input(bufSize), env) && !callback && !fatal && !eof
      modifies this
      ensures Valid() && w == AfterCall(old(w), Input(bufSize), env)
      ensures w.results == Then(old(w).results, InputRet(bytesRead, errorCode, buf))
    {
      ghost var start, below := Step(w, Input(bufSize)), w.frames;
      CallRuns(w, Input(bufSize), env);
      BelowDiffers(Cons(FlushFrame, below));
      if init {
        var tlsConnect;
        tlsConnect, errorCode := TlsWaitForConnect(false, ForInput(bufSize), env);
        WaitPassed(start, w, below, env);
        w := Resumed(w);
        if tlsConnect < 0 {
          bytesRead := -1;
          if errorCode == ECONNRESET {
            errorCode := NoErrno;
            bytesRead := 0;
            eof := true;
          }
          return bytesRead, errorCode, [];
        } else if tlsConnect == 0 {
          return -1, errorCode, [];
        }
      } else {
        w := start;
      }
      ghost var v := ReadVerdict(env.io, env.data);
      IoConcludes(w, below, env, v);
      bytesRead, errorCode, buf := ConcludeRead(env.io, env.data);
      w := Deliver(Traced(w, Result(Read, env.io)).(conn := Concluded(w.conn, v)), v.next);
    }

    method TlsInputProc(bufSize: int, env: Env) returns (bytesRead: int, errorCode: Errno, buf: seq<byte>)
      requires Valid() && Callable(w, Input(bufSize), env)
      modifies this
      ensures Valid() && w == AfterCall(old(w), Input(bufSize), env)
      ensures w.results == Then(old(w).results, InputRet(bytesRead, errorCode, buf))
      ensures InputAnswer(env, old(View()), InputRet(bytesRead, errorCode, buf), View())
    {
      InputAnswers(w, bufSize, env);
      if callback || fatal || eof {
        CallRuns(w, Input(bufSize), env);
        w := Step(w, Input(bufSize));
        return 0, NoErrno, [];
      }
      bytesRead, errorCode, buf := ConnectThenRead(bufSize, env);
    }

    // ----- TlsOutputProc

    method ConcludeWrite(o: Outcome, buf: seq<byte>) returns (written: int, errorCode: Errno)
      modifies `fatal, `eof, `want
      ensures View() == Concluded(old(View()), WriteVerdict(o, buf))
      ensures WriteVerdict(o, buf).next == ToApp(OutputRet(written, errorCode, buf))
    {
      match o.rc
      case ErrorNone =>
        return o.ret, NoErrno;
      case ErrorSsl =>
        fatal := true;
        eof := true;
        return -1, ECONNABORTED;
      case WantRead =>
        want := want.(readable := true);
        return -1, EAGAIN;
      case WantWrite =>
        want := want.(writable := true);
        return -1, EAGAIN;
      case WantX509Lookup =>
        return -1, EAGAIN;
      case ErrorSyscall =>
        if o.err == 0 && o.ret == 0 {
          written, errorCode := 0, NoErrno;
        } else {
          written, errorCode := -1, o.errno;
          fatal := true;
        }
        eof := true;
        return written, errorCode;
      case ZeroReturn =>
        eof := true;
        return 0, NoErrno;
      case WantAsync =>
        return 0, EAGAIN;
      case _ =>
        return 0, NoErrno;
    }

    /** The end of TlsOutputProc: nothing to send is a flush. */
    method FlushOrWrite(buf: seq<byte>, env: Env, ghost below: Stack) returns (written: int, errorCode: Errno)
      requires Valid() && Running(w, below, env) && w.frames != below
      requires w.frames.top == if buf == [] then FlushFrame else WriteFrame(buf)
      modifies this
      ensures Valid() && w == Drive(old(w), below, env, 0, false)
      ensures w.results == Then(old(w).results, OutputRet(written, errorCode, buf))
    {
      if |buf| == 0 {
        FlushEnds(w, below, env);
        if !env.flushOk {
          w := Returned(Pop(w), OutputRet(-1, EIO, []));
          return -1, EIO;
        }
        w := Returned(Pop(w), OutputRet(0, NoErrno, []));
        return 0, NoErrno;
      }
      ghost var v := WriteVerdict(env.io, buf);
      IoConcludes(w, below, env, v);
      written, errorCode := ConcludeWrite(env.io, buf);
      w := Deliver(Traced(w, Result(Write, env.io)).(conn := Concluded(w.conn, v)), v.next);
    }

    /** TlsOutputProc once no flag stands against writing. */
    method ConnectThenWrite(buf: seq<byte>, env: Env) returns (written: int, errorCode: Errno)
      requires Valid() && Callable(w, Output(buf), env) && !callback && !fatal
      modifies this
      ensures Valid() && w == AfterCall(old(w), Output(buf), env)
      ensures w.results == Then(old(w).results, OutputRet(written, errorCode, buf))
    {
      ghost var start, below := EnterOutput(w, buf), w.frames;
      CallRuns(w, Output(buf), env);
      BelowDiffers(Cons(FlushFrame, below));
      if init {
        var tlsConnect;
        tlsConnect, errorCode := TlsWaitForConnect(true, ForOutput(buf), env);
        WaitPassed(start, w, below, env);
        w := Resumed(w);
        if tlsConnect < 0 {
          written := -1;
          if errorCode == ECONNRESET {
            errorCode := NoErrno;
            written := 0;
            eof := true;
          }
          return written, errorCode;
        } else if tlsConnect == 0 {
          return -1, errorCode;
        }
      } else {
        w := start;
      }
      written, errorCode := FlushOrWrite(buf, env, below);
    }

    method TlsOutputProc(buf: seq<byte>, env: Env) returns (written: int, errorCode: Errno)
      requires Valid() && Callable(w, Output(buf), env)
      modifies this
      ensures Valid() && w == AfterCall(old(w), Output(buf), env)
      ensures w.results == Then(old(w).results, OutputRet(written, errorCode, buf))
      ensures OutputAnswer(env, buf, old(View()), OutputRet(written, errorCode, buf), View())
    {
      OutputAnswers(w, buf, env);
      CallRuns(w, Output(buf), env);
      if callback {
        w := Step(w, Output(buf));
        return -1, EAGAIN;
      }
      if fatal {
        w := Step(w, Output(buf));
        return -1, ECONNABORTED;
      }
      written, errorCode := ConnectThenWrite(buf, env);
    }

    // ----- TlsNotifyProc and tls::handshake

    /** The part of TlsNotifyProc that connects first. */
    method ConnectThenNotify(mask: Mask, env: Env) returns (passed: Mask)
      requires Valid() && Running(EnterWait(w, ForNotify(mask)), w.frames, env)
      modifies this
      ensures Valid() && w == Drive(EnterWait(old(w), ForNotify(mask)), old(w).frames, env, 0, false)
      ensures w.results == Then(old(w).results, NotifyRet(passed))
    {
      ghost var start, below := EnterWait(w, ForNotify(mask)), w.frames;
      var tlsConnect, errorCode := TlsWaitForConnect(true, ForNotify(mask), env);
      BelowDiffers(w.frames);
      WaitPassed(start, w, below, env);
      w := Resumed(w);
      if tlsConnect < 1 && errorCode == EAGAIN {
        return NO_EVENTS;
      }
      return mask;
    }

    method TlsNotifyProc(mask: Mask, env: Env) returns (passed: Mask)
      requires Valid() && Callable(w, Notify(mask), env)
      modifies this
      ensures Valid() && w == AfterCall(old(w), Notify(mask), env)
      ensures w.results == Then(old(w).results, NotifyRet(passed))
      ensures NotifyAnswer(env, mask, old(View()), passed, View())
    {
      NotifyAnswers(w, mask, env);
      ghost var start := EnterNotify(w, mask);
      ghost var dropped := NotifyWaits(w, mask, env);
      if timer.Some? {
        timer := None;
      }
      w := dropped;
      if callback {
        w := start;
        return NO_EVENTS;
      }
      if init {
        passed := ConnectThenNotify(mask, env);
        return passed;
      }
      w := start;
      return mask;
    }

    /** Some(ret) is TCL_OK with that result, None is TCL_ERROR. */
    method HandshakeObjCmd(env: Env) returns (answer: Option<int>)
      requires Valid() && Callable(w, Handshake, env)
      modifies this
      ensures Valid() && w == AfterCall(old(w), Handshake, env)
      ensures w.results.Then? && w.results.earlier == old(w).results
      ensures match answer
              case Some(ret) => w.results.last == HandshakeRet(ret)
              case None => w.results.last.HandshakeFailed?
      ensures HandshakeMeans(env, old(View()), answer, View())
    {
      HandshakeAnswers(w, env);
      ghost var start, below := EnterWait(w, ForHandshake), w.frames;
      CallRuns(w, Handshake, env);
      BelowDiffers(Cons(FlushFrame, below));
      var ret, err := TlsWaitForConnect(true, ForHandshake, env);
      WaitPassed(start, w, below, env);
      w := Resumed(w);
      if ret <= 0 && async && err == EAGAIN {
        return Some(0);
      } else if ret < 0 {
        return None;
      } else {
        return Some(1);
      }
    }

    // ----- TlsChannelHandlerTimer and TlsCloseProc

    /** The events to raise: those wanted and those that buffered data calls for. */
    method RaisedMask(outPending: bool, inPending: bool) returns (mask: Mask)
      ensures mask == Mask(want.readable || (inPending && !closed),
                           want.writable || (outPending && !eof), want.exception)
    {
      mask := want;
      if outPending {
        if !eof {
          mask := mask.(writable := true);
        }
      }
      if inPending {
        if !closed {
          mask := mask.(readable := true);
        }
      }
    }

    /** Up to Tcl_NotifyChannel; whatever the notified scripts do happens before TimerReturns. */
    method TimerFires(token: nat, outPending: bool, inPending: bool) returns (mask: Mask, doRelease: bool)
      requires Valid() && Enabled(w, Event.TimerFires(token, outPending, inPending))
      modifies `w, `timer
      ensures Valid() && w == Step(old(w), Event.TimerFires(token, outPending, inPending))
      ensures w.frames == Cons(TimerFrame(doRelease), old(w).frames)
      ensures w.results == Then(old(w).results, Raised(mask))
      ensures mask == Mask(want.readable || (inPending && !closed),
                           want.writable || (outPending && !eof), want.exception)
      ensures timer == None && doRelease == old(timer).Some?
    {
      ghost var w' := TimerStep(w, token, outPending, inPending);
      mask := RaisedMask(outPending, inPending);
      doRelease := false;
      if timer.Some? {
        timer := None;
        doRelease := true;
      }
      w := w';
    }

    /** After Tcl_NotifyChannel. When Tcl_Release runs Tls_Free, Tls_Clean has no timer to delete. */
    method TimerReturns(doRelease: bool)
      requires Valid() && Lifetime(w) && w.frames.Cons? && w.frames.top == TimerFrame(doRelease)
      modifies this
      ensures Valid() && w == Step(old(w), Event.TimerReturns)
      ensures View() == old(View()).(want := Mask(false, false, false))
    {
      want := NO_EVENTS;
      w := Pop(w).(conn := View());
      if doRelease {
        w := Release(w);
      }
    }

    /** Up to SSL_shutdown, when it is called, and otherwise to the end. */
    method TlsCloseProc() returns (shutdown: bool)
      requires Valid() && Enabled(w, Close)
      modifies this
      ensures Valid() && w == Step(old(w), Close)
      ensures shutdown <==> w.frames == Cons(ShutdownFrame, old(w).frames)
      ensures !shutdown ==> w.frames == old(w).frames
      ensures shutdown <==> !old(init) && !old(fatal)
      ensures View() == if shutdown then old(View()) else old(View()).(timer := None)
    {
      CloseSets(w);
      BelowDiffers(Cons(ShutdownFrame, w.frames));
      w := EnterClose(w);
      if !init && !fatal {
        return true;
      }
      if timer.Some? {
        timer := None;
      }
      return false;
    }

    /** After SSL_shutdown; its scripts, and timers they let fire, come before. */
    method ShutdownReturns()
      requires Valid() && Enabled(w, Event.ShutdownReturns)
      modifies this
      ensures Valid() && w == Step(old(w), Event.ShutdownReturns)
      ensures View() == old(View()).(closed := true, timer := None)
    {
      ShutdownSets(w);
      w := LeaveShutdown(w);
      closed := true;
      if timer.Some? {
        timer := None;
      }
    }
  }
}
