/** The channel driver of generic/tlsIO.c as a transition system.

    A World is one imported channel together with what the Tcl core and OpenSSL remember about it.
    C calls that are still running are frames of a stack, so that a timer handler or a script
    callback may be interrupted by any other driver call. Each Event is one indivisible step; its
    arguments are the choices of the environment. */
module TlsMachine {
  import opened TlsTypes

  /** Retries of a blocking handshake after the first attempt. */
  const RETRIES := 10

  /** The fields of the C State that the driver reads and writes; `flags` is split into booleans. */
  datatype Conn = Conn(async: bool, init: bool, callback: bool, fatal: bool, eof: bool, closed: bool,
                       want: Mask, watchMask: Mask, timer: Option<nat>)

  /** The Tcl core's part: the preserve table entry of the State, the timer queue, the interest
      registered with the parent channel, and whether the core may still call the driver. */
  datatype Core = Core(preserve: nat, mustFree: bool, freed: nat, panic: bool,
                       scheduled: set<nat>, nextToken: nat, parentWatch: Mask, open: bool)

  /** Who called Tls_WaitForConnect. */
  datatype Caller = ForInput(size: int) | ForOutput(buf: seq<byte>) | ForNotify(mask: Mask) | ForHandshake

  /** A result handed to the Tcl core or to a script. */
  datatype Return =
    | InputRet(n: int, error: Errno, data: seq<byte>)
    | OutputRet(n: int, error: Errno, offered: seq<byte>)
    | NotifyRet(mask: Mask)
    | HandshakeRet(value: int)
    | HandshakeFailed(error: Errno)
    | Raised(mask: Mask)

  /** Where control goes once the flags of a failed operation are set. */
  datatype After = ToCaller(caller: Caller, result: int, error: Errno) | ToApp(ret: Return)

  datatype Frame =
    | TimerFrame(release: bool)                              // TlsChannelHandlerTimer inside Tcl_NotifyChannel
    | CallbackFrame                                          // EvalCallback inside Tcl_EvalObjEx
    | WaitFrame(caller: Caller, retries: nat)                // inside SSL_accept or SSL_connect
    | WaitDone(caller: Caller, result: int, error: Errno)    // Tls_WaitForConnect has its result
    | ReadFrame(size: int)                                   // inside BIO_read
    | WriteFrame(buf: seq<byte>)                             // inside BIO_write
    | FlushFrame                                             // inside BIO_flush of a zero-length write
    | ShutdownFrame                                          // TlsCloseProc inside BIO_flush or SSL_shutdown
    | Settling(setFatal: bool, setEof: bool, next: After)    // inside Tls_Error, flags still to be set

  datatype Stack = Nil | Cons(top: Frame, below: Stack)

  datatype Operation = Connect | Read | Write | Shutdown

  /** The SSL calls made so far, and the refusals of Tls_WaitForConnect. */
  datatype Entry = Call(op: Operation) | Result(op: Operation, o: Outcome) | Refused(permanent: bool)

  datatype World = World(conn: Conn, core: Core, frames: Stack, trace: Log<Entry>, results: Log<Return>)

  datatype Event =
    | BlockMode(nonblocking: bool)
    | Watch(mask: Mask)
    | Input(size: int)
    | Output(buf: seq<byte>)
    | Notify(mask: Mask)
    | Handshake
    | Close
    | TimerFires(token: nat, outPending: bool, inPending: bool)
    | TimerReturns
    | CallbackEnters
    | CallbackReturns
    | SslReturns(o: Outcome, data: seq<byte>)
    | FlushReturns(ok: bool)
    | ShutdownReturns
    | Settle
    | Resume

  /** A channel just after a successful tls::import without -model. */
  function Imported(nonblocking: bool): World {
    World(Conn(nonblocking, true, false, false, false, false, NO_EVENTS, NO_EVENTS, None),
          Core(0, false, 0, false, {}, 0, NO_EVENTS, true), Nil, Start, Start)
  }

  // ----- frames

  predicate IsDriver(f: Frame) {
    !f.TimerFrame? && !f.CallbackFrame?
  }

  /** A driver procedure other than the timer handler is running. */
  predicate Busy(s: Stack) {
    s.Cons? && (IsDriver(s.top) || Busy(s.below))
  }

  /** Tcl code is in control: no frame, or a script below a timer notification or a callback. */
  predicate AtScript(w: World) {
    w.frames.Nil? || !IsDriver(w.frames.top)
  }

  function Push(w: World, f: Frame): World {
    w.(frames := Cons(f, w.frames))
  }

  function Pop(w: World): World
    requires w.frames.Cons?
  {
    w.(frames := w.frames.below)
  }

  function Swap(w: World, f: Frame): World
    requires w.frames.Cons?
  {
    w.(frames := Cons(f, w.frames.below))
  }

  function Traced(w: World, e: Entry): World {
    w.(trace := Then(w.trace, e))
  }

  function Returned(w: World, r: Return): World {
    w.(results := Then(w.results, r))
  }

  // ----- lifetime of the State

  /** Tls_Clean, run by Tls_Free when the preserve table no longer has an entry: releasing a
      reference for a timer found here makes Tcl_Release panic. */
  function Clean(w: World): World {
    if w.conn.timer.None? then w
    else w.(conn := w.conn.(timer := None),
            core := w.core.(scheduled := w.core.scheduled - {w.conn.timer.value}, panic := true))
  }

  function Free(w: World): World {
    Clean(w.(core := w.core.(freed := w.core.freed + 1)))
  }

  function Preserve(w: World): World {
    w.(core := w.core.(preserve := w.core.preserve + 1))
  }

  function Release(w: World): World {
    if w.core.preserve == 0 then w.(core := w.core.(panic := true))
    else
      var w' := w.(core := w.core.(preserve := w.core.preserve - 1));
      if w'.core.preserve == 0 && w'.core.mustFree then Free(w'.(core := w'.core.(mustFree := false))) else w'
  }

  function EventuallyFree(w: World): World {
    if w.core.preserve > 0 then w.(core := w.core.(mustFree := true, panic := w.core.panic || w.core.mustFree))
    else Free(w)
  }

  /** The sequence that deletes a pending timer and drops its reference. */
  function DropTimer(w: World): World {
    if w.conn.timer.None? then w
    else Release(w.(conn := w.conn.(timer := None),
                    core := w.core.(scheduled := w.core.scheduled - {w.conn.timer.value})))
  }

  function AddTimer(w: World): World {
    var w' := Preserve(w);
    w'.(conn := w'.conn.(timer := Some(w'.core.nextToken)),
        core := w'.core.(scheduled := w'.core.scheduled + {w'.core.nextToken}, nextToken := w'.core.nextToken + 1))
  }

  // ----- entry points

  function EnterWatch(w: World, mask: Mask): World {
    if w.conn.callback then w
    else if w.conn.fatal then
      w.(conn := w.conn.(watchMask := NO_EVENTS), core := w.core.(parentWatch := NO_EVENTS))
    else
      var w' := DropTimer(w.(conn := w.conn.(watchMask := mask), core := w.core.(parentWatch := mask)));
      if mask.readable then AddTimer(w') else w'
  }

  /** TlsCloseProc: from here on the core makes no driver call, but scripts run by SSL_shutdown and
      the pending timer may still interrupt. */
  function EnterClose(w: World): World {
    var w' := w.(core := w.core.(open := false));
    if !w.conn.init && !w.conn.fatal then Traced(Push(w', ShutdownFrame), Call(Shutdown)) else FinishClose(w')
  }

  function LeaveShutdown(w: World): World
    requires w.frames.Cons?
  {
    FinishClose(Pop(w).(conn := w.conn.(closed := true)))
  }

  /** TlsCloseProc after the shutdown. */
  function FinishClose(w: World): World {
    EventuallyFree(DropTimer(w))
  }

  function EnterInput(w: World, size: int): World {
    if w.conn.callback || w.conn.fatal || w.conn.eof then Returned(w, InputRet(0, NoErrno, []))
    else if w.conn.init then EnterWait(w, ForInput(size))
    else Traced(Push(w, ReadFrame(size)), Call(Read))
  }

  function EnterOutput(w: World, buf: seq<byte>): World {
    if w.conn.callback then Returned(w, OutputRet(-1, EAGAIN, buf))
    else if w.conn.fatal then Returned(w, OutputRet(-1, ECONNABORTED, buf))
    else if w.conn.init then EnterWait(w, ForOutput(buf))
    else BeginWrite(Push(w, FlushFrame), buf)
  }

  function EnterNotify(w: World, mask: Mask): World {
    var w' := DropTimer(w);
    if w'.conn.callback then Returned(w', NotifyRet(NO_EVENTS))
    else if w'.conn.init then EnterWait(w', ForNotify(mask))
    else Returned(w', NotifyRet(mask))
  }

  /** The top frame of a write: nothing to send is a flush. */
  function BeginWrite(w: World, buf: seq<byte>): World
    requires w.frames.Cons?
  {
    if buf == [] then Swap(w, FlushFrame) else Traced(Swap(w, WriteFrame(buf)), Call(Write))
  }

  /** The caller of Tls_WaitForConnect says whether a failure is permanent: all but reading do. */
  function EnterWait(w: World, caller: Caller): World {
    if !w.conn.init then Push(w, WaitDone(caller, 1, NoErrno))
    else if w.conn.fatal then
      Push(Traced(w, Refused(!caller.ForInput?)),
           WaitDone(caller, -1, if caller.ForInput? then ECONNRESET else ECONNABORTED))
    else Traced(Push(w, WaitFrame(caller, RETRIES)), Call(Connect))
  }

  // ----- what each SSL result means

  /** What the driver does about one SSL result: the events it now wants, the flags it changes at
      once, the flags it sets after reporting through Tls_Error (None: nothing to report), and where
      control goes then. */
  datatype Verdict = Verdict(want: Mask, connected: bool, fatal: bool, eof: bool, report: Option<Flags>, next: After)
  datatype Flags = Flags(fatal: bool, eof: bool)

  function Either(a: Mask, b: Mask): Mask {
    Mask(a.readable || b.readable, a.writable || b.writable, a.exception || b.exception)
  }

  function Wanted(o: Outcome): Mask {
    Mask(o.rc.WantRead?, o.rc.WantWrite?, false)
  }

  predicate Retryable(o: Outcome) {
    o.bioRetry || (o.ret <= 0 && (o.rc.WantConnect? || o.rc.WantAccept? || o.rc.WantRead? || o.rc.WantWrite?))
  }

  /** An error on the socket, as opposed to its end. */
  predicate IsHardSyscall(o: Outcome) {
    o.rc.ErrorSyscall? && !(o.err == 0 && o.ret == 0)
  }

  function Aborted(e: Errno): Errno {
    if e.ECONNRESET? then ECONNABORTED else e
  }

  function Done(next: After): Verdict {
    Verdict(NO_EVENTS, false, false, false, None, next)
  }

  function Reported(fatal: bool, eof: bool, later: Flags, next: After): Verdict {
    Verdict(NO_EVENTS, false, fatal, eof, Some(later), next)
  }

  /** The switch of Tls_WaitForConnect. */
  function WaitVerdict(o: Outcome, caller: Caller): Verdict {
    match o.rc
    case ErrorNone => Done(ToCaller(caller, 1, NoErrno)).(connected := true)
    case ErrorSsl => Reported(false, false, Flags(true, true), ToCaller(caller, -1, ECONNABORTED))
    case ErrorSyscall =>
      if IsHardSyscall(o) then Reported(true, false, Flags(false, true), ToCaller(caller, -1, Aborted(o.errno)))
      else Reported(false, false, Flags(false, true), ToCaller(caller, -1, ECONNRESET))
    case ZeroReturn => Reported(false, true, Flags(false, false), ToCaller(caller, -1, ECONNRESET))
    case _ => Done(ToCaller(caller, 0, EAGAIN)).(want := Wanted(o))
  }

  /** The switch of TlsInputProc. */
  function ReadVerdict(o: Outcome, data: seq<byte>): Verdict {
    match o.rc
    case ErrorNone => Done(ToApp(InputRet(o.ret, NoErrno, data)))
    case ErrorSsl =>
      if o.unexpectedEof then Reported(false, false, Flags(false, true), ToApp(InputRet(0, NoErrno, [])))
      else Reported(false, false, Flags(true, true), ToApp(InputRet(-1, ECONNABORTED, [])))
    case ErrorSyscall =>
      if IsHardSyscall(o) then Reported(true, false, Flags(false, true), ToApp(InputRet(-1, o.errno, [])))
      else Reported(false, false, Flags(false, true), ToApp(InputRet(0, NoErrno, [])))
    case ZeroReturn => Reported(false, true, Flags(false, false), ToApp(InputRet(0, NoErrno, [])))
    case WantRead => Done(ToApp(InputRet(-1, EAGAIN, []))).(want := Wanted(o))
    case WantWrite => Done(ToApp(InputRet(-1, EAGAIN, []))).(want := Wanted(o))
    case WantX509Lookup => Done(ToApp(InputRet(-1, EAGAIN, [])))
    case WantAsync => Done(ToApp(InputRet(0, EAGAIN, [])))
    case _ => Reported(false, false, Flags(false, false), ToApp(InputRet(0, NoErrno, [])))
  }

  /** The switch of TlsOutputProc. */
  function WriteVerdict(o: Outcome, buf: seq<byte>): Verdict {
    match o.rc
    case ErrorNone => Done(ToApp(OutputRet(o.ret, NoErrno, buf)))
    case ErrorSsl => Reported(false, false, Flags(true, true), ToApp(OutputRet(-1, ECONNABORTED, buf)))
    case ErrorSyscall =>
      if IsHardSyscall(o) then Reported(true, false, Flags(false, true), ToApp(OutputRet(-1, o.errno, buf)))
      else Reported(false, false, Flags(false, true), ToApp(OutputRet(0, NoErrno, buf)))
    case ZeroReturn => Reported(false, true, Flags(false, false), ToApp(OutputRet(0, NoErrno, buf)))
    case WantRead => Done(ToApp(OutputRet(-1, EAGAIN, buf))).(want := Wanted(o))
    case WantWrite => Done(ToApp(OutputRet(-1, EAGAIN, buf))).(want := Wanted(o))
    case WantX509Lookup => Done(ToApp(OutputRet(-1, EAGAIN, buf)))
    case WantAsync => Done(ToApp(OutputRet(0, EAGAIN, buf)))
    case _ => Reported(false, false, Flags(false, false), ToApp(OutputRet(0, NoErrno, buf)))
  }

  /** Leaves the top frame for the place control goes to. */
  function Deliver(w: World, next: After): World
    requires w.frames.Cons?
  {
    match next
    case ToCaller(caller, result, error) => Swap(w, WaitDone(caller, result, error))
    case ToApp(ret) => Returned(Pop(w), ret)
  }

  function Judged(w: World, v: Verdict): World
    requires w.frames.Cons?
  {
    var c := w.conn;
    var w' := w.(conn := c.(want := Either(c.want, v.want), init := c.init && !v.connected,
                            fatal := c.fatal || v.fatal, eof := c.eof || v.eof));
    match v.report
    case Some(later) => Swap(w', Settling(later.fatal, later.eof, v.next))
    case None => Deliver(w', v.next)
  }

  /** The events one attempt of the handshake leaves wanted. */
  function AfterAttempt(c: Conn, o: Outcome): Conn {
    c.(want := Either(c.want, if o.ret <= 0 then Wanted(o) else NO_EVENTS))
  }

  /** One return of SSL_accept or SSL_connect. */
  function WaitReturns(w: World, o: Outcome): World
    requires w.frames.Cons? && w.frames.top.WaitFrame?
  {
    var caller, retries := w.frames.top.caller, w.frames.top.retries;
    var w' := Traced(w, Result(Connect, o)).(conn := AfterAttempt(w.conn, o));
    if Retryable(o) && w.conn.async then Swap(w', WaitDone(caller, 0, EAGAIN))
    else if Retryable(o) && retries > 0 then Traced(Swap(w', WaitFrame(caller, retries - 1)), Call(Connect))
    else Judged(w', WaitVerdict(o, caller))
  }

  /** The return of BIO_read. */
  function ReadReturns(w: World, o: Outcome, data: seq<byte>): World
    requires w.frames.Cons? && w.frames.top.ReadFrame?
  {
    Judged(Traced(w, Result(Read, o)), ReadVerdict(o, data))
  }

  /** The return of BIO_write. */
  function WriteReturns(w: World, o: Outcome): World
    requires w.frames.Cons? && w.frames.top.WriteFrame?
  {
    Judged(Traced(w, Result(Write, o)), WriteVerdict(o, w.frames.top.buf))
  }

  /** The flags a failed operation sets after reporting it. */
  function Settled(w: World): World
    requires w.frames.Cons? && w.frames.top.Settling?
  {
    var f := w.frames.top;
    Deliver(w.(conn := w.conn.(fatal := w.conn.fatal || f.setFatal, eof := w.conn.eof || f.setEof)), f.next)
  }

  /** Each caller's reading of the result of Tls_WaitForConnect. */
  function Resumed(w: World): World
    requires w.frames.Cons? && w.frames.top.WaitDone?
  {
    var WaitDone(caller, result, error) := w.frames.top;
    match caller
    case ForInput(size) =>
      if result > 0 then Traced(Swap(w, ReadFrame(size)), Call(Read))
      else if result < 0 && error.ECONNRESET? then
        Returned(Pop(w), InputRet(0, NoErrno, [])).(conn := w.conn.(eof := true))
      else Returned(Pop(w), InputRet(-1, error, []))
    case ForOutput(buf) =>
      if result > 0 then BeginWrite(w, buf)
      else if result < 0 && error.ECONNRESET? then
        Returned(Pop(w), OutputRet(0, NoErrno, buf)).(conn := w.conn.(eof := true))
      else Returned(Pop(w), OutputRet(-1, error, buf))
    case ForNotify(mask) =>
      Returned(Pop(w), NotifyRet(if result < 1 && error.EAGAIN? then NO_EVENTS else mask))
    case ForHandshake =>
      if result <= 0 && w.conn.async && error.EAGAIN? then Returned(Pop(w), HandshakeRet(0))
      else if result < 0 then Returned(Pop(w), HandshakeFailed(error))
      else Returned(Pop(w), HandshakeRet(1))
  }

  // ----- the timer handler

  function TimerMask(c: Conn, outPending: bool, inPending: bool): Mask {
    c.want.(writable := c.want.writable || (outPending && !c.eof),
            readable := c.want.readable || (inPending && !c.closed))
  }

  /** TlsChannelHandlerTimer up to its call of Tcl_NotifyChannel. */
  function EnterTimer(w: World, token: nat, outPending: bool, inPending: bool): World {
    var w' := w.(conn := w.conn.(timer := None), core := w.core.(scheduled := w.core.scheduled - {token}));
    Push(Returned(w', Raised(TimerMask(w.conn, outPending, inPending))), TimerFrame(w.conn.timer.Some?))
  }

  /** TlsChannelHandlerTimer after its call of Tcl_NotifyChannel. */
  function LeaveTimer(w: World): World
    requires w.frames.Cons? && w.frames.top.TimerFrame?
  {
    var w' := Pop(w).(conn := w.conn.(want := NO_EVENTS));
    if w.frames.top.release then Release(w') else w'
  }

  // ----- steps and runs

  predicate RunsScripts(f: Frame) {
    f.WaitFrame? || f.ReadFrame? || f.WriteFrame? || f.ShutdownFrame? || f.Settling?
  }

  /** What the environment may do. Tcl calls the driver only while the channel is open and only
      from Tcl code; it closes the channel only when no other driver procedure is running; OpenSSL
      answers within its contract; scripts run only inside an SSL call, SSL_shutdown included, or
      Tls_Error. */
  predicate Enabled(w: World, e: Event) {
    var top := w.frames;
    match e
    case BlockMode(_) => w.core.open && AtScript(w)
    case Watch(_) => w.core.open && AtScript(w)
    case Input(_) => w.core.open && AtScript(w)
    case Output(_) => w.core.open && AtScript(w)
    case Notify(_) => w.core.open && AtScript(w)
    case Handshake => w.core.open && AtScript(w)
    case Close => w.core.open && !Busy(w.frames)
    case TimerFires(token, _, _) => token in w.core.scheduled && AtScript(w)
    case TimerReturns => top.Cons? && top.top.TimerFrame?
    case CallbackEnters => top.Cons? && RunsScripts(top.top)
    case CallbackReturns => top.Cons? && top.top.CallbackFrame?
    case SslReturns(o, data) =>
      && top.Cons? && Genuine(o)
      && match top.top {
           case WaitFrame(_, _) => true
           case ReadFrame(size) => o.ret > 0 ==> o.ret == |data| && o.ret <= size
           case WriteFrame(buf) => o.ret <= |buf|
           case _ => false
         }
    case FlushReturns(_) => top.Cons? && top.top.FlushFrame?
    case ShutdownReturns => top.Cons? && top.top.ShutdownFrame?
    case Settle => top.Cons? && top.top.Settling?
    case Resume => top.Cons? && top.top.WaitDone?
  }

  function Step(w: World, e: Event): World
    requires Enabled(w, e)
  {
    match e
    case BlockMode(nonblocking) => w.(conn := w.conn.(async := nonblocking))
    case Watch(mask) => EnterWatch(w, mask)
    case Input(size) => EnterInput(w, size)
    case Output(buf) => EnterOutput(w, buf)
    case Notify(mask) => EnterNotify(w, mask)
    case Handshake => EnterWait(w, ForHandshake)
    case Close => EnterClose(w)
    case TimerFires(token, outPending, inPending) => EnterTimer(w, token, outPending, inPending)
    case TimerReturns => LeaveTimer(w)
    case CallbackEnters => Push(Preserve(w), CallbackFrame)
    case CallbackReturns => Release(Pop(w))
    case SslReturns(o, data) =>
      if w.frames.top.WaitFrame? then WaitReturns(w, o)
      else if w.frames.top.ReadFrame? then ReadReturns(w, o, data)
      else WriteReturns(w, o)
    case FlushReturns(ok) =>
      if ok then Returned(Pop(w), OutputRet(0, NoErrno, []))
      else Swap(w, Settling(false, false, ToApp(OutputRet(-1, EIO, []))))
    case ShutdownReturns => LeaveShutdown(w)
    case Settle => Settled(w)
    case Resume => Resumed(w)
  }

  /** The events can happen one after the other. */
  ghost predicate Legal(w: World, es: seq<Event>)
    decreases |es|
  {
    es == [] || (Enabled(w, es[0]) && Legal(Step(w, es[0]), es[1..]))
  }

  ghost function Run(w: World, es: seq<Event>): World
    requires Legal(w, es)
    decreases |es|
  {
    if es == [] then w else Run(Step(w, es[0]), es[1..])
  }

  /** Some run leads from one world to the other. */
  ghost predicate Reaches(w: World, w': World) {
    exists es :: Legal(w, es) && Run(w, es) == w'
  }

  lemma {:induction false} RunThen(w: World, es: seq<Event>, e: Event)
    requires Legal(w, es) && Enabled(Run(w, es), e)
    ensures Legal(w, es + [e]) && Run(w, es + [e]) == Step(Run(w, es), e)
    decreases |es|
  {
    if es == [] {
      assert Legal(Step(w, e), []) && ([] + [e])[1..] == [];
    } else {
      RunThen(Step(w, es[0]), es[1..], e);
      assert (es + [e])[1..] == es[1..] + [e];
    }
  }

  lemma ReachesSelf(w: World)
    ensures Reaches(w, w)
  {
    assert Legal(w, []) && Run(w, []) == w;
  }

  lemma ReachesNext(w: World, w': World, e: Event)
    requires Reaches(w, w') && Enabled(w', e)
    ensures Reaches(w, Step(w', e))
  {
    var es :| Legal(w, es) && Run(w, es) == w';
    RunThen(w, es, e);
  }
}
