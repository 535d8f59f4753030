/** What the driver reports in every run, whatever scripts do and however OpenSSL sets its retry flag:
    results of Tls_WaitForConnect, events passed up, and the end of file after a fatal error. */
module TlsReports {
  import opened TlsTypes
  import opened TlsMachine
  import opened TlsFlags

  /** A failed call, still inside Tls_Error, has yet to set FATAL_ERROR. */
  predicate WillFail(s: Stack) {
    s.Cons? && ((s.top.Settling? && s.top.setFatal) || WillFail(s.below))
  }

  /** A failed call, still inside Tls_Error, has yet to set EOF. */
  predicate WillEnd(s: Stack) {
    s.Cons? && ((s.top.Settling? && s.top.setEof) || WillEnd(s.below))
  }

  lemma IdleStack(s: Stack)
    requires !Busy(s)
    ensures !WillFail(s) && !WillEnd(s)
  {}

  /** Tls_WaitForConnect never gives the soft error for a handshake that has already failed. */
  predicate NeverSoft(t: Log<Entry>) {
    t.Then? ==> NeverSoft(t.earlier) && t.last != Refused(false)
  }

  /** An event of the parent channel was passed up to the application. */
  predicate PassedUp(r: Log<Return>) {
    r.Then? && (PassedUp(r.earlier) || (r.last.NotifyRet? && r.last.mask != NO_EVENTS))
  }

  predicate FailureEnds(w: World) {
    w.conn.fatal ==> w.conn.eof || WillEnd(w.frames)
  }

  /** What a running call already knows; all of it stays true while flags only move one way. */
  predicate Known(c: Conn, f: Frame) {
    match f
    case WaitFrame(_, retries) => retries <= RETRIES
    case WaitDone(_, result, error) =>
      && -1 <= result <= 1
      && (result == 1 ==> error.NoErrno? && !c.init)
      && (result == 0 ==> error.EAGAIN?)
      && (result == -1 ==> c.eof || c.fatal)
      && (error.ECONNRESET? ==> c.eof)
    case Settling(setFatal, setEof, ToCaller(_, result, _)) =>
      (setFatal ==> setEof) && result == -1 && (setEof || c.eof)
    case Settling(setFatal, setEof, ToApp(ret)) => (setFatal ==> setEof) && !ret.NotifyRet?
    case _ => true
  }

  predicate AllKnown(c: Conn, s: Stack) {
    s.Cons? ==> Known(c, s.top) && AllKnown(c, s.below)
  }

  predicate Reporting(w: World) {
    && AllKnown(w.conn, w.frames)
    && FailureEnds(w)
    && NeverSoft(w.trace)
    && (PassedUp(w.results) ==> !w.conn.init || w.conn.eof || WillEnd(w.frames))
  }

  lemma StickyKnown(c: Conn, c': Conn, s: Stack)
    requires Sticky(c, c') && AllKnown(c, s)
    ensures AllKnown(c', s)
  {}

  /** The results log gained at most one entry, and that one passes nothing up. */
  predicate PassesNothing(r: Log<Return>, r': Log<Return>) {
    r' == r || (r'.Then? && r'.earlier == r && (r'.last.NotifyRet? ==> r'.last.mask == NO_EVENTS))
  }

  /** A step that pushes a frame, pops one or keeps all, and leaves the deciding flags alone. */
  lemma MinorStep(w: World, w': World)
    requires Reporting(w) && Sticky(w.conn, w'.conn)
    requires w'.conn.init == w.conn.init && w'.conn.fatal == w.conn.fatal && w'.conn.eof == w.conn.eof
    requires w'.trace == w.trace
             || (w'.trace.Then? && w'.trace.earlier == w.trace && w'.trace.last != Refused(false))
    requires PassesNothing(w.results, w'.results)
    requires w'.frames == w.frames
             || (w'.frames.Cons? && w'.frames.below == w.frames && Known(w'.conn, w'.frames.top))
             || (w.frames.Cons? && w'.frames == w.frames.below && !w.frames.top.Settling?)
    ensures Reporting(w')
  {
    StickyKnown(w.conn, w'.conn, w.frames);
  }

  lemma EntryReports(w: World, e: Event)
    requires e.Input? || e.Output? || e.Handshake?
    requires Reporting(w) && Enabled(w, e)
    ensures Reporting(Step(w, e))
  {
    MinorStep(w, Step(w, e));
  }

  lemma NotifyReports(w: World, mask: Mask)
    requires Reporting(w) && Enabled(w, Notify(mask))
    ensures Reporting(Step(w, Notify(mask)))
  {
    var w' := DropTimer(w);
    DropTimerClears(w);
    MinorStep(w, w');
    if !w'.conn.callback && w'.conn.init {
      MinorStep(w', EnterWait(w', ForNotify(mask)));
    }
  }

  lemma TimerReports(w: World, e: Event)
    requires e.Watch? || e.Close? || e.ShutdownReturns? || e.TimerFires? || e.TimerReturns? || e.CallbackReturns?
    requires Reporting(w) && Enabled(w, e)
    ensures Reporting(Step(w, e))
  {
    match e {
      case Watch(mask) => WatchKeepsRest(w, mask);
      case Close => CloseSets(w);
      case ShutdownReturns => ShutdownSets(w);
      case TimerReturns => ReleaseKeepsRest(Pop(w).(conn := w.conn.(want := NO_EVENTS)));
      case CallbackReturns => ReleaseKeepsRest(Pop(w));
      case TimerFires(_, _, _) =>
    }
    MinorStep(w, Step(w, e));
  }

  // ----- SSL results

  /** The switches give the caller -1 only with EOF set or about to be set, and 1 only connected. */
  predicate Fair(c: Conn, v: Verdict) {
    && (v.fatal ==> v.report.Some? && v.report.value.eof)
    && (v.report.Some? && v.report.value.fatal ==> v.report.value.eof)
    && match v.next {
         case ToApp(ret) => !ret.NotifyRet?
         case ToCaller(_, result, error) =>
           if v.report.Some? then result == -1 && (v.report.value.eof || v.eof)
           else if v.connected then result == 1 && error.NoErrno? else result == 0 && error.EAGAIN?
       }
  }

  lemma JudgedReports(w: World, v: Verdict)
    requires w.frames.Cons? && !w.frames.top.Settling? && Reporting(w) && Fair(w.conn, v)
    ensures Reporting(Judged(w, v))
  {
    JudgedIsTopOnly(w, v);
    StickyKnown(w.conn, Judged(w, v).conn, w.frames);
  }

  lemma SwapReports(w: World, f: Frame)
    requires Reporting(w) && w.frames.Cons? && !w.frames.top.Settling? && Known(w.conn, f)
    ensures Reporting(Swap(w, f))
  {}

  lemma WantedReports(w: World, o: Outcome)
    requires Reporting(w)
    ensures Reporting(Traced(w, Result(Connect, o)).(conn := AfterAttempt(w.conn, o)))
  {
    StickyKnown(w.conn, AfterAttempt(w.conn, o), w.frames);
  }

  lemma ConnectReports(w: World, o: Outcome)
    requires w.frames.Cons? && w.frames.top.WaitFrame? && Reporting(w)
    ensures Reporting(WaitReturns(w, o))
  {
    var w1 := Traced(w, Result(Connect, o)).(conn := AfterAttempt(w.conn, o));
    var WaitFrame(caller, retries) := w.frames.top;
    assert Known(w.conn, w.frames.top);
    WantedReports(w, o);
    if Retryable(o) && w.conn.async {
      SwapReports(w1, WaitDone(caller, 0, EAGAIN));
    } else if Retryable(o) && retries > 0 {
      SwapReports(w1, WaitFrame(caller, retries - 1));
    } else {
      JudgedReports(w1, WaitVerdict(o, caller));
    }
  }

  lemma SslReports(w: World, o: Outcome, data: seq<byte>)
    requires Reporting(w) && Enabled(w, SslReturns(o, data))
    ensures Reporting(Step(w, SslReturns(o, data)))
  {
    match w.frames.top
    case WaitFrame(_, _) => ConnectReports(w, o);
    case ReadFrame(_) => JudgedReports(Traced(w, Result(Read, o)), ReadVerdict(o, data));
    case WriteFrame(buf) => JudgedReports(Traced(w, Result(Write, o)), WriteVerdict(o, buf));
  }

  lemma SettleReports(w: World)
    requires w.frames.Cons? && w.frames.top.Settling? && Reporting(w)
    ensures Reporting(Settled(w))
  {
    StickyKnown(w.conn, Settled(w).conn, w.frames);
  }

  lemma ResumeReports(w: World)
    requires w.frames.Cons? && w.frames.top.WaitDone? && Reporting(w)
    ensures Reporting(Resumed(w))
  {
    assert Known(w.conn, w.frames.top);
    StickyKnown(w.conn, Resumed(w).conn, w.frames);
  }

  lemma StepReports(w: World, e: Event)
    requires Reporting(w) && Enabled(w, e)
    ensures Reporting(Step(w, e))
  {
    match e
    case Input(_) => EntryReports(w, e);
    case Output(_) => EntryReports(w, e);
    case Handshake => EntryReports(w, e);
    case Notify(mask) => NotifyReports(w, mask);
    case SslReturns(o, data) => SslReports(w, o, data);
    case Settle => SettleReports(w);
    case Resume => ResumeReports(w);
    case BlockMode(_) => MinorStep(w, Step(w, e));
    case CallbackEnters => MinorStep(w, Step(w, e));
    case FlushReturns(_) =>
    case _ => TimerReports(w, e);
  }

  lemma {:induction false} RunReports(w: World, es: seq<Event>)
    requires Reporting(w) && Legal(w, es)
    ensures Reporting(Run(w, es))
    decreases |es|
  {
    if es == [] {
    } else {
      StepReports(w, es[0]);
      RunReports(Step(w, es[0]), es[1..]);
    }
  }

  // ----- main results, for every run

  /** The soft error is unreachable from every caller. An event is passed up only after the handshake
      completed or failed with EOF set, or, while a failed call still reports through Tls_Error,
      about to be set. Whenever no driver call runs, FATAL_ERROR implies EOF. */
  lemma EveryRunReports(nonblocking: bool, es: seq<Event>)
    requires Legal(Imported(nonblocking), es)
    ensures var w := Run(Imported(nonblocking), es);
      && NeverSoft(w.trace)
      && (PassedUp(w.results) ==> !w.conn.init || w.conn.eof || WillEnd(w.frames))
      && (PassedUp(w.results) && !Busy(w.frames) ==> !w.conn.init || w.conn.eof)
      && (w.conn.fatal ==> w.conn.eof || WillEnd(w.frames))
      && (w.conn.fatal && !Busy(w.frames) ==> w.conn.eof)
  {
    RunReports(Imported(nonblocking), es);
    var w := Run(Imported(nonblocking), es);
    if !Busy(w.frames) {
      IdleStack(w.frames);
    }
  }

  /** Tls_WaitForConnect returns 1 only with no error and INIT clear, 0 only with EAGAIN, -1 only with
      EOF set or, while a failed call still reports, about to be set. */
  lemma WaitResults(nonblocking: bool, es: seq<Event>)
    requires Legal(Imported(nonblocking), es)
    ensures var w := Run(Imported(nonblocking), es);
      w.frames.Cons? && w.frames.top.WaitDone? ==>
        var WaitDone(_, result, error) := w.frames.top;
        && -1 <= result <= 1
        && (result == 1 ==> error.NoErrno? && !w.conn.init)
        && (result == 0 ==> error.EAGAIN?)
        && (result == -1 ==> w.conn.eof || WillEnd(w.frames))
  {
    RunReports(Imported(nonblocking), es);
    var w := Run(Imported(nonblocking), es);
    assert w.frames.Cons? ==> Known(w.conn, w.frames.top);
  }
}
