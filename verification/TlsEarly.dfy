/** A failed call sets EOF only after it has reported the failure through Tls_Error. This module says
    exactly when something is reported before that. */
module TlsEarly {
  import opened TlsTypes
  import opened TlsMachine
  import opened TlsFlags
  import opened TlsReports

  // ----- between a failed handshake and EOF

  /** The handshake has failed and EOF is not set yet. */
  predicate Doomed(w: World) {
    w.conn.init && w.conn.fatal && !w.conn.eof
  }

  /** The event calls Tls_WaitForConnect for a handshake that has failed, before EOF is set. */
  predicate EarlyWait(w: World, e: Event) {
    Doomed(w) && (e.Handshake? || (e.Notify? && !w.conn.callback))
  }

  /** Moreover, there is something to pass up. */
  predicate EarlyNotice(w: World, e: Event) {
    EarlyWait(w, e) && e.Notify? && e.mask != NO_EVENTS
  }

  /** Tls_WaitForConnect has failed although EOF is clear. */
  predicate FailedEarly(w: World) {
    w.frames.Cons? && w.frames.top.WaitDone? && w.frames.top.result == -1 && !w.conn.eof
  }

  /** TlsNotifyProc is about to pass its mask up with INIT set and EOF clear. */
  predicate Pending(w: World) {
    && w.conn.init && !w.conn.eof
    && w.frames.Cons? && w.frames.top.WaitDone? && w.frames.top.caller.ForNotify?
    && w.frames.top.caller.mask != NO_EVENTS
    && !(w.frames.top.result < 1 && w.frames.top.error.EAGAIN?)
  }

  /** The step passes an event up with INIT set and EOF clear. */
  predicate PassesEarly(w: World, e: Event)
    requires Enabled(w, e)
  {
    var w' := Step(w, e);
    && w'.results.Then? && w'.results.earlier == w.results
    && w'.results.last.NotifyRet? && w'.results.last.mask != NO_EVENTS
    && w'.conn.init && !w'.conn.eof
  }

  // ----- a finished wait is resumed at once

  predicate HasWaitDone(s: Stack) {
    s.Cons? && (s.top.WaitDone? || HasWaitDone(s.below))
  }

  predicate Prompt(w: World) {
    Reporting(w) && (w.frames.Cons? ==> !HasWaitDone(w.frames.below))
  }

  lemma StepIsPrompt(w: World, e: Event)
    requires Prompt(w) && Enabled(w, e)
    ensures Prompt(Step(w, e))
  {
    StepReports(w, e);
    if Continues(e) {
      ContinuingIsTopOnly(w, e);
    } else {
      StepTouchesTop(w, e);
    }
  }

  lemma {:induction false} RunIsPrompt(w: World, es: seq<Event>)
    requires Prompt(w) && Legal(w, es)
    ensures Prompt(Run(w, es))
    decreases |es|
  {
    if es == [] {
    } else {
      StepIsPrompt(w, es[0]);
      RunIsPrompt(Step(w, es[0]), es[1..]);
    }
  }

  // ----- waits

  lemma EntryWaits(w: World, e: Event)
    requires e.Input? || e.Output? || e.Notify? || e.Handshake?
    requires Prompt(w) && Enabled(w, e)
    ensures FailedEarly(Step(w, e)) <==> EarlyWait(w, e)
  {
    if e.Notify? {
      DropTimerClears(w);
    }
  }

  lemma JudgedWaits(w: World, v: Verdict)
    requires w.frames.Cons? && Prompt(w) && Fair(w.conn, v)
    ensures !FailedEarly(Judged(w, v))
  {}

  lemma SslWaits(w: World, o: Outcome, data: seq<byte>)
    requires Prompt(w) && Enabled(w, SslReturns(o, data))
    ensures !FailedEarly(Step(w, SslReturns(o, data)))
  {
    match w.frames.top
    case WaitFrame(caller, _) =>
      WantedReports(w, o);
      JudgedWaits(Traced(w, Result(Connect, o)).(conn := AfterAttempt(w.conn, o)), WaitVerdict(o, caller));
    case ReadFrame(_) => JudgedWaits(Traced(w, Result(Read, o)), ReadVerdict(o, data));
    case WriteFrame(buf) => JudgedWaits(Traced(w, Result(Write, o)), WriteVerdict(o, buf));
  }

  lemma ContinuingWaits(w: World, e: Event)
    requires e.FlushReturns? || e.Settle? || e.Resume?
    requires Prompt(w) && Enabled(w, e)
    ensures !FailedEarly(Step(w, e))
  {
    assert Known(w.conn, w.frames.top);
  }

  lemma BystanderWaits(w: World, e: Event)
    requires Prompt(w) && Enabled(w, e) && !Continues(e)
    requires !e.Input? && !e.Output? && !e.Notify? && !e.Handshake?
    ensures !FailedEarly(Step(w, e))
  {
    match e
    case Watch(mask) => WatchKeepsRest(w, mask);
    case Close => CloseSets(w);
    case ShutdownReturns => ShutdownSets(w);
    case TimerReturns => ReleaseKeepsRest(Pop(w).(conn := w.conn.(want := NO_EVENTS)));
    case CallbackReturns => ReleaseKeepsRest(Pop(w));
    case _ =>
  }

  lemma StepWaits(w: World, e: Event)
    requires Prompt(w) && Enabled(w, e)
    ensures FailedEarly(Step(w, e)) <==> EarlyWait(w, e)
  {
    match e
    case Input(_) => EntryWaits(w, e);
    case Output(_) => EntryWaits(w, e);
    case Notify(_) => EntryWaits(w, e);
    case Handshake => EntryWaits(w, e);
    case SslReturns(o, data) => SslWaits(w, o, data);
    case FlushReturns(_) => ContinuingWaits(w, e);
    case Settle => ContinuingWaits(w, e);
    case Resume => ContinuingWaits(w, e);
    case _ => BystanderWaits(w, e);
  }

  // ----- notifications

  lemma EntryPending(w: World, e: Event)
    requires Prompt(w) && Enabled(w, e) && EarlyWait(w, e)
    ensures Pending(Step(w, e)) <==> EarlyNotice(w, e)
  {
    if e.Notify? {
      DropTimerClears(w);
    }
  }

  lemma StepPending(w: World, e: Event)
    requires Prompt(w) && Enabled(w, e)
    ensures Pending(Step(w, e)) <==> EarlyNotice(w, e)
  {
    StepIsPrompt(w, e);
    StepWaits(w, e);
    var w' := Step(w, e);
    assert w'.frames.Cons? ==> Known(w'.conn, w'.frames.top);
    if EarlyWait(w, e) {
      EntryPending(w, e);
    }
  }

  /** Only TlsNotifyProc passes events up. */
  lemma OthersPassNothing(w: World, e: Event)
    requires Reporting(w) && Enabled(w, e) && !e.Notify? && !e.Resume?
    ensures PassesNothing(w.results, Step(w, e).results)
  {
    match e
    case Watch(mask) => WatchKeepsRest(w, mask);
    case Close => CloseSets(w);
    case ShutdownReturns => ShutdownSets(w);
    case TimerReturns => ReleaseKeepsRest(Pop(w).(conn := w.conn.(want := NO_EVENTS)));
    case CallbackReturns => ReleaseKeepsRest(Pop(w));
    case SslReturns(o, data) => SslPassesNothing(w, o, data);
    case Settle => assert Known(w.conn, w.frames.top);
    case _ =>
  }

  lemma SslPassesNothing(w: World, o: Outcome, data: seq<byte>)
    requires Enabled(w, SslReturns(o, data))
    ensures PassesNothing(w.results, Step(w, SslReturns(o, data)).results)
  {
    match w.frames.top
    case WaitFrame(_, _) => assert WaitReturns(w, o).results == w.results;
    case ReadFrame(_) => JudgedPassesNothing(Traced(w, Result(Read, o)), ReadVerdict(o, data));
    case WriteFrame(buf) => JudgedPassesNothing(Traced(w, Result(Write, o)), WriteVerdict(o, buf));
  }

  lemma JudgedPassesNothing(w: World, v: Verdict)
    requires w.frames.Cons? && (v.next.ToApp? ==> !v.next.ret.NotifyRet?)
    ensures PassesNothing(w.results, Judged(w, v).results)
  {}

  lemma NotPassedTwice(r: Log<Return>, r': Log<Return>)
    requires PassesNothing(r, r')
    ensures !(r'.Then? && r'.earlier == r && r'.last.NotifyRet? && r'.last.mask != NO_EVENTS)
  {
    LogDiffers(r);
  }

  lemma LogDiffers(r: Log<Return>)
    ensures r.Then? ==> r.earlier != r
  {
    assert r.Then? ==> r.earlier < r;
  }

  lemma PassesEarlyIff(w: World, e: Event)
    requires Prompt(w) && Enabled(w, e)
    ensures PassesEarly(w, e) <==> Pending(w)
  {
    if e.Notify? {
      DropTimerClears(w);
      LogDiffers(w.results);
    } else if e.Resume? {
      assert Known(w.conn, w.frames.top);
      LogDiffers(w.results);
    } else {
      OthersPassNothing(w, e);
      NotPassedTwice(w.results, Step(w, e).results);
    }
  }

  // ----- runs

  /** Some step of the run passes an event up with INIT set and EOF clear. */
  ghost predicate PassesEarlyIn(w: World, es: seq<Event>)
    requires Legal(w, es)
    decreases |es|
  {
    es != [] && (PassesEarly(w, es[0]) || PassesEarlyIn(Step(w, es[0]), es[1..]))
  }

  /** Some notification of the run, other than its last event, starts while the handshake has failed
      and EOF is clear. */
  ghost predicate NotifiedEarlyIn(w: World, es: seq<Event>)
    requires Legal(w, es)
    decreases |es|
  {
    |es| > 1 && (EarlyNotice(w, es[0]) || NotifiedEarlyIn(Step(w, es[0]), es[1..]))
  }

  /** Events have been passed up only with INIT clear or EOF set. */
  predicate PassedInOrder(w: World) {
    PassedUp(w.results) ==> !w.conn.init || w.conn.eof
  }

  ghost predicate AlwaysInOrder(w: World, es: seq<Event>)
    requires Legal(w, es)
    decreases |es|
  {
    PassedInOrder(w) && (es == [] || AlwaysInOrder(Step(w, es[0]), es[1..]))
  }

  lemma {:induction false} PassesEarlyInIff(w: World, es: seq<Event>)
    requires Prompt(w) && Legal(w, es)
    ensures PassesEarlyIn(w, es) <==> (es != [] && Pending(w)) || NotifiedEarlyIn(w, es)
    decreases |es|
  {
    if es == [] {
    } else {
      PassesEarlyIff(w, es[0]);
      StepPending(w, es[0]);
      StepIsPrompt(w, es[0]);
      PassesEarlyInIff(Step(w, es[0]), es[1..]);
    }
  }

  lemma StepInOrder(w: World, e: Event)
    requires PassedInOrder(w) && Enabled(w, e)
    ensures PassedInOrder(Step(w, e)) <==> !PassesEarly(w, e)
  {
    StepAddsOne(w, e);
    StepIsSticky(w, e);
    LogDiffers(w.results);
  }

  lemma OutOfOrder(w: World, es: seq<Event>)
    requires Legal(w, es) && !PassedInOrder(w)
    ensures !AlwaysInOrder(w, es)
  {}

  lemma {:induction false} AlwaysInOrderIff(w: World, es: seq<Event>)
    requires PassedInOrder(w) && Legal(w, es)
    ensures AlwaysInOrder(w, es) <==> !PassesEarlyIn(w, es)
    decreases |es|
  {
    if es == [] {
    } else {
      StepInOrder(w, es[0]);
      if PassesEarly(w, es[0]) {
        OutOfOrder(Step(w, es[0]), es[1..]);
      } else {
        AlwaysInOrderIff(Step(w, es[0]), es[1..]);
      }
    }
  }

  lemma {:induction false} InOrderAtTheEnd(w: World, es: seq<Event>)
    requires Legal(w, es) && AlwaysInOrder(w, es)
    ensures PassedInOrder(Run(w, es))
    decreases |es|
  {
    if es == [] {
    } else {
      InOrderAtTheEnd(Step(w, es[0]), es[1..]);
    }
  }

  // ----- main results, for every run

  /** An event is passed up with INIT set and EOF clear exactly when a notification, with something to
      pass up and CALLBACK clear, starts with INIT and FATAL_ERROR set and EOF clear and is resumed. In
      all other runs, at every moment, events have been passed up only with INIT clear or EOF set. */
  lemma EarlyNotificationIff(nonblocking: bool, es: seq<Event>)
    requires Legal(Imported(nonblocking), es)
    ensures PassesEarlyIn(Imported(nonblocking), es) <==> NotifiedEarlyIn(Imported(nonblocking), es)
    ensures AlwaysInOrder(Imported(nonblocking), es) <==> !NotifiedEarlyIn(Imported(nonblocking), es)
  {
    PassesEarlyInIff(Imported(nonblocking), es);
    AlwaysInOrderIff(Imported(nonblocking), es);
  }

  /** After any run, the next event leaves Tls_WaitForConnect with result -1 and EOF clear exactly when
      it is a handshake, or a notification with CALLBACK clear, that starts with INIT and FATAL_ERROR
      set and EOF clear. Every other -1 comes with EOF set. */
  lemma EarlyFailureIff(nonblocking: bool, es: seq<Event>, e: Event)
    requires Legal(Imported(nonblocking), es) && Enabled(Run(Imported(nonblocking), es), e)
    ensures var w := Run(Imported(nonblocking), es); FailedEarly(Step(w, e)) <==> EarlyWait(w, e)
  {
    RunIsPrompt(Imported(nonblocking), es);
    StepWaits(Run(Imported(nonblocking), es), e);
  }

  // ----- FATAL_ERROR before EOF

  /** A read, a write or the last attempt of a handshake ends in an error on the socket. */
  predicate SocketFails(w: World, e: Event) {
    && e.SslReturns? && IsHardSyscall(e.o) && w.frames.Cons?
    && (w.frames.top.WaitFrame? && Retryable(e.o) ==> !w.conn.async && w.frames.top.retries == 0)
  }

  lemma JudgedFails(w: World, v: Verdict)
    requires w.frames.Cons? && (w.conn.fatal ==> w.conn.eof) && (v.fatal ==> !v.eof)
    ensures var c := Judged(w, v).conn; c.fatal && !c.eof <==> v.fatal && !w.conn.eof
  {}

  lemma SslFails(w: World, o: Outcome, data: seq<byte>)
    requires Enabled(w, SslReturns(o, data)) && (w.conn.fatal ==> w.conn.eof)
    ensures var c := Step(w, SslReturns(o, data)).conn;
      c.fatal && !c.eof <==> SocketFails(w, SslReturns(o, data)) && !w.conn.eof
  {
    match w.frames.top
    case WaitFrame(caller, retries) =>
      if Retryable(o) && (w.conn.async || retries > 0) {
        assert WaitReturns(w, o).conn == AfterAttempt(w.conn, o);
      } else {
        JudgedFails(Traced(w, Result(Connect, o)).(conn := AfterAttempt(w.conn, o)), WaitVerdict(o, caller));
      }
    case ReadFrame(_) => JudgedFails(Traced(w, Result(Read, o)), ReadVerdict(o, data));
    case WriteFrame(buf) => JudgedFails(Traced(w, Result(Write, o)), WriteVerdict(o, buf));
  }

  lemma ContinuingFails(w: World, e: Event)
    requires Reporting(w) && Enabled(w, e) && (w.conn.fatal ==> w.conn.eof)
    requires e.FlushReturns? || e.Settle? || e.Resume?
    ensures Step(w, e).conn.fatal ==> Step(w, e).conn.eof
  {
    assert Known(w.conn, w.frames.top);
  }

  lemma BystanderFails(w: World, e: Event)
    requires Enabled(w, e) && !Continues(e)
    ensures Step(w, e).conn.fatal == w.conn.fatal && Step(w, e).conn.eof == w.conn.eof
  {
    match e
    case Watch(mask) => WatchKeepsRest(w, mask);
    case Notify(_) => DropTimerClears(w);
    case Close => CloseSets(w);
    case ShutdownReturns => ShutdownSets(w);
    case TimerReturns => ReleaseKeepsRest(Pop(w).(conn := w.conn.(want := NO_EVENTS)));
    case CallbackReturns => ReleaseKeepsRest(Pop(w));
    case _ =>
  }

  lemma StepFails(w: World, e: Event)
    requires Reporting(w) && Enabled(w, e) && (w.conn.fatal ==> w.conn.eof)
    ensures var c := Step(w, e).conn; c.fatal && !c.eof <==> SocketFails(w, e) && !w.conn.eof
  {
    match e
    case SslReturns(o, data) => SslFails(w, o, data);
    case FlushReturns(_) => ContinuingFails(w, e);
    case Settle => ContinuingFails(w, e);
    case Resume => ContinuingFails(w, e);
    case _ => BystanderFails(w, e);
  }

  /** FATAL_ERROR comes before EOF exactly when a socket error is found while EOF is clear. */
  lemma EarlyFatalIff(nonblocking: bool, es: seq<Event>, e: Event)
    requires Legal(Imported(nonblocking), es)
    requires var w := Run(Imported(nonblocking), es); Enabled(w, e) && (w.conn.fatal ==> w.conn.eof)
    ensures var w := Run(Imported(nonblocking), es); var c := Step(w, e).conn;
      c.fatal && !c.eof <==> SocketFails(w, e) && !w.conn.eof
  {
    RunReports(Imported(nonblocking), es);
    StepFails(Run(Imported(nonblocking), es), e);
  }

  // ----- such runs exist

  /** A notification handled by the script of Tls_Error, after a socket error in the handshake, is
      passed up with INIT set and EOF still clear. */
  lemma NotifiedBeforeEof(mask: Mask)
    requires mask != NO_EVENTS
    ensures exists w :: Reaches(Imported(true), w) && PassedUp(w.results) && w.conn.init && !w.conn.eof
  {
    var w0 := Imported(true);
    ReachesSelf(w0);
    ReachesNext(w0, w0, Handshake);
    var w1 := Step(w0, Handshake);
    var failed := SslReturns(Outcome(-1, ErrorSyscall, 0, false, false, ECONNRESET), []);
    ReachesNext(w0, w1, failed);
    var w2 := Step(w1, failed);
    assert w2.frames == Cons(Settling(false, true, ToCaller(ForHandshake, -1, ECONNABORTED)), Nil);
    ReachesNext(w0, w2, CallbackEnters);
    NotifiedInCallback(w0, Step(w2, CallbackEnters), mask);
  }

  lemma NotifiedInCallback(w0: World, w: World, mask: Mask)
    requires Reaches(w0, w) && mask != NO_EVENTS && AtScript(w) && w.core.open && w.conn.timer.None?
    requires w.conn.fatal && w.conn.init && !w.conn.eof && !w.conn.callback
    ensures exists w' :: Reaches(w0, w') && PassedUp(w'.results) && w'.conn.init && !w'.conn.eof
  {
    ReachesNext(w0, w, Notify(mask));
    var w1 := Step(w, Notify(mask));
    assert w1.frames == Cons(WaitDone(ForNotify(mask), -1, ECONNABORTED), w.frames);
    ReachesNext(w0, w1, Resume);
    assert Step(w1, Resume).results.last == NotifyRet(mask);
  }
}
