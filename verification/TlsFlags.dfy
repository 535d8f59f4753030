/** What no step ever does to the flags of the State. */
module TlsFlags {
  import opened TlsTypes
  import opened TlsMachine

  /** FATAL_ERROR, EOF and CLOSED are never cleared, INIT is never set again, CALLBACK never changes. */
  predicate Sticky(c: Conn, c': Conn) {
    && (c.fatal ==> c'.fatal)
    && (c.eof ==> c'.eof)
    && (c.closed ==> c'.closed)
    && (c'.init ==> c.init)
    && c'.callback == c.callback
  }

  /** A step of SSL processing: it replaces or removes the top frame and leaves timer and core alone. */
  predicate TopOnly(w: World, w': World) {
    && w.frames.Cons?
    && (w'.frames == w.frames.below
        || (w'.frames.Cons? && IsDriver(w'.frames.top) && w'.frames.below == w.frames.below))
    && w'.core == w.core
    && w'.conn.timer == w.conn.timer
    && Sticky(w.conn, w'.conn)
  }

  lemma JudgedIsTopOnly(w: World, v: Verdict)
    requires w.frames.Cons?
    ensures TopOnly(w, Judged(w, v))
  {}

  lemma SslIsTopOnly(w: World, o: Outcome, data: seq<byte>)
    requires Enabled(w, SslReturns(o, data))
    ensures TopOnly(w, Step(w, SslReturns(o, data)))
  {
    match w.frames.top
    case WaitFrame(caller, _) =>
      JudgedIsTopOnly(Traced(w, Result(Connect, o)).(conn := AfterAttempt(w.conn, o)), WaitVerdict(o, caller));
    case ReadFrame(_) => JudgedIsTopOnly(Traced(w, Result(Read, o)), ReadVerdict(o, data));
    case WriteFrame(buf) => JudgedIsTopOnly(Traced(w, Result(Write, o)), WriteVerdict(o, buf));
  }

  lemma ResumeIsTopOnly(w: World)
    requires w.frames.Cons? && w.frames.top.WaitDone?
    ensures TopOnly(w, Resumed(w))
  {}

  /** The events that continue a driver procedure. */
  predicate Continues(e: Event) {
    e.SslReturns? || e.FlushReturns? || e.Settle? || e.Resume?
  }

  lemma ContinuingIsTopOnly(w: World, e: Event)
    requires Enabled(w, e) && Continues(e)
    ensures IsDriver(w.frames.top) && TopOnly(w, Step(w, e))
  {
    match e
    case SslReturns(o, data) => SslIsTopOnly(w, o, data);
    case Resume => ResumeIsTopOnly(w);
    case _ =>
  }

  lemma DropTimerClears(w: World)
    ensures var w' := DropTimer(w);
      w'.conn == w.conn.(timer := None) && w'.frames == w.frames && w'.trace == w.trace && w'.results == w.results
  {}

  lemma ReleaseKeepsRest(w: World)
    ensures var w' := Release(w);
      && w'.conn == w.conn.(timer := w'.conn.timer)
      && w'.core.parentWatch == w.core.parentWatch && w'.core.nextToken == w.core.nextToken
      && w'.frames == w.frames && w'.trace == w.trace && w'.results == w.results
  {}

  lemma WatchSets(w: World, mask: Mask)
    ensures var w' := EnterWatch(w, mask);
      && w'.conn == (if w.conn.callback then w.conn
                     else if w.conn.fatal then w.conn.(watchMask := NO_EVENTS)
                     else w.conn.(watchMask := mask,
                                  timer := if mask.readable then Some(w.core.nextToken) else None))
      && w'.core.parentWatch == (if w.conn.callback then w.core.parentWatch
                                 else if w.conn.fatal then NO_EVENTS else mask)
  {
    var w1 := w.(conn := w.conn.(watchMask := mask), core := w.core.(parentWatch := mask));
    if w.conn.timer.Some? {
      ReleaseKeepsRest(w1.(conn := w1.conn.(timer := None),
                           core := w1.core.(scheduled := w1.core.scheduled - {w1.conn.timer.value})));
    }
    DropTimerClears(w1);
  }

  lemma WatchKeepsRest(w: World, mask: Mask)
    ensures var w' := EnterWatch(w, mask);
      && w'.conn == w.conn.(watchMask := w'.conn.watchMask, timer := w'.conn.timer)
      && w'.frames == w.frames && w'.trace == w.trace && w'.results == w.results
  {
    DropTimerClears(w.(conn := w.conn.(watchMask := mask), core := w.core.(parentWatch := mask)));
  }

  lemma FinishSets(w: World)
    ensures var w' := FinishClose(w);
      && w'.conn == w.conn.(timer := None)
      && w'.frames == w.frames && w'.trace == w.trace && w'.results == w.results
  {
    DropTimerClears(w);
  }

  /** Closing starts with the shutdown of a healthy connection and otherwise ends at once. */
  lemma CloseSets(w: World)
    ensures var w', notified := EnterClose(w), !w.conn.init && !w.conn.fatal;
      && w'.conn == (if notified then w.conn else w.conn.(timer := None))
      && w'.trace == (if notified then Then(w.trace, Call(Shutdown)) else w.trace)
      && w'.frames == (if notified then Cons(ShutdownFrame, w.frames) else w.frames)
      && w'.results == w.results
  {
    FinishSets(w.(core := w.core.(open := false)));
  }

  lemma ShutdownSets(w: World)
    requires w.frames.Cons?
    ensures var w' := LeaveShutdown(w);
      && w'.conn == w.conn.(closed := true, timer := None)
      && w'.frames == w.frames.below && w'.trace == w.trace && w'.results == w.results
  {
    FinishSets(Pop(w).(conn := w.conn.(closed := true)));
  }

  /** A step touches only the top of the stack. */
  predicate TouchesTop(s: Stack, s': Stack) {
    || s' == s
    || (s'.Cons? && s'.below == s)
    || (s.Cons? && (s' == s.below || (s'.Cons? && s'.below == s.below)))
  }

  lemma StepTouchesTop(w: World, e: Event)
    requires Enabled(w, e)
    ensures TouchesTop(w.frames, Step(w, e).frames)
  {
    if Continues(e) {
      ContinuingIsTopOnly(w, e);
    } else {
      match e
      case Watch(mask) => WatchKeepsRest(w, mask);
      case Notify(_) => DropTimerClears(w);
      case Close => CloseSets(w);
      case ShutdownReturns => ShutdownSets(w);
      case TimerReturns => ReleaseKeepsRest(Pop(w).(conn := w.conn.(want := NO_EVENTS)));
      case CallbackReturns => ReleaseKeepsRest(Pop(w));
      case _ =>
    }
  }

  /** A step adds at most one result. */
  predicate AddsOne(r: Log<Return>, r': Log<Return>) {
    r' == r || (r'.Then? && r'.earlier == r)
  }

  lemma SslAddsOne(w: World, o: Outcome, data: seq<byte>)
    requires Enabled(w, SslReturns(o, data))
    ensures AddsOne(w.results, Step(w, SslReturns(o, data)).results)
  {
    match w.frames.top
    case WaitFrame(_, _) => assert WaitReturns(w, o).results == w.results;
    case _ =>
  }

  lemma StepAddsOne(w: World, e: Event)
    requires Enabled(w, e)
    ensures AddsOne(w.results, Step(w, e).results)
  {
    match e
    case SslReturns(o, data) => SslAddsOne(w, o, data);
    case Watch(mask) => WatchKeepsRest(w, mask);
    case Notify(_) => DropTimerClears(w);
    case Close => CloseSets(w);
    case ShutdownReturns => ShutdownSets(w);
    case TimerReturns => ReleaseKeepsRest(Pop(w).(conn := w.conn.(want := NO_EVENTS)));
    case CallbackReturns => ReleaseKeepsRest(Pop(w));
    case _ =>
  }

  lemma TimerStepsKeepFlags(w: World, e: Event)
    requires Enabled(w, e) && (e.Watch? || e.Notify? || e.Close? || e.ShutdownReturns?)
    ensures Sticky(w.conn, Step(w, e).conn)
  {
    match e
    case Watch(mask) => WatchKeepsRest(w, mask);
    case Notify(_) => DropTimerClears(w);
    case Close => CloseSets(w);
    case ShutdownReturns => ShutdownSets(w);
  }

  lemma StepIsSticky(w: World, e: Event)
    requires Enabled(w, e)
    ensures Sticky(w.conn, Step(w, e).conn)
  {
    if Continues(e) {
      ContinuingIsTopOnly(w, e);
    } else if e.Watch? || e.Notify? || e.Close? || e.ShutdownReturns? {
      TimerStepsKeepFlags(w, e);
    }
  }

  /** Over any run, re-entrant or not. */
  lemma {:induction false} RunIsSticky(w: World, es: seq<Event>)
    requires Legal(w, es)
    ensures Sticky(w.conn, Run(w, es).conn)
    decreases |es|
  {
    if es == [] {
    } else {
      StepIsSticky(w, es[0]);
      RunIsSticky(Step(w, es[0]), es[1..]);
    }
  }
}
