/** How long the C State lives: its preserve count, its timer and its single release. */
module TlsLifetime {
  import opened TlsTypes
  import opened TlsMachine
  import opened TlsFlags

  /** The references held by running C frames. */
  function Held(s: Stack): nat {
    match s
    case Nil => 0
    case Cons(f, below) => Held(below) + (if f == TimerFrame(true) || f.CallbackFrame? then 1 else 0)
  }

  /** Every running timer handler owns the reference of the timer that started it. */
  predicate TimersRelease(s: Stack) {
    s.Cons? ==> s.top != TimerFrame(false) && TimersRelease(s.below)
  }

  /** The reference count is exact and the only scheduled timer is the recorded one. */
  predicate Balanced(w: World) {
    && w.core.preserve == Held(w.frames) + (if w.conn.timer.Some? then 1 else 0)
    && w.core.scheduled == (if w.conn.timer.Some? then {w.conn.timer.value} else {})
    && (forall t :: t in w.core.scheduled ==> t < w.core.nextToken)
    && TimersRelease(w.frames)
    && !w.core.panic
  }

  /** A close is inside SSL_shutdown. */
  predicate Closing(s: Stack) {
    s.Cons? && (s.top.ShutdownFrame? || Closing(s.below))
  }

  /** The shutdown is the only driver procedure running. */
  predicate OnlyShutdown(s: Stack) {
    s.Cons? ==> if s.top.ShutdownFrame? then !Busy(s.below) else !IsDriver(s.top) && OnlyShutdown(s.below)
  }

  /** Alive while open or closing; after the close alive exactly as long as a frame holds a
      reference. */
  predicate Alive(w: World) {
    if w.core.open || Closing(w.frames) then
      && !w.core.mustFree && w.core.freed == 0
      && (if w.core.open then !Closing(w.frames) else OnlyShutdown(w.frames))
    else
      && w.conn.timer.None?
      && !Busy(w.frames)
      && w.core.freed == (if w.core.preserve == 0 then 1 else 0)
      && w.core.mustFree == (w.core.preserve > 0)
  }

  predicate Lifetime(w: World) {
    Balanced(w) && Alive(w)
  }

  lemma IdleStackHolds(s: Stack)
    requires !Busy(s) && TimersRelease(s)
    ensures Held(s) == 0 ==> s.Nil?
  {}

  lemma IdleIsNotClosing(s: Stack)
    requires !Busy(s)
    ensures !Closing(s)
  {}

  lemma DropTimerKeeps(w: World)
    requires Balanced(w) && !w.core.mustFree
    ensures var w' := DropTimer(w);
      && Balanced(w')
      && w'.conn == w.conn.(timer := None)
      && w'.core == w.core.(preserve := Held(w.frames), scheduled := {})
      && w'.frames == w.frames && w'.trace == w.trace && w'.results == w.results
  {}

  lemma WatchKeepsLifetime(w: World, mask: Mask)
    requires Lifetime(w) && Enabled(w, Watch(mask))
    ensures Lifetime(Step(w, Watch(mask)))
  {
    DropTimerKeeps(w.(conn := w.conn.(watchMask := mask), core := w.core.(parentWatch := mask)));
  }

  lemma NotifyKeepsLifetime(w: World, mask: Mask)
    requires Lifetime(w) && Enabled(w, Notify(mask))
    ensures Lifetime(Step(w, Notify(mask)))
  {
    DropTimerKeeps(w);
  }

  lemma FinishKeepsLifetime(w: World)
    requires Balanced(w) && !w.core.open && !w.core.mustFree && w.core.freed == 0 && !Busy(w.frames)
    ensures Lifetime(FinishClose(w)) && FinishClose(w).core.scheduled == {}
  {
    IdleIsNotClosing(w.frames);
    DropTimerKeeps(w);
  }

  lemma CloseKeepsLifetime(w: World, e: Event)
    requires e.Close? || e.ShutdownReturns?
    requires Lifetime(w) && Enabled(w, e)
    ensures Lifetime(Step(w, e)) && Step(w, e).core.scheduled <= w.core.scheduled
  {
    if e.ShutdownReturns? {
      FinishKeepsLifetime(Pop(w).(conn := w.conn.(closed := true)));
    } else if w.conn.init || w.conn.fatal {
      FinishKeepsLifetime(w.(core := w.core.(open := false)));
    }
  }

  lemma ContinuingKeepsLifetime(w: World, e: Event)
    requires Lifetime(w) && Enabled(w, e) && Continues(e)
    ensures Lifetime(Step(w, e))
  {
    assert Busy(w.frames);
    ContinuingIsTopOnly(w, e);
  }

  lemma TimerKeepsLifetime(w: World, e: Event)
    requires e.TimerFires? || e.TimerReturns?
    requires Lifetime(w) && Enabled(w, e)
    ensures Lifetime(Step(w, e))
  {}

  lemma CallbackKeepsLifetime(w: World, e: Event)
    requires e.CallbackEnters? || e.CallbackReturns?
    requires Lifetime(w) && Enabled(w, e)
    ensures Lifetime(Step(w, e))
  {}

  lemma StepKeepsLifetime(w: World, e: Event)
    requires Lifetime(w) && Enabled(w, e)
    ensures Lifetime(Step(w, e))
  {
    match e
    case Watch(mask) => WatchKeepsLifetime(w, mask);
    case Notify(mask) => NotifyKeepsLifetime(w, mask);
    case Close => CloseKeepsLifetime(w, e);
    case ShutdownReturns => CloseKeepsLifetime(w, e);
    case TimerFires(_, _, _) => TimerKeepsLifetime(w, e);
    case TimerReturns => TimerKeepsLifetime(w, e);
    case CallbackEnters => CallbackKeepsLifetime(w, e);
    case CallbackReturns => CallbackKeepsLifetime(w, e);
    case _ => if Continues(e) { ContinuingKeepsLifetime(w, e); }
  }

  lemma {:induction false} RunKeepsLifetime(w: World, es: seq<Event>)
    requires Lifetime(w) && Legal(w, es)
    ensures Lifetime(Run(w, es))
    decreases |es|
  {
    if es == [] {
    } else {
      StepKeepsLifetime(w, es[0]);
      RunKeepsLifetime(Step(w, es[0]), es[1..]);
    }
  }

  /** A dead State is untouchable: no event of any kind is enabled any more. */
  lemma NothingAfterFree(w: World, e: Event)
    requires Lifetime(w) && w.core.freed > 0
    ensures !Enabled(w, e)
  {
    IdleStackHolds(w.frames);
  }

  /** For every run of a channel, re-entrant or not: the preserve count is the number of live
      references, at most the recorded timer is scheduled, Tcl_Release and Tcl_EventuallyFree never
      panic, and the State is freed exactly once, namely when the channel is closed and the last
      frame has returned. Nothing can happen to it afterwards. */
  lemma FreedExactlyOnce(nonblocking: bool, es: seq<Event>)
    requires Legal(Imported(nonblocking), es)
    ensures var w := Run(Imported(nonblocking), es);
      && w.core.preserve == Held(w.frames) + (if w.conn.timer.Some? then 1 else 0)
      && w.core.scheduled == (if w.conn.timer.Some? then {w.conn.timer.value} else {})
      && !w.core.panic
      && w.core.freed <= 1
      && (w.core.freed == 1 <==> !w.core.open && w.frames.Nil?)
      && (w.core.freed == 1 ==> forall e :: !Enabled(w, e))
  {
    var w0 := Imported(nonblocking);
    RunKeepsLifetime(w0, es);
    var w := Run(w0, es);
    if !w.core.open && !Closing(w.frames) {
      IdleStackHolds(w.frames);
    }
    forall e | w.core.freed == 1 ensures !Enabled(w, e) {
      NothingAfterFree(w, e);
    }
  }

  /** Tls_Clean never finds a timer: in every run, the step that frees the State frees it for the
      first time and finds no timer to delete, or it would make Tcl panic. */
  lemma CleanFindsNoTimer(nonblocking: bool, es: seq<Event>, e: Event)
    requires Legal(Imported(nonblocking), es) && Enabled(Run(Imported(nonblocking), es), e)
    requires Step(Run(Imported(nonblocking), es), e).core.freed > Run(Imported(nonblocking), es).core.freed
    ensures var w := Run(Imported(nonblocking), es); var w' := Step(w, e);
      && w'.core.freed == 1 && !w'.core.panic && w'.conn.timer.None? && w'.frames.Nil?
      && (e.Close? || e.ShutdownReturns? || e.TimerReturns? || e.CallbackReturns?)
  {
    var w := Run(Imported(nonblocking), es);
    RunKeepsLifetime(Imported(nonblocking), es);
    StepKeepsLifetime(w, e);
    IdleStackHolds(Step(w, e).frames);
    if Continues(e) {
      ContinuingIsTopOnly(w, e);
    }
  }

  // ----- timers after a fatal error

  function Firings(es: seq<Event>): nat {
    if es == [] then 0 else (if es[0].TimerFires? then 1 else 0) + Firings(es[1..])
  }

  /** After a fatal error a step only consumes timers. */
  lemma FatalStep(w: World, e: Event)
    requires Lifetime(w) && Enabled(w, e) && w.conn.fatal
    ensures Step(w, e).conn.fatal
    ensures Step(w, e).core.scheduled <= w.core.scheduled
    ensures e.TimerFires? ==> w.conn.timer.Some? && Step(w, e).core.scheduled == {}
  {
    StepIsSticky(w, e);
    match e
    case Notify(mask) => DropTimerKeeps(w);
    case Close => CloseKeepsLifetime(w, e);
    case ShutdownReturns => CloseKeepsLifetime(w, e);
    case _ => if Continues(e) { ContinuingIsTopOnly(w, e); }
  }

  /** Once a fatal error is recorded no timer is ever created: in any continuation at most the one
      pending timer fires, and none if none was pending. */
  lemma {:induction false} FatalStopsTimers(w: World, es: seq<Event>)
    requires Lifetime(w) && Legal(w, es) && w.conn.fatal
    ensures Firings(es) <= (if w.conn.timer.Some? then 1 else 0)
    ensures Run(w, es).core.scheduled <= w.core.scheduled
    decreases |es|
  {
    if es == [] {
    } else {
      StepKeepsLifetime(w, es[0]);
      FatalStep(w, es[0]);
      FatalStopsTimers(Step(w, es[0]), es[1..]);
    }
  }
}
