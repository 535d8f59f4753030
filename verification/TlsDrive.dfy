/** One driver call that no script interrupts, as a stretch of the machine's run. */
module TlsDrive {
  import opened TlsTypes
  import opened TlsMachine
  import opened TlsFlags
  import opened TlsReports

  /** The answers of OpenSSL during one driver call: the attempts of the handshake, then one
      BIO_read or BIO_write with the bytes read, or the flush of an empty write. */
  datatype Env = Env(attempts: nat -> Outcome, io: Outcome, data: seq<byte>, flushOk: bool)

  ghost predicate Answers(env: Env) {
    (forall i: nat :: Genuine(env.attempts(i))) && Genuine(env.io)
  }

  predicate FitsRead(env: Env, size: int) {
    env.io.ret > 0 ==> env.io.ret == |env.data| && env.io.ret <= size
  }

  predicate FitsWrite(env: Env, buf: seq<byte>) {
    env.io.ret <= |buf|
  }

  /** The answers suit what the call will ask for. */
  predicate Suits(env: Env, f: Frame) {
    match f
    case WaitFrame(ForInput(size), _) => FitsRead(env, size)
    case WaitDone(ForInput(size), _, _) => FitsRead(env, size)
    case Settling(_, _, ToCaller(ForInput(size), _, _)) => FitsRead(env, size)
    case ReadFrame(size) => FitsRead(env, size)
    case WaitFrame(ForOutput(buf), _) => FitsWrite(env, buf)
    case WaitDone(ForOutput(buf), _, _) => FitsWrite(env, buf)
    case Settling(_, _, ToCaller(ForOutput(buf), _, _)) => FitsWrite(env, buf)
    case WriteFrame(buf) => buf != [] && FitsWrite(env, buf)
    case ShutdownFrame => false
    case _ => true
  }

  /** The call has returned, or is running directly above the frames it started from. */
  ghost predicate Running(w: World, below: Stack, env: Env) {
    && Answers(env)
    && (w.frames == below
        || (w.frames.Cons? && w.frames.below == below && IsDriver(w.frames.top) && Suits(env, w.frames.top)))
  }

  function Rank(f: Frame): nat {
    match f
    case WaitFrame(_, retries) => 8 + retries
    case Settling(_, _, ToCaller(_, _, _)) => 7
    case WaitDone(_, _, _) => 6
    case Settling(_, _, ToApp(_)) => 1
    case _ => 5
  }

  function Measure(w: World, below: Stack): nat {
    if w.frames == below || w.frames.Nil? then 0 else Rank(w.frames.top)
  }

  function NextEvent(f: Frame, env: Env, k: nat): Event {
    match f
    case WaitFrame(_, _) => SslReturns(env.attempts(k), [])
    case ReadFrame(_) => SslReturns(env.io, env.data)
    case WriteFrame(_) => SslReturns(env.io, [])
    case FlushFrame => FlushReturns(env.flushOk)
    case WaitDone(_, _, _) => Resume
    case _ => Settle
  }

  lemma BelowDiffers(s: Stack)
    requires s.Cons?
    ensures s.below != s
  {
    assert s.below < s;
  }

  lemma WaitAdvances(w: World, below: Stack, env: Env, k: nat)
    requires Running(w, below, env) && w.frames != below && w.frames.top.WaitFrame?
    ensures var w' := WaitReturns(w, env.attempts(k));
      Running(w', below, env) && Measure(w', below) < Measure(w, below)
  {}

  lemma IoAdvances(w: World, below: Stack, env: Env)
    requires Running(w, below, env) && w.frames != below && (w.frames.top.ReadFrame? || w.frames.top.WriteFrame?)
    ensures var w' := Step(w, NextEvent(w.frames.top, env, 0));
      Running(w', below, env) && Measure(w', below) < Measure(w, below)
  {
    if w.frames.top.ReadFrame? {
      JudgedIsTopOnly(Traced(w, Result(Read, env.io)), ReadVerdict(env.io, env.data));
    } else {
      JudgedIsTopOnly(Traced(w, Result(Write, env.io)), WriteVerdict(env.io, w.frames.top.buf));
    }
  }

  lemma Advances(w: World, below: Stack, env: Env, k: nat)
    requires Running(w, below, env) && w.frames != below
    ensures Enabled(w, NextEvent(w.frames.top, env, k))
    ensures var w' := Step(w, NextEvent(w.frames.top, env, k));
      Running(w', below, env) && Measure(w', below) < Measure(w, below)
  {
    match w.frames.top
    case WaitFrame(_, _) => WaitAdvances(w, below, env, k);
    case ReadFrame(_) => IoAdvances(w, below, env);
    case WriteFrame(_) => IoAdvances(w, below, env);
    case _ =>
  }

  /** Runs the call to its end, or only until Tls_WaitForConnect has its result; `k` attempts of the
      handshake have already been answered. */
  ghost function Drive(w: World, below: Stack, env: Env, k: nat, untilWaited: bool): World
    requires Running(w, below, env)
    decreases Measure(w, below)
  {
    if w.frames == below || (untilWaited && w.frames.top.WaitDone?) then w
    else
      Advances(w, below, env, k);
      Drive(Step(w, NextEvent(w.frames.top, env, k)), below, env,
            if w.frames.top.WaitFrame? then k + 1 else k, untilWaited)
  }

  /** An uninterrupted call is a run of the machine, so every result about runs applies to it. */
  lemma {:induction false} DriveReaches(w0: World, w: World, below: Stack, env: Env, k: nat, untilWaited: bool)
    requires Running(w, below, env) && Reaches(w0, w)
    ensures Reaches(w0, Drive(w, below, env, k, untilWaited))
    decreases Measure(w, below)
  {
    if w.frames == below || (untilWaited && w.frames.top.WaitDone?) {
    } else {
      Advances(w, below, env, k);
      var e := NextEvent(w.frames.top, env, k);
      ReachesNext(w0, w, e);
      DriveReaches(w0, Step(w, e), below, env, if w.frames.top.WaitFrame? then k + 1 else k, untilWaited);
    }
  }

  lemma {:induction false} DriveStays(w: World, below: Stack, env: Env, k: nat, untilWaited: bool)
    requires Running(w, below, env)
    ensures Running(Drive(w, below, env, k, untilWaited), below, env)
    decreases Measure(w, below)
  {
    if w.frames == below || (untilWaited && w.frames.top.WaitDone?) {
    } else {
      Advances(w, below, env, k);
      DriveStays(Step(w, NextEvent(w.frames.top, env, k)), below, env,
                 if w.frames.top.WaitFrame? then k + 1 else k, untilWaited);
    }
  }

  /** After the wait the number of attempts no longer matters. */
  lemma {:induction false} AttemptsForgotten(w: World, below: Stack, env: Env, k: nat, j: nat)
    requires Running(w, below, env) && (w.frames == below || !w.frames.top.WaitFrame?)
    ensures Drive(w, below, env, k, false) == Drive(w, below, env, j, false)
    decreases Measure(w, below)
  {
    if w.frames == below {
    } else {
      Advances(w, below, env, k);
      assert NextEvent(w.frames.top, env, k) == NextEvent(w.frames.top, env, j);
      var w' := Step(w, NextEvent(w.frames.top, env, k));
      NoNewWait(w, below, env, k);
      AttemptsForgotten(w', below, env, k, j);
    }
  }

  lemma NoNewWait(w: World, below: Stack, env: Env, k: nat)
    requires Running(w, below, env) && w.frames != below && !w.frames.top.WaitFrame?
    requires Enabled(w, NextEvent(w.frames.top, env, k))
    ensures var w' := Step(w, NextEvent(w.frames.top, env, k)); w'.frames == below || !w'.frames.top.WaitFrame?
  {
    match w.frames.top
    case ReadFrame(_) => JudgedIsTopOnly(Traced(w, Result(Read, env.io)), ReadVerdict(env.io, env.data));
    case WriteFrame(buf) => JudgedIsTopOnly(Traced(w, Result(Write, env.io)), WriteVerdict(env.io, buf));
    case _ =>
  }

  /** The whole call is the wait followed by the rest. */
  lemma {:induction false} DriveThroughWait(w: World, below: Stack, env: Env, k: nat)
    requires Running(w, below, env)
    requires Running(Drive(w, below, env, k, true), below, env)
    ensures Drive(w, below, env, k, false) == Drive(Drive(w, below, env, k, true), below, env, 0, false)
    decreases Measure(w, below)
  {
    if w.frames == below {
    } else if w.frames.top.WaitDone? {
      AttemptsForgotten(w, below, env, k, 0);
    } else {
      Advances(w, below, env, k);
      DriveThroughWait(Step(w, NextEvent(w.frames.top, env, k)), below, env,
                       if w.frames.top.WaitFrame? then k + 1 else k);
    }
  }

  /** A failed handshake attempt ends the wait once its flags are set. */
  lemma SettlingEndsWait(w: World, below: Stack, env: Env, k: nat)
    requires Running(w, below, env) && w.frames != below && w.frames.top.Settling? && w.frames.top.next.ToCaller?
    ensures Drive(w, below, env, k, true) == Settled(w)
  {
    Advances(w, below, env, k);
    BelowDiffers(w.frames);
  }

  /** The flags once a verdict has been carried out in full. */
  function Concluded(c: Conn, v: Verdict): Conn {
    var later := if v.report.Some? then v.report.value else Flags(false, false);
    c.(want := Either(c.want, v.want), init := c.init && !v.connected,
       fatal := c.fatal || v.fatal || later.fatal, eof := c.eof || v.eof || later.eof)
  }

  lemma JudgedConcludes(w: World, v: Verdict)
    requires w.frames.Cons?
    ensures var w' := Judged(w, v);
      && (v.report.Some? ==>
            && w'.frames.Cons? && w'.frames.top.Settling?
            && Settled(w') == Deliver(w.(conn := Concluded(w.conn, v)), v.next))
      && (v.report.None? ==> w' == Deliver(w.(conn := Concluded(w.conn, v)), v.next))
  {}

  /** The last attempt: the wait is over once its verdict is carried out. */
  lemma AttemptConcludes(w: World, below: Stack, env: Env, k: nat, o: Outcome)
    requires Running(w, below, env) && w.frames != below && w.frames.top.WaitFrame? && Genuine(o)
    requires Running(WaitReturns(w, o), below, env)
    requires !(Retryable(o) && (w.conn.async || w.frames.top.retries > 0))
    ensures var w', v := WaitReturns(w, o), WaitVerdict(o, w.frames.top.caller);
      var w'' := if w'.frames.top.Settling? then Settled(w') else w';
      && w'.frames.Cons?
      && w'' == Deliver(Traced(w, Result(Connect, o)).(conn := Concluded(AfterAttempt(w.conn, o), v)), v.next)
      && Drive(w', below, env, k, true) == w''
  {
    var w', v := WaitReturns(w, o), WaitVerdict(o, w.frames.top.caller);
    JudgedConcludes(Traced(w, Result(Connect, o)).(conn := AfterAttempt(w.conn, o)), v);
    BelowDiffers(w'.frames);
    if w'.frames.top.Settling? {
      SettlingEndsWait(w', below, env, k);
    }
  }

  /** The rest of a call starts where its wait ended. */
  lemma WaitPassed(start: World, w: World, below: Stack, env: Env)
    requires Running(start, below, env) && w == Drive(start, below, env, 0, true)
    requires w.frames != below && w.frames.Cons? && w.frames.top.WaitDone?
    ensures Running(w, below, env) && Running(Resumed(w), below, env)
    ensures Drive(start, below, env, 0, false) == Drive(Resumed(w), below, env, 0, false)
  {
    DriveStays(start, below, env, 0, true);
    DriveThroughWait(start, below, env, 0);
    Advances(w, below, env, 0);
  }

  /** BIO_read or BIO_write ends the call once its verdict is carried out. */
  lemma IoConcludes(w: World, below: Stack, env: Env, v: Verdict)
    requires Running(w, below, env) && w.frames != below && (w.frames.top.ReadFrame? || w.frames.top.WriteFrame?)
    requires v == if w.frames.top.ReadFrame? then ReadVerdict(env.io, env.data)
                  else WriteVerdict(env.io, w.frames.top.buf)
    ensures v.next.ToApp?
    ensures var op := if w.frames.top.ReadFrame? then Read else Write;
      Drive(w, below, env, 0, false)
        == Deliver(Traced(w, Result(op, env.io)).(conn := Concluded(w.conn, v)), v.next)
  {
    var op := if w.frames.top.ReadFrame? then Read else Write;
    var w0 := Traced(w, Result(op, env.io));
    IoAdvances(w, below, env);
    JudgedConcludes(w0, v);
    BelowDiffers(w.frames);
    var w' := Judged(w0, v);
    if v.report.Some? {
      BelowDiffers(w'.frames);
      Advances(w', below, env, 0);
      assert Drive(w', below, env, 0, false) == Settled(w');
    }
  }

  lemma FlushEnds(w: World, below: Stack, env: Env)
    requires Running(w, below, env) && w.frames != below && w.frames.top.FlushFrame?
    ensures Drive(w, below, env, 0, false)
      == Returned(Pop(w), if env.flushOk then OutputRet(0, NoErrno, []) else OutputRet(-1, EIO, []))
  {
    Advances(w, below, env, 0);
    BelowDiffers(w.frames);
    if !env.flushOk {
      var w' := Swap(w, Settling(false, false, ToApp(OutputRet(-1, EIO, []))));
      BelowDiffers(w'.frames);
      Advances(w', below, env, 0);
      assert Drive(w', below, env, 0, false) == Settled(w');
    }
  }

  // ----- whole calls

  /** A driver call the environment may make now, with answers that suit it. */
  ghost predicate Callable(w: World, e: Event, env: Env) {
    && Enabled(w, e) && Answers(env)
    && (e.Input? || e.Output? || e.Notify? || e.Handshake?)
    && (e.Input? ==> FitsRead(env, e.size))
    && (e.Output? ==> FitsWrite(env, e.buf))
  }

  lemma CallRuns(w: World, e: Event, env: Env)
    requires Callable(w, e, env)
    ensures Running(Step(w, e), w.frames, env)
  {}

  /** TlsNotifyProc once its timer is gone. */
  lemma NotifyWaits(w: World, mask: Mask, env: Env) returns (w': World)
    requires Callable(w, Notify(mask), env)
    ensures w'.conn == w.conn.(timer := None) && w'.frames == w.frames && w'.results == w.results
    ensures
      && (!w.conn.callback && w.conn.init ==>
            && EnterNotify(w, mask) == EnterWait(w', ForNotify(mask))
            && Running(EnterWait(w', ForNotify(mask)), w.frames, env))
      && (!w.conn.callback && !w.conn.init ==> EnterNotify(w, mask) == Returned(w', NotifyRet(mask)))
      && (w.conn.callback ==> EnterNotify(w, mask) == Returned(w', NotifyRet(NO_EVENTS)))
  {
    w' := DropTimer(w);
    DropTimerClears(w);
    CallRuns(w, Notify(mask), env);
  }

  /** The channel after the whole call. */
  ghost function AfterCall(w: World, e: Event, env: Env): World
    requires Callable(w, e, env)
  {
    CallRuns(w, e, env);
    Drive(Step(w, e), w.frames, env, 0, false)
  }

  /** The call is a run of the machine and gives the core back its frames. */
  lemma AfterCallReaches(w: World, e: Event, env: Env)
    requires Callable(w, e, env)
    ensures Reaches(w, AfterCall(w, e, env)) && AfterCall(w, e, env).frames == w.frames
  {
    CallRuns(w, e, env);
    ReachesSelf(w);
    ReachesNext(w, w, e);
    DriveReaches(w, Step(w, e), w.frames, env, 0, false);
    DriveEnds(Step(w, e), w.frames, env, 0);
  }

  // ----- how many handshake attempts one call makes

  function Attempts(t: Log<Entry>): nat {
    if t.Start? then 0 else Attempts(t.earlier) + (if t.last.Result? && t.last.op.Connect? then 1 else 0)
  }

  /** From inside the wait at most one attempt per remaining retry and one more follow; in
      non-blocking mode exactly one. */
  lemma {:induction false} AttemptsBounded(w: World, below: Stack, env: Env, k: nat)
    requires Running(w, below, env)
    ensures var n := Attempts(Drive(w, below, env, k, false).trace) - Attempts(w.trace);
      if w.frames != below && w.frames.top.WaitFrame?
      then 1 <= n <= w.frames.top.retries + 1 && (w.conn.async ==> n == 1)
      else n == 0
    decreases Measure(w, below)
  {
    if w.frames == below {
    } else {
      Advances(w, below, env, k);
      var w' := Step(w, NextEvent(w.frames.top, env, k));
      AttemptsBounded(w', below, env, if w.frames.top.WaitFrame? then k + 1 else k);
      if w.frames.top.WaitFrame? {
        AttemptCounts(w, below, env, k);
      } else {
        NoNewWait(w, below, env, k);
        NothingCounts(w, below, env, k);
      }
    }
  }

  lemma AttemptCounts(w: World, below: Stack, env: Env, k: nat)
    requires Running(w, below, env) && w.frames != below && w.frames.top.WaitFrame?
    ensures var w' := WaitReturns(w, env.attempts(k));
      && Attempts(w'.trace) == Attempts(w.trace) + 1
      && (w'.frames != below && w'.frames.top.WaitFrame? ==>
            !w.conn.async && w'.frames.top.retries == w.frames.top.retries - 1)
  {}

  lemma NothingCounts(w: World, below: Stack, env: Env, k: nat)
    requires Running(w, below, env) && w.frames != below && !w.frames.top.WaitFrame?
    requires Enabled(w, NextEvent(w.frames.top, env, k))
    ensures Attempts(Step(w, NextEvent(w.frames.top, env, k)).trace) == Attempts(w.trace)
  {}

  /** Tls_WaitForConnect ends for every environment: after at most 11 attempts in blocking mode,
      after exactly one in non-blocking mode, and after none once connected or failed. */
  lemma WaitTerminates(w: World, caller: Caller, env: Env)
    requires Running(EnterWait(w, caller), w.frames, env)
    ensures var w' := Drive(EnterWait(w, caller), w.frames, env, 0, false);
      var n := Attempts(w'.trace) - Attempts(w.trace);
      && w'.frames == w.frames
      && (w.conn.init && !w.conn.fatal ==> 1 <= n <= 11 && (w.conn.async ==> n == 1))
      && (!w.conn.init || w.conn.fatal ==> n == 0)
  {
    BelowDiffers(EnterWait(w, caller).frames);
    AttemptsBounded(EnterWait(w, caller), w.frames, env, 0);
    DriveEnds(EnterWait(w, caller), w.frames, env, 0);
  }

  lemma {:induction false} DriveEnds(w: World, below: Stack, env: Env, k: nat)
    requires Running(w, below, env)
    ensures Drive(w, below, env, k, false).frames == below
    decreases Measure(w, below)
  {
    if w.frames == below {
    } else {
      Advances(w, below, env, k);
      DriveEnds(Step(w, NextEvent(w.frames.top, env, k)), below, env, if w.frames.top.WaitFrame? then k + 1 else k);
    }
  }

  // ----- every wait of every run

  /** The retries left to the wait that runs directly above these frames, if there is one. */
  function WaitAt(s: Stack, below: Stack): Option<nat> {
    if s.Nil? then None
    else if s.below == below && s.top.WaitFrame? then Some(s.top.retries)
    else WaitAt(s.below, below)
  }

  /** The attempts that wait makes until it is over, whatever scripts do in between. */
  ghost function AttemptsAt(w: World, below: Stack, es: seq<Event>): nat
    requires Legal(w, es)
    decreases |es|
  {
    if es == [] || WaitAt(w.frames, below).None? then 0
    else
      (if w.frames.below == below && es[0].SslReturns? then 1 else 0) +
      AttemptsAt(Step(w, es[0]), below, es[1..])
  }

  lemma WaitAbove(s: Stack, below: Stack)
    requires WaitAt(s, below).Some?
    ensures below < s
  {}

  lemma OwnWait(s: Stack, below: Stack)
    requires WaitAt(s, below).Some? && s.below == below
    ensures s.top.WaitFrame? && WaitAt(s, below).value == s.top.retries
  {
    if WaitAt(below, below).Some? {
      WaitAbove(below, below);
    }
  }

  lemma OuterWaitStays(s: Stack, s': Stack, below: Stack)
    requires WaitAt(s, below).Some? && s.below != below && TouchesTop(s, s')
    ensures WaitAt(s', below) == WaitAt(s, below)
  {
    WaitAbove(s, below);
    WaitAbove(s.below, below);
  }

  lemma AttemptUsesRetry(w: World, o: Outcome)
    requires w.frames.Cons? && w.frames.top.WaitFrame?
    ensures var n := WaitAt(WaitReturns(w, o).frames, w.frames.below); n.Some? ==> n.value + 1 == w.frames.top.retries
  {
    var below, w' := w.frames.below, WaitReturns(w, o);
    if WaitAt(below, below).Some? {
      WaitAbove(below, below);
    }
    if Retryable(o) && (w.conn.async || w.frames.top.retries > 0) {
    } else {
      JudgedIsTopOnly(Traced(w, Result(Connect, o)).(conn := AfterAttempt(w.conn, o)),
                      WaitVerdict(o, w.frames.top.caller));
      assert w'.frames.top.Settling? || w'.frames.top.WaitDone?;
    }
  }

  lemma {:induction false} WaitIsBounded(w: World, below: Stack, es: seq<Event>)
    requires Legal(w, es) && WaitAt(w.frames, below).Some?
    ensures AttemptsAt(w, below, es) <= WaitAt(w.frames, below).value + 1
    decreases |es|
  {
    if es == [] {
    } else {
      var w' := Step(w, es[0]);
      if w.frames.below != below {
        StepTouchesTop(w, es[0]);
        OuterWaitStays(w.frames, w'.frames, below);
      } else {
        OwnWait(w.frames, below);
        if es[0].SslReturns? {
          AttemptUsesRetry(w, es[0].o);
        } else {
          assert es[0].CallbackEnters? && w'.frames == Cons(CallbackFrame, w.frames);
        }
      }
      if WaitAt(w'.frames, below).Some? {
        WaitIsBounded(w', below, es[1..]);
      }
    }
  }

  /** TLS_TCL_ASYNC is set whenever an attempt of that wait returns. */
  ghost predicate AsyncAt(w: World, below: Stack, es: seq<Event>)
    requires Legal(w, es)
    decreases |es|
  {
    es == [] || WaitAt(w.frames, below).None? ||
    ((w.frames.below == below && es[0].SslReturns? ==> w.conn.async) && AsyncAt(Step(w, es[0]), below, es[1..]))
  }

  lemma AsyncAttemptEnds(w: World, o: Outcome)
    requires w.frames.Cons? && w.frames.top.WaitFrame? && w.conn.async
    ensures WaitAt(WaitReturns(w, o).frames, w.frames.below).None?
  {
    var below, w' := w.frames.below, WaitReturns(w, o);
    if WaitAt(below, below).Some? {
      WaitAbove(below, below);
    }
    JudgedIsTopOnly(Traced(w, Result(Connect, o)).(conn := AfterAttempt(w.conn, o)),
                    WaitVerdict(o, w.frames.top.caller));
    assert w'.frames.top.Settling? || w'.frames.top.WaitDone?;
  }

  /** In every run, re-entrant or not, a non-blocking wait makes at most one attempt. */
  lemma {:induction false} AsyncWaitIsOneAttempt(w: World, below: Stack, es: seq<Event>)
    requires Legal(w, es) && AsyncAt(w, below, es)
    ensures AttemptsAt(w, below, es) <= 1
    decreases |es|
  {
    if es == [] || WaitAt(w.frames, below).None? {
    } else {
      if w.frames.below == below && es[0].SslReturns? {
        OwnWait(w.frames, below);
        AsyncAttemptEnds(w, es[0].o);
      } else {
        AsyncWaitIsOneAttempt(Step(w, es[0]), below, es[1..]);
      }
    }
  }

  /** In every run, re-entrant or not, each wait makes at most 11 attempts before it is over. */
  lemma EveryWaitIsBounded(nonblocking: bool, before: seq<Event>, below: Stack, es: seq<Event>)
    requires Legal(Imported(nonblocking), before)
    requires var w := Run(Imported(nonblocking), before); Legal(w, es) && WaitAt(w.frames, below).Some?
    ensures AttemptsAt(Run(Imported(nonblocking), before), below, es) <= 11
  {
    var w := Run(Imported(nonblocking), before);
    RunReports(Imported(nonblocking), before);
    KnownRetries(w.conn, w.frames, below);
    WaitIsBounded(w, below, es);
  }

  lemma KnownRetries(c: Conn, s: Stack, below: Stack)
    requires AllKnown(c, s) && WaitAt(s, below).Some?
    ensures WaitAt(s, below).value <= RETRIES
  {}

  // ----- tls::handshake

  /** What the frames of a handshake call say about INIT. */
  predicate HandshakeFits(c: Conn, f: Frame) {
    match f
    case WaitFrame(ForHandshake, _) => c.init
    case Settling(_, _, ToCaller(ForHandshake, result, _)) => c.init && result == -1
    case WaitDone(ForHandshake, result, error) =>
      -1 <= result <= 1 && (result == 1 <==> !c.init) && (result == 0 ==> error.EAGAIN?)
    case _ => false
  }

  predicate HandshakeContinues(w: World, w': World) {
    && w.frames.Cons? && w'.frames.Cons? && w'.frames.below == w.frames.below
    && w'.results == w.results && w'.conn.async == w.conn.async
    && HandshakeFits(w'.conn, w'.frames.top)
  }

  lemma VerdictFitsHandshake(w: World, o: Outcome)
    requires w.frames.Cons? && w.conn.init
    ensures HandshakeContinues(w, Judged(w, WaitVerdict(o, ForHandshake)))
  {}

  lemma AttemptFitsHandshake(w: World, o: Outcome)
    requires w.frames.Cons? && w.frames.top.WaitFrame? && HandshakeFits(w.conn, w.frames.top)
    ensures HandshakeContinues(w, WaitReturns(w, o))
  {
    var w1, retries := Traced(w, Result(Connect, o)).(conn := AfterAttempt(w.conn, o)), w.frames.top.retries;
    if Retryable(o) && w.conn.async {
      assert WaitReturns(w, o) == Swap(w1, WaitDone(ForHandshake, 0, EAGAIN));
    } else if Retryable(o) && retries > 0 {
      assert WaitReturns(w, o) == Traced(Swap(w1, WaitFrame(ForHandshake, retries - 1)), Call(Connect));
    } else {
      assert WaitReturns(w, o) == Judged(w1, WaitVerdict(o, ForHandshake));
      VerdictFitsHandshake(w1, o);
    }
  }

  lemma SettlingFitsHandshake(w: World)
    requires w.frames.Cons? && w.frames.top.Settling? && HandshakeFits(w.conn, w.frames.top)
    ensures HandshakeContinues(w, Settled(w))
  {}

  lemma {:induction false} HandshakeRuns(w: World, below: Stack, env: Env, k: nat)
    requires Running(w, below, env) && w.frames != below && HandshakeFits(w.conn, w.frames.top)
    ensures var w' := Drive(w, below, env, k, false);
      && w'.results.Then? && w'.results.earlier == w.results && w'.conn.async == w.conn.async
      && (w'.results.last == HandshakeRet(1) || w'.results.last == HandshakeRet(0) || w'.results.last.HandshakeFailed?)
      && (!w'.conn.init ==> w'.results.last == HandshakeRet(1))
      && (w.conn.async && w'.results.last == HandshakeRet(1) ==> !w'.conn.init)
      && (!w.conn.async ==> w'.results.last != HandshakeRet(0))
    decreases Measure(w, below)
  {
    Advances(w, below, env, k);
    if w.frames.top.WaitDone? {
      assert Drive(w, below, env, k, false) == Resumed(w);
    } else {
      if w.frames.top.WaitFrame? {
        AttemptFitsHandshake(w, env.attempts(k));
      } else {
        SettlingFitsHandshake(w);
      }
      var w' := Step(w, NextEvent(w.frames.top, env, k));
      BelowDiffers(w'.frames);
      HandshakeRuns(w', below, env, if w.frames.top.WaitFrame? then k + 1 else k);
    }
  }

  /** The attempt at which a blocking wait stops, counting on from attempt `k`. */
  ghost function LastAttempt(env: Env, k: nat, retries: nat): (n: nat)
    decreases retries
  {
    if retries == 0 || !Retryable(env.attempts(k)) then k else LastAttempt(env, k + 1, retries - 1)
  }

  /** It is the first that is not to be repeated, or the one after all retries. */
  lemma {:induction false} LastAttemptIs(env: Env, k: nat, retries: nat)
    ensures var n := LastAttempt(env, k, retries);
      && k <= n <= k + retries
      && (forall i: nat | k <= i < n :: Retryable(env.attempts(i)))
      && (n < k + retries ==> !Retryable(env.attempts(n)))
    decreases retries
  {
    if retries == 0 || !Retryable(env.attempts(k)) {
    } else {
      LastAttemptIs(env, k + 1, retries - 1);
    }
  }

  /** The attempt neither completed nor failed the handshake. */
  predicate Inconclusive(o: Outcome) {
    !o.rc.ErrorNone? && !o.rc.ErrorSsl? && !o.rc.ErrorSyscall? && !o.rc.ZeroReturn?
  }

  /** A handshake attempt that ends a blocking wait decides the answer. */
  predicate Decides(o: Outcome, r: Return, init: bool) {
    if o.rc.ErrorNone? then r == HandshakeRet(1) && !init
    else if Inconclusive(o) then r == HandshakeRet(1) && init
    else r.HandshakeFailed? && init
  }

  lemma LastAttemptEndsWait(w: World, below: Stack, env: Env, k: nat) returns (w2: World)
    requires Running(w, below, env) && w.frames != below && w.frames.top.WaitFrame?
    requires HandshakeFits(w.conn, w.frames.top) && !w.conn.async
    requires w.frames.top.retries == 0 || !Retryable(env.attempts(k))
    ensures w2 == Drive(w, below, env, k, true) && w2.frames.Cons? && w2.frames.below == below
    ensures var o := env.attempts(k); var v := WaitVerdict(o, ForHandshake);
      && w2.frames.top == WaitDone(ForHandshake, v.next.result, v.next.error)
      && w2.conn.init == !o.rc.ErrorNone? && !w2.conn.async
  {
    Advances(w, below, env, k);
    AttemptConcludes(w, below, env, k + 1, env.attempts(k));
    w2 := Drive(WaitReturns(w, env.attempts(k)), below, env, k + 1, true);
  }

  lemma LastAttemptDecides(w: World, below: Stack, env: Env, k: nat)
    requires Running(w, below, env) && w.frames != below && w.frames.top.WaitFrame?
    requires HandshakeFits(w.conn, w.frames.top) && !w.conn.async
    requires w.frames.top.retries == 0 || !Retryable(env.attempts(k))
    ensures var w' := Drive(w, below, env, k, false);
      w'.results.Then? && Decides(env.attempts(k), w'.results.last, w'.conn.init)
  {
    var w2 := LastAttemptEndsWait(w, below, env, k);
    BelowDiffers(w2.frames);
    DriveStays(w, below, env, k, true);
    DriveThroughWait(w, below, env, k);
    Advances(w2, below, env, 0);
    assert Drive(w2, below, env, 0, false) == Resumed(w2);
  }

  lemma {:induction false} BlockingHandshake(w: World, below: Stack, env: Env, k: nat)
    requires Running(w, below, env) && w.frames != below && w.frames.top.WaitFrame?
    requires HandshakeFits(w.conn, w.frames.top) && !w.conn.async
    ensures var w' := Drive(w, below, env, k, false);
      && w'.results.Then?
      && Decides(env.attempts(LastAttempt(env, k, w.frames.top.retries)), w'.results.last, w'.conn.init)
    decreases w.frames.top.retries
  {
    if w.frames.top.retries == 0 || !Retryable(env.attempts(k)) {
      LastAttemptDecides(w, below, env, k);
    } else {
      Advances(w, below, env, k);
      AttemptFitsHandshake(w, env.attempts(k));
      var w' := WaitReturns(w, env.attempts(k));
      BelowDiffers(w'.frames);
      BlockingHandshake(w', below, env, k + 1);
    }
  }

  /** tls::handshake for every environment: a completed handshake is answered 1; in non-blocking mode
      1 is answered exactly when INIT is clear afterwards; in blocking mode 0 is never answered, and
      the last attempt decides: an incomplete handshake is answered 1 exactly when the attempt at which
      the loop stops was neither a success nor an SSL error, a socket error or a shutdown. */
  lemma HandshakeCall(w: World, env: Env)
    requires Callable(w, Handshake, env)
    ensures var w', o := AfterCall(w, Handshake, env), env.attempts(LastAttempt(env, 0, RETRIES));
      && w'.results.Then? && w'.results.earlier == w.results
      && (!w'.conn.init ==> w'.results.last == HandshakeRet(1))
      && (w.conn.async ==> (w'.results.last == HandshakeRet(1) <==> !w'.conn.init))
      && (!w.conn.async ==> w'.results.last != HandshakeRet(0))
      && (!w.conn.async && w.conn.init && !w.conn.fatal ==> Decides(o, w'.results.last, w'.conn.init))
      && (w'.results.last == HandshakeRet(1) && w'.conn.init <==>
            !w.conn.async && w.conn.init && !w.conn.fatal && Inconclusive(o))
  {
    CallRuns(w, Handshake, env);
    var w1 := Step(w, Handshake);
    BelowDiffers(w1.frames);
    HandshakeRuns(w1, w.frames, env, 0);
    if w.conn.init && !w.conn.fatal {
      if !w.conn.async {
        BlockingHandshake(w1, w.frames, env, 0);
      }
    } else {
      Advances(w1, w.frames, env, 0);
      assert Drive(w1, w.frames, env, 0, false) == Resumed(w1);
    }
  }

  /** A server whose hello callback asks to be called again. */
  ghost function Pausing(): Env {
    Env(k => Outcome(-1, WantClientHelloCb, 0, false, false, NoErrno),
        Outcome(0, ZeroReturn, 0, false, false, NoErrno), [], true)
  }

  /** The smallest wrong answer: one attempt, no retry, handshake incomplete, answered 1. */
  lemma PausedHandshakeAnswersOne()
    ensures Callable(Imported(false), Handshake, Pausing())
    ensures var w' := AfterCall(Imported(false), Handshake, Pausing());
      w'.conn.init && w'.results == Then(Start, HandshakeRet(1)) && Attempts(w'.trace) == 1
  {
    var env, w := Pausing(), Imported(false);
    CallRuns(w, Handshake, env);
    var w1 := Step(w, Handshake);
    Advances(w1, Nil, env, 0);
    var w2 := WaitReturns(w1, env.attempts(0));
    assert w2.frames == Cons(WaitDone(ForHandshake, 0, EAGAIN), Nil);
    Advances(w2, Nil, env, 1);
    assert Drive(w2, Nil, env, 1, false) == Resumed(w2);
  }
}
